// Persona macros: replacing source names by `{{macro}}` placeholders and
// binding the placeholders back to values.
module PersonaMacros {
  import opened Basics
  import opened PyText

  const CANONICAL_MACROS: seq<string> := [
    "persona.full_name", "persona.name", "persona.slug", "persona.email", "persona.role",
    "persona.role_with_employer", "principal.full_name", "principal.name", "principal.email",
    "employer.full_name", "employer.name"]

  predicate Among(names: seq<string>, name: string) {
    names != [] && (names[0] == name || Among(names[1..], name))
  }

  predicate Canonical(key: string) { Among(CANONICAL_MACROS, key) }

  lemma CanonicalIff(key: string)
    ensures Canonical(key) <==>
              || key == "persona.full_name" || key == "persona.name" || key == "persona.slug" || key == "persona.email"
              || key == "persona.role" || key == "persona.role_with_employer" || key == "principal.full_name"
              || key == "principal.name" || key == "principal.email" || key == "employer.full_name" || key == "employer.name"
  {
    var names := CANONICAL_MACROS;
    AmongFrom(names, 0, key);
    assert names[0..] == names && |names| == 11;
    assert names[0] == "persona.full_name" && names[1] == "persona.name" && names[2] == "persona.slug";
    assert names[3] == "persona.email" && names[4] == "persona.role" && names[5] == "persona.role_with_employer";
    assert names[6] == "principal.full_name" && names[7] == "principal.name" && names[8] == "principal.email";
    assert names[9] == "employer.full_name" && names[10] == "employer.name";
  }

  // A name is among a list exactly when it stands at some place in it.
  lemma {:induction false} AmongFrom(names: seq<string>, from: nat, key: string)
    requires from <= |names|
    ensures Among(names[from..], key) <==> exists k :: from <= k < |names| && names[k] == key
    decreases |names| - from
  {
    if from < |names| {
      assert names[from..][1..] == names[from + 1..];
      AmongFrom(names, from + 1, key);
    }
  }

  datatype Substitution = Substitution(source: string, macro: string)

  type Values = map<string, string>

  datatype Error = UnknownKeys(keys: set<string>) | Unbound(missing: set<string>)

  // ---- str.replace -----------------------------------------------------------------------

  function Interleave(text: string, insert: string): string {
    insert + if text == "" then "" else [text[0]] + Interleave(text[1..], insert)
  }

  function ReplaceNonEmpty(text: string, source: string, macro: string): string
    requires source != ""
    decreases |text|
  {
    if |text| < |source| then text
    else if StartsWith(text, source) then macro + ReplaceNonEmpty(text[|source|..], source, macro)
    else [text[0]] + ReplaceNonEmpty(text[1..], source, macro)
  }

  function Replace(text: string, source: string, macro: string): string {
    if source == "" then Interleave(text, macro) else ReplaceNonEmpty(text, source, macro)
  }

  function Apply(text: string, subs: seq<Substitution>): string {
    if subs == [] then text
    else
      var s := subs[|subs| - 1];
      Replace(Apply(text, subs[..|subs| - 1]), s.source, s.macro)
  }

  method ApplySubstitutions(text: string, subs: seq<Substitution>) returns (out: string)
    ensures out == Apply(text, subs)
  {
    out := text;
    for k := 0 to |subs|
      invariant out == Apply(text, subs[..k])
    {
      assert subs[..k + 1][..k] == subs[..k];
      out := Replace(out, subs[k].source, subs[k].macro);
    }
    assert subs[..|subs|] == subs;
  }

  // ---- the placeholder pattern --------------------------------------------------------------

  predicate WordChar(c: char) { 'a' <= c <= 'z' || 'A' <= c <= 'Z' || c == '_' }

  predicate PathChar(c: char) { WordChar(c) || c == '.' }

  // One or more words separated by single points.
  predicate IsPath(s: string) {
    && s != "" && s[0] != '.' && s[|s| - 1] != '.'
    && (forall c :: c in s ==> PathChar(c))
    && forall i, j :: 0 <= i < j < |s| && s[i] == '.' && s[j] == '.' ==> i + 1 < j
  }

  function PathRun(s: string): (n: nat)
    ensures n <= |s|
    ensures forall c :: c in s[..n] ==> PathChar(c)
    ensures n < |s| ==> !PathChar(s[n])
  {
    if s == "" || !PathChar(s[0]) then 0
    else
      var n := PathRun(s[1..]);
      assert s[..n + 1] == [s[0]] + s[1..][..n];
      n + 1
  }

  function Braced(key: string): string { "{{" + key + "}}" }

  // The key of a placeholder at the start of the text, if there is one.  The key
  // is followed by a brace, so it is the whole run of path characters.
  function MacroAt(text: string): (key: Option<string>)
    ensures key.Some? ==> IsPath(key.value) && StartsWith(text, Braced(key.value))
  {
    if |text| < 4 || text[0] != '{' || text[1] != '{' then None
    else
      var n := PathRun(text[2..]);
      var key := text[2..2 + n];
      if n + 4 <= |text| && text[n + 2] == '}' && text[n + 3] == '}' && IsPath(key) then
        assert text[..n + 4] == Braced(key);
        Some(key)
      else None
  }

  lemma {:induction false} PathRunStops(s: string, n: nat)
    requires n <= |s| && (forall c :: c in s[..n] ==> PathChar(c)) && (n < |s| ==> !PathChar(s[n]))
    ensures PathRun(s) == n
  {
    if n > 0 {
      assert s[0] == s[..n][0];
      assert forall c :: c in s[1..][..n - 1] ==> c in s[..n];
      PathRunStops(s[1..], n - 1);
    }
  }

  lemma FoundWhereWritten(key: string, rest: string)
    requires IsPath(key)
    ensures MacroAt(Braced(key) + rest) == Some(key)
  {
    var text, n := Braced(key) + rest, |key|;
    assert text[2..] == key + ("}}" + rest);
    assert text[2..][..n] == key;
    assert text[2..2 + n] == key;
    PathRunStops(text[2..], n);
  }

  lemma FoundByPrefix(text: string, key: string)
    requires IsPath(key) && StartsWith(text, Braced(key))
    ensures MacroAt(text) == Some(key)
  {
    var rest := text[|Braced(key)|..];
    assert text == Braced(key) + rest;
    FoundWhereWritten(key, rest);
  }

  // The pattern matches at the start of a text exactly when a dotted path stands there
  // between double braces, and then its group is that path.
  lemma MatchesIff(text: string, key: string)
    ensures MacroAt(text) == Some(key) <==> IsPath(key) && StartsWith(text, Braced(key))
  {
    if IsPath(key) && StartsWith(text, Braced(key)) {
      FoundByPrefix(text, key);
    }
  }

  // What a scan for the pattern sees: a placeholder with its key, or one character.
  datatype Token = Token(seen: string, key: Option<string>) {
    predicate Named() { key.Some? && Canonical(key.value) }
  }

  function TokenAt(text: string): (t: Token)
    requires text != ""
    ensures t.seen != "" && StartsWith(text, t.seen)
  {
    var key := MacroAt(text);
    if key.Some? then Token(Braced(key.value), key) else Token(text[..1], None)
  }

  function After(text: string): (rest: string)
    requires text != ""
    ensures text == TokenAt(text).seen + rest && |rest| < |text|
  {
    text[|TokenAt(text).seen|..]
  }

  function Tokens(text: string): seq<Token>
    decreases |text|
  {
    if text == "" then [] else [TokenAt(text)] + Tokens(After(text))
  }

  lemma TokensStep(text: string)
    requires text != ""
    ensures Tokens(text) != [] && Tokens(text)[0] == TokenAt(text) && Tokens(text)[1..] == Tokens(After(text))
  {
  }

  // What the binding callback writes for a token, and the key it misses.
  function Written(t: Token, values: Values): string {
    if t.Named() && t.key.value in values then values[t.key.value] else t.seen
  }

  function Gap(t: Token, values: Values): set<string> {
    if t.Named() && t.key.value !in values then {t.key.value} else {}
  }

  function Bound(ts: seq<Token>, values: Values): string {
    if ts == [] then "" else Written(ts[0], values) + Bound(ts[1..], values)
  }

  function Missing(ts: seq<Token>, values: Values): set<string> {
    if ts == [] then {} else Gap(ts[0], values) + Missing(ts[1..], values)
  }

  function Bind(text: string, values: Values): Result<string, Error> {
    var unknown := set key | key in values && !Canonical(key);
    var ts := Tokens(text);
    if unknown != {} then Err(UnknownKeys(unknown))
    else if Missing(ts, values) != {} then Err(Unbound(Missing(ts, values)))
    else Ok(Bound(ts, values))
  }

  lemma {:induction false} BoundSplits(a: seq<Token>, b: seq<Token>, values: Values)
    ensures Bound(a + b, values) == Bound(a, values) + Bound(b, values)
    ensures Missing(a + b, values) == Missing(a, values) + Missing(b, values)
  {
    if a == [] {
      assert a + b == b;
    } else {
      assert (a + b)[1..] == a[1..] + b;
      BoundSplits(a[1..], b, values);
    }
  }

  // The callback, with its mutable set of missing keys.
  method ReplaceMatch(t: Token, values: Values, missing: set<string>) returns (out: string, missing': set<string>)
    ensures out == Written(t, values) && missing' == missing + Gap(t, values)
  {
    missing' := missing;
    if !t.Named() {
      return t.seen, missing';
    }
    if t.key.value !in values {
      missing' := missing' + {t.key.value};
      return t.seen, missing';
    }
    return values[t.key.value], missing';
  }

  lemma BoundPush(done: seq<Token>, t: Token, values: Values)
    ensures Bound(done + [t], values) == Bound(done, values) + Written(t, values)
    ensures Missing(done + [t], values) == Missing(done, values) + Gap(t, values)
  {
    BoundSplits(done, [t], values);
    assert Bound([t], values) == Written(t, values) + Bound([], values);
    assert Missing([t], values) == Gap(t, values) + Missing([], values);
  }

  lemma TokensPush(done: seq<Token>, rest: string)
    requires rest != ""
    ensures (done + [TokenAt(rest)]) + Tokens(After(rest)) == done + Tokens(rest)
  {
    hide MacroAt;
  }

  // re.sub: the scan from left to right.
  method SubMacros(text: string, values: Values) returns (out: string, missing: set<string>)
    ensures out == Bound(Tokens(text), values) && missing == Missing(Tokens(text), values)
  {
    hide TokenAt, After;
    var rest := text;
    ghost var done: seq<Token> := [];
    out, missing := "", {};
    while rest != ""
      invariant done + Tokens(rest) == Tokens(text)
      invariant out == Bound(done, values) && missing == Missing(done, values)
      decreases |rest|
    {
      BoundPush(done, TokenAt(rest), values);
      TokensPush(done, rest);
      var piece;
      piece, missing := ReplaceMatch(TokenAt(rest), values, missing);
      out, rest, done := out + piece, After(rest), done + [TokenAt(rest)];
    }
    assert done + [] == done;
  }

  method BindMacros(text: string, values: Values) returns (r: Result<string, Error>)
    ensures r == Bind(text, values)
  {
    var unknown := set key | key in values && !Canonical(key);
    if unknown != {} {
      return Err(UnknownKeys(unknown));
    }
    var out, missing := SubMacros(text, values);
    return if missing != {} then Err(Unbound(missing)) else Ok(out);
  }

  // The canonical names referenced in a text.
  function FindUnboundMacros(text: string): set<string> {
    set t | t in Tokens(text) && t.Named() :: t.key.value
  }
}
