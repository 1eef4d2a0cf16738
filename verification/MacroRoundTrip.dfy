// The round trip of the persona macros: a text is followed as literals and
// placeholders through every replace pass, and then through the binding scan.
module MacroRoundTrip {
  import opened Basics
  import opened PersonaMacros
  import opened PyText

  // ---- texts as literals and placeholders -------------------------------------------------------

  datatype Doc = Last(lit: string) | Then(lit: string, key: string, rest: Doc)

  function Render(d: Doc): string {
    match d
    case Last(lit) => lit
    case Then(lit, key, rest) => lit + Braced(key) + Render(rest)
  }

  // The doc with a text put before it, and two docs run together.
  function Before(text: string, d: Doc): Doc { d.(lit := text + d.lit) }

  function Join(a: Doc, b: Doc): Doc {
    match a
    case Last(lit) => Before(lit, b)
    case Then(lit, key, rest) => Then(lit, key, Join(rest, b))
  }

  lemma {:induction false} RenderJoin(a: Doc, b: Doc)
    ensures Render(Join(a, b)) == Render(a) + Render(b)
  {
    if a.Then? {
      RenderJoin(a.rest, b);
    }
  }

  // Replacing in a literal, with the new placeholders kept apart.
  function ReplaceLit(text: string, source: string, key: string): Doc
    requires source != ""
    decreases |text|
  {
    if |text| < |source| then Last(text)
    else if StartsWith(text, source) then Then("", key, ReplaceLit(text[|source|..], source, key))
    else Before([text[0]], ReplaceLit(text[1..], source, key))
  }

  lemma {:induction false} RenderReplaceLit(text: string, source: string, key: string)
    requires source != ""
    ensures Render(ReplaceLit(text, source, key)) == Replace(text, source, Braced(key))
    decreases |text|
  {
    hide Braced;
    if |text| >= |source| {
      if StartsWith(text, source) {
        var later := ReplaceLit(text[|source|..], source, key);
        RenderReplaceLit(text[|source|..], source, key);
        assert "" + Braced(key) + Render(later) == Braced(key) + Render(later);
      } else {
        RenderReplaceLit(text[1..], source, key);
        RenderBefore([text[0]], ReplaceLit(text[1..], source, key));
      }
    }
  }

  predicate IsBrace(c: char) { c == '{' || c == '}' }

  predicate BraceFree(s: string) { forall c :: c in s ==> !IsBrace(c) }

  // A brace-free source cannot match across a border with a brace on either side.
  predicate Border(left: string, right: string) {
    left == "" || right == "" || IsBrace(left[|left| - 1]) || IsBrace(right[0])
  }

  lemma MatchStaysLeft(left: string, right: string, source: string)
    requires source != "" && BraceFree(source) && Border(left, right) && left != ""
    ensures StartsWith(left + right, source) <==> StartsWith(left, source)
  {
    var all := left + right;
    if StartsWith(all, source) {
      forall j | 0 <= j < |source| ensures !IsBrace(all[j]) {
        assert all[j] == all[..|source|][j] == source[j];
        assert source[j] in source;
      }
      var brace := if right != "" && IsBrace(right[0]) then |left| else |left| - 1;
      assert right != "" ==> IsBrace(all[brace]);
    }
    if |source| <= |left| {
      assert left[..|source|] == all[..|source|];
    }
  }

  lemma JoinBefore(text: string, a: Doc, b: Doc)
    ensures Join(Before(text, a), b) == Before(text, Join(a, b))
  {
    if a.Last? {
      assert text + (a.lit + b.lit) == (text + a.lit) + b.lit;
    }
  }

  lemma {:induction false} ReplaceSplits(left: string, right: string, source: string, key: string)
    requires source != "" && BraceFree(source) && Border(left, right)
    ensures ReplaceLit(left + right, source, key) == Join(ReplaceLit(left, source, key), ReplaceLit(right, source, key))
    decreases |left|
  {
    var all, docRight := left + right, ReplaceLit(right, source, key);
    if left == "" {
      assert all == right;
      assert Before("", docRight) == docRight;
    } else {
      MatchStaysLeft(left, right, source);
      if StartsWith(left, source) {
        assert all[|source|..] == left[|source|..] + right;
        ReplaceSplits(left[|source|..], right, source, key);
      } else {
        assert all[1..] == left[1..] + right;
        ReplaceSplits(left[1..], right, source, key);
        JoinBefore([left[0]], ReplaceLit(left[1..], source, key), docRight);
        NoMatchStep(left, source, key);
        NoMatchStep(all, source, key);
      }
    }
  }

  lemma {:induction false} NoMatchStep(text: string, source: string, key: string)
    requires source != "" && text != "" && !StartsWith(text, source)
    ensures ReplaceLit(text, source, key) == Before([text[0]], ReplaceLit(text[1..], source, key))
  {
    if |text| < |source| {
      assert ReplaceLit(text[1..], source, key) == Last(text[1..]);
      assert [text[0]] + text[1..] == text;
    }
  }

  lemma {:induction false} NoOccurrence(text: string, source: string, key: string)
    requires source != "" && !Occurs(source, text)
    ensures ReplaceLit(text, source, key) == Last(text)
    decreases |text|
  {
    if |source| <= |text| {
      NoOccurrence(text[1..], source, key);
      assert [text[0]] + text[1..] == text;
    }
  }

  // ---- where placeholders are found -------------------------------------------------------------

  lemma OpeningOnlyAtStart(key: string, j: nat)
    requires IsPath(key) && 2 <= j < |Braced(key)|
    ensures Braced(key)[j] != '{'
  {
    if j < |key| + 2 {
      assert Braced(key)[j] == key[j - 2] && key[j - 2] in key;
    }
  }

  lemma KeyEndsInLiteral(lit: string, rest: string, key: string)
    requires lit != "" && (rest == "" || StartsWith(rest, "{{"))
    requires IsPath(key) && StartsWith(lit + rest, Braced(key))
    ensures |Braced(key)| <= |lit|
  {
    hide IsPath, Braced;
    var text, b, j := lit + rest, Braced(key), |lit| + 1;
    if rest != "" {
      assert text[j] == rest[..2][1] == '{';
      if |lit| < |b| {
        BracedLength(key);
        assert b[|b| - 1] == text[..|b|][|b| - 1];
        OpeningOnlyAtStart(key, |b| - 1);
        assert text[|lit|] == rest[..2][0] == '{';
        assert b[j] == text[..|b|][j];
        OpeningOnlyAtStart(key, j);
        assert false;
      }
    }
  }

  lemma BracedLength(key: string)
    ensures |Braced(key)| == |key| + 4
  {
  }

  // A literal decides on its own whether it starts with a placeholder, whatever
  // placeholder follows it.
  lemma LiteralDecides(lit: string, rest: string)
    requires lit != "" && (rest == "" || StartsWith(rest, "{{"))
    ensures MacroAt(lit + rest) == MacroAt(lit)
  {
    var text := lit + rest;
    if MacroAt(lit).Some? {
      var b := Braced(MacroAt(lit).value);
      assert text[..|b|] == lit[..|b|];
      FoundByPrefix(text, MacroAt(lit).value);
    }
    if MacroAt(text).Some? {
      var b := Braced(MacroAt(text).value);
      KeyEndsInLiteral(lit, rest, MacroAt(text).value);
      assert text[..|b|] == lit[..|b|];
      FoundByPrefix(lit, MacroAt(text).value);
    }
  }

  predicate AtMacro(text: string) {
    MacroAt(text).Some? && Canonical(MacroAt(text).value)
  }

  // No canonical placeholder at any position.
  predicate Clean(text: string) {
    text == "" || (!AtMacro(text) && Clean(text[1..]))
  }

  // Past its opening brace, a placeholder holds no other.
  lemma {:induction false} NothingInside(key: string, i: nat, rest: string)
    requires IsPath(key) && 1 <= i <= |key| + 4
    ensures Clean(Braced(key)[i..] + rest) <==> Clean(rest)
    decreases |key| + 4 - i
  {
    var b := Braced(key);
    var text := b[i..] + rest;
    if i == |b| {
      assert text == rest;
    } else {
      assert text[0] == b[i] && text[1..] == b[i + 1..] + rest;
      assert i == 1 ==> text[1] == b[2] == key[0] && key[0] in key;
      assert i > 1 ==> text[0] != '{' by {
        if i > 1 {
          OpeningOnlyAtStart(key, i);
        }
      }
      assert MacroAt(text).None?;
      NothingInside(key, i + 1, rest);
    }
  }

  predicate NoneNamed(ts: seq<Token>) { forall t :: t in ts ==> !t.Named() }

  lemma CleanPastToken(text: string)
    requires text != "" && !TokenAt(text).Named()
    ensures Clean(text) <==> Clean(After(text))
  {
    hide MacroAt;
    var t := TokenAt(text);
    if t.key.Some? {
      assert text[1..] == t.seen[1..] + After(text);
      NothingInside(t.key.value, 1, After(text));
    } else {
      assert text[1..] == After(text);
    }
  }

  lemma {:induction false} NoneNamedIffClean(text: string)
    ensures NoneNamed(Tokens(text)) <==> Clean(text)
    decreases |text|
  {
    hide MacroAt;
    if text != "" {
      var t := TokenAt(text);
      var later := Tokens(After(text));
      NoneNamedIffClean(After(text));
      assert forall u :: u in [t] + later <==> u == t || u in later;
      if !t.Named() {
        CleanPastToken(text);
      }
    }
  }

  // Jumping over whole placeholders misses none: the scan meets a canonical name
  // exactly when one stands in the text at some position.
  lemma ScanMissesNone(text: string)
    ensures NoneNamed(Tokens(text)) <==> Clean(text)
    ensures FindUnboundMacros(text) == {} <==> Clean(text)
  {
    NoneNamedIffClean(text);
    assert forall t :: t in Tokens(text) && t.Named() ==> t.key.value in FindUnboundMacros(text);
  }

  lemma TokenSplits(lit: string, rest: string)
    requires lit != "" && (rest == "" || StartsWith(rest, "{{"))
    ensures TokenAt(lit + rest) == TokenAt(lit) && After(lit + rest) == After(lit) + rest
  {
    hide MacroAt;
    LiteralDecides(lit, rest);
    assert (lit + rest)[..1] == lit[..1];
    var n := |TokenAt(lit).seen|;
    assert (lit + rest)[n..] == lit[n..] + rest;
  }

  lemma {:induction false} TokensSplit(lit: string, rest: string)
    requires rest == "" || StartsWith(rest, "{{")
    ensures Tokens(lit + rest) == Tokens(lit) + Tokens(rest)
    decreases |lit|
  {
    hide MacroAt;
    if lit == "" {
      assert lit + rest == rest;
    } else {
      TokenSplits(lit, rest);
      TokensStep(lit + rest);
      TokensStep(lit);
      TokensSplit(After(lit), rest);
      calc {
        Tokens(lit + rest);
        [TokenAt(lit)] + Tokens(After(lit) + rest);
        ([TokenAt(lit)] + Tokens(After(lit))) + Tokens(rest);
        Tokens(lit) + Tokens(rest);
      }
    }
  }

  // ---- binding a literal ---------------------------------------------------------------------------

  function Opens(text: string): nat {
    if text == "" then 0 else (if text[0] == '{' then 1 else 0) + Opens(text[1..])
  }

  lemma {:induction false} OpensAdd(a: string, b: string)
    ensures Opens(a + b) == Opens(a) + Opens(b)
  {
    if a == "" {
      assert a + b == b;
    } else {
      assert (a + b)[1..] == a[1..] + b;
      OpensAdd(a[1..], b);
    }
  }

  lemma {:induction false} NoOpens(text: string)
    requires BraceFree(text)
    ensures Opens(text) == 0
  {
    if text != "" {
      assert text[0] in text;
      NoOpens(text[1..]);
    }
  }

  ghost predicate PlainValues(values: Values) {
    forall k :: k in values ==> BraceFree(values[k])
  }

  lemma {:induction false} CleanIsKept(text: string, values: Values)
    requires Clean(text)
    ensures Bound(Tokens(text), values) == text && Missing(Tokens(text), values) == {}
    decreases |text|
  {
    hide MacroAt;
    if text != "" {
      var t := TokenAt(text);
      var rest := After(text);
      ScanMissesNone(text);
      ScanMissesNone(rest);
      assert Tokens(text)[0] == t && Tokens(text)[1..] == Tokens(rest);
      CleanIsKept(rest, values);
      assert text == t.seen + rest;
    }
  }

  lemma OpensOfToken(t: Token, values: Values)
    requires PlainValues(values) && (t.Named() ==> StartsWith(t.seen, "{{"))
    ensures Opens(Written(t, values)) <= Opens(t.seen)
    ensures t.Named() && Gap(t, values) == {} ==> Opens(Written(t, values)) < Opens(t.seen)
  {
    if t.Named() {
      assert t.key.value !in values ==> t.key.value in Gap(t, values);
      if t.key.value in values {
        NoOpens(values[t.key.value]);
        assert t.seen != "" && t.seen[0] == '{';
      }
    }
  }

  // A literal that is not clean comes out with an opening brace less, or not at all.
  lemma {:induction false} UncleanLosesBraces(text: string, values: Values)
    requires PlainValues(values)
    ensures Opens(Bound(Tokens(text), values)) <= Opens(text)
    ensures !Clean(text) && Missing(Tokens(text), values) == {} ==> Opens(Bound(Tokens(text), values)) < Opens(text)
    decreases |text|
  {
    hide MacroAt;
    if text != "" {
      var t := TokenAt(text);
      var rest := After(text);
      assert Tokens(text)[0] == t && Tokens(text)[1..] == Tokens(rest);
      UncleanLosesBraces(rest, values);
      OpensOfToken(t, values);
      OpensAdd(Written(t, values), Bound(Tokens(rest), values));
      OpensAdd(t.seen, rest);
      assert text == t.seen + rest;
      if !t.Named() {
        CleanPastToken(text);
      }
    }
  }

  // ---- every canonical name has the form of a key --------------------------------------------------------

  predicate IsWord(s: string) { s != "" && forall i :: 0 <= i < |s| ==> WordChar(s[i]) }

  lemma TwoWords(a: string, b: string)
    requires IsWord(a) && IsWord(b)
    ensures IsPath(a + "." + b)
  {
  }

  lemma WordsOfNames()
    ensures IsWord("persona") && IsWord("principal") && IsWord("employer")
    ensures IsWord("full_name") && IsWord("name") && IsWord("slug") && IsWord("email")
    ensures IsWord("role") && IsWord("role_with_employer")
  {
  }

  lemma PersonaNames()
    ensures IsPath("persona.full_name")
    ensures IsPath("persona.name")
    ensures IsPath("persona.slug")
    ensures IsPath("persona.email")
    ensures IsPath("persona.role")
    ensures IsPath("persona.role_with_employer")
  {
    WordsOfNames();
    TwoWords("persona", "full_name");
    assert "persona" + "." + "full_name" == "persona.full_name";
    TwoWords("persona", "name");
    assert "persona" + "." + "name" == "persona.name";
    TwoWords("persona", "slug");
    assert "persona" + "." + "slug" == "persona.slug";
    TwoWords("persona", "email");
    assert "persona" + "." + "email" == "persona.email";
    TwoWords("persona", "role");
    assert "persona" + "." + "role" == "persona.role";
    TwoWords("persona", "role_with_employer");
    assert "persona" + "." + "role_with_employer" == "persona.role_with_employer";
  }

  lemma PrincipalNames()
    ensures IsPath("principal.full_name")
    ensures IsPath("principal.name")
    ensures IsPath("principal.email")
  {
    WordsOfNames();
    TwoWords("principal", "full_name");
    assert "principal" + "." + "full_name" == "principal.full_name";
    TwoWords("principal", "name");
    assert "principal" + "." + "name" == "principal.name";
    TwoWords("principal", "email");
    assert "principal" + "." + "email" == "principal.email";
  }

  lemma EmployerNames()
    ensures IsPath("employer.full_name")
    ensures IsPath("employer.name")
  {
    WordsOfNames();
    TwoWords("employer", "full_name");
    assert "employer" + "." + "full_name" == "employer.full_name";
    TwoWords("employer", "name");
    assert "employer" + "." + "name" == "employer.name";
  }

  lemma {:induction false} AmongIsMember(names: seq<string>, name: string)
    ensures Among(names, name) <==> name in names
  {
    if names != [] {
      AmongIsMember(names[1..], name);
    }
  }

  lemma CanonicalArePaths(key: string)
    requires Canonical(key)
    ensures IsPath(key)
  {
    AmongIsMember(CANONICAL_MACROS, key);
    PersonaNames();
    PrincipalNames();
    EmployerNames();
  }

  // ---- binding and substituting docs -------------------------------------------------------------------

  predicate AllClean(d: Doc) {
    Clean(d.lit) && (d.Then? ==> AllClean(d.rest))
  }

  // Every placeholder kept apart is canonical and has a value.
  ghost predicate Filled(d: Doc, values: Values) {
    d.Then? ==> Canonical(d.key) && d.key in values && Filled(d.rest, values)
  }

  ghost function ValueOf(d: Doc, values: Values): string
    requires Filled(d, values)
  {
    match d
    case Last(lit) => lit
    case Then(lit, key, rest) => lit + (values[key] + ValueOf(rest, values))
  }

  lemma NamedToken(key: string, rest: string, values: Values)
    requires Canonical(key) && key in values
    ensures Bound(Tokens(Braced(key) + rest), values) == values[key] + Bound(Tokens(rest), values)
    ensures Missing(Tokens(Braced(key) + rest), values) == Missing(Tokens(rest), values)
  {
    hide MacroAt;
    var text := Braced(key) + rest;
    CanonicalArePaths(key);
    FoundWhereWritten(key, rest);
    assert TokenAt(text) == Token(Braced(key), Some(key)) && After(text) == rest;
  }

  lemma RenderStep(d: Doc, values: Values)
    requires d.Then? && Filled(d, values)
    ensures Bound(Tokens(Render(d)), values) ==
            Bound(Tokens(d.lit), values) + (values[d.key] + Bound(Tokens(Render(d.rest)), values))
    ensures Missing(Tokens(Render(d)), values) == Missing(Tokens(d.lit), values) + Missing(Tokens(Render(d.rest)), values)
  {
    var tail := Braced(d.key) + Render(d.rest);
    assert Render(d) == d.lit + tail;
    TokensSplit(d.lit, tail);
    BoundSplits(Tokens(d.lit), Tokens(tail), values);
    NamedToken(d.key, Render(d.rest), values);
  }

  lemma {:induction false} CleanDocBinds(d: Doc, values: Values)
    requires Filled(d, values) && AllClean(d)
    ensures Bound(Tokens(Render(d)), values) == ValueOf(d, values) && Missing(Tokens(Render(d)), values) == {}
  {
    CleanIsKept(d.lit, values);
    if d.Then? {
      CleanDocBinds(d.rest, values);
      RenderStep(d, values);
    }
  }

  lemma {:induction false} UncleanDocFails(d: Doc, values: Values)
    requires Filled(d, values) && PlainValues(values)
    ensures Opens(Bound(Tokens(Render(d)), values)) <= Opens(ValueOf(d, values))
    ensures !AllClean(d) && Missing(Tokens(Render(d)), values) == {} ==>
              Opens(Bound(Tokens(Render(d)), values)) < Opens(ValueOf(d, values))
  {
    UncleanLosesBraces(d.lit, values);
    if d.Then? {
      UncleanDocFails(d.rest, values);
      RenderStep(d, values);
      var lit, rest, value := Bound(Tokens(d.lit), values), Bound(Tokens(Render(d.rest)), values), values[d.key];
      OpensAdd(lit, value + rest);
      OpensAdd(value, rest);
      OpensAdd(d.lit, value + ValueOf(d.rest, values));
      OpensAdd(value, ValueOf(d.rest, values));
    }
  }

  // One replace pass: the literals change, the placeholders stay.
  function ReplaceDoc(d: Doc, source: string, key: string): Doc
    requires source != ""
  {
    match d
    case Last(lit) => ReplaceLit(lit, source, key)
    case Then(lit, k, rest) => Join(ReplaceLit(lit, source, key), Then("", k, ReplaceDoc(rest, source, key)))
  }

  predicate Fits(source: string) { source != "" && BraceFree(source) }

  lemma {:induction false} BracesStay(text: string, source: string, key: string)
    requires Fits(source) && forall i :: 0 <= i < |text| ==> IsBrace(text[i])
    ensures ReplaceLit(text, source, key) == Last(text)
  {
    if text != "" {
      assert source[0] in source;
      assert !StartsWith(text, source);
      NoMatchStep(text, source, key);
      BracesStay(text[1..], source, key);
      assert [text[0]] + text[1..] == text;
    }
  }

  lemma KeyStays(k: string, source: string, key: string)
    requires Fits(source) && !Occurs(source, k)
    ensures ReplaceLit(Braced(k), source, key) == Last(Braced(k))
  {
    var inner := k + "}}";
    assert Braced(k) == "{{" + inner;
    ReplaceSplits("{{", inner, source, key);
    ReplaceSplits(k, "}}", source, key);
    BracesStay("{{", source, key);
    BracesStay("}}", source, key);
    NoOccurrence(k, source, key);
  }

  lemma PlaceholderStays(k: string, rest: string, source: string, key: string)
    requires Fits(source) && !Occurs(source, k)
    ensures ReplaceLit(Braced(k) + rest, source, key) == Before(Braced(k), ReplaceLit(rest, source, key))
  {
    ReplaceSplits(Braced(k), rest, source, key);
    KeyStays(k, source, key);
  }

  predicate Avoids(d: Doc, source: string) {
    d.Then? ==> !Occurs(source, d.key) && Avoids(d.rest, source)
  }

  // A pass over the text is a pass over the literals: no match touches a placeholder
  // that an earlier pass put in.
  lemma {:induction false} RenderReplaceDoc(d: Doc, source: string, key: string)
    requires Fits(source) && Avoids(d, source)
    ensures Render(ReplaceDoc(d, source, key)) == Replace(Render(d), source, Braced(key))
  {
    if d.Last? {
      RenderReplaceLit(d.lit, source, key);
    } else {
      var lit, rest := ReplaceLit(d.lit, source, key), Render(d.rest);
      var tail := Braced(d.key) + rest;
      assert Render(d) == d.lit + tail;
      RenderReplaceDoc(d.rest, source, key);
      RenderReplaceLit(Render(d), source, key);
      RenderReplaceLit(rest, source, key);
      ReplaceSplits(d.lit, tail, source, key);
      PlaceholderStays(d.key, rest, source, key);
      RenderJoin(lit, Before(Braced(d.key), ReplaceLit(rest, source, key)));
      RenderJoin(lit, Then("", d.key, ReplaceDoc(d.rest, source, key)));
      RenderBefore(Braced(d.key), ReplaceLit(rest, source, key));
    }
  }

  lemma RenderBefore(text: string, d: Doc)
    ensures Render(Before(text, d)) == text + Render(d)
  {
    if d.Then? {
      assert (text + d.lit) + Braced(d.key) + Render(d.rest) == text + (d.lit + Braced(d.key) + Render(d.rest));
    }
  }

  // ---- what a pass keeps: the value of a doc -------------------------------------------------------------

  lemma {:induction false} ValueJoin(a: Doc, b: Doc, values: Values)
    requires Filled(a, values) && Filled(b, values)
    ensures Filled(Join(a, b), values) && ValueOf(Join(a, b), values) == ValueOf(a, values) + ValueOf(b, values)
  {
    if a.Then? {
      ValueJoin(a.rest, b, values);
    }
  }

  lemma {:induction false} ValueReplaceLit(text: string, source: string, key: string, values: Values)
    requires source != "" && Canonical(key) && key in values && values[key] == source
    ensures Filled(ReplaceLit(text, source, key), values)
    ensures ValueOf(ReplaceLit(text, source, key), values) == text
    decreases |text|
  {
    if |source| <= |text| {
      if StartsWith(text, source) {
        ValueReplaceLit(text[|source|..], source, key, values);
        assert text == source + text[|source|..];
      } else {
        ValueReplaceLit(text[1..], source, key, values);
        var d := ReplaceLit(text[1..], source, key);
        ValueJoin(Last([text[0]]), d, values);
        assert text == [text[0]] + text[1..];
      }
    }
  }

  lemma {:induction false} ValueReplaceDoc(d: Doc, source: string, key: string, values: Values)
    requires source != "" && Canonical(key) && key in values && values[key] == source && Filled(d, values)
    ensures Filled(ReplaceDoc(d, source, key), values)
    ensures ValueOf(ReplaceDoc(d, source, key), values) == ValueOf(d, values)
  {
    ValueReplaceLit(d.lit, source, key, values);
    if d.Then? {
      ValueReplaceDoc(d.rest, source, key, values);
      ValueJoin(ReplaceLit(d.lit, source, key), Then("", d.key, ReplaceDoc(d.rest, source, key)), values);
    }
  }

  // ---- what a pass keeps: whether canonical names stand in the literals -----------------------------------

  lemma {:induction false} CleanPastPlain(plain: string, rest: string)
    requires BraceFree(plain)
    ensures Clean(plain + rest) <==> Clean(rest)
  {
    if plain == "" {
      assert plain + rest == rest;
    } else {
      assert plain[0] in plain;
      assert (plain + rest)[1..] == plain[1..] + rest;
      CleanPastPlain(plain[1..], rest);
    }
  }

  lemma {:induction false} LitIsPrefix(text: string, source: string, key: string)
    requires source != ""
    ensures StartsWith(text, ReplaceLit(text, source, key).lit)
  {
    if |source| <= |text| && !StartsWith(text, source) {
      LitIsPrefix(text[1..], source, key);
      var lit := ReplaceLit(text[1..], source, key).lit;
      assert text[..|lit| + 1] == [text[0]] + text[1..][..|lit|];
    }
  }

  lemma PrefixNotAtMacro(text: string, prefix: string)
    requires StartsWith(text, prefix) && !AtMacro(text)
    ensures !AtMacro(prefix)
  {
    if MacroAt(prefix).Some? {
      var b := Braced(MacroAt(prefix).value);
      assert text[..|b|] == prefix[..|b|];
      FoundByPrefix(text, MacroAt(prefix).value);
    }
  }

  lemma {:induction false} CleanLitStaysClean(text: string, source: string, key: string)
    requires Fits(source) && Clean(text)
    ensures AllClean(ReplaceLit(text, source, key))
    decreases |text|
  {
    if |source| <= |text| {
      if StartsWith(text, source) {
        assert text == source + text[|source|..];
        CleanPastPlain(source, text[|source|..]);
        CleanLitStaysClean(text[|source|..], source, key);
      } else {
        CleanLitStaysClean(text[1..], source, key);
        LitIsPrefix(text, source, key);
        var d := ReplaceLit(text[1..], source, key);
        var lit := [text[0]] + d.lit;
        PrefixNotAtMacro(text, lit);
        assert lit[1..] == d.lit;
      }
    }
  }

  ghost predicate AvoidsAll(source: string) {
    forall k :: Canonical(k) ==> !Occurs(source, k)
  }

  lemma MacroStays(text: string, source: string, key: string)
    requires Fits(source) && AvoidsAll(source) && AtMacro(text)
    ensures AtMacro(ReplaceLit(text, source, key).lit)
  {
    hide MacroAt, ReplaceLit, IsPath, Canonical;
    var k := MacroAt(text).value;
    var rest := text[|k| + 4..];
    assert text == Braced(k) + rest;
    PlaceholderStays(k, rest, source, key);
    FoundWhereWritten(k, ReplaceLit(rest, source, key).lit);
  }

  lemma {:induction false} UncleanLitStaysUnclean(text: string, source: string, key: string)
    requires Fits(source) && AvoidsAll(source) && AllClean(ReplaceLit(text, source, key))
    ensures Clean(text)
    decreases |text|
  {
    hide MacroAt;
    if AtMacro(text) {
      MacroStays(text, source, key);
    } else if |source| <= |text| {
      if StartsWith(text, source) {
        assert text == source + text[|source|..];
        CleanPastPlain(source, text[|source|..]);
        UncleanLitStaysUnclean(text[|source|..], source, key);
      } else {
        var d := ReplaceLit(text[1..], source, key);
        assert ([text[0]] + d.lit)[1..] == d.lit;
        UncleanLitStaysUnclean(text[1..], source, key);
      }
    }
  }

  lemma {:induction false} AllCleanJoin(a: Doc, k: string, b: Doc)
    ensures AllClean(Join(a, Then("", k, b))) <==> AllClean(a) && AllClean(b)
  {
    if a.Last? {
      assert a.lit + "" == a.lit;
    } else {
      AllCleanJoin(a.rest, k, b);
    }
  }

  lemma {:induction false} CleanReplaceDoc(d: Doc, source: string, key: string)
    requires Fits(source)
    ensures AllClean(d) ==> AllClean(ReplaceDoc(d, source, key))
    ensures AvoidsAll(source) && AllClean(ReplaceDoc(d, source, key)) ==> AllClean(d)
  {
    if Clean(d.lit) {
      CleanLitStaysClean(d.lit, source, key);
    }
    if AvoidsAll(source) && AllClean(ReplaceLit(d.lit, source, key)) {
      UncleanLitStaysUnclean(d.lit, source, key);
    }
    if d.Then? {
      CleanReplaceDoc(d.rest, source, key);
      AllCleanJoin(ReplaceLit(d.lit, source, key), d.key, ReplaceDoc(d.rest, source, key));
    }
  }

  lemma {:induction false} AvoidsJoin(a: Doc, b: Doc, source: string)
    ensures Avoids(Join(a, b), source) <==> Avoids(a, source) && Avoids(b, source)
  {
    if a.Then? {
      AvoidsJoin(a.rest, b, source);
    }
  }

  lemma {:induction false} AvoidsReplaceLit(text: string, s: string, key: string, source: string)
    requires s != "" && !Occurs(source, key)
    ensures Avoids(ReplaceLit(text, s, key), source)
    decreases |text|
  {
    if |s| <= |text| {
      AvoidsReplaceLit(if StartsWith(text, s) then text[|s|..] else text[1..], s, key, source);
    }
  }

  lemma {:induction false} AvoidsReplaceDoc(d: Doc, s: string, key: string, source: string)
    requires s != "" && !Occurs(source, key) && Avoids(d, source)
    ensures Avoids(ReplaceDoc(d, s, key), source)
  {
    AvoidsReplaceLit(d.lit, s, key, source);
    if d.Then? {
      AvoidsReplaceDoc(d.rest, s, key, source);
      AvoidsJoin(ReplaceLit(d.lit, s, key), Then("", d.key, ReplaceDoc(d.rest, s, key)), source);
    }
  }

  // ---- the round trip --------------------------------------------------------------------------------------

  function Inner(macro: string): string {
    if |macro| < 4 then macro else macro[2..|macro| - 2]
  }

  // A substitution the values can undo.
  predicate Undoable(s: Substitution, values: Values) {
    var key := Inner(s.macro);
    s.macro == Braced(key) && Canonical(key) && key in values && values[key] == s.source && Fits(s.source)
  }

  ghost predicate AllUndoable(subs: seq<Substitution>, values: Values) {
    forall i :: 0 <= i < |subs| ==> Undoable(subs[i], values)
  }

  // No source is part of the name of a macro that an earlier entry puts in.
  ghost predicate NamesKeptApart(subs: seq<Substitution>) {
    forall i, j :: 0 <= i < j < |subs| ==> !Occurs(subs[j].source, Inner(subs[i].macro))
  }

  ghost function DocAfter(text: string, subs: seq<Substitution>, values: Values): Doc
    requires AllUndoable(subs, values)
  {
    if subs == [] then Last(text)
    else
      var n := |subs| - 1;
      assert Undoable(subs[n], values);
      ReplaceDoc(DocAfter(text, subs[..n], values), subs[n].source, Inner(subs[n].macro))
  }

  lemma TableWithoutLast(subs: seq<Substitution>, values: Values)
    requires subs != [] && AllUndoable(subs, values)
    ensures Undoable(subs[|subs| - 1], values) && AllUndoable(subs[..|subs| - 1], values)
    ensures NamesKeptApart(subs) ==> NamesKeptApart(subs[..|subs| - 1])
  {
  }

  lemma {:induction false} DocAvoids(text: string, subs: seq<Substitution>, values: Values, source: string)
    requires AllUndoable(subs, values)
    requires forall j :: 0 <= j < |subs| ==> !Occurs(source, Inner(subs[j].macro))
    ensures Avoids(DocAfter(text, subs, values), source)
  {
    if subs != [] {
      var n := |subs| - 1;
      var before := subs[..n];
      TableWithoutLast(subs, values);
      DocAvoids(text, before, values, source);
      AvoidsReplaceDoc(DocAfter(text, before, values), subs[n].source, Inner(subs[n].macro), source);
    }
  }

  lemma {:induction false} DocRenders(text: string, subs: seq<Substitution>, values: Values)
    requires AllUndoable(subs, values) && NamesKeptApart(subs)
    ensures Render(DocAfter(text, subs, values)) == Apply(text, subs)
  {
    if subs != [] {
      var n := |subs| - 1;
      var before := subs[..n];
      TableWithoutLast(subs, values);
      DocRenders(text, before, values);
      DocAvoids(text, before, values, subs[n].source);
      RenderReplaceDoc(DocAfter(text, before, values), subs[n].source, Inner(subs[n].macro));
    }
  }

  lemma {:induction false} DocKeepsText(text: string, subs: seq<Substitution>, values: Values)
    requires AllUndoable(subs, values)
    ensures Filled(DocAfter(text, subs, values), values)
    ensures ValueOf(DocAfter(text, subs, values), values) == text
    ensures Clean(text) ==> AllClean(DocAfter(text, subs, values))
    ensures (forall i :: 0 <= i < |subs| ==> AvoidsAll(subs[i].source)) && AllClean(DocAfter(text, subs, values)) ==> Clean(text)
  {
    if subs != [] {
      var n := |subs| - 1;
      assert Undoable(subs[n], values);
      DocKeepsText(text, subs[..n], values);
      ValueReplaceDoc(DocAfter(text, subs[..n], values), subs[n].source, Inner(subs[n].macro), values);
      CleanReplaceDoc(DocAfter(text, subs[..n], values), subs[n].source, Inner(subs[n].macro));
    }
  }

  ghost predicate KnownKeys(values: Values) { forall k :: k in values ==> Canonical(k) }

  // Whatever the order of the substitutions, binding gives the text back.
  lemma RoundTrip(text: string, subs: seq<Substitution>, values: Values)
    requires KnownKeys(values) && AllUndoable(subs, values) && NamesKeptApart(subs)
    requires FindUnboundMacros(text) == {}
    ensures Bind(Apply(text, subs), values) == Ok(text)
  {
    ScanMissesNone(text);
    DocRenders(text, subs, values);
    DocKeepsText(text, subs, values);
    CleanDocBinds(DocAfter(text, subs, values), values);
  }

  // Exactly the texts that name no canonical macro of their own come back.
  lemma RoundTripIffNoMacros(text: string, subs: seq<Substitution>, values: Values)
    requires KnownKeys(values) && PlainValues(values) && AllUndoable(subs, values)
    requires forall i :: 0 <= i < |subs| ==> AvoidsAll(subs[i].source)
    ensures Bind(Apply(text, subs), values) == Ok(text) <==> FindUnboundMacros(text) == {}
  {
    assert NamesKeptApart(subs) by {
      forall i, j | 0 <= i < j < |subs| ensures !Occurs(subs[j].source, Inner(subs[i].macro)) {
        assert Undoable(subs[i], values);
      }
    }
    if FindUnboundMacros(text) == {} {
      RoundTrip(text, subs, values);
    } else {
      ScanMissesNone(text);
      DocRenders(text, subs, values);
      DocKeepsText(text, subs, values);
      UncleanDocFails(DocAfter(text, subs, values), values);
    }
  }

  lemma PlainTextNamesNoMacros(text: string)
    requires BraceFree(text)
    ensures FindUnboundMacros(text) == {}
  {
    CleanPastPlain(text, "");
    assert text + "" == text;
    ScanMissesNone(text);
  }

  // ---- which tables bring every plain text back ---------------------------------------------------------------

  lemma WholeTextReplaced(source: string, macro: string)
    requires source != ""
    ensures Replace(source, source, macro) == macro
  {
    assert source[|source|..] == "";
    assert ReplaceNonEmpty("", source, macro) == "";
    assert macro + "" == macro;
  }

  lemma {:induction false} NothingReplaced(text: string, source: string, key: string)
    requires source != "" && !Occurs(source, text)
    ensures Replace(text, source, Braced(key)) == text
  {
    NoOccurrence(text, source, key);
    RenderReplaceLit(text, source, key);
  }

  lemma {:induction false} OccurrenceReplaced(text: string, source: string, key: string)
    requires source != "" && Occurs(source, text)
    ensures ReplaceLit(text, source, key).Then?
  {
    if !StartsWith(text, source) {
      OccurrenceReplaced(text[1..], source, key);
    }
  }

  // A text that opens a placeholder at position n, before any other brace.
  predicate OpensAt(text: string, n: nat) {
    n < |text| && BraceFree(text[..n]) && text[n] == '{'
  }

  // Its start is lost as a placeholder: past "{{" the next brace opens another one.
  ghost predicate Lost(text: string) {
    StartsWith(text, "{{") && exists n: nat :: OpensAt(text[2..], n)
  }

  lemma PrefixIsBraceFree(text: string, prefix: string)
    requires BraceFree(text) && StartsWith(text, prefix)
    ensures BraceFree(prefix)
  {
    forall c | c in prefix ensures !IsBrace(c) {
      var k :| 0 <= k < |prefix| && prefix[k] == c;
      assert text[..|prefix|][k] == c && text[k] in text;
    }
  }

  // A pass over brace-free text leaves an opening brace as the first one.
  lemma PlainStillOpens(plain: string, rest: string, source: string, key: string)
    requires Fits(source) && BraceFree(plain)
    requires ReplaceLit(plain, source, key).Then? || (rest != "" && rest[0] == '{')
    ensures OpensAt(Render(ReplaceLit(plain, source, key)) + rest, |ReplaceLit(plain, source, key).lit|)
  {
    var d := ReplaceLit(plain, source, key);
    LitIsPrefix(plain, source, key);
    PrefixIsBraceFree(plain, d.lit);
    var text := Render(d) + rest;
    if d.Then? {
      assert text == d.lit + (Braced(d.key) + Render(d.rest) + rest);
    }
    assert text[..|d.lit|] == d.lit && text[|d.lit|] == '{';
  }

  // A pass leaves the first two braces and treats the rest on its own.
  lemma BracesThenRest(rest: string, source: string, key: string)
    requires Fits(source)
    ensures Replace("{{" + rest, source, Braced(key)) == "{{" + Render(ReplaceLit(rest, source, key))
  {
    RenderReplaceLit("{{" + rest, source, key);
    ReplaceSplits("{{", rest, source, key);
    BracesStay("{{", source, key);
    RenderBefore("{{", ReplaceLit(rest, source, key));
  }

  lemma NameHitIsLost(k: string, source: string, key: string)
    requires Fits(source) && BraceFree(k) && Occurs(source, k)
    ensures Lost(Replace(Braced(k), source, Braced(key)))
  {
    var rest := k + "}}";
    var hit := Render(ReplaceLit(rest, source, key));
    assert Braced(k) == "{{" + rest;
    BracesThenRest(rest, source, key);
    ReplaceSplits(k, "}}", source, key);
    RenderJoin(ReplaceLit(k, source, key), ReplaceLit("}}", source, key));
    OccurrenceReplaced(k, source, key);
    PlainStillOpens(k, Render(ReplaceLit("}}", source, key)), source, key);
    assert ("{{" + hit)[2..] == hit && ("{{" + hit)[..2] == "{{";
  }

  lemma LostStaysLost(text: string, source: string, key: string)
    requires Fits(source) && Lost(text)
    ensures Lost(Replace(text, source, Braced(key)))
  {
    var rest := text[2..];
    var n: nat :| OpensAt(rest, n);
    var plain, tail := rest[..n], rest[n..];
    assert text == "{{" + rest && rest == plain + tail;
    BracesThenRest(rest, source, key);
    ReplaceSplits(plain, tail, source, key);
    var left, right := ReplaceLit(plain, source, key), ReplaceLit(tail, source, key);
    RenderJoin(left, right);
    BraceStaysFirst(tail, source, key);
    PlainStillOpens(plain, Render(right), source, key);
    var after := Render(left) + Render(right);
    assert ("{{" + after)[2..] == after && ("{{" + after)[..2] == "{{";
  }

  lemma BraceStaysFirst(tail: string, source: string, key: string)
    requires Fits(source) && tail != "" && tail[0] == '{'
    ensures Render(ReplaceLit(tail, source, key)) != "" && Render(ReplaceLit(tail, source, key))[0] == '{'
  {
    assert source[0] in source;
    assert !StartsWith(tail, source);
    NoMatchStep(tail, source, key);
    RenderBefore([tail[0]], ReplaceLit(tail[1..], source, key));
  }

  lemma LostIsNoPlaceholder(text: string)
    requires Lost(text)
    ensures MacroAt(text) == None
  {
    hide MacroAt;
    if MacroAt(text).Some? {
      var key, n := MacroAt(text).value, |MacroAt(text).value|;
      var at: nat :| OpensAt(text[2..], at);
      KeyInPlace(text, key);
      assert forall i :: 0 <= i < n ==> key[i] in key && PathChar(text[i + 2]);
      assert forall i :: 0 <= i < at ==> text[2..][..at][i] == text[i + 2] && !IsBrace(text[i + 2]);
      assert false;
    }
  }

  lemma KeyInPlace(text: string, key: string)
    requires StartsWith(text, Braced(key))
    ensures |key| + 4 <= |text| && text[|key| + 2] == '}'
    ensures forall i :: 0 <= i < |key| ==> text[i + 2] == key[i]
  {
    var b := Braced(key);
    assert forall i :: 0 <= i < |b| ==> text[i] == text[..|b|][i] == b[i];
  }

  // Bound, a lost text still starts with its brace.
  lemma LostKeepsBrace(text: string, values: Values)
    requires Lost(text)
    ensures Bind(text, values).Ok? ==> Bind(text, values).value == Bound(Tokens(text), values)
    ensures Bound(Tokens(text), values) != "" && Bound(Tokens(text), values)[0] == '{'
  {
    hide MacroAt;
    LostIsNoPlaceholder(text);
    assert Tokens(text)[0] == Token(text[..1], None);
  }

  // ---- the text that a wrongly ordered table loses

  // What load_substitutions gives: longest sources first, each once.
  ghost predicate LongestFirst(subs: seq<Substitution>) {
    forall i, j :: 0 <= i < j < |subs| ==> |subs[i].source| >= |subs[j].source| && subs[i].source != subs[j].source
  }

  lemma {:induction false} OccursFits(part: string, text: string)
    requires Occurs(part, text)
    ensures |part| < |text| || part == text
  {
    if !StartsWith(text, part) {
      OccursFits(part, text[1..]);
    } else if |part| == |text| {
      assert text[..|part|] == text;
    }
  }

  lemma ApplyOneMore(text: string, subs: seq<Substitution>, n: nat)
    requires 0 < n <= |subs|
    ensures Apply(text, subs[..n]) == Replace(Apply(text, subs[..n - 1]), subs[n - 1].source, subs[n - 1].macro)
  {
    assert subs[..n][..n - 1] == subs[..n - 1];
  }

  // The source of entry i passes the entries before it untouched.
  lemma {:induction false} SourceReachesItsEntry(subs: seq<Substitution>, values: Values, i: nat, n: nat)
    requires AllUndoable(subs, values) && LongestFirst(subs) && n <= i < |subs|
    ensures Apply(subs[i].source, subs[..n]) == subs[i].source
  {
    if n > 0 {
      SourceReachesItsEntry(subs, values, i, n - 1);
      ApplyOneMore(subs[i].source, subs, n);
      assert Undoable(subs[n - 1], values);
      if Occurs(subs[n - 1].source, subs[i].source) {
        OccursFits(subs[n - 1].source, subs[i].source);
        assert false;
      }
      NothingReplaced(subs[i].source, subs[n - 1].source, Inner(subs[n - 1].macro));
    }
  }

  // From its own entry on it is a placeholder, until an entry hits the name.
  lemma {:induction false} NameIntactOrLost(subs: seq<Substitution>, values: Values, i: nat, n: nat)
    requires AllUndoable(subs, values) && LongestFirst(subs) && i < n <= |subs|
    ensures
      var text := Apply(subs[i].source, subs[..n]);
      if forall j :: i < j < n ==> !Occurs(subs[j].source, Inner(subs[i].macro)) then text == subs[i].macro else Lost(text)
  {
    hide Occurs, Lost, Canonical, Replace, Apply, ReplaceLit, IsPath;
    var k := Inner(subs[i].macro);
    assert Undoable(subs[i], values) && Undoable(subs[n - 1], values);
    ApplyOneMore(subs[i].source, subs, n);
    if n == i + 1 {
      SourceReachesItsEntry(subs, values, i, i);
      WholeTextReplaced(subs[i].source, subs[i].macro);
    } else {
      NameIntactOrLost(subs, values, i, n - 1);
      var last := subs[n - 1];
      if exists j :: i < j < n - 1 && Occurs(subs[j].source, k) {
        LostStaysLost(Apply(subs[i].source, subs[..n - 1]), last.source, Inner(last.macro));
      } else if Occurs(last.source, k) {
        NameIsBraceFree(k);
        NameHitIsLost(k, last.source, Inner(last.macro));
      } else {
        KeyStays(k, last.source, Inner(last.macro));
        RenderReplaceLit(Braced(k), last.source, Inner(last.macro));
      }
    }
  }

  lemma NameIsBraceFree(key: string)
    requires Canonical(key)
    ensures BraceFree(key)
  {
    CanonicalArePaths(key);
  }

  lemma HitNameLosesItsSource(subs: seq<Substitution>, values: Values, i: nat, j: nat)
    requires AllUndoable(subs, values) && LongestFirst(subs) && i < j < |subs|
    requires Occurs(subs[j].source, Inner(subs[i].macro))
    ensures BraceFree(subs[i].source) && Bind(Apply(subs[i].source, subs), values) != Ok(subs[i].source)
  {
    hide Occurs, Lost, Canonical, Apply, Tokens, Bound, Missing, Inner, Bind;
    var source := subs[i].source;
    assert Undoable(subs[i], values);
    NameIntactOrLost(subs, values, i, |subs|);
    assert subs[..|subs|] == subs;
    LostKeepsBrace(Apply(source, subs), values);
    assert source[0] in source;
  }

  // A table brings every plain text back exactly when no source is part of the name of a
  // macro that an earlier entry puts in; then every text that names no canonical macro
  // of its own comes back, and otherwise the source of that earlier entry does not.
  lemma PlainTextsComeBackIff(subs: seq<Substitution>, values: Values)
    requires KnownKeys(values) && AllUndoable(subs, values) && LongestFirst(subs)
    ensures (forall text | BraceFree(text) :: Bind(Apply(text, subs), values) == Ok(text)) <==> NamesKeptApart(subs)
    ensures NamesKeptApart(subs) ==>
              forall text | FindUnboundMacros(text) == {} :: Bind(Apply(text, subs), values) == Ok(text)
  {
    if NamesKeptApart(subs) {
      forall text | FindUnboundMacros(text) == {} ensures Bind(Apply(text, subs), values) == Ok(text) {
        RoundTrip(text, subs, values);
      }
      forall text | BraceFree(text) ensures Bind(Apply(text, subs), values) == Ok(text) {
        PlainTextNamesNoMacros(text);
      }
    } else {
      var i, j :| 0 <= i < j < |subs| && Occurs(subs[j].source, Inner(subs[i].macro));
      HitNameLosesItsSource(subs, values, i, j);
    }
  }
}
