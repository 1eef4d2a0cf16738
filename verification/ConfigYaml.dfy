// The fallback printer and parser of the gateway config: `_hand_dump` and
// `_scalar_repr` against `_parse_simple_yaml` and `_coerce_scalar`.
module ConfigYaml {
  import opened Basics
  import opened PyText

  // A float is kept as the text Python prints for it.
  datatype Value =
    | Null
    | Bool(b: bool)
    | Int(n: int)
    | Float(literal: string)
    | Str(text: string)
    | List(items: seq<string>)
    | Map(entries: Dict)

  datatype Entry = Entry(key: string, value: Value)

  // A dict in insertion order.
  type Dict = seq<Entry>

  predicate IsScalar(v: Value) { !v.List? && !v.Map? }

  // ---- int and float literals --------------------------------------------------------

  predicate IsDigit(c: char) { '0' <= c <= '9' }

  // Digits with single underscores between them.
  function DigitsValue(s: string): Option<nat> {
    if s == "" || !IsDigit(s[|s| - 1]) then None
    else
      var d := s[|s| - 1] as nat - '0' as nat;
      if |s| == 1 then Some(d)
      else
        var front := if s[|s| - 2] == '_' then s[..|s| - 2] else s[..|s| - 1];
        match DigitsValue(front)
        case None => None
        case Some(v) => Some(10 * v + d)
  }

  function Unsigned(s: string): string { if s != "" && (s[0] == '-' || s[0] == '+') then s[1..] else s }

  // int(text); ASCII digits only.
  function ParseInt(text: string): Option<int> {
    var s := Strip(text);
    match DigitsValue(Unsigned(s))
    case None => None
    case Some(v) => var n: int := v; Some(if s[0] == '-' then -n else n)
  }

  predicate DigitsOrNothing(s: string) { s == "" || DigitsValue(s).Some? }

  predicate Exponent(s: string) {
    s == "" || ((s[0] == 'e' || s[0] == 'E') && DigitsValue(Unsigned(s[1..])).Some?)
  }

  function FindExponent(s: string): (n: nat)
    ensures n <= |s|
  {
    var e, e' := Find(s, 'e'), Find(s, 'E');
    if e <= e' then e else e'
  }

  // float(text) succeeds; only asked of texts with a point.
  predicate FloatLike(text: string) {
    var s := Unsigned(Strip(text));
    var point := Find(s, '.');
    point < |s|
    && (var whole, rest := s[..point], s[point + 1..];
        var e := FindExponent(rest);
        DigitsOrNothing(whole) && DigitsOrNothing(rest[..e]) && Exponent(rest[e..]) && (whole != "" || rest[..e] != ""))
  }

  // str(n)
  function ShowNat(n: nat): (s: string)
    ensures s != "" && IsDigit(s[0])
  {
    var last := [('0' + (n % 10) as char)];
    if n < 10 then last else ShowNat(n / 10) + last
  }

  function ShowInt(n: int): string { if n < 0 then "-" + ShowNat(-n) else ShowNat(n) }

  lemma {:induction false} ShowNatParses(n: nat)
    ensures DigitsValue(ShowNat(n)) == Some(n)
    ensures forall c :: c in ShowNat(n) ==> IsDigit(c)
  {
    if n >= 10 {
      ShowNatParses(n / 10);
      var s := ShowNat(n);
      assert s[..|s| - 1] == ShowNat(n / 10);
      assert s[|s| - 2] in ShowNat(n / 10);
    }
  }

  lemma ShowIntShape(n: int)
    ensures var s := ShowInt(n);
            && s != "" && (s[0] == '-' || IsDigit(s[0])) && IsDigit(s[|s| - 1]) && '.' !in s
            && (s[0] == '-' <==> n < 0) && DigitsValue(Unsigned(s)) == Some(if n < 0 then -n else n)
  {
    var k: nat := if n < 0 then -n else n;
    ShowNatParses(k);
    assert ShowNat(k)[|ShowNat(k)| - 1] in ShowNat(k);
    assert n < 0 ==> Unsigned(ShowInt(n)) == ShowNat(k);
  }

  lemma ShowIntParses(n: int)
    ensures var s := ShowInt(n);
            s != "" && (s[0] == '-' || IsDigit(s[0])) && Trimmed(s) && '.' !in s && ParseInt(s) == Some(n)
            && s[|s| - 1] != '\'' && s[|s| - 1] != '"' && s[|s| - 1] != ']'
  {
    ShowIntShape(n);
    StripIsTrimmed(ShowInt(n));
  }

  // ---- the printer --------------------------------------------------------------------

  function Lower(c: char): char { if 'A' <= c <= 'Z' then c - 'A' + 'a' else c }

  function LowerText(s: string): string { seq(|s|, i requires 0 <= i < |s| => Lower(s[i])) }

  predicate IsLeader(c: char) {
    c == '[' || c == '{' || c == '*' || c == '&' || c == '!' || c == '|' || c == '>' || c == '%' || c == '@' || c == '`'
  }

  predicate IsMark(c: char) { c == ':' || c == '#' || c == '\n' || c == '"' || c == '\'' }

  predicate HasMark(s: string) { s != "" && (IsMark(s[0]) || HasMark(s[1..])) }

  predicate IsReserved(word: string) {
    word == "true" || word == "false" || word == "null" || word == "yes" || word == "no"
  }

  predicate NeedsQuotes(text: string) {
    text == "" || IsLeader(text[0]) || HasMark(text) || IsReserved(LowerText(text)) || ParseInt(text).Some?
  }

  function StrRepr(text: string): string { if NeedsQuotes(text) then "\"" + text + "\"" else text }

  function ScalarRepr(v: Value): string
    requires IsScalar(v)
  {
    match v
    case Bool(b) => if b then "true" else "false"
    case Null => "null"
    case Int(n) => ShowInt(n)
    case Float(literal) => literal
    case Str(text) => StrRepr(text)
  }

  function Reprs(items: seq<string>): seq<string> {
    seq(|items|, k requires 0 <= k < |items| => StrRepr(items[k]))
  }

  function ListRepr(items: seq<string>): string {
    "[" + (if items == [] then "" else JoinComma(Reprs(items))) + "]"
  }

  // ---- the scalar parser --------------------------------------------------------------

  // str(value), of what a list item can be read as.
  function StrOf(v: Value): string {
    match v
    case Null => "None"
    case Bool(b) => if b then "True" else "False"
    case Int(n) => ShowInt(n)
    case Float(literal) => literal
    case Str(text) => text
    case _ => ""
  }

  predicate Between(s: string, open: char, close: char) { s != "" && s[0] == open && s[|s| - 1] == close }

  // s[1:-1]
  function Inside(s: string): string { if |s| < 2 then "" else s[1..|s| - 1] }

  // The words read as booleans and null.
  const WORDS: seq<(string, Value)> := [
    ("true", Bool(true)), ("True", Bool(true)), ("yes", Bool(true)), ("YES", Bool(true)), ("Yes", Bool(true)),
    ("false", Bool(false)), ("False", Bool(false)), ("no", Bool(false)), ("NO", Bool(false)), ("No", Bool(false)),
    ("null", Null), ("None", Null), ("~", Null)]

  function LookUp(words: seq<(string, Value)>, text: string): Option<Value> {
    if words == [] then None else if words[0].0 == text then Some(words[0].1) else LookUp(words[1..], text)
  }

  // A scalar that is not a bracketed list.
  function CoerceAtom(value: string): Value {
    if LookUp(WORDS, value).Some? then LookUp(WORDS, value).value
    else if Between(value, '\'', '\'') || Between(value, '"', '"') then Str(Inside(value))
    else if '.' in value then (if FloatLike(value) then Float(value) else Str(value))
    else
      match ParseInt(value)
      case Some(n) => Int(n)
      case None => Str(value)
  }

  // A part of a list: brackets inside a list make an inner list, whose text is
  // left out here, so such a part is kept as written.
  function CoerceItem(part: string): string {
    var s := Strip(part);
    if Between(s, '[', ']') then s else Strip(StrOf(CoerceAtom(s)))
  }

  function CoerceItems(parts: seq<string>): seq<string> {
    seq(|parts|, k requires 0 <= k < |parts| => CoerceItem(parts[k]))
  }

  function CoerceScalar(text: string): Value {
    var value := Strip(text);
    if Between(value, '[', ']') then
      var inner := Strip(Inside(value));
      List(if inner == "" then [] else CoerceItems(Split(inner, ',')))
    else CoerceAtom(value)
  }

  // ---- scalars: exactly when printing then reading gives the value back ----------------

  predicate ScalarSurvives(v: Value)
    requires IsScalar(v)
  {
    match v
    case Float(literal) => Trimmed(literal) && '.' in literal && FloatLike(literal)
    case Str(text) => NeedsQuotes(text) || (Trimmed(text) && text != "None" && text != "~" && !('.' in text && FloatLike(text)))
    case _ => true
  }

  lemma {:induction false} LookUpFinds(words: seq<(string, Value)>, text: string)
    ensures LookUp(words, text).Some? <==> exists k :: 0 <= k < |words| && words[k].0 == text
    ensures LookUp(words, text).Some? ==> exists k :: 0 <= k < |words| && words[k] == (text, LookUp(words, text).value)
  {
    if words != [] {
      LookUpFinds(words[1..], text);
      assert forall k | 0 <= k < |words| - 1 :: words[k + 1] == words[1..][k];
      if words[0].0 != text && exists k :: 0 <= k < |words| && words[k].0 == text {
        var k :| 0 <= k < |words| && words[k].0 == text;
        assert words[1..][k - 1].0 == text;
      }
    }
  }

  lemma WordsByIndex(k: nat)
    requires k < |WORDS|
    ensures WORDS[k].0 != "" && WORDS[k].0[0] in "tTyYfFnN~"
    ensures WORDS[k].0 == "None" || WORDS[k].0 == "~" ==> WORDS[k].1 == Null
    ensures WORDS[k].0 == "None" || WORDS[k].0 == "~" || IsReserved(LowerText(WORDS[k].0))
    ensures WORDS[k].1.Bool? || WORDS[k].1.Null?
    ensures WORDS[k].0[0] == 't' ==> WORDS[k].1 == Bool(true)
    ensures WORDS[k].0[0] == 'f' ==> WORDS[k].1 == Bool(false)
    ensures WORDS[k].0[0] == 'n' && |WORDS[k].0| == 4 ==> WORDS[k].1 == Null
  {
    var low := LowerText(WORDS[k].0);
    if k < 2 { assert low == "true"; }
    else if k < 5 { assert low == "yes"; }
    else if k < 7 { assert low == "false"; }
    else if k < 10 { assert low == "no"; }
    else if k == 10 { assert low == "null"; }
  }

  // Every word the reader knows, other than None and ~, is quoted by the printer.
  lemma WordsAreQuoted(text: string)
    requires LookUp(WORDS, text).Some?
    ensures text != "" && text[0] in "tTyYfFnN~"
    ensures text == "None" || text == "~" || NeedsQuotes(text)
    ensures text == "None" || text == "~" ==> LookUp(WORDS, text) == Some(Null)
    ensures var v := LookUp(WORDS, text).value;
            && (v.Bool? || v.Null?)
            && (text[0] == 't' ==> v == Bool(true)) && (text[0] == 'f' ==> v == Bool(false))
            && (text[0] == 'n' && |text| == 4 ==> v == Null)
  {
    hide LookUp, LowerText, ParseInt, HasMark;
    LookUpFinds(WORDS, text);
    var k :| 0 <= k < |WORDS| && WORDS[k] == (text, LookUp(WORDS, text).value);
    WordsByIndex(k);
  }

  lemma WordAt(k: nat)
    requires k < |WORDS|
    ensures LookUp(WORDS, WORDS[k].0).Some?
  {
    LookUpFinds(WORDS, WORDS[k].0);
  }

  lemma NotAWord(text: string)
    requires text == "" || text[0] !in "tTyYfFnN~"
    ensures LookUp(WORDS, text).None?
  {
    if LookUp(WORDS, text).Some? { WordsAreQuoted(text); }
  }

  lemma QuotedReadsBack(text: string)
    ensures var q := "\"" + text + "\""; Trimmed(q) && CoerceScalar(q) == Str(text) && CoerceAtom(q) == Str(text)
  {
    var q := "\"" + text + "\"";
    StripIsTrimmed(q);
    NotAWord(q);
    assert q[0] == '"' && q[|q| - 1] == '"' && q[1..|q| - 1] == text;
  }

  lemma {:induction false} NoMarkAt(s: string, k: nat)
    requires !HasMark(s) && k < |s|
    ensures !IsMark(s[k])
  {
    if k > 0 { NoMarkAt(s[1..], k - 1); }
  }

  // What an unquoted text looks like.
  ghost predicate Bare(text: string) {
    && text != "" && !IsLeader(text[0]) && !IsMark(text[0])
    && ParseInt(text).None?
    && (LookUp(WORDS, text).Some? <==> text == "None" || text == "~")
    && (LookUp(WORDS, text).Some? ==> LookUp(WORDS, text).value == Null)
  }

  lemma UnquotedIsBare(text: string)
    requires !NeedsQuotes(text)
    ensures Bare(text)
  {
    NoMarkAt(text, 0);
    if LookUp(WORDS, text).Some? { WordsAreQuoted(text); }
    WordAt(11);
    WordAt(12);
  }

  lemma BareReadsBack(text: string)
    requires Bare(text)
    ensures !Between(text, '[', ']')
    ensures CoerceAtom(text) == if text == "None" || text == "~" then Null
                                else if '.' in text && FloatLike(text) then Float(text) else Str(text)
  {
  }

  lemma {:induction false} DigitsStartWithDigit(s: string)
    requires DigitsValue(s).Some?
    ensures s != "" && IsDigit(s[0])
  {
    if |s| > 1 {
      DigitsStartWithDigit(if s[|s| - 2] == '_' then s[..|s| - 2] else s[..|s| - 1]);
    }
  }

  lemma FloatStart(s: string)
    requires FloatLike(s) && Trimmed(s)
    ensures s != "" && (IsDigit(s[0]) || s[0] == '+' || s[0] == '-' || s[0] == '.')
  {
    StripIsTrimmed(s);
    var u := Unsigned(s);
    var whole := u[..Find(u, '.')];
    if whole != "" { DigitsStartWithDigit(whole); }
  }

  // What an atom can be read as.
  lemma AtomShape(value: string)
    ensures CoerceAtom(value).Float? ==> CoerceAtom(value) == Float(value) && '.' in value && FloatLike(value)
    ensures CoerceAtom(value).Str? ==> |CoerceAtom(value).text| <= |value|
  {
    if LookUp(WORDS, value).Some? { WordsAreQuoted(value); }
  }

  lemma FloatAtom(value: string)
    requires value != "" && (IsDigit(value[0]) || value[0] == '+' || value[0] == '-' || value[0] == '.')
    requires '.' in value && FloatLike(value)
    ensures CoerceAtom(value) == Float(value)
  {
    NotAWord(value);
  }

  lemma FloatReadsBack(literal: string)
    ensures CoerceScalar(literal) == Float(literal) <==> ScalarSurvives(Float(literal))
  {
    hide FloatLike, LookUp, ParseInt;
    StripIsTrimmed(literal);
    AtomShape(Strip(literal));
    if ScalarSurvives(Float(literal)) {
      FloatStart(literal);
      FloatAtom(literal);
    }
  }

  lemma StripShortens(s: string)
    ensures |Strip(s)| <= |s|
    ensures Strip(s) != s ==> |Strip(s)| < |s|
  {
    LStripShape(s);
    RStripShape(LStrip(s));
  }

  lemma BareScalarReadsBack(text: string)
    requires Bare(text)
    ensures CoerceScalar(text) == Str(text)
            <==> Trimmed(text) && text != "None" && text != "~" && !('.' in text && FloatLike(text))
  {
    StripIsTrimmed(text);
    BareReadsBack(text);
    StripShortens(text);
    AtomShape(Strip(text));
  }

  lemma StrReadsBack(text: string)
    ensures CoerceScalar(StrRepr(text)) == Str(text) <==> ScalarSurvives(Str(text))
  {
    if NeedsQuotes(text) {
      QuotedReadsBack(text);
    } else {
      UnquotedIsBare(text);
      BareScalarReadsBack(text);
    }
  }

  lemma PrintedWordsAreKnown(word: string)
    requires word == "true" || word == "false" || word == "null"
    ensures LookUp(WORDS, word).Some?
  {
    assert WORDS[0].0 == "true" && WORDS[5].0 == "false" && WORDS[10].0 == "null";
    WordAt(if word == "true" then 0 else if word == "false" then 5 else 10);
  }

  lemma KnownWordReads(word: string)
    requires Trimmed(word) && LookUp(WORDS, word).Some?
    ensures CoerceScalar(word) == LookUp(WORDS, word).value
  {
    StripIsTrimmed(word);
    WordsAreQuoted(word);
  }

  lemma WordReadsBack(word: string)
    requires word == "true" || word == "false" || word == "null"
    ensures CoerceScalar(word) == if word == "true" then Bool(true) else if word == "false" then Bool(false) else Null
  {
    PrintedWordsAreKnown(word);
    KnownWordReads(word);
    WordsAreQuoted(word);
  }

  lemma IntReadsBack(n: int)
    ensures CoerceScalar(ShowInt(n)) == Int(n) && ShowInt(n) != "" && Trimmed(ShowInt(n))
  {
    ShowIntParses(n);
    var s := ShowInt(n);
    StripIsTrimmed(s);
    NotAWord(s);
  }

  // Printing a scalar and reading it back gives the scalar exactly when it
  // survives: a bare text must have no edge blanks, not be None or ~, and not
  // look like a float; a float must be printed with a point.
  lemma ScalarRoundTripIff(v: Value)
    requires IsScalar(v)
    ensures CoerceScalar(ScalarRepr(v)) == v <==> ScalarSurvives(v)
  {
    match v
    case Float(literal) => FloatReadsBack(literal);
    case Str(text) => StrReadsBack(text);
    case Int(n) => IntReadsBack(n);
    case Bool(b) => WordReadsBack(if b then "true" else "false");
    case Null => WordReadsBack("null");
  }

  lemma SurvivingReprIsTrimmed(v: Value)
    requires IsScalar(v) && ScalarSurvives(v)
    ensures ScalarRepr(v) != "" && Trimmed(ScalarRepr(v))
  {
    match v
    case Float(literal) => FloatStart(literal);
    case Str(text) => if NeedsQuotes(text) { QuotedReadsBack(text); }
    case Int(n) => IntReadsBack(n);
    case _ =>
  }

  // ---- lists of id strings ---------------------------------------------------------------

  predicate ItemSurvives(item: string) {
    Trimmed(item) && ',' !in item
    && (NeedsQuotes(item) || (item != "~" && !('.' in item && FloatLike(item))))
  }

  lemma ItemReadsBack(item: string)
    requires ItemSurvives(item)
    ensures CommaPart(StrRepr(item))
    ensures forall part :: Strip(part) == StrRepr(item) ==> CoerceItem(part) == item
  {
    StripIsTrimmed(item);
    if NeedsQuotes(item) {
      QuotedReadsBack(item);
    } else {
      UnquotedIsBare(item);
      BareReadsBack(item);
    }
  }

  lemma ItemsReadBack(items: seq<string>, pieces: seq<string>)
    requires forall k :: 0 <= k < |items| ==> ItemSurvives(items[k])
    requires |pieces| == |items| && forall k :: 0 <= k < |items| ==> Strip(pieces[k]) == Reprs(items)[k]
    ensures CoerceItems(pieces) == items
  {
    forall k | 0 <= k < |items| ensures CoerceItem(pieces[k]) == items[k] { ItemReadsBack(items[k]); }
  }

  lemma ReprsAreParts(items: seq<string>)
    requires forall k :: 0 <= k < |items| ==> ItemSurvives(items[k])
    ensures forall k :: 0 <= k < |items| ==> CommaPart(Reprs(items)[k])
  {
    forall k | 0 <= k < |items| ensures CommaPart(Reprs(items)[k]) { ItemReadsBack(items[k]); }
  }

  lemma BracketedReadsBack(inner: string, items: seq<string>)
    requires Trimmed(inner)
    requires if inner == "" then items == [] else CoerceItems(Split(inner, ',')) == items
    ensures var text := "[" + inner + "]"; CoerceScalar(text) == List(items) && Trimmed(text)
  {
    var text := "[" + inner + "]";
    StripIsTrimmed(text);
    StripIsTrimmed(inner);
    assert text[0] == '[' && text[|text| - 1] == ']' && text[1..|text| - 1] == inner;
  }

  lemma ListReadsBack(items: seq<string>)
    requires forall k :: 0 <= k < |items| ==> ItemSurvives(items[k])
    ensures CoerceScalar(ListRepr(items)) == List(items)
    ensures ListRepr(items) != "" && Trimmed(ListRepr(items))
  {
    if items == [] {
      BracketedReadsBack("", items);
    } else {
      var parts := Reprs(items);
      ReprsAreParts(items);
      JoinCommaEdges(parts);
      SplitJoinComma(parts, "");
      assert "" + JoinComma(parts) == JoinComma(parts);
      ItemsReadBack(items, Split(JoinComma(parts), ','));
      BracketedReadsBack(JoinComma(parts), items);
    }
  }
}
