// Which config documents come through the printer and the reader: what no text can
// read as, and what a printed document reads as.
module ConfigRoundTrip {
  import opened Basics
  import opened PyText
  import opened ConfigYaml
  import opened ConfigDocument

  // ---- what any text reads as ---------------------------------------------------------------

  lemma {:induction false} SplitLinesAreLines(s: string, line: string)
    requires line in SplitLines(s)
    ensures OneLine(line)
    decreases |s|
  {
    hide FirstBreak, OneLine;
    var n := FirstBreak(s);
    if n == |s| {
      assert s[..n] == s;
    } else if line != s[..n] {
      if s[n] == '\r' && n + 1 < |s| && s[n + 1] == '\n' {
        assert SplitLines(s) == [s[..n]] + SplitLines(s[n + 2..]);
        SplitLinesAreLines(s[n + 2..], line);
      } else {
        assert SplitLines(s) == [s[..n]] + SplitLines(s[n + 1..]);
        SplitLinesAreLines(s[n + 1..], line);
      }
    }
  }

  lemma StripKeepsLine(s: string)
    requires OneLine(s)
    ensures OneLine(Strip(s))
  {
    LStripShape(s);
    RStripShape(LStrip(s));
  }

  lemma StripIsInside(s: string, c: char)
    requires c !in s
    ensures c !in Strip(s)
  {
    LStripShape(s);
    RStripShape(LStrip(s));
  }

  // A text that starts with no blank keeps its first character.
  lemma StripKeepsStart(s: string)
    requires s != "" && !IsSpace(s[0])
    ensures Strip(s) != "" && Strip(s)[0] == s[0]
  {
    RStripShape(s);
  }

  lemma StrippedStart(raw: string)
    requires Strip(raw) != ""
    ensures LStrip(raw) != "" && LStrip(raw)[0] == Strip(raw)[0]
  {
    LStripShape(raw);
    RStripShape(LStrip(raw));
  }

  lemma LineKeySurvives(raw: string)
    requires OneLine(raw) && ParseLine(raw).Setting?
    ensures KeySurvives(ParseLine(raw).key) && OneLine(ParseLine(raw).value)
  {
    var line := Strip(raw);
    var before := line[..Find(line, ':')];
    StripKeepsLine(raw);
    StripIsTrimmed(raw);
    StripIsTrimmed(before);
    StripKeepsLine(before);
    StripIsInside(before, ':');
    StripKeepsLine(line[Find(line, ':') + 1..]);
    if before != "" {
      StripKeepsStart(before);
      StrippedStart(raw);
    }
  }

  lemma {:induction false} SetKeyKeys(d: Dict, key: string, value: Value, e: Entry)
    requires e in SetKey(d, key, value)
    ensures e == Entry(key, value) || e in d
  {
    if d != [] {
      var rest := d[1..];
      assert forall k :: 0 <= k < |rest| ==> rest[k] == d[k + 1];
      if d[0].key == key {
        assert e == Entry(key, value) || e in rest;
      } else if e != d[0] {
        SetKeyKeys(rest, key, value, e);
      }
    }
  }

  lemma PrintableTail(d: Dict)
    requires Printable(d) && d != []
    ensures Printable(d[1..]) && KeySurvives(d[0].key) && ValuePrintable(d[0].value)
    ensures forall e :: e in d[1..] ==> e.key != d[0].key
  {
    assert forall e :: e in d[1..] ==> e in d;
    assert d[0] in d;
  }

  lemma {:induction false} SetKeyPrintable(d: Dict, key: string, value: Value)
    requires Printable(d) && KeySurvives(key) && ValuePrintable(value)
    ensures Printable(SetKey(d, key, value))
  {
    if d == [] {
      PushPrintable(Entry(key, value), []);
      assert [Entry(key, value)] + [] == [Entry(key, value)];
    } else {
      hide Printable, KeySurvives, ValuePrintable;
      PrintableTail(d);
      if d[0].key == key {
        PushPrintable(Entry(key, value), d[1..]);
      } else {
        SetKeyPrintable(d[1..], key, value);
        forall e | e in SetKey(d[1..], key, value) ensures e.key != d[0].key {
          SetKeyKeys(d[1..], key, value, e);
        }
        PushPrintable(d[0], SetKey(d[1..], key, value));
      }
    }
  }

  lemma PushPrintable(first: Entry, later: Dict)
    requires KeySurvives(first.key) && ValuePrintable(first.value) && Printable(later)
    requires forall e :: e in later ==> e.key != first.key
    ensures Printable([first] + later)
  {
    var d := [first] + later;
    assert forall e :: e in d ==> e == first || e in later;
    forall i, j | 0 <= i < j < |d| ensures d[i].key != d[j].key {
      assert d[j] == later[j - 1] && later[j - 1] in later;
      assert i > 0 ==> d[i] == later[i - 1];
    }
  }

  ghost predicate StackPrintable(fs: Stack) {
    forall i :: 0 <= i < |fs| ==> Printable(fs[i].dict) && KeySurvives(fs[i].key)
  }

  lemma SetTopPrintable(fs: Stack, key: string, value: Value)
    requires StackPrintable(fs) && KeySurvives(key) && ValuePrintable(value)
    ensures StackPrintable(SetTop(fs, key, value))
  {
    SetKeyPrintable(Top(fs).dict, key, value);
  }

  lemma {:induction false} PopToPrintable(fs: Stack, indent: int)
    requires StackPrintable(fs)
    ensures StackPrintable(PopTo(fs, indent))
    decreases |fs|
  {
    if |fs| > 1 && Top(fs).indent >= indent {
      SetTopPrintable(fs[..|fs| - 1], Top(fs).key, Map(Top(fs).dict));
      PopToPrintable(CloseTop(fs), indent);
    }
  }

  lemma WordsAreOneLine()
    ensures OneLine("None") && OneLine("True") && OneLine("False") && OneLine("")
  {
  }

  lemma AtomIsOneLine(value: string)
    requires OneLine(value)
    ensures ValuePrintable(CoerceAtom(value)) && OneLine(StrOf(CoerceAtom(value))) && !CoerceAtom(value).List? && !CoerceAtom(value).Map?
  {
    hide LookUp, FloatLike, ParseInt, ShowInt, OneLine, Inside;
    WordsAreOneLine();
    InsideKeepsLine(value);
    if LookUp(WORDS, value).Some? {
      WordsAreQuoted(value);
    }
    forall n: int ensures OneLine(ShowInt(n)) {
      ShowIntIsOneLine(n);
    }
  }

  lemma ItemIsOneLine(part: string)
    requires OneLine(part)
    ensures OneLine(CoerceItem(part))
  {
    hide CoerceAtom, StrOf, Strip, OneLine, ValuePrintable;
    StripKeepsLine(part);
    AtomIsOneLine(Strip(part));
    StripKeepsLine(StrOf(CoerceAtom(Strip(part))));
  }

  lemma {:induction false} SplitKeepsLine(s: string, c: char, part: string)
    requires OneLine(s) && part in Split(s, c)
    ensures OneLine(part)
    decreases |s|
  {
    hide Find;
    var n := Find(s, c);
    if n < |s| {
      assert Split(s, c) == [s[..n]] + Split(s[n + 1..], c);
      if part != s[..n] {
        SplitKeepsLine(s[n + 1..], c, part);
      }
    }
  }

  lemma ScalarsArePrintable(text: string)
    requires OneLine(text)
    ensures ValuePrintable(CoerceScalar(text))
  {
    hide CoerceAtom, CoerceItem, Strip, OneLine;
    var value := Strip(text);
    StripKeepsLine(text);
    if Between(value, '[', ']') {
      InsideKeepsLine(value);
      StripKeepsLine(Inside(value));
      var inner := Strip(Inside(value));
      forall k | 0 <= k < |Split(inner, ',')| ensures OneLine(CoerceItem(Split(inner, ',')[k])) {
        SplitKeepsLine(inner, ',', Split(inner, ',')[k]);
        ItemIsOneLine(Split(inner, ',')[k]);
      }
    } else {
      AtomIsOneLine(value);
    }
  }

  lemma InsideKeepsLine(s: string)
    requires OneLine(s)
    ensures OneLine(Inside(s))
  {
  }

  lemma OpenPrintable(fs: Stack, indent: int, key: string)
    requires StackPrintable(fs) && KeySurvives(key)
    ensures StackPrintable(SetTop(fs, key, Map([])) + [Frame(indent, key, [])])
  {
    SetTopPrintable(fs, key, Map([]));
  }

  lemma FeedPrintable(fs: Stack, line: Parsed)
    requires StackPrintable(fs) && (line.Setting? ==> KeySurvives(line.key) && OneLine(line.value))
    ensures StackPrintable(Feed(fs, line))
  {
    hide StackPrintable, CoerceScalar, PopTo, SetTop, KeySurvives, OneLine;
    if line.Setting? {
      PopToPrintable(fs, line.indent);
      if line.value == "" {
        OpenPrintable(PopTo(fs, line.indent), line.indent, line.key);
      } else {
        ScalarsArePrintable(line.value);
        SetTopPrintable(PopTo(fs, line.indent), line.key, CoerceScalar(line.value));
      }
    }
  }

  lemma {:induction false} FeedAllPrintable(lines: seq<string>)
    requires forall k :: 0 <= k < |lines| ==> OneLine(lines[k])
    ensures StackPrintable(FeedAll(ROOT, lines))
  {
    if lines != [] {
      hide Feed, ParseLine, StackPrintable, OneLine, KeySurvives;
      var raw := lines[|lines| - 1];
      FeedAllPrintable(lines[..|lines| - 1]);
      if ParseLine(raw).Setting? {
        LineKeySurvives(raw);
      }
      FeedPrintable(FeedAll(ROOT, lines[..|lines| - 1]), ParseLine(raw));
    }
  }

  // Whatever the text, every key read from it is trimmed, on one line, without a colon
  // and without a leading #, no mapping holds a key twice, and every text in it is on one
  // line.
  lemma EveryParseIsPrintable(text: string)
    ensures Printable(Parse(text))
  {
    var lines := SplitLines(text);
    forall k | 0 <= k < |lines| ensures OneLine(lines[k]) {
      SplitLinesAreLines(text, lines[k]);
    }
    FeedAllPrintable(lines);
    PopToPrintable(FeedAll(ROOT, lines), 0);
  }

  // ---- list items -------------------------------------------------------------------------

  lemma {:induction false} SplitPartHasNo(s: string, c: char, part: string)
    requires part in Split(s, c)
    ensures c !in part
    decreases |s|
  {
    hide Find;
    var n := Find(s, c);
    if n == |s| {
      assert s[..n] == s;
    } else {
      assert Split(s, c) == [s[..n]] + Split(s[n + 1..], c);
      if part != s[..n] {
        SplitPartHasNo(s[n + 1..], c, part);
      }
    }
  }

  lemma ShownIntHasNoComma(n: int)
    ensures ',' !in ShowInt(n)
  {
    ShowNatParses(if n < 0 then -n else n);
  }

  lemma AtomHasNoComma(value: string)
    requires ',' !in value
    ensures ',' !in StrOf(CoerceAtom(value))
  {
    hide FloatLike, LookUp, ParseInt, ShowInt;
    if LookUp(WORDS, value).Some? {
      WordsAreQuoted(value);
    }
    forall n: int ensures ',' !in ShowInt(n) {
      ShownIntHasNoComma(n);
    }
  }

  lemma ItemIsPlain(part: string)
    requires ',' !in part
    ensures Trimmed(CoerceItem(part)) && ',' !in CoerceItem(part)
  {
    hide CoerceAtom, StrOf, Strip;
    var s := Strip(part);
    StripIsTrimmed(part);
    StripIsInside(part, ',');
    AtomHasNoComma(s);
    StripIsTrimmed(StrOf(CoerceAtom(s)));
    StripIsInside(StrOf(CoerceAtom(s)), ',');
  }

  // No text reads back as a list with a comma or an edge blank in an item.
  lemma EveryListItemIsPlain(text: string, items: seq<string>, k: nat)
    requires CoerceScalar(text) == List(items) && k < |items|
    ensures Trimmed(items[k]) && ',' !in items[k]
  {
    hide CoerceItem, CoerceAtom, Strip;
    var value := Strip(text);
    if Between(value, '[', ']') {
      var parts := Split(Strip(Inside(value)), ',');
      SplitPartHasNo(Strip(Inside(value)), ',', parts[k]);
      ItemIsPlain(parts[k]);
    } else {
      AtomIsNoList(value);
    }
  }

  lemma AtomIsNoList(value: string)
    ensures !CoerceAtom(value).List?
  {
    if LookUp(WORDS, value).Some? {
      WordsAreQuoted(value);
    }
  }

  // ---- exactly which lists come through ------------------------------------------------------

  // Read as a float, an item would come back in the float's own form.
  predicate LooksFloat(item: string) { '.' in item && FloatLike(item) }

  lemma BareItemReads(item: string)
    requires Trimmed(item) && !NeedsQuotes(item) && !LooksFloat(item)
    ensures CoerceItem(item) == item <==> item != "~"
  {
    hide FloatLike, LookUp, ParseInt, NeedsQuotes, Strip, CoerceAtom;
    StripIsTrimmed(item);
    UnquotedIsBare(item);
    BareReadsBack(item);
    StripIsTrimmed("None");
  }

  lemma ItemReadsBackIff(item: string)
    requires Trimmed(item) && ',' !in item && !LooksFloat(item)
    ensures CommaPart(StrRepr(item)) && (CoerceItem(StrRepr(item)) == item <==> ItemSurvives(item))
  {
    StripIsTrimmed(item);
    if NeedsQuotes(item) {
      QuotedReadsBack(item);
      StripIsTrimmed(StrRepr(item));
    } else {
      UnquotedIsBare(item);
      BareItemReads(item);
    }
  }

  // A printed list of comma-free texts reads item by item.
  lemma ListReadsAs(items: seq<string>)
    requires items != [] && forall k :: 0 <= k < |items| ==> CommaPart(StrRepr(items[k]))
    ensures CoerceScalar(ListRepr(items)) == List(seq(|items|, k requires 0 <= k < |items| => CoerceItem(StrRepr(items[k]))))
  {
    hide StrRepr, CoerceScalar, CoerceItem, Strip, CommaPart, Split, JoinComma;
    var parts := Reprs(items);
    assert forall k :: 0 <= k < |parts| ==> CommaPart(parts[k]);
    JoinCommaEdges(parts);
    SplitJoinComma(parts, "");
    assert "" + JoinComma(parts) == JoinComma(parts);
    var pieces := Split(JoinComma(parts), ',');
    forall k | 0 <= k < |items| ensures CoerceItem(pieces[k]) == CoerceItem(StrRepr(items[k])) {
      ItemOfStripped(pieces[k], parts[k]);
    }
    assert CoerceItems(pieces) == seq(|items|, k requires 0 <= k < |items| => CoerceItem(StrRepr(items[k])));
    BracketedReadsBack(JoinComma(parts), CoerceItems(pieces));
  }

  lemma ItemOfStripped(piece: string, part: string)
    requires Strip(piece) == part
    ensures CoerceItem(piece) == CoerceItem(part)
  {
    StripTwice(piece);
  }

  // A printed list comes back exactly when each item is trimmed, without a comma, and,
  // unless it is quoted, is not ~; items that look like floats apart.
  lemma ListRoundTripIff(items: seq<string>)
    requires forall k :: 0 <= k < |items| ==> !LooksFloat(items[k])
    ensures CoerceScalar(ListRepr(items)) == List(items) <==> forall k :: 0 <= k < |items| ==> ItemSurvives(items[k])
  {
    hide CoerceScalar, ListRepr, ItemSurvives, CoerceItem, StrRepr;
    if CoerceScalar(ListRepr(items)) == List(items) {
      forall k | 0 <= k < |items| ensures ItemSurvives(items[k]) {
        ItemOfRoundTrip(items, k);
      }
    }
    if forall k :: 0 <= k < |items| ==> ItemSurvives(items[k]) {
      ListReadsBack(items);
    }
  }

  lemma ItemOfRoundTrip(items: seq<string>, k: nat)
    requires k < |items| && forall j :: 0 <= j < |items| ==> !LooksFloat(items[j])
    ensures CoerceScalar(ListRepr(items)) == List(items) ==> ItemSurvives(items[k])
  {
    hide CoerceScalar, ListRepr, ItemSurvives, CoerceItem, StrRepr, CommaPart;
    if CoerceScalar(ListRepr(items)) == List(items) {
      forall j | 0 <= j < |items| ensures CommaPart(StrRepr(items[j])) {
        EveryListItemIsPlain(ListRepr(items), items, j);
        ItemReadsBackIff(items[j]);
      }
      ListReadsAs(items);
      EveryListItemIsPlain(ListRepr(items), items, k);
      ItemReadsBackIff(items[k]);
    }
  }

  // ---- exactly which documents come through ---------------------------------------------------

  ghost predicate Survives(d: Dict)
    decreases d, 1
  {
    && (forall i, j :: 0 <= i < j < |d| ==> d[i].key != d[j].key)
    && forall e :: e in d ==> KeySurvives(e.key) && ValueSurvives(e.value)
  }

  ghost predicate ValueSurvives(v: Value)
    decreases v, 0
  {
    match v
    case Map(entries) => Survives(entries)
    case List(items) => forall k :: 0 <= k < |items| ==> ItemSurvives(items[k]) && OneLine(items[k])
    case Str(text) => ScalarSurvives(v) && OneLine(text)
    case Float(literal) => ScalarSurvives(v) && OneLine(literal)
    case _ => true
  }

  ghost predicate NoFloatItems(d: Dict)
    decreases d, 1
  {
    forall e :: e in d ==> NoFloatItemsIn(e.value)
  }

  ghost predicate NoFloatItemsIn(v: Value)
    decreases v, 0
  {
    match v
    case Map(entries) => NoFloatItems(entries)
    case List(items) => forall k :: 0 <= k < |items| ==> !LooksFloat(items[k])
    case _ => true
  }

  lemma ScalarRereads(v: Value)
    requires IsScalar(v)
    ensures Reread(v) == v <==> ScalarSurvives(v)
  {
    hide CoerceScalar, ScalarSurvives, Strip, ScalarRepr;
    var text := ScalarRepr(v);
    ScalarRoundTripIff(v);
    BlankFirst(text);
    SameScalar(text);
    if ScalarSurvives(v) {
      SurvivingReprIsTrimmed(v);
      StripIsTrimmed(text);
    }
  }

  lemma BlankFirst(text: string)
    ensures Strip(" " + text) == Strip(text)
  {
    StripInside(" ", text, "");
    assert " " + text + "" == " " + text;
  }

  lemma SameScalar(text: string)
    ensures CoerceScalar(Strip(text)) == CoerceScalar(text)
  {
    StripTwice(text);
  }

  lemma ListRereads(items: seq<string>)
    requires forall k :: 0 <= k < |items| ==> !LooksFloat(items[k])
    ensures Reread(List(items)) == List(items) <==> forall k :: 0 <= k < |items| ==> ItemSurvives(items[k])
  {
    hide CoerceScalar, Strip, ItemSurvives;
    ListRoundTripIff(items);
    BlankFirst(ListRepr(items));
    StripIsTrimmed(ListRepr(items));
    assert ListRepr(items)[0] == '[' && ListRepr(items)[|ListRepr(items)| - 1] == ']';
  }

  lemma ValueRereads(v: Value)
    requires ValuePrintable(v) && NoFloatItemsIn(v)
    ensures Reread(v) == v <==> ValueSurvives(v)
    decreases v, 0
  {
    hide Reread, ScalarSurvives, ItemSurvives, OneLine, LooksFloat;
    if v.Map? {
      MapRereads(v.entries);
      DocumentRereads(v.entries);
    } else if v.List? {
      ListRereads(v.items);
    } else {
      ScalarRereads(v);
      if !v.Str? && !v.Float? {
        PlainScalarSurvives(v);
      }
    }
  }

  lemma PlainScalarSurvives(v: Value)
    requires v.Int? || v.Bool? || v.Null?
    ensures ScalarSurvives(v)
  {
  }

  lemma MapRereads(entries: Dict)
    ensures Reread(Map(entries)) == Map(RereadAll(entries))
  {
    TailOfMap(Map(entries));
  }

  lemma {:induction false} DocumentRereads(d: Dict)
    requires Printable(d) && NoFloatItems(d)
    ensures RereadAll(d) == d <==> Survives(d)
    decreases d, 1
  {
    hide Reread, RereadAll, ValueSurvives, ValuePrintable, NoFloatItemsIn;
    forall i | 0 <= i < |d|
      ensures |RereadAll(d)| == |d| && RereadAll(d)[i] == Entry(d[i].key, Reread(d[i].value))
      ensures Reread(d[i].value) == d[i].value <==> ValueSurvives(d[i].value)
    {
      RereadAt(d, i);
      assert d[i] in d;
      ValueRereads(d[i].value);
    }
    NothingRereads();
    assert |RereadAll(d)| == |d| by {
      if d != [] {
        RereadAt(d, 0);
      }
    }
    if RereadAll(d) == d {
      forall e | e in d ensures ValueSurvives(e.value) {
        var i :| 0 <= i < |d| && d[i] == e;
      }
    }
    if Survives(d) {
      forall i | 0 <= i < |d| ensures RereadAll(d)[i] == d[i] {
        assert d[i] in d;
      }
    }
  }

  lemma NothingRereads()
    ensures RereadAll([]) == []
  {
  }

  // Printing a document and reading it back gives the document, entry for entry and in
  // order, however deep, exactly when its keys and values survive.
  lemma DocumentRoundTripIff(d: Dict)
    requires NoFloatItems(d)
    ensures Parse(PrintedText(d)) == d <==> Survives(d)
  {
    hide Parse, PrintedText, RereadAll;
    if Parse(PrintedText(d)) == d {
      EveryParseIsPrintable(PrintedText(d));
      DocumentReadsAs(d);
      DocumentRereads(d);
    }
    if Survives(d) {
      SurvivorsArePrintable(d);
      DocumentReadsAs(d);
      DocumentRereads(d);
    }
  }

  lemma {:induction false} SurvivorsArePrintable(d: Dict)
    requires Survives(d)
    ensures Printable(d)
    decreases d
  {
    forall e | e in d ensures ValuePrintable(e.value) {
      if e.value.Map? {
        SurvivorsArePrintable(e.value.entries);
      }
    }
  }

  // A document that does not survive its own printing for its keys or its line breaks is
  // what no text at all reads as.
  lemma OnlyPrintableIsEverRead(d: Dict)
    requires !Printable(d)
    ensures forall text :: Parse(text) != d
  {
    forall text ensures Parse(text) != d {
      EveryParseIsPrintable(text);
    }
  }

  // The key alone decides for a document of one flag.
  lemma KeyComesThroughIff(key: string)
    ensures KeySurvives(key) <==> exists text :: Parse(text) == [Entry(key, Bool(true))]
    ensures KeySurvives(key) <==> Parse(PrintedText([Entry(key, Bool(true))])) == [Entry(key, Bool(true))]
  {
    var d := [Entry(key, Bool(true))];
    hide Parse, PrintedText;
    DocumentRoundTripIff(d);
    assert d[0] in d;
    if KeySurvives(key) {
      assert Survives(d);
    } else {
      OnlyPrintableIsEverRead(d);
    }
  }
}
