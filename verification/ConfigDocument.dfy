// Whole config documents: the recursive printer against the parser's stack of
// open dicts, indentation by indentation.
module ConfigDocument {
  import opened Basics
  import opened PyText
  import opened ConfigYaml

  // ---- the printer ---------------------------------------------------------------------

  function Pad(depth: nat): string { seq(2 * depth, _ => ' ') }

  function Tail(v: Value): string {
    match v
    case Map(_) => ""
    case List(items) => " " + ListRepr(items)
    case _ => " " + ScalarRepr(v)
  }

  function KeyLine(e: Entry, depth: nat): string { Pad(depth) + e.key + ":" + Tail(e.value) }

  function SubLines(e: Entry, depth: nat): seq<string>
    decreases e, 1
  {
    if e.value.Map? then DumpLines(e.value.entries, depth + 1) else []
  }

  function DumpLines(d: Dict, depth: nat): seq<string>
    decreases d, 0
  {
    if d == [] then []
    else DumpLines(d[..|d| - 1], depth) + [KeyLine(d[|d| - 1], depth)] + SubLines(d[|d| - 1], depth)
  }

  // "\n".join(lines)
  function JoinLines(lines: seq<string>): string {
    if lines == [] then "" else if |lines| == 1 then lines[0] else JoinLines(lines[..|lines| - 1]) + "\n" + lines[|lines| - 1]
  }

  // The printer's own loop: one element per line or per printed sub-dict.
  method HandDump(d: Dict, depth: nat) returns (text: string)
    ensures text == JoinLines(DumpLines(d, depth)) + if depth == 0 then "\n" else ""
    decreases d
  {
    var out: seq<string> := [];
    for k := 0 to |d|
      invariant SameText(out, DumpLines(d[..k], depth))
    {
      var e := d[k];
      assert d[..k + 1][..k] == d[..k];
      ghost var lines := DumpLines(d[..k], depth);
      SameTextGrows(out, lines, [KeyLine(e, depth)], [KeyLine(e, depth)]);
      out := out + [KeyLine(e, depth)];
      lines := lines + [KeyLine(e, depth)];
      if e.value.Map? && e.value.entries != [] {
        var sub := HandDump(e.value.entries, depth + 1);
        SameTextGrows(out, lines, [sub], SubLines(e, depth));
        out := out + [sub];
      } else {
        assert lines + SubLines(e, depth) == lines;
      }
    }
    assert d[..|d|] == d;
    text := JoinLines(out) + if depth == 0 then "\n" else "";
  }

  ghost predicate SameText(a: seq<string>, b: seq<string>) {
    JoinLines(a) == JoinLines(b) && (a == [] <==> b == [])
  }

  lemma SameTextGrows(a: seq<string>, b: seq<string>, a': seq<string>, b': seq<string>)
    requires SameText(a, b) && SameText(a', b')
    ensures SameText(a + a', b + b')
  {
    JoinLinesAppends(a, a');
    JoinLinesAppends(b, b');
  }

  lemma {:induction false} JoinLinesAppends(a: seq<string>, b: seq<string>)
    ensures JoinLines(a + b) == JoinLines(a) + (if a == [] || b == [] then "" else "\n") + JoinLines(b)
  {
    if b == [] {
      assert a + b == a;
    } else if a == [] {
      assert a + b == b;
    } else {
      var n := |b| - 1;
      assert (a + b)[..|a + b| - 1] == a + b[..n] && (a + b)[|a + b| - 1] == b[n];
      JoinLinesAppends(a, b[..n]);
      if n > 0 {
        assert JoinLines(b) == JoinLines(b[..n]) + "\n" + b[n];
      } else {
        assert a + b[..n] == a;
      }
    }
  }

  lemma {:induction false} JoinLinesIsUnlines(lines: seq<string>)
    requires lines != []
    ensures JoinLines(lines) + "\n" == Unlines(lines)
  {
    var n := |lines| - 1;
    var last := [lines[n]];
    assert lines == lines[..n] + last;
    UnlinesAppends(lines[..n], last);
    assert Unlines(last) == lines[n] + "\n" + Unlines([]);
    if n > 0 {
      JoinLinesIsUnlines(lines[..n]);
    } else {
      assert lines[..0] == [];
    }
  }

  // ---- the parser ------------------------------------------------------------------------

  datatype Parsed = Ignored | Setting(indent: nat, key: string, value: string)

  function LeadingSpaces(s: string): (n: nat)
    ensures n <= |s|
  {
    if s != "" && s[0] == ' ' then 1 + LeadingSpaces(s[1..]) else 0
  }

  function ParseLine(raw: string): Parsed {
    var line := Strip(raw);
    if line == "" || (LStrip(raw) != "" && LStrip(raw)[0] == '#') then Ignored
    else if ':' !in line then Ignored
    else
      var colon := Find(line, ':');
      Setting(LeadingSpaces(raw), Strip(line[..colon]), Strip(line[colon + 1..]))
  }

  // dict[key] = value
  function SetKey(d: Dict, key: string, value: Value): Dict {
    if d == [] then [Entry(key, value)]
    else if d[0].key == key then [Entry(key, value)] + d[1..]
    else [d[0]] + SetKey(d[1..], key, value)
  }

  // An open dict: its line's indentation, its key in the dict below, its content.
  datatype Frame = Frame(indent: int, key: string, dict: Dict)

  type Stack = s: seq<Frame> | s != [] witness [Frame(-1, "", [])]

  function Top(fs: Stack): Frame { fs[|fs| - 1] }

  function SetTop(fs: Stack, key: string, value: Value): Stack {
    fs[|fs| - 1 := Top(fs).(dict := SetKey(Top(fs).dict, key, value))]
  }

  // Closing the innermost dict hands its content to the dict below.
  function CloseTop(fs: Stack): Stack
    requires |fs| > 1
  {
    SetTop(fs[..|fs| - 1], Top(fs).key, Map(Top(fs).dict))
  }

  function PopTo(fs: Stack, indent: int): (r: Stack)
    ensures |r| <= |fs|
    decreases |fs|
  {
    if |fs| > 1 && Top(fs).indent >= indent then PopTo(CloseTop(fs), indent) else fs
  }

  function Feed(fs: Stack, line: Parsed): Stack {
    match line
    case Ignored => fs
    case Setting(indent, key, value) =>
      var open := PopTo(fs, indent);
      if value == "" then SetTop(open, key, Map([])) + [Frame(indent, key, [])]
      else SetTop(open, key, CoerceScalar(value))
  }

  function FeedAll(fs: Stack, lines: seq<string>): Stack {
    if lines == [] then fs else Feed(FeedAll(fs, lines[..|lines| - 1]), ParseLine(lines[|lines| - 1]))
  }

  const ROOT: Stack := [Frame(-1, "", [])]

  function Parse(text: string): Dict { Top(PopTo(FeedAll(ROOT, SplitLines(text)), 0)).dict }

  // The parser's loop over lines, with its inner popping loop.
  method ParseSimpleYaml(text: string) returns (root: Dict)
    ensures root == Parse(text)
  {
    var lines := SplitLines(text);
    var stack: Stack := ROOT;
    for k := 0 to |lines|
      invariant stack == FeedAll(ROOT, lines[..k])
    {
      assert lines[..k + 1][..k] == lines[..k];
      var line := ParseLine(lines[k]);
      if line.Ignored? {
        continue;
      }
      ghost var before := stack;
      while |stack| > 1 && line.indent <= Top(stack).indent
        invariant PopTo(stack, line.indent) == PopTo(before, line.indent)
        decreases |stack|
      {
        stack := CloseTop(stack);
      }
      if line.value == "" {
        stack := SetTop(stack, line.key, Map([])) + [Frame(line.indent, line.key, [])];
      } else {
        stack := SetTop(stack, line.key, CoerceScalar(line.value));
      }
    }
    assert lines[..|lines|] == lines;
    ghost var fed := stack;
    while |stack| > 1 && Top(stack).indent >= 0
      invariant PopTo(stack, 0) == PopTo(fed, 0)
      decreases |stack|
    {
      stack := CloseTop(stack);
    }
    root := Top(stack).dict;
  }

  // ---- one printed line is read back -----------------------------------------------------

  predicate KeySurvives(key: string) {
    Trimmed(key) && OneLine(key) && ':' !in key && (key == "" || key[0] != '#')
  }

  lemma {:induction false} LeadingSpacesOf(depth: nat, rest: string)
    requires rest != "" && rest[0] != ' '
    ensures LeadingSpaces(Pad(depth) + rest) == 2 * depth
    decreases depth
  {
    if depth > 0 {
      var s := Pad(depth) + rest;
      assert s[1..][1..] == Pad(depth - 1) + rest;
      LeadingSpacesOf(depth - 1, rest);
    } else {
      assert Pad(0) + rest == rest;
    }
  }

  // The parts of a printed line without the blanks at its ends.
  lemma PrintedLineStrips(depth: nat, key: string, tail: string)
    requires KeySurvives(key)
    ensures var raw, body := Pad(depth) + key + ":" + tail, key + ":";
            LStrip(raw) == body + tail && Strip(raw) == body + RStrip(tail) && LeadingSpaces(raw) == 2 * depth
  {
    var body := key + ":";
    assert Pad(depth) + key + ":" + tail == Pad(depth) + (body + tail);
    assert body[0] == (if key == "" then ':' else key[0]) && body[|body| - 1] == ':';
    assert (body + tail)[0] == body[0];
    LStripPrefix(Pad(depth), body + tail);
    RStripAfter(body, tail);
    LeadingSpacesOf(depth, body + tail);
  }

  lemma LineParses(raw: string, key: string, rest: string)
    requires KeySurvives(key) && Strip(raw) == key + ":" + rest && LStrip(raw) != "" && LStrip(raw)[0] == (key + ":")[0]
    ensures ParseLine(raw) == Setting(LeadingSpaces(raw), key, Strip(rest))
  {
    var line := key + ":" + rest;
    assert line == key + [':'] + rest;
    FindAt(key, ':', rest);
    assert line[..|key|] == key && line[|key| + 1..] == rest && line[|key|] == ':';
    assert (key + ":")[0] == if key == "" then ':' else key[0];
    StripIsTrimmed(key);
  }

  // Whatever follows the colon, its text without edge blanks is the value.
  lemma PrintedLineReadsBack(depth: nat, key: string, tail: string)
    requires KeySurvives(key)
    ensures ParseLine(Pad(depth) + key + ":" + tail) == Setting(2 * depth, key, Strip(tail))
  {
    hide ParseLine, LStrip, RStrip;
    PrintedLineStrips(depth, key, tail);
    StripTwice(tail);
    LineParses(Pad(depth) + key + ":" + tail, key, RStrip(tail));
  }

  // ---- what a printed document reads as ------------------------------------------------------

  // Keys that a line can hold, each once, and values on one line, at every depth.
  ghost predicate Printable(d: Dict)
    decreases d, 1
  {
    && (forall i, j :: 0 <= i < j < |d| ==> d[i].key != d[j].key)
    && forall e :: e in d ==> KeySurvives(e.key) && ValuePrintable(e.value)
  }

  ghost predicate ValuePrintable(v: Value)
    decreases v, 0
  {
    match v
    case Map(entries) => Printable(entries)
    case List(items) => forall k :: 0 <= k < |items| ==> OneLine(items[k])
    case Str(text) => OneLine(text)
    case Float(literal) => OneLine(literal)
    case _ => true
  }

  function Sub(v: Value): Dict { if v.Map? then v.entries else [] }

  // Nothing but blanks after the colon opens a mapping.
  function Reread(v: Value): Value
    decreases v, 0
  {
    var text := Strip(Tail(v));
    if text != "" then CoerceScalar(text) else if v.Map? then Map(RereadAll(v.entries)) else Map([])
  }

  function RereadAll(d: Dict): Dict
    decreases d, 1
  {
    if d == [] then []
    else RereadAll(d[..|d| - 1]) + [Entry(d[|d| - 1].key, Reread(d[|d| - 1].value))]
  }

  lemma {:induction false} RereadAt(d: Dict, i: nat)
    requires i < |d|
    ensures |RereadAll(d)| == |d| && RereadAll(d)[i] == Entry(d[i].key, Reread(d[i].value))
  {
    hide Reread;
    if i < |d| - 1 {
      RereadAt(d[..|d| - 1], i);
    } else if i > 0 {
      RereadAt(d[..|d| - 1], i - 1);
    }
  }

  ghost predicate NewKey(d: Dict, key: string) { forall e :: e in d ==> e.key != key }

  ghost predicate NewKeys(d: Dict, added: Dict) { forall e :: e in added ==> NewKey(d, e.key) }

  lemma {:induction false} SetNewKey(d: Dict, key: string, value: Value)
    requires NewKey(d, key)
    ensures SetKey(d, key, value) == d + [Entry(key, value)]
  {
    if d != [] {
      assert d[0] in d;
      SetNewKey(d[1..], key, value);
    }
  }

  lemma {:induction false} ResetLastKey(d: Dict, key: string, old_: Value, value: Value)
    requires NewKey(d, key)
    ensures SetKey(d + [Entry(key, old_)], key, value) == d + [Entry(key, value)]
  {
    var d' := d + [Entry(key, old_)];
    if d != [] {
      assert d[0] in d;
      assert d'[1..] == d[1..] + [Entry(key, old_)];
      ResetLastKey(d[1..], key, old_, value);
    }
  }

  lemma {:induction false} PopToTwice(fs: Stack, a: int, b: int)
    requires b <= a
    ensures PopTo(PopTo(fs, a), b) == PopTo(fs, b)
    decreases |fs|
  {
    if |fs| > 1 && Top(fs).indent >= a {
      PopToTwice(CloseTop(fs), a, b);
    }
  }

  // The stack with entries added to its innermost dict.
  function Extend(fs: Stack, d: Dict): Stack {
    fs[|fs| - 1 := Top(fs).(dict := Top(fs).dict + d)]
  }

  lemma {:induction false} FeedAllAppends(fs: Stack, a: seq<string>, b: seq<string>)
    ensures FeedAll(fs, a + b) == FeedAll(FeedAll(fs, a), b)
  {
    if b == [] {
      assert a + b == a;
    } else {
      var n := |b| - 1;
      assert (a + b)[..|a + b| - 1] == a + b[..n];
      FeedAllAppends(fs, a, b[..n]);
    }
  }

  lemma CloseExtended(fs: Stack, key: string, entries: Dict, depth: nat)
    requires NewKey(Top(fs).dict, key)
    ensures var inner := SetTop(fs, key, Map([])) + [Frame(2 * depth, key, [])];
            CloseTop(Extend(inner, entries)) == Extend(fs, [Entry(key, Map(entries))])
  {
    var top := Top(fs).dict;
    SetNewKey(top, key, Map([]));
    ResetLastKey(top, key, Map([]), Map(entries));
    var inner := SetTop(fs, key, Map([])) + [Frame(2 * depth, key, [])];
    assert [] + entries == entries;
    assert Extend(inner, entries)[..|fs|] == SetTop(fs, key, Map([]));
  }

  lemma FrontPrintable(d: Dict)
    requires Printable(d) && d != []
    ensures Printable(d[..|d| - 1]) && KeySurvives(d[|d| - 1].key) && ValuePrintable(d[|d| - 1].value)
    ensures NewKey(d[..|d| - 1], d[|d| - 1].key)
  {
    assert d[|d| - 1] in d;
  }

  lemma SameKeys(d: Dict, d': Dict, key: string)
    requires |d| == |d'| && forall i :: 0 <= i < |d| ==> d[i].key == d'[i].key
    ensures NewKey(d, key) <==> NewKey(d', key)
  {
    assert forall i :: 0 <= i < |d| ==> d[i] in d && d'[i] in d';
  }

  lemma FrontNewKeys(top: Dict, d: Dict)
    requires d != [] && NewKeys(top, d) && NewKey(d[..|d| - 1], d[|d| - 1].key)
    ensures NewKeys(top, d[..|d| - 1]) && NewKey(top + RereadAll(d[..|d| - 1]), d[|d| - 1].key)
  {
    assert d[|d| - 1] in d;
    var front := d[..|d| - 1];
    forall i | 0 <= i < |front| ensures |RereadAll(front)| == |front| && RereadAll(front)[i].key == front[i].key {
      RereadAt(front, i);
    }
    SameKeys(front, RereadAll(front), d[|d| - 1].key);
  }

  lemma ExtendTwice(fs: Stack, d: Dict)
    requires d != []
    ensures Extend(Extend(fs, d[..|d| - 1]), [d[|d| - 1]]) == Extend(fs, d)
  {
    assert d == d[..|d| - 1] + [d[|d| - 1]];
    assert Top(fs).dict + d == Top(fs).dict + d[..|d| - 1] + [d[|d| - 1]];
  }

  lemma FeedLines(fs: Stack, d: Dict, depth: nat)
    requires d != []
    ensures var e, front := d[|d| - 1], FeedAll(fs, DumpLines(d[..|d| - 1], depth));
            FeedAll(fs, DumpLines(d, depth)) == FeedAll(Feed(front, ParseLine(KeyLine(e, depth))), SubLines(e, depth))
  {
    var e, lines := d[|d| - 1], DumpLines(d[..|d| - 1], depth);
    FeedAllAppends(fs, lines, [KeyLine(e, depth)]);
    FeedAllAppends(fs, lines + [KeyLine(e, depth)], SubLines(e, depth));
    FeedOne(FeedAll(fs, lines), KeyLine(e, depth));
  }

  // Feeding a printed dict to a stack whose innermost dict opened further left
  // adds exactly what its entries read as, up to dicts not yet closed.
  lemma {:induction false} PrintedDictReadsBack(fs: Stack, d: Dict, depth: nat)
    requires Printable(d) && Top(fs).indent < 2 * depth && NewKeys(Top(fs).dict, d)
    ensures PopTo(FeedAll(fs, DumpLines(d, depth)), 2 * depth) == Extend(fs, RereadAll(d))
    decreases d
  {
    if d == [] {
      assert Top(fs).dict + RereadAll(d) == Top(fs).dict;
      assert Extend(fs, RereadAll(d)) == fs;
    } else {
      hide Feed, ParseLine, PopTo, KeyLine, SubLines, Reread;
      var front, e := d[..|d| - 1], d[|d| - 1];
      assert e in d;
      FrontPrintable(d);
      FrontNewKeys(Top(fs).dict, d);
      PrintedDictReadsBack(fs, front, depth);
      EntryReadsBack(FeedAll(fs, DumpLines(front, depth)), Extend(fs, RereadAll(front)), e, depth);
      FeedLines(fs, d, depth);
      RereadAt(d, |d| - 1);
      ExtendTwice(fs, RereadAll(d));
      assert RereadAll(d)[..|d| - 1] == RereadAll(front);
    }
  }

  lemma FeedOne(fs: Stack, line: string)
    ensures FeedAll(fs, [line]) == Feed(fs, ParseLine(line))
  {
    assert [line][..0] == [];
  }

  // One entry: its line, then the lines of its sub-dict, if it is one.
  lemma EntryReadsBack(before: Stack, fs: Stack, e: Entry, depth: nat)
    requires KeySurvives(e.key) && ValuePrintable(e.value)
    requires PopTo(before, 2 * depth) == fs && Top(fs).indent < 2 * depth && NewKey(Top(fs).dict, e.key)
    ensures PopTo(FeedAll(Feed(before, ParseLine(KeyLine(e, depth))), SubLines(e, depth)), 2 * depth)
         == Extend(fs, [Entry(e.key, Reread(e.value))])
    decreases e, 1
  {
    hide ParseLine, CoerceScalar, Tail, Strip;
    PrintedLineReadsBack(depth, e.key, Tail(e.value));
    if Strip(Tail(e.value)) == "" {
      SubDictReadsBack(fs, e, depth);
    } else {
      TailOfMap(e.value);
      SetIsExtend(fs, Entry(e.key, Reread(e.value)));
    }
  }

  lemma TailOfMap(v: Value)
    ensures v.Map? ==> Strip(Tail(v)) == ""
  {
  }

  lemma SetIsExtend(fs: Stack, e: Entry)
    requires NewKey(Top(fs).dict, e.key)
    ensures SetTop(fs, e.key, e.value) == Extend(fs, [e])
  {
    SetNewKey(Top(fs).dict, e.key, e.value);
  }

  lemma SubDictReadsBack(fs: Stack, e: Entry, depth: nat)
    requires ValuePrintable(e.value)
    requires Top(fs).indent < 2 * depth && NewKey(Top(fs).dict, e.key)
    ensures var inner: Stack := SetTop(fs, e.key, Map([])) + [Frame(2 * depth, e.key, [])];
            PopTo(FeedAll(inner, SubLines(e, depth)), 2 * depth) == Extend(fs, [Entry(e.key, Map(RereadAll(Sub(e.value))))])
    decreases e, 0
  {
    hide PopTo, CloseTop, FeedAll, DumpLines, RereadAll, SetTop;
    var entries := RereadAll(Sub(e.value));
    var inner: Stack := SetTop(fs, e.key, Map([])) + [Frame(2 * depth, e.key, [])];
    if e.value.Map? {
      PrintedDictReadsBack(inner, e.value.entries, depth + 1);
      PopToTwice(FeedAll(inner, SubLines(e, depth)), 2 * (depth + 1), 2 * depth);
    } else {
      NoEntries(inner);
      assert Top(inner).dict + [] == Top(inner).dict;
      assert Extend(inner, []) == inner;
    }
    CloseExtended(fs, e.key, entries, depth);
    PopStep(Extend(inner, entries), Extend(fs, [Entry(e.key, Map(entries))]), 2 * depth);
  }

  lemma NoEntries(fs: Stack)
    ensures FeedAll(fs, []) == fs && RereadAll([]) == []
  {
  }

  lemma PopStep(fs: Stack, closed: Stack, indent: int)
    requires |fs| > 1 && Top(fs).indent >= indent && CloseTop(fs) == closed && Top(closed).indent < indent
    ensures PopTo(fs, indent) == closed
  {
  }

  function PrintedText(d: Dict): string { JoinLines(DumpLines(d, 0)) + "\n" }

  // Printing a config and reading it back gives what its values read as, entry for
  // entry and in order, however deep.
  lemma DocumentReadsAs(d: Dict)
    requires Printable(d)
    ensures Parse(PrintedText(d)) == RereadAll(d)
  {
    if d == [] {
      NothingReadsAs();
    } else {
      hide FeedAll, PopTo, Unlines, SplitLines, Feed, ParseLine, DumpLines, RereadAll, JoinLines;
      DumpLinesAreLines(d, 0);
      JoinLinesIsUnlines(DumpLines(d, 0));
      SplitUnlines(DumpLines(d, 0));
      PrintedDictReadsBack(ROOT, d, 0);
    }
  }

  lemma NothingReadsAs()
    ensures Parse(PrintedText([])) == RereadAll([])
  {
    hide Unlines, SplitLines, PopTo;
    assert PrintedText([]) == "\n";
    BlankText();
    FeedOne(ROOT, "");
    NothingToPop();
  }

  lemma BlankText()
    ensures SplitLines("\n") == [""]
  {
    assert Unlines([""]) == "\n";
    SplitUnlines([""]);
  }

  lemma NothingToPop()
    ensures PopTo(ROOT, 0) == ROOT
  {
  }

  lemma {:induction false} DumpLinesAreLines(d: Dict, depth: nat)
    requires Printable(d)
    ensures forall k :: 0 <= k < |DumpLines(d, depth)| ==> OneLine(DumpLines(d, depth)[k])
    ensures DumpLines(d, depth) == [] <==> d == []
    decreases d
  {
    if d != [] {
      var e := d[|d| - 1];
      FrontPrintable(d);
      DumpLinesAreLines(d[..|d| - 1], depth);
      KeyLineIsOneLine(e, depth);
      if e.value.Map? {
        DumpLinesAreLines(e.value.entries, depth + 1);
      }
    }
  }

  lemma TailIsOneLine(v: Value)
    requires ValuePrintable(v)
    ensures OneLine(Tail(v))
  {
    match v
    case List(items) => if items != [] { ReprsAreOneLine(items); JoinCommaIsOneLine(Reprs(items)); }
    case Int(n) => ShowIntIsOneLine(n);
    case Str(text) => ReprIsOneLine(text);
    case _ =>
  }

  lemma ReprIsOneLine(text: string)
    requires OneLine(text)
    ensures OneLine(StrRepr(text))
  {
    QuotedIsOneLine(text);
  }

  lemma QuotedIsOneLine(text: string)
    requires OneLine(text)
    ensures OneLine("\"" + text + "\"")
  {
  }

  lemma ReprsAreOneLine(items: seq<string>)
    requires forall k :: 0 <= k < |items| ==> OneLine(items[k])
    ensures forall k :: 0 <= k < |items| ==> OneLine(Reprs(items)[k])
  {
    forall k | 0 <= k < |items| ensures OneLine(Reprs(items)[k]) { ReprIsOneLine(items[k]); }
  }

  lemma KeyLineIsOneLine(e: Entry, depth: nat)
    requires KeySurvives(e.key) && ValuePrintable(e.value)
    ensures OneLine(KeyLine(e, depth))
  {
    TailIsOneLine(e.value);
    var tail := Tail(e.value);
    assert KeyLine(e, depth) == Pad(depth) + e.key + ":" + tail;
    assert OneLine(Pad(depth) + e.key);
  }

  lemma ShowIntIsOneLine(n: int)
    ensures OneLine(ShowInt(n))
  {
    ShowNatParses(if n < 0 then -n else n);
  }

  lemma {:induction false} JoinCommaIsOneLine(parts: seq<string>)
    requires parts != [] && forall k :: 0 <= k < |parts| ==> OneLine(parts[k])
    ensures OneLine(JoinComma(parts))
  {
    assert OneLine(parts[0]);
    if |parts| > 1 {
      JoinCommaIsOneLine(parts[1..]);
    }
  }
}
