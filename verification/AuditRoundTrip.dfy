// When the audit log's reader finds the cells its writer wrote.
module AuditRoundTrip {
  import opened Basics
  import opened PyText
  import opened AuditLog

  // ---- backslashes and pipes -----------------------------------------------------------------

  // The number of backslashes that end just before a position.
  function RunBefore(v: string, i: nat): nat
    requires i <= |v|
  {
    if i > 0 && v[i - 1] == '\\' then 1 + RunBefore(v, i - 1) else 0
  }

  // Every run of backslashes directly before a pipe has even length.
  predicate EvenRuns(v: string) {
    forall i :: 0 <= i < |v| && v[i] == '|' ==> RunBefore(v, i) % 2 == 0
  }

  // The pipes of a text that a reader takes for cell borders, and how it ends.
  function Borders(s: string, escaped: bool): nat {
    if s == "" then 0
    else if !escaped && s[0] == '|' then 1 + Borders(s[1..], false)
    else Borders(s[1..], !escaped && s[0] == '\\')
  }

  function EndsEscaped(s: string, escaped: bool): bool {
    if s == "" then escaped else EndsEscaped(s[1..], !escaped && s[0] == '\\')
  }

  lemma {:induction false} BordersAdd(a: string, b: string, escaped: bool)
    ensures Borders(a + b, escaped) == Borders(a, escaped) + Borders(b, EndsEscaped(a, escaped))
    ensures EndsEscaped(a + b, escaped) == EndsEscaped(b, EndsEscaped(a, escaped))
  {
    if a == "" {
      assert a + b == b;
    } else {
      assert (a + b)[1..] == a[1..] + b;
      BordersAdd(a[1..], b, !escaped && a[0] == '\\');
    }
  }

  // The rule for the pipes before a position.
  predicate EvenUpTo(v: string, n: nat)
    requires n <= |v|
  {
    forall i :: 0 <= i < n && v[i] == '|' ==> RunBefore(v, i) % 2 == 0
  }

  lemma EvenOneMore(v: string, n: nat)
    requires 0 < n <= |v|
    ensures EvenUpTo(v, n) <==> EvenUpTo(v, n - 1) && (v[n - 1] == '|' ==> RunBefore(v, n - 1) % 2 == 0)
  {
  }

  // After the escaped form of a text the reader has seen a border exactly when some
  // pipe has an odd run before it; its own flag is the parity of the run.
  lemma {:induction false} EscapedPrefix(v: string, n: nat)
    requires n <= |v|
    ensures EndsEscaped(Escaped(v[..n]), false) == (RunBefore(v, n) % 2 == 1)
    ensures Borders(Escaped(v[..n]), false) == 0 <==> EvenUpTo(v, n)
  {
    if n > 0 {
      hide Escaped, Borders, EndsEscaped, EvenUpTo;
      EscapedPrefix(v, n - 1);
      var last := [v[n - 1]];
      assert v[..n] == v[..n - 1] + last;
      EscapedAdd(v[..n - 1], last);
      BordersAdd(Escaped(v[..n - 1]), Escaped(last), false);
      OneCharacter(v[n - 1], RunBefore(v, n - 1) % 2 == 1);
      EvenOneMore(v, n);
    }
  }

  lemma {:induction false} EscapedAdd(a: string, b: string)
    ensures Escaped(a + b) == Escaped(a) + Escaped(b)
  {
    if a == "" {
      assert a + b == b;
    } else {
      assert (a + b)[1..] == a[1..] + b;
      EscapedAdd(a[1..], b);
    }
  }

  lemma OneCharacter(c: char, escaped: bool)
    ensures Borders(Escaped([c]), escaped) == if c == '|' && escaped then 1 else 0
    ensures EndsEscaped(Escaped([c]), escaped) == (c == '\\' && !escaped)
  {
    assert Escaped([c][1..]) == "";
    var s := Escaped([c]);
    if c == '|' {
      assert s == "\\|" && s[1..] == "|" && "|"[1..] == "";
      assert Borders("|", !escaped) == (if escaped then 1 else 0) && !EndsEscaped("|", !escaped);
    } else if c == '\n' {
      assert s == " " && s[1..] == "";
    } else {
      assert s == [c] && s[1..] == "";
    }
  }

  lemma BordersOfEscaped(v: string)
    ensures Borders(Escaped(v), false) == 0 <==> EvenRuns(v)
  {
    EscapedPrefix(v, |v|);
    assert v[..|v|] == v;
  }

  // ---- blanks around a cell ----------------------------------------------------------------------

  lemma {:induction false} BlankHasNoBorders(s: string, escaped: bool)
    requires Blank(s)
    ensures Borders(s, escaped) == 0 && EndsEscaped(s, escaped) == (s == "" && escaped)
  {
    if s != "" {
      assert s[0] in s;
      BlankHasNoBorders(s[1..], false);
    }
  }

  lemma BordersOfCell(v: string)
    ensures Borders(EscapeCell(v), false) == 0 <==> EvenRuns(v)
    ensures Borders(Escaped(v), false) == Borders(EscapeCell(v), false)
  {
    var left, right := StripParts(Escaped(v));
    var cell := EscapeCell(v);
    BordersOfEscaped(v);
    BordersAdd(left + cell, right, false);
    BordersAdd(left, cell, false);
    BlankHasNoBorders(left, false);
    BlankHasNoBorders(right, EndsEscaped(left + cell, false));
  }

  // ---- one row ----------------------------------------------------------------------------------------

  // A text without borders and without a dangling backslash, then a pipe, is one cell.
  lemma {:induction false} ScanCell(cell: string, rest: string, current: string, escaped: bool)
    requires Borders(cell, escaped) == 0 && !EndsEscaped(cell, escaped)
    ensures Scan(cell + "|" + rest, current, escaped) == [Strip(current + cell)] + Scan(rest, "", false)
  {
    var s := cell + "|" + rest;
    if cell == "" {
      assert s[0] == '|' && s[1..] == rest && current + cell == current;
    } else {
      assert s[0] == cell[0] && s[1..] == cell[1..] + "|" + rest;
      ScanCell(cell[1..], rest, current + [cell[0]], !escaped && cell[0] == '\\');
      assert current + [cell[0]] + cell[1..] == current + cell;
    }
  }

  lemma {:induction false} ScanLast(cell: string, current: string, escaped: bool)
    requires Borders(cell, escaped) == 0
    ensures Scan(cell, current, escaped) == [Strip(current + cell)]
  {
    if cell == "" {
      assert current + cell == current;
    } else {
      ScanLast(cell[1..], current + [cell[0]], !escaped && cell[0] == '\\');
      assert current + [cell[0]] + cell[1..] == current + cell;
    }
  }

  // However the borders fall, they count the cells.
  lemma {:induction false} ScanCount(s: string, current: string, escaped: bool)
    ensures |Scan(s, current, escaped)| == 1 + Borders(s, escaped)
  {
    if s != "" {
      if !escaped && s[0] == '|' {
        ScanCount(s[1..], "", false);
      } else {
        ScanCount(s[1..], current + [s[0]], !escaped && s[0] == '\\');
      }
    }
  }

  function Padded(w: string): string { " " + w + " " }

  lemma PaddedCell(w: string)
    ensures Borders(Padded(w), false) == Borders(w, false) && !EndsEscaped(Padded(w), false)
    ensures Strip(Padded(w)) == Strip(w)
  {
    BordersAdd(" " + w, " ", false);
    BordersAdd(" ", w, false);
    BlankHasNoBorders(" ", false);
    BlankHasNoBorders(" ", EndsEscaped(" " + w, false));
    StripInside(" ", w, " ");
  }

  // What lies between the outer pipes of a row of four texts.
  function Inner(a: string, b: string, c: string, d: string): string {
    Padded(a) + "|" + (Padded(b) + "|" + (Padded(c) + "|" + Padded(d)))
  }

  lemma FirstCell(w: string, rest: string)
    requires Borders(w, false) == 0
    ensures Scan(Padded(w) + "|" + rest, "", false) == [Strip(w)] + Scan(rest, "", false)
  {
    PaddedCell(w);
    ScanCell(Padded(w), rest, "", false);
    assert "" + Padded(w) == Padded(w);
  }

  lemma LastCell(w: string)
    requires Borders(w, false) == 0
    ensures Scan(Padded(w), "", false) == [Strip(w)]
  {
    PaddedCell(w);
    ScanLast(Padded(w), "", false);
    assert "" + Padded(w) == Padded(w);
  }

  lemma InnerCells(a: string, b: string, c: string, d: string)
    requires Borders(a, false) == 0 && Borders(b, false) == 0 && Borders(c, false) == 0 && Borders(d, false) == 0
    ensures Scan(Inner(a, b, c, d), "", false) == [Strip(a), Strip(b), Strip(c), Strip(d)]
  {
    hide Scan, Borders, Padded, Strip;
    FirstCell(a, Padded(b) + "|" + (Padded(c) + "|" + Padded(d)));
    FirstCell(b, Padded(c) + "|" + Padded(d));
    FirstCell(c, Padded(d));
    LastCell(d);
  }

  lemma BordersThenPipe(cell: string, rest: string)
    requires !EndsEscaped(cell, false)
    ensures Borders(cell + "|" + rest, false) == Borders(cell, false) + 1 + Borders(rest, false)
  {
    BordersAdd(cell + "|", rest, false);
    BordersAdd(cell, "|", false);
    assert "|"[1..] == "" && Borders("|", false) == 1 && !EndsEscaped("|", false);
  }

  lemma InnerBorders(a: string, b: string, c: string, d: string)
    ensures Borders(Inner(a, b, c, d), false) == 3 + Borders(a, false) + Borders(b, false) + Borders(c, false) + Borders(d, false)
  {
    PaddedCell(a);
    PaddedCell(b);
    PaddedCell(c);
    PaddedCell(d);
    BordersThenPipe(Padded(a), Padded(b) + "|" + (Padded(c) + "|" + Padded(d)));
    BordersThenPipe(Padded(b), Padded(c) + "|" + Padded(d));
    BordersThenPipe(Padded(c), Padded(d));
  }

  // Text before a tail, then the padded middle of a row.
  lemma BarText(a: string, tail: string)
    ensures "| " + a + (" |" + tail) == "|" + (Padded(a) + ("|" + tail))
  {
    assert "| " == "|" + " " && " |" == " " + "|";
  }

  lemma RowShape(a: string, b: string, c: string, d: string)
    ensures "| " + a + " | " + b + " | " + c + " | " + d + " |" == "|" + Inner(a, b, c, d) + "|"
  {
    var tail3 := " " + d + " |";
    var tail2 := " " + c + " |" + tail3;
    var tail1 := " " + b + " |" + tail2;
    assert " | " == " |" + " ";
    assert "| " + a + " | " + b + " | " + c + " | " + d + " |" == "| " + a + (" |" + tail1);
    BarText(a, tail1);
    assert tail3 == Padded(d) + "|";
    assert tail2 == Padded(c) + "|" + tail3;
    assert tail1 == Padded(b) + "|" + tail2;
  }

  lemma BetweenPipes(inner: string)
    ensures ParseRow("|" + inner + "|") == Some(Scan(inner, "", false))
  {
    var line := "|" + inner + "|";
    StripIsTrimmed(line);
    assert line[1..|line| - 1] == inner;
  }

  lemma RowLineParses(e: Entry)
    ensures ParseRow(RowLine(e)) ==
            Some(Scan(Inner(EscapeCell(e.timestamp), EscapeCell(e.change), Source(e), EscapeCell(e.token)), "", false))
  {
    hide Inner, ParseRow, Scan, EscapeCell, Source;
    RowShape(EscapeCell(e.timestamp), EscapeCell(e.change), Source(e), EscapeCell(e.token));
    BetweenPipes(Inner(EscapeCell(e.timestamp), EscapeCell(e.change), Source(e), EscapeCell(e.token)));
  }

  // ---- when the written cells are read back ---------------------------------------------------------------

  predicate EvenEntry(e: Entry) {
    EvenRuns(e.timestamp) && EvenRuns(e.change) && EvenRuns(e.chatId) && EvenRuns(e.messageId) && EvenRuns(e.token)
  }

  // The cells of a row, as they were written and trimmed.
  function WrittenCells(e: Entry): seq<string> {
    [EscapeCell(e.timestamp), EscapeCell(e.change), Strip(EscapeCell(e.chatId) + ", " + EscapeCell(e.messageId)), EscapeCell(e.token)]
  }

  lemma SourceBorders(e: Entry)
    ensures Borders(Source(e), false) == Borders(EscapeCell(e.chatId), false) + Borders(EscapeCell(e.messageId), false)
  {
    var chat, message := EscapeCell(e.chatId), EscapeCell(e.messageId);
    BordersAdd(chat + ", ", message, false);
    BordersAdd(chat, ", ", false);
    assert ", "[1..] == " ";
    BlankHasNoBorders(" ", false);
  }

  // A row is read as the four cells written exactly when, in each field, every run of
  // backslashes directly before a pipe has even length; otherwise as more than four.
  lemma RowReadsBackIff(e: Entry)
    ensures ParseRow(RowLine(e)).Some?
    ensures EvenEntry(e) <==> ParseRow(RowLine(e)) == Some(WrittenCells(e))
    ensures EvenEntry(e) <==> |ParseRow(RowLine(e)).value| == 4
    ensures |ParseRow(RowLine(e)).value| >= 4
  {
    hide Escaped, Scan, Borders, EvenRuns, ParseRow, RowLine, Inner;
    var a, b, c, d := EscapeCell(e.timestamp), EscapeCell(e.change), Source(e), EscapeCell(e.token);
    RowLineParses(e);
    ScanCount(Inner(a, b, c, d), "", false);
    InnerBorders(a, b, c, d);
    BordersOfCell(e.timestamp);
    BordersOfCell(e.change);
    BordersOfCell(e.chatId);
    BordersOfCell(e.messageId);
    BordersOfCell(e.token);
    SourceBorders(e);
    if EvenEntry(e) {
      InnerCells(a, b, c, d);
      StripIsTrimmed(Escaped(e.timestamp));
      StripIsTrimmed(Escaped(e.change));
      StripIsTrimmed(Escaped(e.token));
      StripIsTrimmed(a);
      StripIsTrimmed(b);
      StripIsTrimmed(d);
    }
  }

  // What escaping makes of each character, wherever it stands: the pipe gets a backslash,
  // a newline becomes a space, everything else stays.
  lemma EscapedAt(before: string, c: char, after: string)
    ensures Escaped(before + ([c] + after)) ==
            Escaped(before) + ((if c == '|' then "\\|" else if c == '\n' then " " else [c]) + Escaped(after))
  {
    EscapedAdd(before, [c] + after);
    assert ([c] + after)[1..] == after;
  }

  lemma {:induction false} PlainIsKept(v: string)
    requires '|' !in v && '\n' !in v
    ensures Escaped(v) == v && EvenRuns(v)
  {
    if v != "" {
      PlainIsKept(v[1..]);
      assert v == [v[0]] + v[1..];
    }
  }

  predicate Plain(v: string) { '|' !in v && '\n' !in v }

  // An entry without pipes and newlines is read as its own fields, without edge blanks:
  // the time, the change, chat and message in that order, and the token.
  lemma PlainEntryReadsBack(e: Entry)
    requires Plain(e.timestamp) && Plain(e.change) && Plain(e.chatId) && Plain(e.messageId) && Plain(e.token)
    ensures ParseRow(RowLine(e)) ==
            Some([Strip(e.timestamp), Strip(e.change), Strip(Strip(e.chatId) + ", " + Strip(e.messageId)), Strip(e.token)])
  {
    hide ParseRow, RowLine, Strip, Escaped, EvenRuns;
    PlainIsKept(e.timestamp);
    PlainIsKept(e.change);
    PlainIsKept(e.chatId);
    PlainIsKept(e.messageId);
    PlainIsKept(e.token);
    RowReadsBackIff(e);
  }

  // Such a field: one backslash and then a pipe.  The backslash that the writer puts
  // before the pipe is itself escaped, so the pipe ends a cell and the reader finds five.
  lemma BackslashBeforePipeSplits()
    ensures
      var e := Entry("", "\\|", "", "", "");
      !EvenRuns(e.change) && ParseRow(RowLine(e)).Some? && |ParseRow(RowLine(e)).value| == 5
  {
    hide ParseRow, RowLine, Inner, Scan, Escaped, Source;
    var e := Entry("", "\\|", "", "", "");
    assert RunBefore(e.change, 1) == 1 + RunBefore(e.change, 0);
    EscapedBackslashPipe();
    RowLineParses(e);
    ScanCount(Inner(EscapeCell(""), EscapeCell(e.change), Source(e), EscapeCell("")), "", false);
    InnerBorders(EscapeCell(""), EscapeCell(e.change), Source(e), EscapeCell(""));
    SourceBorders(e);
  }

  lemma EscapedBackslashPipe()
    ensures Borders(EscapeCell("\\|"), false) == 1 && Borders(EscapeCell(""), false) == 0
  {
    BordersOfCell("\\|");
    BordersOfCell("");
    EscapedAdd("\\", "|");
    assert "\\" + "|" == "\\|";
    BordersAdd(Escaped("\\"), Escaped("|"), false);
    OneCharacter('\\', false);
    OneCharacter('|', true);
    assert ['\\'] == "\\" && ['|'] == "|";
  }

  // ---- the whole file -----------------------------------------------------------------------------------

  // The text after a number of appends to a file that was not there.
  function TextAfter(entries: seq<Entry>): string {
    if entries == [] then Unlines(HEADER_LINES)
    else TextAfter(entries[..|entries| - 1]) + FormatRow(entries[|entries| - 1])
  }

  function RowLines(entries: seq<Entry>): seq<string> {
    if entries == [] then [] else RowLines(entries[..|entries| - 1]) + [RowLine(entries[|entries| - 1])]
  }

  lemma {:induction false} TextIsLines(entries: seq<Entry>)
    ensures TextAfter(entries) == Unlines(HEADER_LINES + RowLines(entries))
  {
    hide RowLine;
    if entries == [] {
      assert HEADER_LINES + [] == HEADER_LINES;
    } else {
      var before, row := entries[..|entries| - 1], RowLine(entries[|entries| - 1]);
      TextIsLines(before);
      assert HEADER_LINES + RowLines(entries) == (HEADER_LINES + RowLines(before)) + [row];
      UnlinesAppends(HEADER_LINES + RowLines(before), [row]);
      OneUnline(row);
    }
  }

  lemma OneUnline(row: string)
    ensures Unlines([row]) == row + "\n"
  {
    assert [row][1..] == [] && row + "\n" + "" == row + "\n";
  }

  // No field breaks its row in two.
  predicate OneLineEntry(e: Entry) {
    && OneLine(EscapeCell(e.timestamp)) && OneLine(EscapeCell(e.change)) && OneLine(EscapeCell(e.chatId))
    && OneLine(EscapeCell(e.messageId)) && OneLine(EscapeCell(e.token))
  }

  // A field whose only line separators are newlines keeps its row on one line.
  lemma {:induction false} NewlinesDoNotBreak(v: string)
    requires forall c :: c in v && IsLineBreak(c) ==> c == '\n'
    ensures OneLine(Escaped(v)) && OneLine(EscapeCell(v))
  {
    if v != "" {
      assert v[0] in v;
      NewlinesDoNotBreak(v[1..]);
    }
    LStripShape(Escaped(v));
    RStripShape(LStrip(Escaped(v)));
  }

  lemma OneLineAdd(a: string, b: string)
    requires OneLine(a) && OneLine(b)
    ensures OneLine(a + b)
  {
  }

  lemma LiteralsAreOneLine()
    ensures OneLine("| ") && OneLine(" | ") && OneLine(" |") && OneLine(", ")
  {
  }

  lemma FourTextsAreOneLine(a: string, b: string, c: string, d: string)
    requires OneLine(a) && OneLine(b) && OneLine(c) && OneLine(d)
    ensures OneLine("| " + a + " | " + b + " | " + c + " | " + d + " |")
  {
    hide OneLine;
    LiteralsAreOneLine();
    OneLineAdd("| ", a);
    OneLineAdd("| " + a, " | ");
    OneLineAdd("| " + a + " | ", b);
    OneLineAdd("| " + a + " | " + b, " | ");
    OneLineAdd("| " + a + " | " + b + " | ", c);
    OneLineAdd("| " + a + " | " + b + " | " + c, " | ");
    OneLineAdd("| " + a + " | " + b + " | " + c + " | ", d);
    OneLineAdd("| " + a + " | " + b + " | " + c + " | " + d, " |");
  }

  lemma RowIsOneLine(e: Entry)
    requires OneLineEntry(e)
    ensures OneLine(RowLine(e))
  {
    hide EscapeCell, OneLine;
    LiteralsAreOneLine();
    OneLineAdd(EscapeCell(e.chatId), ", ");
    OneLineAdd(EscapeCell(e.chatId) + ", ", EscapeCell(e.messageId));
    FourTextsAreOneLine(EscapeCell(e.timestamp), EscapeCell(e.change), Source(e), EscapeCell(e.token));
  }

  predicate AllOneLine(entries: seq<Entry>) { forall i :: 0 <= i < |entries| ==> OneLineEntry(entries[i]) }

  lemma {:induction false} RowsAreOneLine(entries: seq<Entry>)
    requires AllOneLine(entries)
    ensures forall k :: 0 <= k < |RowLines(entries)| ==> OneLine(RowLines(entries)[k])
  {
    hide RowLine, OneLine, OneLineEntry;
    if entries != [] {
      RowsAreOneLine(entries[..|entries| - 1]);
      RowIsOneLine(entries[|entries| - 1]);
    }
  }

  // ---- the header -----------------------------------------------------------------------------------------

  lemma PreambleIsOneLine()
    ensures forall k :: 0 <= k < |PREAMBLE| ==> OneLine(PREAMBLE[k])
  {
    SlugIsOneLine();
    TitleIsOneLine();
    assert OneLine("---") && OneLine("type: audit-log") && OneLine("state: active") && OneLine("");
  }

  lemma SlugIsOneLine()
    ensures OneLine("slug: accountabilities-audit")
  {
  }

  lemma TitleIsOneLine()
    ensures OneLine("# Accountabilities audit log")
  {
  }

  lemma ColumnsAreOneLine()
    ensures OneLine(TIMESTAMP) && OneLine(CHANGE) && OneLine(SOURCE) && OneLine(TOKEN) && OneLine(SEPARATOR_ROW)
  {
  }

  lemma HeaderIsOneLine()
    ensures forall k :: 0 <= k < |HEADER_LINES| ==> OneLine(HEADER_LINES[k])
  {
    hide OneLine;
    PreambleIsOneLine();
    ColumnsAreOneLine();
    FourTextsAreOneLine(TIMESTAMP, CHANGE, SOURCE, TOKEN);
  }

  predicate NotARow(line: string) { line == "" || (Trimmed(line) && line[0] != '|') }

  lemma {:induction false} NoRows(lines: seq<string>)
    requires forall k :: 0 <= k < |lines| ==> NotARow(lines[k])
    ensures TableRows(lines) == []
  {
    if lines != [] {
      StripIsTrimmed(lines[0]);
      NoRows(lines[1..]);
    }
  }

  lemma {:induction false} TableRowsAdd(a: seq<string>, b: seq<string>)
    ensures TableRows(a + b) == TableRows(a) + TableRows(b)
  {
    hide ParseRow;
    if a == [] {
      assert a + b == b;
    } else {
      assert (a + b)[1..] == a[1..] + b;
      TableRowsAdd(a[1..], b);
    }
  }

  lemma {:induction false} PlainHasNoBorders(s: string)
    requires '|' !in s && '\\' !in s
    ensures Borders(s, false) == 0 && !EndsEscaped(s, false)
  {
    if s != "" {
      assert s[0] in s;
      PlainHasNoBorders(s[1..]);
    }
  }

  predicate PlainCell(s: string) { '|' !in s && '\\' !in s && Trimmed(s) }

  lemma FourPlainCells(a: string, b: string, c: string, d: string)
    requires PlainCell(a) && PlainCell(b) && PlainCell(c) && PlainCell(d)
    ensures ParseRow("| " + a + " | " + b + " | " + c + " | " + d + " |") == Some([a, b, c, d])
  {
    hide ParseRow, Scan, Inner, Strip;
    PlainHasNoBorders(a);
    PlainHasNoBorders(b);
    PlainHasNoBorders(c);
    PlainHasNoBorders(d);
    StripIsTrimmed(a);
    StripIsTrimmed(b);
    StripIsTrimmed(c);
    StripIsTrimmed(d);
    RowShape(a, b, c, d);
    BetweenPipes(Inner(a, b, c, d));
    InnerCells(a, b, c, d);
  }

  lemma FourTightCells(dash: string)
    requires PlainCell(dash)
    ensures ParseRow("|" + (dash + "|" + (dash + "|" + (dash + "|" + dash))) + "|") == Some([dash, dash, dash, dash])
  {
    hide ParseRow, Scan, Strip;
    PlainHasNoBorders(dash);
    StripIsTrimmed(dash);
    assert "" + dash == dash;
    BetweenPipes(dash + "|" + (dash + "|" + (dash + "|" + dash)));
    ScanCell(dash, dash + "|" + (dash + "|" + dash), "", false);
    ScanCell(dash, dash + "|" + dash, "", false);
    ScanCell(dash, dash, "", false);
    ScanLast(dash, "", false);
    assert [dash] + ([dash] + ([dash] + [dash])) == [dash, dash, dash, dash];
  }

  const HEADER_CELLS: seq<string> := [TIMESTAMP, CHANGE, SOURCE, TOKEN]

  const DASH_CELLS: seq<string> := [DASHES, DASHES, DASHES, DASHES]

  lemma ShortColumnsArePlain()
    ensures PlainCell(TIMESTAMP) && PlainCell(CHANGE) && PlainCell(TOKEN) && PlainCell(DASHES)
  {
  }

  lemma SourceColumnIsPlain()
    ensures PlainCell(SOURCE)
  {
  }

  lemma HeaderCells()
    ensures ParseRow(HEADER_ROW) == Some(HEADER_CELLS) && ParseRow(SEPARATOR_ROW) == Some(DASH_CELLS)
  {
    hide ParseRow, PlainCell;
    ShortColumnsArePlain();
    SourceColumnIsPlain();
    FourPlainCells(TIMESTAMP, CHANGE, SOURCE, TOKEN);
    FourTightCells(DASHES);
  }

  lemma ColumnAtStart(expected: string, tail: string)
    ensures ColumnMatches(expected, expected + tail)
  {
    var low, whole := ConfigYaml.LowerText(expected), ConfigYaml.LowerText(expected + tail);
    assert whole[..|low|] == low;
  }

  lemma HeaderMatches()
    ensures FirstMismatch(HEADER_CELLS, 0) == None
  {
    hide ColumnMatches;
    ColumnAtStart("Timestamp", "");
    ColumnAtStart("Change", "");
    ColumnAtStart("Source", " (chat_id, message_id)");
    ColumnAtStart("Token observed", "");
    assert "Timestamp" + "" == "Timestamp" && "Change" + "" == "Change" && "Token observed" + "" == "Token observed";
    assert "Source" + " (chat_id, message_id)" == "Source (chat_id, message_id)";
    assert FirstMismatch(HEADER_CELLS, 4) == None;
    assert FirstMismatch(HEADER_CELLS, 3) == None;
    assert FirstMismatch(HEADER_CELLS, 2) == None;
    assert FirstMismatch(HEADER_CELLS, 1) == None;
  }

  lemma HeaderTable()
    ensures TableRows(HEADER_LINES) == [HEADER_CELLS, DASH_CELLS]
  {
    hide ParseRow, HEADER_ROW, SEPARATOR_ROW, HEADER_CELLS, DASH_CELLS;
    TableRowsAdd(PREAMBLE, [HEADER_ROW, SEPARATOR_ROW]);
    NoRows(PREAMBLE);
    HeaderCells();
    assert [HEADER_ROW, SEPARATOR_ROW][1..] == [SEPARATOR_ROW] && [SEPARATOR_ROW][1..] == [];
  }

  // ---- the report ---------------------------------------------------------------------------------------------

  function Uneven(entries: seq<Entry>): nat {
    if entries == [] then 0
    else Uneven(entries[..|entries| - 1]) + if EvenEntry(entries[|entries| - 1]) then 0 else 1
  }

  function AllCells(entries: seq<Entry>): seq<seq<string>> {
    seq(|entries|, i requires 0 <= i < |entries| => WrittenCells(entries[i]))
  }

  lemma {:induction false} BadRowsPush(rows: seq<seq<string>>, row: seq<string>)
    ensures BadRows(rows + [row]) == BadRows(rows) + if |row| == 4 then 0 else 1
  {
    if rows == [] {
      assert [] + [row] == [row] && BadRows([row][1..]) == 0;
    } else {
      assert (rows + [row])[1..] == rows[1..] + [row];
      BadRowsPush(rows[1..], row);
    }
  }

  lemma {:induction false} DataRows(entries: seq<Entry>)
    ensures |TableRows(RowLines(entries))| == |entries|
    ensures BadRows(TableRows(RowLines(entries))) == Uneven(entries)
    ensures Uneven(entries) == 0 ==> TableRows(RowLines(entries)) == AllCells(entries)
  {
    hide ParseRow, RowLine, EvenEntry, WrittenCells;
    if entries != [] {
      var before, e := entries[..|entries| - 1], entries[|entries| - 1];
      DataRows(before);
      RowReadsBackIff(e);
      TableRowsAdd(RowLines(before), [RowLine(e)]);
      assert [RowLine(e)][1..] == [];
      var cells := ParseRow(RowLine(e)).value;
      assert TableRows([RowLine(e)]) == [cells];
      assert TableRows(RowLines(entries)) == TableRows(RowLines(before)) + [cells];
      BadRowsPush(TableRows(RowLines(before)), cells);
      assert Uneven(entries) == 0 ==> AllCells(entries) == AllCells(before) + [WrittenCells(e)];
    }
  }

  lemma ReportOf(text: string, data: seq<seq<string>>)
    requires TableRows(SplitLines(text)) == [HEADER_CELLS, DASH_CELLS] + data
    ensures CheckTable(text) == if BadRows(data) == 0 then Entries(|data|) else Malformed(BadRows(data))
  {
    hide TableRows, SplitLines, FirstMismatch;
    HeaderMatches();
    var rows := [HEADER_CELLS, DASH_CELLS] + data;
    assert rows[2..] == data && rows[0] == HEADER_CELLS && rows[1] == DASH_CELLS;
    assert IsSeparatorRow(DASH_CELLS);
  }

  lemma LinesOfText(entries: seq<Entry>)
    requires AllOneLine(entries)
    ensures SplitLines(TextAfter(entries)) == HEADER_LINES + RowLines(entries)
  {
    hide TextAfter, SplitLines, Unlines, OneLine, HEADER_LINES, RowLines;
    TextIsLines(entries);
    RowsAreOneLine(entries);
    HeaderIsOneLine();
    SplitUnlines(HEADER_LINES + RowLines(entries));
  }

  // After n appends of entries that stay on their lines the reader finds n rows.  It
  // reports n entries, with the cells as written and in order, exactly when every run of
  // backslashes before a pipe has even length; otherwise it reports how many entries
  // break that rule.
  lemma LogReadsBack(entries: seq<Entry>)
    requires AllOneLine(entries)
    ensures CheckTable(TextAfter(entries)) == if Uneven(entries) == 0 then Entries(|entries|) else Malformed(Uneven(entries))
    ensures Uneven(entries) == 0 ==>
              TableRows(SplitLines(TextAfter(entries))) == [HEADER_CELLS, DASH_CELLS] + AllCells(entries)
  {
    hide TextAfter, TableRows, SplitLines, Unlines, CheckTable, OneLine, HEADER_LINES, HEADER_CELLS, DASH_CELLS;
    LinesOfText(entries);
    TableRowsAdd(HEADER_LINES, RowLines(entries));
    HeaderTable();
    DataRows(entries);
    ReportOf(TextAfter(entries), TableRows(RowLines(entries)));
  }
}
