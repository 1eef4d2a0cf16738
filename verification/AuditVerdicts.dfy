// What the health check says of any audit log, well formed or not.
module AuditVerdicts {
  import opened Basics
  import opened PyText
  import opened AuditLog
  import opened AuditRoundTrip
  import ConfigYaml

  // A line is a table row exactly when pipes open and close it.
  lemma RowIff(line: string)
    ensures ParseRow(line).Some? <==> StartsWith(Strip(line), "|") && Strip(line)[|Strip(line)| - 1] == '|'
  {
  }

  // One pipe does both, around one empty cell.
  lemma LonePipe()
    ensures ParseRow("|") == Some([""])
  {
    StripIsTrimmed("|");
    StripIsTrimmed("");
  }

  // A separator row has cells, and each is made of dashes and colons, at least one.
  lemma SeparatorIff(cells: seq<string>)
    ensures IsSeparatorRow(cells) <==>
              cells != [] && forall k :: 0 <= k < |cells| ==> cells[k] != "" && forall c :: c in cells[k] ==> c == '-' || c == ':'
  {
    hide SeparatorCell;
    forall k | 0 <= k < |cells|
      ensures SeparatorCell(cells[k]) <==> cells[k] != "" && forall c :: c in cells[k] ==> c == '-' || c == ':'
    {
      SeparatorCellIff(cells[k]);
    }
  }

  lemma SeparatorCellIff(cell: string)
    ensures SeparatorCell(cell) <==> cell != "" && forall c :: c in cell ==> c == '-' || c == ':'
  {
    assert forall i :: 0 <= i < |cell| ==> cell[i] in cell;
  }

  predicate Titled(header: seq<string>, column: nat)
    requires |header| == 4 && column < 4
  {
    var name := if column == 0 then "Timestamp" else if column == 1 then "Change" else if column == 2 then "Source" else "Token observed";
    Occurs(ConfigYaml.LowerText(name), ConfigYaml.LowerText(header[column]))
  }

  // The first of the four columns whose title does not hold its name, in any case.
  lemma MismatchIff(header: seq<string>)
    requires |header| == 4
    ensures FirstMismatch(header, 0).None? <==> forall k :: 0 <= k < 4 ==> Titled(header, k)
    ensures forall column: nat :: FirstMismatch(header, 0) == Some(column) <==>
              column < 4 && !Titled(header, column) && forall k :: 0 <= k < column ==> Titled(header, k)
  {
    hide Occurs, ConfigYaml.LowerText, ColumnMatches, Titled;
    forall k | 0 <= k < 4 ensures ColumnMatches(EXPECTED_COLUMNS[k], header[k]) <==> Titled(header, k) {
      TitledIff(header, k);
    }
    MismatchFrom(header, 0);
  }

  lemma TitledIff(header: seq<string>, k: nat)
    requires |header| == 4 && k < 4
    ensures ColumnMatches(EXPECTED_COLUMNS[k], header[k]) <==> Titled(header, k)
  {
  }

  lemma {:induction false} MismatchFrom(header: seq<string>, from: nat)
    requires |header| == 4 && from <= 4
    ensures FirstMismatch(header, from).None? <==> forall k :: from <= k < 4 ==> ColumnMatches(EXPECTED_COLUMNS[k], header[k])
    ensures FirstMismatch(header, from).Some? ==>
              var column := FirstMismatch(header, from).value;
              && from <= column < 4 && !ColumnMatches(EXPECTED_COLUMNS[column], header[column])
              && forall k :: from <= k < column ==> ColumnMatches(EXPECTED_COLUMNS[k], header[k])
    decreases 4 - from
  {
    hide ColumnMatches;
    if from < 4 {
      MismatchFrom(header, from + 1);
    }
  }

  function Misshapen(rows: seq<seq<string>>): set<nat> { set k: nat | k < |rows| && |rows[k]| != 4 }

  lemma {:induction false} BadRowsCount(rows: seq<seq<string>>)
    ensures BadRows(rows) == |Misshapen(rows)|
  {
    if rows != [] {
      var n := |rows| - 1;
      BadRowsCount(rows[..n]);
      assert rows == rows[..n] + [rows[n]];
      BadRowsPush(rows[..n], rows[n]);
      if |rows[n]| != 4 {
        assert Misshapen(rows) == Misshapen(rows[..n]) + {n};
      } else {
        assert Misshapen(rows) == Misshapen(rows[..n]);
      }
    }
  }

  // The verdicts one by one: no table, a header of the wrong width, its first wrong title,
  // no separator under it, and otherwise how many rows are misshapen, or all of them.
  lemma VerdictIs(text: string)
    ensures
      var rows, r := TableRows(SplitLines(text)), CheckTable(text);
      if rows == [] then r == NoTable
      else if |rows[0]| != 4 then r == HeaderCount(|rows[0]|)
      else if exists k :: 0 <= k < 4 && !Titled(rows[0], k) then
        r.HeaderMismatch? && r.column < 4 && !Titled(rows[0], r.column) && forall k :: 0 <= k < r.column ==> Titled(rows[0], k)
      else if |rows| == 1 || !IsSeparatorRow(rows[1]) then r == NoSeparator
      else if Misshapen(rows[2..]) != {} then r == Malformed(|Misshapen(rows[2..])|)
      else r == Entries(|rows| - 2)
  {
    hide TableRows, SplitLines, IsSeparatorRow, BadRows, FirstMismatch, Titled;
    var rows := TableRows(SplitLines(text));
    if rows != [] && |rows[0]| == 4 {
      MismatchIff(rows[0]);
      if |rows| >= 2 {
        BadRowsCount(rows[2..]);
      }
    }
  }
}
