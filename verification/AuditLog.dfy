// The accountability audit log: the writer of lib/memory/accountabilities_audit.py and
// the table reader of lib/health/accountabilities_check.py.
module AuditLog {
  import opened Basics
  import opened PyText
  import ConfigYaml

  datatype Entry = Entry(timestamp: string, change: string, chatId: string, messageId: string, token: string)

  // ---- the writer ------------------------------------------------------------------------

  // Pipes get a backslash, newlines become spaces.
  function Escaped(value: string): string {
    if value == "" then ""
    else (if value[0] == '|' then "\\|" else if value[0] == '\n' then " " else [value[0]]) + Escaped(value[1..])
  }

  function EscapeCell(value: string): string { Strip(Escaped(value)) }

  function Source(e: Entry): string { EscapeCell(e.chatId) + ", " + EscapeCell(e.messageId) }

  // A row without its newline.
  function RowLine(e: Entry): string {
    "| " + EscapeCell(e.timestamp) + " | " + EscapeCell(e.change) + " | " + Source(e) + " | " + EscapeCell(e.token) + " |"
  }

  function FormatRow(e: Entry): string { RowLine(e) + "\n" }

  const TIMESTAMP := "Timestamp"
  const CHANGE := "Change"
  const SOURCE := "Source (chat_id, message_id)"
  const TOKEN := "Token observed"
  const DASHES := "---"

  const HEADER_ROW := "| " + TIMESTAMP + " | " + CHANGE + " | " + SOURCE + " | " + TOKEN + " |"

  const SEPARATOR_ROW := "|" + (DASHES + "|" + (DASHES + "|" + (DASHES + "|" + DASHES))) + "|"

  const PREAMBLE: seq<string> := [
    "---", "slug: accountabilities-audit", "type: audit-log", "state: active", "---", "",
    "# Accountabilities audit log", ""]

  const HEADER_LINES: seq<string> := PREAMBLE + [HEADER_ROW, SEPARATOR_ROW]

  class AuditFile {
    var text: Option<string>

    constructor ()
      ensures text == None
    {
      text := None;
    }

    // The header goes in with the first entry.
    method Append(e: Entry)
      modifies this
      ensures text == Some((if old(text).Some? then old(text).value else Unlines(HEADER_LINES)) + FormatRow(e))
    {
      if text.None? {
        text := Some(Unlines(HEADER_LINES));
      }
      text := Some(text.value + FormatRow(e));
    }
  }

  // ---- the reader --------------------------------------------------------------------------

  // The cells from a point on: what the current one holds so far, and whether the next
  // character is escaped.
  function Scan(s: string, current: string, escaped: bool): seq<string>
    decreases |s|
  {
    if s == "" then [Strip(current)]
    else if !escaped && s[0] == '|' then [Strip(current)] + Scan(s[1..], "", false)
    else Scan(s[1..], current + [s[0]], !escaped && s[0] == '\\')
  }

  function ParseRow(line: string): Option<seq<string>> {
    var stripped := Strip(line);
    if stripped == "" || stripped[0] != '|' || stripped[|stripped| - 1] != '|' then None
    else Some(Scan(if |stripped| < 2 then "" else stripped[1..|stripped| - 1], "", false))
  }

  method ParseAuditRow(line: string) returns (r: Option<seq<string>>)
    ensures r == ParseRow(line)
  {
    var stripped := Strip(line);
    if stripped == "" || stripped[0] != '|' || stripped[|stripped| - 1] != '|' {
      return None;
    }
    var inner := if |stripped| < 2 then "" else stripped[1..|stripped| - 1];
    var cells: seq<string> := [];
    var current, escaped := "", false;
    for k := 0 to |inner|
      invariant cells + Scan(inner[k..], current, escaped) == Scan(inner, "", false)
    {
      var c := inner[k];
      assert inner[k..][1..] == inner[k + 1..];
      if escaped {
        current := current + [c];
        escaped := false;
        continue;
      }
      if c == '\\' {
        current := current + [c];
        escaped := true;
        continue;
      }
      if c == '|' {
        cells := cells + [Strip(current)];
        current := "";
        continue;
      }
      current := current + [c];
    }
    cells := cells + [Strip(current)];
    return Some(cells);
  }

  predicate SeparatorCell(c: string) { c != "" && forall i :: 0 <= i < |c| ==> c[i] == '-' || c[i] == ':' }

  predicate IsSeparatorRow(cells: seq<string>) { cells != [] && forall i :: 0 <= i < |cells| ==> SeparatorCell(cells[i]) }

  // The rows among the lines of a text.
  function TableRows(lines: seq<string>): seq<seq<string>> {
    if lines == [] then []
    else (if ParseRow(lines[0]).Some? then [ParseRow(lines[0]).value] else []) + TableRows(lines[1..])
  }

  const EXPECTED_COLUMNS: seq<string> := ["Timestamp", "Change", "Source", "Token observed"]

  predicate ColumnMatches(expected: string, got: string) {
    Occurs(ConfigYaml.LowerText(expected), ConfigYaml.LowerText(got))
  }

  datatype Report = NoTable | HeaderCount(n: nat) | HeaderMismatch(column: nat) | NoSeparator | Malformed(n: nat) | Entries(n: nat)

  function BadRows(rows: seq<seq<string>>): nat {
    if rows == [] then 0 else (if |rows[0]| != |EXPECTED_COLUMNS| then 1 else 0) + BadRows(rows[1..])
  }

  function FirstMismatch(header: seq<string>, from: nat): Option<nat>
    requires |header| == |EXPECTED_COLUMNS|
    decreases |EXPECTED_COLUMNS| - from
  {
    if from >= |EXPECTED_COLUMNS| then None
    else if !ColumnMatches(EXPECTED_COLUMNS[from], header[from]) then Some(from)
    else FirstMismatch(header, from + 1)
  }

  // The verdict on the table of a text, once its front matter and title are found.
  function CheckTable(text: string): Report {
    var rows := TableRows(SplitLines(text));
    if rows == [] then NoTable
    else if |rows[0]| != |EXPECTED_COLUMNS| then HeaderCount(|rows[0]|)
    else if FirstMismatch(rows[0], 0).Some? then HeaderMismatch(FirstMismatch(rows[0], 0).value)
    else if |rows| < 2 || !IsSeparatorRow(rows[1]) then NoSeparator
    else if BadRows(rows[2..]) > 0 then Malformed(BadRows(rows[2..]))
    else Entries(|rows| - 2)
  }
}
