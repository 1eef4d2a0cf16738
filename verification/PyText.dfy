// The Python string operations that the text formats rely on.
module PyText {

  // str.isspace
  predicate IsSpace(c: char) {
    var n := c as int;
    || 0x09 <= n <= 0x0D || 0x1C <= n <= 0x20 || n == 0x85 || n == 0xA0 || n == 0x1680
    || 0x2000 <= n <= 0x200A || n == 0x2028 || n == 0x2029 || n == 0x202F || n == 0x205F || n == 0x3000
  }

  // Where str.splitlines breaks.
  predicate IsLineBreak(c: char) {
    var n := c as int;
    0x0A <= n <= 0x0D || 0x1C <= n <= 0x1E || n == 0x85 || n == 0x2028 || n == 0x2029
  }

  // Both, one code point after the other: every line break is a blank, and so are the tab,
  // the unit separator, and the spaces.
  lemma BlanksAre(c: char)
    ensures IsLineBreak(c) <==>
              c as int in {10, 11, 12, 13, 28, 29, 30, 133, 8232, 8233}
    ensures IsSpace(c) <==>
              || IsLineBreak(c) || c as int in {9, 31, 32, 160, 5760, 8239, 8287, 12288}
              || c as int in {8192, 8193, 8194, 8195, 8196, 8197, 8198, 8199, 8200, 8201, 8202}
  {
  }

  predicate OneLine(s: string) { forall c :: c in s ==> !IsLineBreak(c) }

  predicate StartsWith(text: string, prefix: string) { |prefix| <= |text| && text[..|prefix|] == prefix }

  // part in text
  predicate Occurs(part: string, text: string) {
    |part| <= |text| && (StartsWith(text, part) || (text != "" && Occurs(part, text[1..])))
  }

  function LStrip(s: string): string { if s != "" && IsSpace(s[0]) then LStrip(s[1..]) else s }

  function RStrip(s: string): string {
    if s != "" && IsSpace(s[|s| - 1]) then RStrip(s[..|s| - 1]) else s
  }

  function Strip(s: string): string { RStrip(LStrip(s)) }

  // No blank at either edge: exactly the texts that `strip` leaves alone.
  predicate Trimmed(s: string) { s == "" || (!IsSpace(s[0]) && !IsSpace(s[|s| - 1])) }

  lemma {:induction false} LStripShape(s: string)
    ensures LStrip(s) == "" || !IsSpace(LStrip(s)[0])
    ensures |LStrip(s)| <= |s| && LStrip(s) == s[|s| - |LStrip(s)|..]
    ensures forall c :: c in s && !IsSpace(c) ==> c in LStrip(s)
  {
    if s != "" && IsSpace(s[0]) {
      LStripShape(s[1..]);
      assert s == [s[0]] + s[1..];
    }
  }

  lemma {:induction false} RStripShape(s: string)
    ensures RStrip(s) == "" || !IsSpace(RStrip(s)[|RStrip(s)| - 1])
    ensures |RStrip(s)| <= |s| && RStrip(s) == s[..|RStrip(s)|]
    ensures s != "" && !IsSpace(s[0]) ==> RStrip(s) != "" && RStrip(s)[0] == s[0]
  {
    if s != "" && IsSpace(s[|s| - 1]) {
      RStripShape(s[..|s| - 1]);
    }
  }

  lemma StripIsTrimmed(s: string)
    ensures Trimmed(Strip(s))
    ensures Strip(s) == s <==> Trimmed(s)
  {
    LStripShape(s);
    RStripShape(LStrip(s));
  }

  lemma {:induction false} LStripPrefix(blanks: string, s: string)
    requires forall c :: c in blanks ==> IsSpace(c)
    ensures LStrip(blanks + s) == LStrip(s)
  {
    if blanks == "" {
      assert blanks + s == s;
    } else {
      assert (blanks + s)[1..] == blanks[1..] + s;
      LStripPrefix(blanks[1..], s);
    }
  }

  lemma {:induction false} RStripSuffix(s: string, blanks: string)
    requires forall c :: c in blanks ==> IsSpace(c)
    ensures RStrip(s + blanks) == RStrip(s)
  {
    if blanks == "" {
      assert s + blanks == s;
    } else {
      assert (s + blanks)[..|s + blanks| - 1] == s + blanks[..|blanks| - 1];
      RStripSuffix(s, blanks[..|blanks| - 1]);
    }
  }

  // Stripping blanks around a trimmed text gives the text.
  lemma StripPadded(left: string, s: string, right: string)
    requires Trimmed(s)
    requires (forall c :: c in left ==> IsSpace(c)) && (forall c :: c in right ==> IsSpace(c))
    ensures Strip(left + s + right) == s
  {
    assert left + s + right == left + (s + right);
    LStripPrefix(left, s + right);
    if s == "" {
      assert s + right == right + "";
      LStripPrefix(right, "");
    } else {
      assert LStrip(s + right) == s + right;
      RStripSuffix(s, right);
    }
  }

  // ---- blanks around a text ------------------------------------------------------------

  predicate Blank(s: string) { forall c :: c in s ==> IsSpace(c) }

  lemma {:induction false} StripParts(s: string) returns (left: string, right: string)
    ensures Blank(left) && Blank(right) && s == left + Strip(s) + right
  {
    left := LeftBlanks(s);
    right := RightBlanks(LStrip(s));
    assert s == left + (Strip(s) + right);
  }

  lemma {:induction false} LeftBlanks(s: string) returns (left: string)
    ensures Blank(left) && s == left + LStrip(s)
  {
    if s != "" && IsSpace(s[0]) {
      var rest := LeftBlanks(s[1..]);
      left := [s[0]] + rest;
      MoreBlank(s[0], rest, LStrip(s[1..]));
      assert s == [s[0]] + s[1..];
    } else {
      left := "";
    }
  }

  lemma MoreBlank(c: char, blanks: string, s: string)
    requires IsSpace(c) && Blank(blanks)
    ensures Blank([c] + blanks) && Blank(blanks + [c])
    ensures [c] + (blanks + s) == ([c] + blanks) + s && (s + blanks) + [c] == s + (blanks + [c])
  {
  }

  lemma {:induction false} RightBlanks(s: string) returns (right: string)
    ensures Blank(right) && s == RStrip(s) + right
  {
    if s != "" && IsSpace(s[|s| - 1]) {
      var rest := RightBlanks(s[..|s| - 1]);
      right := rest + [s[|s| - 1]];
      MoreBlank(s[|s| - 1], rest, RStrip(s[..|s| - 1]));
      assert s == s[..|s| - 1] + [s[|s| - 1]];
    } else {
      right := "";
    }
  }

  lemma StripInside(left: string, s: string, right: string)
    requires Blank(left) && Blank(right)
    ensures Strip(left + s + right) == Strip(s)
  {
    var l, r := StripParts(s);
    StripIsTrimmed(s);
    StripPadded(left + l, Strip(s), r + right);
    assert left + s + right == (left + l) + Strip(s) + (r + right);
  }

  lemma StripTwice(s: string)
    ensures Strip(Strip(s)) == Strip(s) && Strip(RStrip(s)) == Strip(s)
  {
    hide Strip, RStrip;
    StripIsTrimmed(s);
    StripIsTrimmed(Strip(s));
    var right := RightBlanks(s);
    StripInside("", RStrip(s), right);
    assert "" + RStrip(s) + right == s;
  }

  // Blanks are dropped from the right only up to the last other character.
  lemma {:induction false} RStripAfter(body: string, tail: string)
    requires body != "" && !IsSpace(body[|body| - 1])
    ensures RStrip(body + tail) == body + RStrip(tail)
  {
    if tail == "" {
      assert body + tail == body;
    } else if IsSpace(tail[|tail| - 1]) {
      assert (body + tail)[..|body + tail| - 1] == body + tail[..|tail| - 1];
      RStripAfter(body, tail[..|tail| - 1]);
    }
  }

  // ---- lines ---------------------------------------------------------------------

  function FirstBreak(s: string): (n: nat)
    ensures n <= |s|
    ensures n < |s| ==> IsLineBreak(s[n])
    ensures OneLine(s[..n])
  {
    if s == "" then 0
    else if IsLineBreak(s[0]) then 0
    else
      var n := FirstBreak(s[1..]);
      assert s[..n + 1] == [s[0]] + s[1..][..n];
      n + 1
  }

  function SplitLines(s: string): seq<string>
    decreases |s|
  {
    if s == "" then []
    else
      var n := FirstBreak(s);
      if n == |s| then [s]
      else if s[n] == '\r' && n + 1 < |s| && s[n + 1] == '\n' then [s[..n]] + SplitLines(s[n + 2..])
      else [s[..n]] + SplitLines(s[n + 1..])
  }

  // Every line followed by a newline.
  function Unlines(lines: seq<string>): string {
    if lines == [] then "" else lines[0] + "\n" + Unlines(lines[1..])
  }

  lemma {:induction false} FirstBreakAt(line: string, rest: string)
    requires OneLine(line)
    ensures FirstBreak(line + "\n" + rest) == |line|
  {
    var s := line + "\n" + rest;
    if line != "" {
      assert s[1..] == line[1..] + "\n" + rest;
      assert line[0] in line;
      FirstBreakAt(line[1..], rest);
    }
  }

  lemma {:induction false} SplitUnlines(lines: seq<string>)
    requires forall k :: 0 <= k < |lines| ==> OneLine(lines[k])
    ensures SplitLines(Unlines(lines)) == lines
  {
    if lines != [] {
      var s := Unlines(lines);
      FirstBreakAt(lines[0], Unlines(lines[1..]));
      assert s[..|lines[0]|] == lines[0] && s[|lines[0]|] == '\n' && s[|lines[0]| + 1..] == Unlines(lines[1..]);
      SplitUnlines(lines[1..]);
    }
  }

  // A line break may also be a carriage return and a newline, which count as one.
  lemma SplitCrLf(line: string, rest: string)
    requires OneLine(line)
    ensures SplitLines(line + "\r\n" + rest) == [line] + SplitLines(rest)
    ensures SplitLines(line + "\n" + rest) == [line] + SplitLines(rest)
  {
    var s, t := line + "\r\n" + rest, line + "\n" + rest;
    BreakAt(s, |line|);
    BreakAt(t, |line|);
    assert s[..|line|] == line && s[|line|] == '\r' && s[|line| + 1] == '\n' && s[|line| + 2..] == rest;
    assert t[..|line|] == line && t[|line|] == '\n' && t[|line| + 1..] == rest;
  }

  lemma BreakAt(s: string, n: nat)
    requires n < |s| && IsLineBreak(s[n]) && OneLine(s[..n])
    ensures FirstBreak(s) == n
  {
  }

  lemma {:induction false} UnlinesAppends(a: seq<string>, b: seq<string>)
    ensures Unlines(a + b) == Unlines(a) + Unlines(b)
  {
    if a == [] {
      assert a + b == b;
    } else {
      assert (a + b)[1..] == a[1..] + b;
      UnlinesAppends(a[1..], b);
    }
  }

  // ---- splitting at a character ------------------------------------------------------

  // The first occurrence, or the length when there is none.
  function Find(s: string, c: char): (n: nat)
    ensures n <= |s|
    ensures n < |s| ==> s[n] == c
    ensures c !in s[..n]
    ensures n == |s| <==> c !in s
  {
    if s == "" || s[0] == c then 0
    else
      var n := Find(s[1..], c);
      assert s[..n + 1] == [s[0]] + s[1..][..n];
      n + 1
  }

  lemma {:induction false} FindAt(before: string, c: char, after: string)
    requires c !in before
    ensures Find(before + [c] + after, c) == |before|
  {
    if before != "" {
      assert (before + [c] + after)[1..] == before[1..] + [c] + after;
      FindAt(before[1..], c, after);
    }
  }

  // str.split(c)
  function Split(s: string, c: char): (parts: seq<string>)
    ensures parts != []
    decreases |s|
  {
    var n := Find(s, c);
    if n == |s| then [s] else [s[..n]] + Split(s[n + 1..], c)
  }

  // Splitting loses nothing: with the character between its parts the text is back.
  function Rejoined(parts: seq<string>, c: char): string
    requires parts != []
  {
    if |parts| == 1 then parts[0] else parts[0] + [c] + Rejoined(parts[1..], c)
  }

  lemma {:induction false} SplitIsExact(s: string, c: char)
    ensures Rejoined(Split(s, c), c) == s
    decreases |s|
  {
    var n := Find(s, c);
    if n == |s| {
      assert s[..n] == s;
    } else {
      var later := Split(s[n + 1..], c);
      SplitIsExact(s[n + 1..], c);
      assert Split(s, c) == [s[..n]] + later && ([s[..n]] + later)[1..] == later;
      assert s == s[..n] + [s[n]] + s[n + 1..];
    }
  }

  lemma SplitFirst(before: string, c: char, after: string)
    requires c !in before
    ensures Split(before + [c] + after, c) == [before] + Split(after, c)
  {
    var s := before + [c] + after;
    FindAt(before, c, after);
    assert s[..|before|] == before && s[|before| + 1..] == after;
  }

  lemma TrimmedAround(a: string, middle: string, b: string)
    requires a != "" && b != "" && Trimmed(a) && Trimmed(b)
    ensures a + middle + b != "" && Trimmed(a + middle + b)
  {
    var s := a + middle + b;
    assert s[0] == a[0] && s[|s| - 1] == b[|b| - 1];
  }

  // ", ".join(parts)
  function JoinComma(parts: seq<string>): string
    requires parts != []
  {
    if |parts| == 1 then parts[0] else parts[0] + ", " + JoinComma(parts[1..])
  }

  ghost predicate CommaPart(part: string) { part != "" && Trimmed(part) && ',' !in part }

  lemma {:induction false} JoinCommaEdges(parts: seq<string>)
    requires parts != [] && forall k :: 0 <= k < |parts| ==> CommaPart(parts[k])
    ensures JoinComma(parts) != "" && Trimmed(JoinComma(parts))
  {
    assert CommaPart(parts[0]);
    if |parts| > 1 {
      JoinCommaEdges(parts[1..]);
      TrimmedAround(parts[0], ", ", JoinComma(parts[1..]));
    }
  }

  ghost predicate StripTo(pieces: seq<string>, parts: seq<string>) {
    |pieces| == |parts| && forall k :: 0 <= k < |parts| ==> Strip(pieces[k]) == parts[k]
  }

  lemma StripOneMore(piece: string, pieces: seq<string>, parts: seq<string>)
    requires parts != [] && Strip(piece) == parts[0] && StripTo(pieces, parts[1..])
    ensures StripTo([piece] + pieces, parts)
  {
  }

  lemma BlankPart(blanks: string, part: string)
    requires CommaPart(part) && (blanks == "" || blanks == " ")
    ensures Strip(blanks + part) == part && ',' !in blanks + part
  {
    StripPadded(blanks, part, "");
    assert blanks + part + "" == blanks + part;
  }

  lemma JoinedAfter(blanks: string, part: string, later: string)
    ensures blanks + (part + ", " + later) == (blanks + part) + [','] + (" " + later)
  {
    assert ", " == [','] + " ";
  }

  // Splitting a join at the commas and stripping gives the parts back.
  lemma {:induction false} SplitJoinComma(parts: seq<string>, blanks: string)
    requires parts != [] && forall k :: 0 <= k < |parts| ==> CommaPart(parts[k])
    requires blanks == "" || blanks == " "
    ensures StripTo(Split(blanks + JoinComma(parts), ','), parts)
  {
    hide CommaPart, StripTo, Find;
    var first := blanks + parts[0];
    BlankPart(blanks, parts[0]);
    StripNone();
    if |parts| == 1 {
      assert Split(first, ',') == [first] + [];
      StripOneMore(first, [], parts);
    } else {
      var rest := " " + JoinComma(parts[1..]);
      JoinedAfter(blanks, parts[0], JoinComma(parts[1..]));
      SplitFirst(first, ',', rest);
      SplitJoinComma(parts[1..], " ");
      StripOneMore(first, Split(rest, ','), parts);
    }
  }

  lemma StripNone()
    ensures StripTo([], [])
  {
  }
}
