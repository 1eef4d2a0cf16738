// What the fallback reader makes of texts that people write by hand, most of which the
// printer never produces.
module ConfigReading {
  import opened Basics
  import opened PyText
  import opened ConfigYaml
  import opened ConfigDocument

  // ---- words ----------------------------------------------------------------------------

  predicate SaysTrue(s: string) { s == "true" || s == "True" || s == "yes" || s == "YES" || s == "Yes" }

  predicate SaysFalse(s: string) { s == "false" || s == "False" || s == "no" || s == "NO" || s == "No" }

  predicate SaysNull(s: string) { s == "null" || s == "None" || s == "~" }

  lemma WordSays(k: nat)
    requires k < |WORDS|
    ensures match WORDS[k].1
            case Bool(true) => SaysTrue(WORDS[k].0)
            case Bool(false) => SaysFalse(WORDS[k].0)
            case Null => SaysNull(WORDS[k].0)
            case _ => false
  {
  }

  lemma SayingsAreWords(s: string)
    requires SaysTrue(s) || SaysFalse(s) || SaysNull(s)
    ensures exists k :: 0 <= k < |WORDS| && WORDS[k].0 == s
  {
    assert WORDS[0].0 == "true" && WORDS[1].0 == "True" && WORDS[2].0 == "yes" && WORDS[3].0 == "YES" && WORDS[4].0 == "Yes";
    assert WORDS[5].0 == "false" && WORDS[6].0 == "False" && WORDS[7].0 == "no" && WORDS[8].0 == "NO" && WORDS[9].0 == "No";
    assert WORDS[10].0 == "null" && WORDS[11].0 == "None" && WORDS[12].0 == "~";
  }

  lemma SayingsDiffer(s: string)
    ensures !(SaysTrue(s) && SaysFalse(s)) && !(SaysTrue(s) && SaysNull(s)) && !(SaysFalse(s) && SaysNull(s))
    ensures SaysTrue(s) || SaysFalse(s) || SaysNull(s) ==> s != "" && s[0] !in "['\""
  {
  }

  lemma AtomSays(s: string)
    ensures CoerceAtom(s) == Bool(true) <==> SaysTrue(s)
    ensures CoerceAtom(s) == Bool(false) <==> SaysFalse(s)
    ensures CoerceAtom(s) == Null <==> SaysNull(s)
  {
    hide LookUp, FloatLike, ParseInt, SaysTrue, SaysFalse, SaysNull;
    LookUpFinds(WORDS, s);
    SayingsDiffer(s);
    if LookUp(WORDS, s).Some? {
      var k :| 0 <= k < |WORDS| && WORDS[k] == (s, LookUp(WORDS, s).value);
      WordSays(k);
    } else if SaysTrue(s) || SaysFalse(s) || SaysNull(s) {
      SayingsAreWords(s);
    }
  }

  // The words, whatever blanks surround them, and no other text.
  lemma ReadsWordIff(text: string)
    ensures CoerceScalar(text) == Bool(true) <==> SaysTrue(Strip(text))
    ensures CoerceScalar(text) == Bool(false) <==> SaysFalse(Strip(text))
    ensures CoerceScalar(text) == Null <==> SaysNull(Strip(text))
  {
    hide CoerceAtom, Strip, SaysTrue, SaysFalse, SaysNull;
    AtomSays(Strip(text));
    SayingsDiffer(Strip(text));
  }

  // ---- quoted texts, and brackets ----------------------------------------------------------

  // Between quotes of one kind stands the text itself, whatever it is.
  lemma QuotedReads(text: string, mark: char, left: string, right: string)
    requires (mark == '\'' || mark == '"') && Blank(left) && Blank(right)
    ensures CoerceScalar(left + ([mark] + text + [mark]) + right) == Str(text)
  {
    var q := [mark] + text + [mark];
    assert q[0] == mark && q[|q| - 1] == mark && q[1..|q| - 1] == text;
    StripPadded(left, q, right);
    NotAWord(q);
  }

  // A mark alone opens and closes, around nothing.
  lemma LoneMarkReads(mark: char)
    requires mark == '\'' || mark == '"'
    ensures CoerceScalar([mark]) == Str("")
  {
    hide LookUp, FloatLike, ParseInt, Strip;
    StripIsTrimmed([mark]);
    NotAWord([mark]);
  }

  // A mark that opens and does not close, or the other way round, is part of the text.
  lemma HalfQuotedReads(text: string)
    requires text != "" && Trimmed(text) && (text[0] == '\'' || text[0] == '"') && text[|text| - 1] != text[0]
    ensures CoerceScalar(text) == Str(text)
  {
    hide LookUp, FloatLike, ParseInt, Strip, Trimmed;
    StripIsTrimmed(text);
    NotAWord(text);
    MarkIsNoNumber(text);
  }

  lemma MarkIsNoNumber(text: string)
    requires text != "" && Trimmed(text) && (text[0] == '\'' || text[0] == '"')
    ensures !FloatLike(text) && ParseInt(text).None?
  {
    hide DigitsValue, Find, Strip;
    StripIsTrimmed(text);
    if FloatLike(text) {
      FloatStart(text);
    }
    if DigitsValue(Unsigned(text)).Some? {
      DigitsStartWithDigit(Unsigned(text));
    }
  }

  // Brackets make a list, and nothing else does.
  lemma ReadsListIff(text: string)
    ensures CoerceScalar(text).List? <==> var s := Strip(text); s != "" && s[0] == '[' && s[|s| - 1] == ']'
  {
    var s := Strip(text);
    if LookUp(WORDS, s).Some? {
      WordsAreQuoted(s);
    }
  }

  // The printer puts a text between quotes exactly when it would be read as something
  // else, or could be.
  lemma QuotedIff(text: string)
    ensures StrRepr(text) != text <==>
              || text == "" || text[0] in "[{*&!|>%@`" || (exists k :: 0 <= k < |text| && text[k] in ":#\n\"'")
              || LowerText(text) in ["true", "false", "null", "yes", "no"] || ParseInt(text).Some?
    ensures StrRepr(text) != text ==> StrRepr(text) == "\"" + text + "\""
  {
    MarkSomewhere(text);
    assert |"\"" + text + "\""| == |text| + 2;
  }

  lemma {:induction false} MarkSomewhere(s: string)
    ensures HasMark(s) <==> exists k :: 0 <= k < |s| && s[k] in ":#\n\"'"
  {
    if s != "" {
      MarkSomewhere(s[1..]);
      assert forall k :: 0 <= k < |s| - 1 ==> s[1..][k] == s[k + 1];
      if exists k :: 0 <= k < |s| && s[k] in ":#\n\"'" {
        var k :| 0 <= k < |s| && s[k] in ":#\n\"'";
        assert k > 0 ==> s[1..][k - 1] == s[k];
      }
    }
  }

  // ---- numbers --------------------------------------------------------------------------------

  lemma {:induction false} DigitsShape(s: string)
    requires DigitsValue(s).Some?
    ensures s != "" && IsDigit(s[0]) && IsDigit(s[|s| - 1]) && forall c :: c in s ==> IsDigit(c) || c == '_'
  {
    if |s| > 1 {
      var front := if s[|s| - 2] == '_' then s[..|s| - 2] else s[..|s| - 1];
      DigitsShape(front);
      assert s[..|s| - 1] == front || s[..|s| - 1] == front + "_";
      assert s == s[..|s| - 1] + [s[|s| - 1]];
    }
  }

  // A digit more multiplies by ten; an underscore between two digits changes nothing.
  lemma {:induction false} DigitsJoin(a: string, b: string)
    requires DigitsValue(a).Some? && DigitsValue(b).Some?
    ensures DigitsValue(a + b).Some? && DigitsValue(a + "_" + b) == DigitsValue(a + b)
    ensures |b| == 1 ==> DigitsValue(a + b).value == 10 * DigitsValue(a).value + (b[0] as int - '0' as int)
    decreases |b|
  {
    var n := |b| - 1;
    DigitsShape(a);
    DigitsShape(b);
    var front := if n > 0 && b[n - 1] == '_' then b[..n - 1] else b[..n];
    assert b == b[..n] + [b[n]];
    if n == 0 {
      assert (a + b)[..|a + b| - 1] == a && (a + "_" + b)[..|a + "_" + b| - 2] == a;
    } else {
      DigitsJoin(a, front);
      JoinFront(a, b, front);
      JoinFront(a + "_", b, front);
    }
  }

  lemma DigitsStep(s: string, front: string)
    requires |s| > 1 && IsDigit(s[|s| - 1])
    requires front == if s[|s| - 2] == '_' then s[..|s| - 2] else s[..|s| - 1]
    ensures DigitsValue(s) ==
            if DigitsValue(front).None? then None else Some(10 * DigitsValue(front).value + (s[|s| - 1] as nat - '0' as nat))
  {
  }

  lemma JoinFront(a: string, b: string, front: string)
    requires |b| > 1 && IsDigit(b[|b| - 1])
    requires front == if b[|b| - 2] == '_' then b[..|b| - 2] else b[..|b| - 1]
    ensures DigitsValue(a + b) ==
            if DigitsValue(a + front).None? then None
            else Some(10 * DigitsValue(a + front).value + (b[|b| - 1] as nat - '0' as nat))
  {
    hide DigitsValue;
    var s := a + b;
    assert s[|s| - 2] == b[|b| - 2] && s[|s| - 1] == b[|b| - 1];
    assert s[..|s| - 1] == a + b[..|b| - 1] && s[..|s| - 2] == a + b[..|b| - 2];
    DigitsStep(s, a + front);
  }

  lemma {:induction false} ZerosInFront(zeros: string, digits: string)
    requires DigitsValue(digits).Some? && forall c :: c in zeros ==> c == '0'
    ensures DigitsValue(zeros + digits) == DigitsValue(digits)
    decreases |zeros|, |digits|
  {
    if zeros != "" {
      DigitsShape(digits);
      if |digits| == 1 {
        var s := zeros + digits;
        assert s[..|s| - 1] == zeros && s[|s| - 1] == digits[0];
        OnlyZeros(zeros);
      } else {
        var n := |digits| - 1;
        var front := if digits[n - 1] == '_' then digits[..n - 1] else digits[..n];
        ZerosInFront(zeros, front);
        JoinFront(zeros, digits, front);
      }
    } else {
      assert zeros + digits == digits;
    }
  }

  lemma {:induction false} OnlyZeros(zeros: string)
    requires zeros != "" && forall c :: c in zeros ==> c == '0'
    ensures DigitsValue(zeros) == Some(0)
  {
    var n := |zeros| - 1;
    assert zeros[n] in zeros;
    if n > 0 {
      assert zeros[n - 1] in zeros && forall c :: c in zeros[..n] ==> c in zeros;
      OnlyZeros(zeros[..n]);
    }
  }

  lemma SignedShape(sign: string, digits: string)
    requires (sign == "" || sign == "+" || sign == "-") && DigitsValue(digits).Some?
    ensures
      var s := sign + digits;
      && Trimmed(s) && s != "" && s[0] !in "[tTyYfFnN~'\"" && '.' !in s
      && Unsigned(s) == digits && (s[0] == '-' <==> sign == "-")
  {
    var s := sign + digits;
    DigitsShape(digits);
    assert s[0] == (if sign == "" then digits[0] else sign[0]) && s[|s| - 1] == digits[|digits| - 1];
  }

  lemma SignedDigits(sign: string, digits: string)
    requires (sign == "" || sign == "+" || sign == "-") && DigitsValue(digits).Some?
    ensures
      var s := sign + digits;
      var v: int := DigitsValue(digits).value;
      Trimmed(s) && s != "" && s[0] != '[' && CoerceAtom(s) == Int(if sign == "-" then -v else v)
  {
    hide LookUp, DigitsValue, Strip, Trimmed, Unsigned;
    var s := sign + digits;
    SignedShape(sign, digits);
    NotAWord(s);
    StripIsTrimmed(s);
  }

  // Every spelling of an integer: blanks around it, a sign, zeros in front, and
  // underscores between digits (`DigitsJoin`).
  lemma IntegerReads(n: nat, sign: string, zeros: string, left: string, right: string)
    requires (sign == "" || sign == "+" || sign == "-") && Blank(left) && Blank(right)
    requires forall c :: c in zeros ==> c == '0'
    ensures
      var v: int := n;
      CoerceScalar(left + (sign + (zeros + ShowNat(n))) + right) == Int(if sign == "-" then -v else v)
  {
    hide CoerceAtom, DigitsValue, Strip, Trimmed;
    var digits := zeros + ShowNat(n);
    ShowNatParses(n);
    ZerosInFront(zeros, ShowNat(n));
    SignedDigits(sign, digits);
    StripPadded(left, sign + digits, right);
  }

  // A sign, digits around a point on at least one side, and an exponent, of which sign
  // and exponent may be missing.
  ghost predicate FloatParts(sign: string, whole: string, fraction: string, tail: string) {
    && (sign == "" || sign == "+" || sign == "-")
    && (whole == "" || DigitsValue(whole).Some?) && (fraction == "" || DigitsValue(fraction).Some?)
    && (whole != "" || fraction != "")
    && (tail == "" || ((tail[0] == 'e' || tail[0] == 'E') && DigitsValue(Unsigned(tail[1..])).Some?))
  }

  lemma NotBefore(s: string, c: char, n: nat)
    requires n <= |s| && c !in s[..n]
    ensures Find(s, c) >= n && (n < |s| && s[n] == c ==> Find(s, c) == n)
  {
    var found := Find(s, c);
    if n < found {
      assert s[..found][n] == s[n];
    }
  }

  lemma ExponentAt(fraction: string, tail: string)
    requires fraction == "" || DigitsValue(fraction).Some?
    requires tail == "" || tail[0] == 'e' || tail[0] == 'E'
    ensures FindExponent(fraction + tail) == |fraction|
  {
    hide Find, DigitsValue;
    if fraction != "" {
      DigitsShape(fraction);
    }
    var s := fraction + tail;
    assert s[..|fraction|] == fraction;
    NotBefore(s, 'e', |fraction|);
    NotBefore(s, 'E', |fraction|);
  }

  lemma PointAt(whole: string, rest: string)
    requires whole == "" || DigitsValue(whole).Some?
    ensures var u := whole + "." + rest; Find(u, '.') == |whole| && u[..|whole|] == whole && u[|whole| + 1..] == rest
    ensures (whole + "." + rest)[0] != '-' && (whole + "." + rest)[0] != '+'
  {
    hide Find, DigitsValue;
    var u := whole + "." + rest;
    if whole != "" {
      DigitsShape(whole);
    }
    assert u[..|whole|] == whole && u[|whole|] == '.';
    NotBefore(u, '.', |whole|);
    assert u[0] == if whole == "" then '.' else whole[0];
  }

  lemma Signed(sign: string, u: string)
    requires (sign == "" || sign == "+" || sign == "-") && u != "" && u[0] != '-' && u[0] != '+'
    ensures Unsigned(sign + u) == u
  {
    assert sign == "" ==> sign + u == u;
  }

  lemma PartsMakeFloat(text: string, sign: string, whole: string, fraction: string, tail: string)
    requires FloatParts(sign, whole, fraction, tail) && Strip(text) == sign + (whole + "." + (fraction + tail))
    ensures FloatLike(text)
  {
    hide Find, FindExponent, DigitsValue, Strip, Unsigned;
    var rest := fraction + tail;
    PointAt(whole, rest);
    Signed(sign, whole + "." + rest);
    ExponentAt(fraction, tail);
    assert rest[..|fraction|] == fraction && rest[|fraction|..] == tail;
  }

  lemma CutAt(u: string, n: nat)
    requires n < |u|
    ensures u == u[..n] + [u[n]] + u[n + 1..]
  {
  }

  lemma Whole(rest: string, n: nat)
    requires n <= |rest|
    ensures rest == rest[..n] + rest[n..]
  {
  }

  lemma SignOf(s: string)
    ensures
      var u := Unsigned(s);
      |u| <= |s| && s == s[..|s| - |u|] + u && (s[..|s| - |u|] == "" || s[..|s| - |u|] == "+" || s[..|s| - |u|] == "-")
  {
  }

  lemma FloatHasParts(text: string) returns (sign: string, whole: string, fraction: string, tail: string)
    requires FloatLike(text)
    ensures FloatParts(sign, whole, fraction, tail) && Strip(text) == sign + (whole + "." + (fraction + tail))
  {
    hide FindExponent, DigitsValue, Strip, Unsigned;
    var s := Strip(text);
    var u := Unsigned(s);
    var point := Find(u, '.');
    var rest := u[point + 1..];
    var e := FindExponent(rest);
    SignOf(s);
    CutAt(u, point);
    Whole(rest, e);
    assert [u[point]] == ".";
    sign, whole, fraction, tail := s[..|s| - |u|], u[..point], rest[..e], rest[e..];
  }

  // Exactly the texts of that form are floats: not an address, a version or a name.
  lemma FloatLikeIff(text: string)
    ensures FloatLike(text) <==> exists sign, whole, fraction, tail ::
              FloatParts(sign, whole, fraction, tail) && Strip(text) == sign + (whole + "." + (fraction + tail))
  {
    hide FloatLike, FloatParts, Strip;
    if FloatLike(text) {
      var sign, whole, fraction, tail := FloatHasParts(text);
    }
    if exists sign, whole, fraction, tail ::
         FloatParts(sign, whole, fraction, tail) && Strip(text) == sign + (whole + "." + (fraction + tail)) {
      var sign, whole, fraction, tail :|
        FloatParts(sign, whole, fraction, tail) && Strip(text) == sign + (whole + "." + (fraction + tail));
      PartsMakeFloat(text, sign, whole, fraction, tail);
    }
  }

  // ---- items of a list -----------------------------------------------------------------------------

  // An item is kept as text: words and numbers in the form Python prints for what they are
  // read as, quoted texts as they stand, less their edge blanks.
  lemma WordItemReads(part: string)
    ensures SaysTrue(Strip(part)) ==> CoerceItem(part) == "True"
    ensures SaysFalse(Strip(part)) ==> CoerceItem(part) == "False"
    ensures SaysNull(Strip(part)) ==> CoerceItem(part) == "None"
  {
    hide CoerceAtom, Strip, SaysTrue, SaysFalse, SaysNull;
    AtomSays(Strip(part));
    SayingsDiffer(Strip(part));
    StripIsTrimmed("True");
    StripIsTrimmed("False");
    StripIsTrimmed("None");
    assert Trimmed("True") && Trimmed("False") && Trimmed("None");
  }

  lemma IntegerItemReads(n: nat, sign: string, zeros: string, left: string, right: string)
    requires (sign == "" || sign == "+" || sign == "-") && Blank(left) && Blank(right)
    requires forall c :: c in zeros ==> c == '0'
    ensures
      var v: int := n;
      CoerceItem(left + (sign + (zeros + ShowNat(n))) + right) == ShowInt(if sign == "-" then -v else v)
  {
    hide CoerceAtom, DigitsValue, Strip, Trimmed, ShowInt;
    var v: int := n;
    ShowNatParses(n);
    ZerosInFront(zeros, ShowNat(n));
    SignedDigits(sign, zeros + ShowNat(n));
    StripPadded(left, sign + (zeros + ShowNat(n)), right);
    IntReadsBack(if sign == "-" then -v else v);
    StripIsTrimmed(ShowInt(if sign == "-" then -v else v));
  }

  lemma QuotedItemReads(text: string, mark: char, left: string, right: string)
    requires (mark == '\'' || mark == '"') && Blank(left) && Blank(right)
    ensures CoerceItem(left + ([mark] + text + [mark]) + right) == Strip(text)
  {
    var q := [mark] + text + [mark];
    assert q[0] == mark && q[|q| - 1] == mark && q[1..|q| - 1] == text;
    StripPadded(left, q, right);
    NotAWord(q);
  }

  // Lower case moves the 26 capital letters by 32 code points, and nothing else.
  lemma LowerIs(c: char)
    ensures Lower(c) as int == c as int + if 65 <= c as int <= 90 then 32 else 0
  {
  }

  // ---- one line, and lines that say nothing --------------------------------------------------------

  // A line `key: value` sets the key to what the value reads as, on its own.
  lemma LineReads(key: string, text: string)
    requires KeySurvives(key) && OneLine(text) && Strip(text) != ""
    ensures Parse(key + ":" + text) == [Entry(key, CoerceScalar(Strip(text)))]
  {
    var line := key + ":" + text;
    hide ParseLine, Strip, CoerceScalar, SplitLines, SetKey;
    assert Pad(0) + line == line;
    assert Pad(0) + key + ":" + text == line;
    PrintedLineReadsBack(0, key, text);
    OneLineText(line);
    FeedOne(ROOT, line);
    SetNewKey([], key, CoerceScalar(Strip(text)));
    assert [] + [Entry(key, CoerceScalar(Strip(text)))] == [Entry(key, CoerceScalar(Strip(text)))];
  }

  lemma OneLineText(line: string)
    requires OneLine(line) && line != ""
    ensures SplitLines(line) == [line]
  {
  }

  // So a switch written by hand means what it says.
  lemma SwitchReads(key: string, word: string)
    requires KeySurvives(key) && (SaysTrue(word) || SaysFalse(word) || SaysNull(word))
    ensures Parse(key + ":" + (" " + word)) ==
            [Entry(key, if SaysTrue(word) then Bool(true) else if SaysFalse(word) then Bool(false) else Null)]
  {
    hide CoerceScalar, Parse;
    WordIsTrimmed(word);
    StripPadded(" ", word, "");
    assert " " + word + "" == " " + word;
    StripIsTrimmed(word);
    LineReads(key, " " + word);
    ReadsWordIff(word);
  }

  lemma WordIsTrimmed(word: string)
    requires SaysTrue(word) || SaysFalse(word) || SaysNull(word)
    ensures word != "" && Trimmed(word) && OneLine(" " + word)
  {
  }

  // Blank lines, comments and lines without a colon.
  predicate SaysNothing(line: string) {
    || Blank(line)
    || (exists k :: 0 <= k < |line| && line[k] == '#' && Blank(line[..k]))
    || ':' !in line
  }

  lemma HashFirstIff(line: string)
    ensures LStrip(line) != "" && LStrip(line)[0] == '#' <==> exists k :: 0 <= k < |line| && line[k] == '#' && Blank(line[..k])
  {
    var left := LeftBlanks(line);
    var rest := LStrip(line);
    if rest != "" && rest[0] == '#' {
      assert line[..|left|] == left && line[|left|] == '#';
    }
    if exists k :: 0 <= k < |line| && line[k] == '#' && Blank(line[..k]) {
      var k :| 0 <= k < |line| && line[k] == '#' && Blank(line[..k]);
      HashAt(line, k);
    }
  }

  lemma HashAt(line: string, k: nat)
    requires k < |line| && line[k] == '#' && Blank(line[..k])
    ensures LStrip(line) == line[k..]
  {
    assert line == line[..k] + line[k..];
    LStripPrefix(line[..k], line[k..]);
  }

  lemma IgnoredIff(line: string)
    ensures ParseLine(line).Ignored? <==> SaysNothing(line)
  {
    hide Strip, LStrip, Blank;
    HashFirstIff(line);
    BlankStrips(line);
    var l, r := StripParts(line);
    ColonSurvives(l, Strip(line), r);
  }

  lemma ColonSurvives(left: string, s: string, right: string)
    requires Blank(left) && Blank(right)
    ensures ':' in left + s + right <==> ':' in s
  {
  }

  lemma BlankStrips(line: string)
    ensures Strip(line) == "" <==> Blank(line)
  {
    var l, r := StripParts(line);
    if Blank(line) {
      StripPadded(line, "", "");
      assert line + "" + "" == line;
    }
  }

  // The lines of a file that say something.
  function Telling(lines: seq<string>): seq<string> {
    if lines == [] then []
    else Telling(lines[..|lines| - 1]) + if SaysNothing(lines[|lines| - 1]) then [] else [lines[|lines| - 1]]
  }

  // The others can stand anywhere without changing what is read.
  lemma {:induction false} OnlyTellingLinesCount(fs: Stack, lines: seq<string>)
    ensures FeedAll(fs, lines) == FeedAll(fs, Telling(lines))
  {
    hide ParseLine, Feed, SaysNothing;
    if lines != [] {
      var n := |lines| - 1;
      OnlyTellingLinesCount(fs, lines[..n]);
      IgnoredIff(lines[n]);
      IgnoredFeeds(FeedAll(fs, lines[..n]), ParseLine(lines[n]));
      FeedAllAppends(fs, Telling(lines[..n]), [lines[n]]);
      FeedOne(FeedAll(fs, Telling(lines[..n])), lines[n]);
      assert SaysNothing(lines[n]) ==> Telling(lines[..n]) + [] == Telling(lines[..n]);
    }
  }

  lemma IgnoredFeeds(fs: Stack, line: Parsed)
    ensures line.Ignored? ==> Feed(fs, line) == fs
  {
  }

  // A key set again keeps its place and takes the new value.
  lemma {:induction false} SetAgain(d: Dict, k: nat, value: Value)
    requires k < |d| && forall i, j :: 0 <= i < j < |d| ==> d[i].key != d[j].key
    ensures SetKey(d, d[k].key, value) == d[k := Entry(d[k].key, value)]
  {
    if k > 0 {
      assert d == [d[0]] + d[1..];
      SetAgain(d[1..], k - 1, value);
      assert d[k := Entry(d[k].key, value)] == [d[0]] + d[1..][k - 1 := Entry(d[k].key, value)];
    } else {
      assert d[0 := Entry(d[0].key, value)] == [Entry(d[0].key, value)] + d[1..];
    }
  }
}
