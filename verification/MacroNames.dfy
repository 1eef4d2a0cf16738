// The placeholder pattern and the replacement of nothing, in other words.
module MacroNames {
  import opened Basics
  import opened PyText
  import opened PersonaMacros

  // Letters of the alphabet and the underscore.
  predicate IsLettered(s: string) {
    s != "" && forall k :: 0 <= k < |s| ==>
      97 <= s[k] as int <= 122 || 65 <= s[k] as int <= 90 || s[k] as int == 95
  }

  lemma WordIsPath(s: string)
    requires '.' !in s
    ensures IsPath(s) <==> IsLettered(s)
  {
    assert forall k :: 0 <= k < |s| ==> s[k] in s;
    if IsLettered(s) {
      forall c | c in s ensures PathChar(c) {
        var k :| 0 <= k < |s| && s[k] == c;
      }
    }
  }

  lemma PathParts(s: string, n: nat)
    requires n < |s| && s[n] == '.' && '.' !in s[..n] && IsPath(s)
    ensures IsLettered(s[..n]) && IsPath(s[n + 1..])
  {
    var rest := s[n + 1..];
    assert n > 0;
    assert forall k :: 0 <= k < n ==> s[..n][k] in s && s[..n][k] in s[..n];
    assert s[|s| - 1] != '.';
    assert |rest| > 0;
    assert forall k :: 0 <= k < |rest| ==> rest[k] == s[n + 1 + k] && rest[k] in s;
    assert rest[0] == s[n + 1];
  }

  lemma PartsPath(s: string, n: nat)
    requires n < |s| && s[n] == '.' && IsLettered(s[..n]) && IsPath(s[n + 1..])
    ensures IsPath(s)
  {
    var word, rest := s[..n], s[n + 1..];
    assert forall k :: 0 <= k < n ==> s[k] == word[k] && s[k] != '.' && PathChar(s[k]);
    assert forall k :: n < k < |s| ==> s[k] == rest[k - n - 1];
    assert forall k :: n < k < |s| ==> s[k] in rest && PathChar(s[k]);
    assert s[|s| - 1] == rest[|rest| - 1];
    forall i, j | 0 <= i < j < |s| && s[i] == '.' && s[j] == '.' ensures i + 1 < j {
      if i > n {
        assert rest[i - n - 1] == '.' && rest[j - n - 1] == '.';
      } else if i == n {
        assert s[n + 1] == rest[0];
      }
    }
  }

  predicate AllWords(parts: seq<string>) { forall k :: 0 <= k < |parts| ==> IsLettered(parts[k]) }

  lemma AllWordsPush(first: string, later: seq<string>)
    ensures AllWords([first] + later) <==> IsLettered(first) && AllWords(later)
  {
    var parts := [first] + later;
    assert parts[0] == first && forall k :: 0 <= k < |later| ==> later[k] == parts[k + 1];
  }

  // A key is one word or more, with single points between them.
  lemma {:induction false} PathIff(s: string)
    ensures IsPath(s) <==> AllWords(Split(s, '.'))
    decreases |s|
  {
    hide IsPath, IsLettered, Find, AllWords;
    var n := Find(s, '.');
    AllWordsPush(s[..n], []);
    OnlyOne(s[..n]);
    if n == |s| {
      assert s[..n] == s;
      WordIsPath(s);
    } else {
      PathIff(s[n + 1..]);
      AllWordsPush(s[..n], Split(s[n + 1..], '.'));
      if IsPath(s) {
        PathParts(s, n);
      }
      if IsLettered(s[..n]) && IsPath(s[n + 1..]) {
        PartsPath(s, n);
      }
    }
  }

  lemma OnlyOne(part: string)
    ensures [part] + [] == [part] && AllWords([])
  {
  }

  // Replacing the empty text puts the replacement around every character.
  lemma {:induction false} InterleaveAt(before: string, c: char, after: string, insert: string)
    ensures Interleave(before + ([c] + after), insert) == Interleave(before, insert) + ([c] + Interleave(after, insert))
    ensures Interleave("", insert) == insert
  {
    var text := before + ([c] + after);
    if before == "" {
      assert text == [c] + after && text[1..] == after;
      assert insert + "" == insert;
    } else {
      assert text[0] == before[0] && text[1..] == before[1..] + ([c] + after);
      InterleaveAt(before[1..], c, after, insert);
    }
  }
}
