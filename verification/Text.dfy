/** The few string operations the service relies on, over ASCII text. */
module Text {

  function LowerChar(c: char): char {
    if 'A' <= c <= 'Z' then (c as int + 32) as char else c
  }

  function Lower(s: string): (r: string)
    ensures |r| == |s|
    ensures forall i :: 0 <= i < |s| ==> r[i] == LowerChar(s[i])
  {
    seq(|s|, i requires 0 <= i < |s| => LowerChar(s[i]))
  }

  /** Each capital becomes its small letter, everything else stays, and doing it twice changes nothing. */
  lemma LowerMeans(s: string)
    ensures |Lower(s)| == |s| && Lower(Lower(s)) == Lower(s)
    ensures forall i :: 0 <= i < |s| ==>
              if 'A' <= s[i] <= 'Z'
              then 'a' <= Lower(s)[i] <= 'z' && Lower(s)[i] as int - 'a' as int == s[i] as int - 'A' as int
              else Lower(s)[i] == s[i]
  {
  }

  /** The same letter, capital or small, or the same other character. */
  predicate SameLetter(c: char, d: char) {
    || c == d
    || ('A' <= c <= 'Z' && 'a' <= d <= 'z' && c as int - 'A' as int == d as int - 'a' as int)
    || ('A' <= d <= 'Z' && 'a' <= c <= 'z' && d as int - 'A' as int == c as int - 'a' as int)
  }

  predicate EqualIgnoringCase(a: string, b: string) {
    |a| == |b| && forall i :: 0 <= i < |a| ==> SameLetter(a[i], b[i])
  }

  /** Comparing lowered strings is comparing without regard to case. */
  lemma LowerEqual(a: string, b: string)
    ensures Lower(a) == Lower(b) <==> EqualIgnoringCase(a, b)
  {
    if Lower(a) == Lower(b) {
      forall i | 0 <= i < |a| ensures SameLetter(a[i], b[i]) {
        assert Lower(a)[i] == Lower(b)[i];
      }
    }
  }

  predicate IsSpace(c: char) {
    c == ' ' || 9 <= c as int <= 13 || 28 <= c as int <= 31
  }

  function StripLeft(s: string): string {
    if s != "" && IsSpace(s[0]) then StripLeft(s[1..]) else s
  }

  function StripRight(s: string): string {
    if s != "" && IsSpace(s[|s| - 1]) then StripRight(s[..|s| - 1]) else s
  }

  function Strip(s: string): string {
    StripRight(StripLeft(s))
  }

  /** Strip takes spaces off both ends, and all of them. */
  lemma {:induction false} StripMeans(s: string) returns (left: string, right: string)
    ensures s == left + Strip(s) + right
    ensures (forall i :: 0 <= i < |left| ==> IsSpace(left[i])) && forall i :: 0 <= i < |right| ==> IsSpace(right[i])
    ensures Strip(s) != "" ==> !IsSpace(Strip(s)[0]) && !IsSpace(Strip(s)[|Strip(s)| - 1])
  {
    left := StripLeftMeans(s);
    right := StripRightMeans(StripLeft(s));
  }

  lemma {:induction false} StripLeftMeans(s: string) returns (left: string)
    ensures s == left + StripLeft(s) && forall i :: 0 <= i < |left| ==> IsSpace(left[i])
    ensures StripLeft(s) != "" ==> !IsSpace(StripLeft(s)[0])
    decreases |s|
  {
    left := "";
    if s != "" && IsSpace(s[0]) {
      var head, tail := s[0], s[1..];
      assert StripLeft(s) == StripLeft(tail);
      hide IsSpace, StripLeft;
      var rest := StripLeftMeans(tail);
      left := [head] + rest;
      assert [head] + (rest + StripLeft(tail)) == left + StripLeft(tail);
      assert s == [head] + tail;
    }
  }

  lemma {:induction false} StripRightMeans(s: string) returns (right: string)
    ensures s == StripRight(s) + right && forall i :: 0 <= i < |right| ==> IsSpace(right[i])
    ensures StripRight(s) != "" ==> StripRight(s)[0] == s[0] && !IsSpace(StripRight(s)[|StripRight(s)| - 1])
    decreases |s|
  {
    right := "";
    if s != "" && IsSpace(s[|s| - 1]) {
      var init, last := s[..|s| - 1], s[|s| - 1];
      assert StripRight(s) == StripRight(init);
      hide IsSpace, StripRight;
      var rest := StripRightMeans(init);
      right := rest + [last];
      Appended(StripRight(init), rest, last);
      assert s == init + [last];
    }
  }

  lemma Appended(a: string, b: string, c: char)
    ensures a + b + [c] == a + (b + [c])
  {
  }

  /** What counts as a space: blank, tab, the line breaks, and the four separators below the blank. */
  lemma SpacesMean(c: char)
    ensures IsSpace(c) <==> c in " \t\n\r" || c as int in {11, 12, 28, 29, 30, 31}
  {
  }

  predicate OccursAt(s: string, word: string, i: int) {
    0 <= i && i + |word| <= |s| && s[i..i + |word|] == word
  }

  /** `word in s`. */
  predicate Mentions(s: string, word: string) {
    exists i :: 0 <= i <= |s| && OccursAt(s, word, i)
  }

  /** A word is mentioned when the string is something, the word, and something. */
  lemma MentionsMeans(s: string, word: string)
    ensures Mentions(s, word) <==> exists before, after :: s == before + word + after
  {
    if i :| 0 <= i <= |s| && OccursAt(s, word, i) {
      assert s == s[..i] + word + s[i + |word|..];
    }
    if before: string, after: string :| s == before + word + after {
      assert OccursAt(s, word, |before|);
    }
  }

  /** The string holds the word, in capitals or small letters. */
  ghost predicate Holds(s: string, word: string) { exists i :: HoldsAt(s, word, i) }

  predicate HoldsAt(s: string, word: string, i: int) {
    0 <= i && i + |word| <= |s| && EqualIgnoringCase(s[i..i + |word|], word)
  }

  lemma MentionsIgnoringCase(s: string, word: string)
    requires Lower(word) == word
    ensures Mentions(Lower(s), word) <==> Holds(s, word)
  {
    if i :| 0 <= i <= |s| && OccursAt(Lower(s), word, i) {
      assert Lower(s[i..i + |word|]) == Lower(s)[i..i + |word|];
      LowerEqual(s[i..i + |word|], word);
      assert HoldsAt(s, word, i);
    }
    if i :| HoldsAt(s, word, i) {
      assert Lower(s[i..i + |word|]) == Lower(s)[i..i + |word|];
      LowerEqual(s[i..i + |word|], word);
      assert OccursAt(Lower(s), word, i);
    }
  }
}
