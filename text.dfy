/**
 * The ASCII part of the JavaScript string operations the planner uses:
 * `toLowerCase`, `includes`, `indexOf`, `lastIndexOf`, `trim`, `split`,
 * `substring` and the `\s` character class.
 */
module Text {

  /** Lower-cases one ASCII letter and leaves every other character alone. */
  function LowerChar(c: char): (d: char)
    ensures 'A' <= c <= 'Z' ==> d as int == c as int + 32
    ensures !('A' <= c <= 'Z') ==> d == c
    ensures !('A' <= d <= 'Z')
  {
    if 'A' <= c <= 'Z' then (c as int + 32) as char else c
  }

  /** `s.toLowerCase()` restricted to ASCII. */
  function Lower(s: string): (t: string)
    ensures |t| == |s|
    ensures forall i :: 0 <= i < |s| ==> t[i] == LowerChar(s[i])
  {
    seq(|s|, i requires 0 <= i < |s| => LowerChar(s[i]))
  }

  /** The ASCII members of JavaScript's white-space set (`\s`, and what `trim` removes). */
  predicate IsSpace(c: char) {
    c == ' ' || c == '\t' || c == '\n' || c == '\r' || c == '\U{B}' || c == '\U{C}'
  }

  /** `sub` occurs in `s` starting at index `i`. */
  predicate OccursAt(s: string, sub: string, i: int) {
    0 <= i && i + |sub| <= |s| && s[i..i + |sub|] == sub
  }

  /** `s.includes(sub)`. */
  predicate Contains(s: string, sub: string) {
    exists i | 0 <= i <= |s| - |sub| :: OccursAt(s, sub, i)
  }

  /** `s.indexOf(sub)`: the first index at which `sub` occurs, or -1. */
  function IndexOf(s: string, sub: string): (r: int)
    ensures -1 <= r <= |s|
    ensures r >= 0 ==> OccursAt(s, sub, r)
    ensures r >= 0 ==> forall j :: 0 <= j < r ==> !OccursAt(s, sub, j)
    ensures r == -1 <==> !Contains(s, sub)
    decreases |s|
  {
    if |s| < |sub| then
      -1
    else if s[..|sub|] == sub then
      assert OccursAt(s, sub, 0);
      0
    else
      var k := IndexOf(s[1..], sub);
      assert forall j :: 1 <= j ==> OccursAt(s, sub, j) == OccursAt(s[1..], sub, j - 1);
      assert !OccursAt(s, sub, 0);
      if k < 0 then -1 else k + 1
  }

  /** `s.indexOf(c)` for a single character. */
  function IndexOfChar(s: string, c: char): (r: int)
    ensures -1 <= r < |s|
    ensures r >= 0 ==> s[r] == c && forall j :: 0 <= j < r ==> s[j] != c
    ensures r == -1 <==> c !in s
  {
    if |s| == 0 then -1
    else if s[0] == c then 0
    else var k := IndexOfChar(s[1..], c); if k < 0 then -1 else k + 1
  }

  /** `s.lastIndexOf(c)` for a single character. */
  function LastIndexOfChar(s: string, c: char): (r: int)
    ensures -1 <= r < |s|
    ensures r >= 0 ==> s[r] == c && forall j :: r < j < |s| ==> s[j] != c
    ensures r == -1 <==> c !in s
  {
    if |s| == 0 then -1
    else if s[|s| - 1] == c then |s| - 1
    else LastIndexOfChar(s[..|s| - 1], c)
  }

  /** `s.split(sep)[0]`: the text before the first occurrence of `sep`, or all of `s`. */
  function BeforeFirst(s: string, sep: string): (r: string)
    ensures !Contains(s, sep) ==> r == s
    ensures Contains(s, sep) ==> r == s[..IndexOf(s, sep)]
  {
    var k := IndexOf(s, sep);
    if k < 0 then s else s[..k]
  }

  /** The text after the first occurrence of `sep`. */
  function AfterFirst(s: string, sep: string): string
    requires Contains(s, sep)
  {
    var k := IndexOf(s, sep);
    s[k + |sep|..]
  }

  /** `s.split(sep)[1]` when `s` contains `sep`: the text between its first and second occurrence. */
  function SplitSecond(s: string, sep: string): string
    requires Contains(s, sep)
  {
    BeforeFirst(AfterFirst(s, sep), sep)
  }

  /** `s.substring(a, b)`: both ends clamped into the string, swapped when out of order. */
  function Substring(s: string, a: int, b: int): (r: string)
    ensures |r| <= |s|
  {
    var x := if a < 0 then 0 else if a > |s| then |s| else a;
    var y := if b < 0 then 0 else if b > |s| then |s| else b;
    if x <= y then s[x..y] else s[y..x]
  }

  /** Drops leading white space. */
  function TrimStart(s: string): (r: string)
    ensures |r| <= |s|
    ensures exists k :: 0 <= k <= |s| && r == s[k..]
    ensures r != [] ==> !IsSpace(r[0])
  {
    if |s| > 0 && IsSpace(s[0]) then
      var r := TrimStart(s[1..]);
      ghost var k :| 0 <= k <= |s| - 1 && r == s[1..][k..];
      assert r == s[k + 1..];
      r
    else
      assert s == s[0..];
      s
  }

  /** Drops trailing white space. */
  function TrimEnd(s: string): (r: string)
    ensures exists k :: 0 <= k <= |s| && r == s[..k]
    ensures r != [] ==> !IsSpace(r[|r| - 1])
  {
    if |s| > 0 && IsSpace(s[|s| - 1]) then
      var r := TrimEnd(s[..|s| - 1]);
      ghost var k :| 0 <= k <= |s| - 1 && r == s[..|s| - 1][..k];
      assert r == s[..k];
      r
    else
      assert s == s[..|s|];
      s
  }

  /** `s.trim()`. */
  function Trim(s: string): (r: string)
    ensures r != [] ==> !IsSpace(r[0]) && !IsSpace(r[|r| - 1])
  {
    TrimEnd(TrimStart(s))
  }

  /** No white space anywhere in `s`. */
  predicate NoSpace(s: string) {
    forall i :: 0 <= i < |s| ==> !IsSpace(s[i])
  }

  /** Nothing but white space in `s`. */
  predicate AllSpace(s: string) {
    forall i :: 0 <= i < |s| ==> IsSpace(s[i])
  }

  /** What follows the first character of a white-space run is white space too. */
  lemma TailAllSpace(gap: string)
    requires |gap| > 0 && AllSpace(gap)
    ensures AllSpace(gap[1..])
  {
    assert forall i :: 0 <= i < |gap| - 1 ==> gap[1..][i] == gap[i + 1];
  }

  /** Leading white space of any length is dropped up to the first other character. */
  lemma {:induction false} TrimStartDropsGap(gap: string, word: string)
    requires AllSpace(gap)
    requires word == [] || !IsSpace(word[0])
    ensures TrimStart(gap + word) == word
    decreases |gap|
  {
    if gap != [] {
      assert (gap + word)[1..] == gap[1..] + word;
      assert IsSpace(gap[0]);
      TailAllSpace(gap);
      TrimStartDropsGap(gap[1..], word);
    }
  }

  /** Trailing white space of any length is dropped back to the last other character. */
  lemma {:induction false} TrimEndDropsGap(word: string, gap: string)
    requires AllSpace(gap)
    requires word == [] || !IsSpace(word[|word| - 1])
    ensures TrimEnd(word + gap) == word
    decreases |gap|
  {
    var t := word + gap;
    if gap == [] {
      assert t == word;
    } else {
      var front := gap[..|gap| - 1];
      assert IsSpace(t[|t| - 1]);
      assert t[..|t| - 1] == word + front;
      assert AllSpace(front) by {
        assert forall i :: 0 <= i < |front| ==> front[i] == gap[i];
      }
      TrimEndDropsGap(word, front);
    }
  }

  /**
   * Trimming strips white-space padding on both sides of a text that
   * neither starts nor ends with white space.
   */
  lemma TrimPadding(pre: string, word: string, post: string)
    requires AllSpace(pre) && AllSpace(post)
    requires |word| > 0 && !IsSpace(word[0]) && !IsSpace(word[|word| - 1])
    ensures Trim(pre + word + post) == word
  {
    assert pre + word + post == pre + (word + post);
    TrimStartDropsGap(pre, word + post);
    TrimEndDropsGap(word, post);
  }

  /** A character with none like it before is the one `indexOf` finds. */
  lemma IndexOfCharIsFirst(s: string, c: char, k: int)
    requires 0 <= k < |s| && s[k] == c
    requires forall j :: 0 <= j < k ==> s[j] != c
    ensures IndexOfChar(s, c) == k
  {
    assert c in s;
  }

  /** A character with none like it after is the one `lastIndexOf` finds. */
  lemma LastIndexOfCharIsLast(s: string, c: char, k: int)
    requires 0 <= k < |s| && s[k] == c
    requires forall j :: k < j < |s| ==> s[j] != c
    ensures LastIndexOfChar(s, c) == k
  {
    assert c in s;
  }

  /** An occurrence with none before it is the one `indexOf` finds. */
  lemma IndexOfIsFirst(s: string, sub: string, k: int)
    requires OccursAt(s, sub, k)
    requires forall j :: 0 <= j < k ==> !OccursAt(s, sub, j)
    ensures IndexOf(s, sub) == k
  {
    var r := IndexOf(s, sub);
    assert r != -1 by {
      assert Contains(s, sub);
    }
  }

  /** A contiguous piece of a string that lacks `sub` lacks it too. */
  lemma {:induction false} SliceKeepsAbsence(s: string, sub: string, i: int, j: int)
    requires 0 <= i <= j <= |s|
    requires !Contains(s, sub)
    ensures !Contains(s[i..j], sub)
  {
    forall k | 0 <= k <= (j - i) - |sub|
      ensures !OccursAt(s[i..j], sub, k)
    {
      assert forall m :: k <= m < k + |sub| ==> s[i..j][m] == s[i + m];
      assert s[i..j][k..k + |sub|] == s[i + k..i + k + |sub|];
      assert !OccursAt(s, sub, i + k);
    }
  }

  /** The text before the first occurrence of `sep` never contains `sep`. */
  lemma {:induction false} BeforeFirstLacksSeparator(s: string, sep: string)
    requires |sep| > 0
    ensures !Contains(BeforeFirst(s, sep), sep)
  {
    var k := IndexOf(s, sep);
    if k >= 0 {
      var pre := s[..k];
      forall j | 0 <= j <= |pre| - |sep|
        ensures !OccursAt(pre, sep, j)
      {
        assert pre[j..j + |sep|] == s[j..j + |sep|];
        assert !OccursAt(s, sep, j);
      }
    }
  }

  /** Trimming keeps a string free of `sub`. */
  lemma {:induction false} TrimKeepsAbsence(s: string, sub: string)
    requires !Contains(s, sub)
    ensures !Contains(Trim(s), sub)
  {
    var t := TrimStart(s);
    var k :| 0 <= k <= |s| && t == s[k..];
    SliceKeepsAbsence(s, sub, k, |s|);
    assert s[k..|s|] == t;
    var e :| 0 <= e <= |t| && TrimEnd(t) == t[..e];
    SliceKeepsAbsence(t, sub, 0, e);
    assert t[0..e] == t[..e];
  }
}
