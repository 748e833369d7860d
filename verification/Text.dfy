/** The few string operations the system relies on. */
module Text {

  /** Position of the first `c` in `s`, or -1. */
  function IndexOf(s: string, c: char): (i: int)
    ensures i == -1 <==> c !in s
    ensures i != -1 ==> 0 <= i < |s| && s[i] == c && c !in s[..i]
  {
    if s == [] then -1
    else if s[0] == c then 0
    else
      var rest := IndexOf(s[1..], c);
      if rest == -1 then -1 else
        assert s[..rest + 1] == [s[0]] + s[1..][..rest];
        rest + 1
  }

  /** Number of occurrences of `c` in `s`. */
  function Count(s: string, c: char): (n: nat)
    ensures n == 0 <==> c !in s
  {
    if s == [] then 0 else (if s[0] == c then 1 else 0) + Count(s[1..], c)
  }

  /** Where a separator that does not occur in the left part splits a joined string. */
  lemma SplitAtFirst(left: string, c: char, right: string)
    requires c !in left
    ensures IndexOf(left + [c] + right, c) == |left|
    ensures (left + [c] + right)[..|left|] == left
    ensures (left + [c] + right)[|left| + 1..] == right
  {
    var s := left + [c] + right;
    assert s[|left|] == c;
    assert c in s;
    assert s[..|left|] == left;
    assert forall k :: 0 <= k < |left| ==> s[k] != c;
    assert forall k :: |left| < k <= |s| ==> s[..k][|left|] == c;
  }

  lemma {:induction false} CountOfJoined(left: string, c: char, right: string)
    requires c !in left && c !in right
    ensures Count(left + [c] + right, c) == 1
  {
    var s := left + [c] + right;
    if left == [] {
      assert s[1..] == right;
    } else {
      assert s[1..] == left[1..] + [c] + right;
      CountOfJoined(left[1..], c, right);
    }
  }

  /** `Count` tells texts with at least two occurrences. */
  lemma {:induction false} CountsTwo(s: string, c: char)
    ensures Count(s, c) >= 2 <==> exists i, j :: 0 <= i < j < |s| && s[i] == c && s[j] == c
  {
    if s != [] {
      var rest := s[1..];
      CountsTwo(rest, c);
      assert forall i :: 0 <= i < |rest| ==> rest[i] == s[i + 1];
      if Count(s, c) >= 2 {
        if s[0] == c {
          assert c in rest;
          var j :| 0 <= j < |rest| && rest[j] == c;
          assert s[0] == c && s[j + 1] == c;
        } else {
          var i, j :| 0 <= i < j < |rest| && rest[i] == c && rest[j] == c;
          assert s[i + 1] == c && s[j + 1] == c;
        }
      }
      if i, j :| 0 <= i < j < |s| && s[i] == c && s[j] == c {
        assert rest[j - 1] == c;
        if i > 0 {
          assert rest[i - 1] == c;
        }
      }
    }
  }
}
