/** Searches over sequences, used as the specifications of the linear
    searches the library performs over thread slots and its fd registry. */
module Seqs {

  /** The smallest index holding x, or -1 when x does not occur. */
  function FirstIndexOf<T(==)>(s: seq<T>, x: T): (r: int)
    ensures r == -1 <==> x !in s
    ensures r != -1 ==> 0 <= r < |s| && s[r] == x && x !in s[..r]
  {
    if |s| == 0 then -1
    else if s[0] == x then 0
    else
      var k := FirstIndexOf(s[1..], x);
      assert s[1..][..if k < 0 then 0 else k] == s[1..1 + if k < 0 then 0 else k];
      if k == -1 then -1 else k + 1
  }

  /** The first index holding x is the one before which x never occurs. */
  lemma FirstIndexOfAt<T>(s: seq<T>, x: T, i: int)
    requires 0 <= i <= |s|
    requires i < |s| ==> s[i] == x
    requires forall u :: 0 <= u < i ==> s[u] != x
    ensures FirstIndexOf(s, x) == if i < |s| then i else -1
  {
    if i < |s| {
      assert s[i] in s;
      var r := FirstIndexOf(s, x);
      assert r <= i;
      assert r >= i;
    } else {
      assert x !in s;
    }
  }

  /** The largest index holding x, or -1 when x does not occur. */
  function LastIndexOf<T(==)>(s: seq<T>, x: T): (r: int)
    ensures r == -1 <==> x !in s
    ensures r != -1 ==> 0 <= r < |s| && s[r] == x && x !in s[r + 1..]
  {
    if |s| == 0 then -1
    else if s[|s| - 1] == x then |s| - 1
    else
      var k := LastIndexOf(s[..|s| - 1], x);
      assert k != -1 ==> s[..|s| - 1][k + 1..] + [s[|s| - 1]] == s[k + 1..];
      assert s == s[..|s| - 1] + [s[|s| - 1]];
      k
  }

  /** The last index holding x is the one after which x never occurs. */
  lemma LastIndexOfAt<T>(s: seq<T>, x: T, i: int)
    requires -1 <= i < |s|
    requires i >= 0 ==> s[i] == x
    requires forall u :: i < u < |s| ==> s[u] != x
    ensures LastIndexOf(s, x) == i
  {
    if i >= 0 {
      assert s[i] in s;
      var r := LastIndexOf(s, x);
      assert r >= i;
      assert r <= i;
    } else {
      assert x !in s;
    }
  }
}
