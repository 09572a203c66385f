/** Sequence and set helpers shared by several services: the
    "keep the first occurrence" de-duplication the backend writes as a
    `seen` set plus `append` (or `dict.fromkeys`), and `sorted(set)` for
    integers.
 */
module Seqs {

  predicate NoDup<T(==)>(s: seq<T>) {
    forall i, j :: 0 <= i < j < |s| ==> s[i] != s[j]
  }

  predicate StrictlyIncreasing(s: seq<int>) {
    forall i, j :: 0 <= i < j < |s| ==> s[i] < s[j]
  }

  /** A common prefix cancels. */
  lemma {:induction false} PrefixCancel<T>(p: seq<T>, a: seq<T>, b: seq<T>)
    ensures p + a == p + b ==> a == b
  {
    assert a == (p + a)[|p|..];
    assert b == (p + b)[|p|..];
  }

  /** A common suffix cancels. */
  lemma {:induction false} SuffixCancel<T>(a: seq<T>, b: seq<T>, q: seq<T>)
    ensures a + q == b + q ==> a == b
  {
    if a + q == b + q {
      assert |a| == |b|;
      assert a == (a + q)[..|a|];
      assert b == (b + q)[..|b|];
    }
  }

  /** Position of the first occurrence of `x` in `s`. */
  function FirstIndex<T(==)>(s: seq<T>, x: T): (k: nat)
    requires x in s
    ensures k < |s| && s[k] == x && x !in s[..k]
  {
    if s[0] == x then 0 else 1 + FirstIndex(s[1..], x)
  }

  /** Keeps the first occurrence of every element, in order of appearance:
      the result has no duplicates and holds exactly the elements of `s`. */
  function Dedup<T(==)>(s: seq<T>): (r: seq<T>)
    ensures NoDup(r)
    ensures forall i :: 0 <= i < |r| ==> r[i] in s
    ensures forall k :: 0 <= k < |s| ==> s[k] in r
    ensures |r| <= |s|
  {
    if |s| == 0 then []
    else
      var p := s[..|s| - 1];
      var d := Dedup(p);
      var last := s[|s| - 1];
      assert forall k :: 0 <= k < |s| - 1 ==> s[k] == p[k];
      if last in d then d else d + [last]
  }

  /** Appending one element to the input appends it to the output unless
      it was seen before: the loop the backend writes. */
  lemma {:induction false} DedupSnoc<T>(s: seq<T>, x: T)
    ensures Dedup(s + [x]) == if x in Dedup(s) then Dedup(s) else Dedup(s) + [x]
    ensures x in Dedup(s) <==> x in s
  {
    assert (s + [x])[..|s|] == s;
  }

  lemma {:induction false} FirstIndexPrefix<T>(s: seq<T>, n: nat, x: T)
    requires n <= |s| && x in s[..n]
    ensures FirstIndex(s, x) == FirstIndex(s[..n], x)
    decreases n
  {
    if s[0] != x {
      assert s[..n][1..] == s[1..][..n - 1];
      assert x in s[1..][..n - 1];
      FirstIndexPrefix(s[1..], n - 1, x);
    }
  }

  /** Dedup keeps elements in the order of their first occurrence. */
  lemma {:induction false} DedupKeepsFirstOrder<T>(s: seq<T>, i: nat, j: nat)
    requires i < j < |Dedup(s)|
    ensures FirstIndex(s, Dedup(s)[i]) < FirstIndex(s, Dedup(s)[j])
    decreases |s|
  {
    var n := |s| - 1;
    var p := s[..n];
    var d := Dedup(p);
    var r := Dedup(s);
    var last := s[n];
    assert s == p + [last];
    assert d[i] in p;
    FirstIndexPrefix(s, n, d[i]);
    if j < |d| {
      assert d[j] in p;
      FirstIndexPrefix(s, n, d[j]);
      assert r[i] == d[i] && r[j] == d[j];
      DedupKeepsFirstOrder(p, i, j);
    } else {
      assert last !in d && r == d + [last] && r[j] == last;
      assert last !in p;
      assert FirstIndex(s, last) == n;
    }
  }

  /** Inserts a fresh element into a strictly increasing sequence. */
  function InsertSorted(x: int, r: seq<int>): (t: seq<int>)
    requires StrictlyIncreasing(r) && x !in r
    ensures StrictlyIncreasing(t)
    ensures forall y :: y in t <==> y == x || y in r
    ensures |t| == |r| + 1
  {
    if |r| == 0 then [x]
    else if x < r[0] then [x] + r
    else
      var t := InsertSorted(x, r[1..]);
      assert forall k :: 0 <= k < |t| ==> t[k] > r[0] by {
        assert x != r[0];
        forall k | 0 <= k < |t|
          ensures t[k] > r[0]
        {
          assert t[k] in t;
          if t[k] != x {
            var j :| 0 <= j < |r[1..]| && r[1..][j] == t[k];
            assert r[1..][j] == r[j + 1];
          }
        }
      }
      [r[0]] + t
  }

  /** Sorts a duplicate-free sequence of integers into increasing order. */
  function SortDistinct(s: seq<int>): (r: seq<int>)
    requires NoDup(s)
    ensures StrictlyIncreasing(r)
    ensures forall y :: y in r <==> y in s
    ensures |r| == |s|
  {
    if |s| == 0 then []
    else
      var p := s[..|s| - 1];
      assert forall k :: 0 <= k < |p| ==> p[k] == s[k];
      assert s == p + [s[|s| - 1]];
      InsertSorted(s[|s| - 1], SortDistinct(p))
  }

  /** `sorted(set(s))` for integers: increasing, each element of `s` once. */
  function SortedSet(s: seq<int>): (r: seq<int>)
    ensures StrictlyIncreasing(r)
    ensures forall y :: y in r <==> y in s
  {
    SortDistinct(Dedup(s))
  }

  /** A strictly increasing sequence is fixed by its elements, so SortedSet
      agrees with any other way of listing a set in increasing order. */
  lemma {:induction false} IncreasingUnique(a: seq<int>, b: seq<int>)
    requires StrictlyIncreasing(a) && StrictlyIncreasing(b)
    requires forall y :: y in a <==> y in b
    ensures a == b
    decreases |a|
  {
    if |a| > 0 {
      assert a[0] in a;
    }
    if |b| > 0 {
      assert b[0] in b;
    }
    if |a| > 0 && |b| > 0 {
      assert a[0] in b && b[0] in a;
      assert a[0] == b[0];
      forall y
        ensures y in a[1..] <==> y in b[1..]
      {
        if y in a[1..] {
          assert y in a && y > a[0];
        }
        if y in b[1..] {
          assert y in b && y > b[0];
        }
      }
      IncreasingUnique(a[1..], b[1..]);
      assert a == [a[0]] + a[1..] && b == [b[0]] + b[1..];
    }
  }

  /** The largest element of a non-empty sequence. */
  function SeqMax(s: seq<int>): (m: int)
    requires |s| > 0
    ensures m in s && forall k :: 0 <= k < |s| ==> s[k] <= m
  {
    if |s| == 1 then s[0]
    else
      var m := SeqMax(s[1..]);
      assert forall k :: 1 <= k < |s| ==> s[k] == s[1..][k - 1];
      if s[0] > m then s[0] else m
  }

  /** The smallest element of a non-empty sequence. */
  function SeqMin(s: seq<int>): (m: int)
    requires |s| > 0
    ensures m in s && forall k :: 0 <= k < |s| ==> m <= s[k]
  {
    if |s| == 1 then s[0]
    else
      var m := SeqMin(s[1..]);
      assert forall k :: 1 <= k < |s| ==> s[k] == s[1..][k - 1];
      if s[0] < m then s[0] else m
  }

  /** Dropping the last element and appending it again is the identity. */
  lemma {:induction false} DropLastSnoc<T>(s: seq<T>)
    requires |s| > 0
    ensures s[..|s| - 1] + [s[|s| - 1]] == s
  {
  }

  /** A suffix is its first element followed by the rest of it. */
  lemma {:induction false} SuffixCons<T>(s: seq<T>, i: nat)
    requires i < |s|
    ensures s[i..] == [s[i]] + s[i + 1..]
  {
  }

  /** `s` back to front. */
  function Reverse<T>(s: seq<T>): (r: seq<T>)
    ensures |r| == |s|
    ensures forall i :: 0 <= i < |s| ==> r[i] == s[|s| - 1 - i]
  {
    if |s| == 0 then [] else Reverse(s[1..]) + [s[0]]
  }

  /** Reversing the first `k` elements of a reversed sequence gives its
      last `k` elements in their original order. */
  lemma {:induction false} ReverseHeadOfReverse<T>(s: seq<T>, k: nat)
    requires k <= |s|
    ensures Reverse(Reverse(s)[..k]) == s[|s| - k..]
  {
    var r := Reverse(s);
    var x := r[..k];
    var y := Reverse(x);
    forall j | 0 <= j < k
      ensures y[j] == s[|s| - k + j]
    {
      assert y[j] == x[k - 1 - j];
      assert x[k - 1 - j] == r[k - 1 - j];
    }
  }
}
