/** Small sequence utilities shared by the file-name functions, the
    directory filters and the node arena. */
module Seqs {

  import opened Wrappers

  /** The elements of `s` that satisfy `p`, in their original order. */
  function Filter<T>(s: seq<T>, p: T -> bool): seq<T>
  {
    FilterUpTo(s, p, |s|)
  }

  /** The elements among the first `n` of `s` that satisfy `p`, in order. */
  function FilterUpTo<T>(s: seq<T>, p: T -> bool, n: nat): (r: seq<T>)
    requires n <= |s|
    ensures |r| <= n
  {
    if n == 0 then []
    else FilterUpTo(s, p, n - 1) + (if p(s[n - 1]) then [s[n - 1]] else [])
  }

  /** An element is kept exactly when it is in `s` and satisfies `p`. */
  lemma {:induction false} FilterUpToMembers<T>(s: seq<T>, p: T -> bool, n: nat)
    requires n <= |s|
    ensures forall i | 0 <= i < |FilterUpTo(s, p, n)| ::
              FilterUpTo(s, p, n)[i] in s[..n] && p(FilterUpTo(s, p, n)[i])
    ensures forall i | 0 <= i < n && p(s[i]) :: s[i] in FilterUpTo(s, p, n)
  {
    if n > 0 {
      FilterUpToMembers(s, p, n - 1);
      assert s[..n] == s[..n - 1] + [s[n - 1]];
    }
  }

  /** Filtering one more element appends it exactly when it passes. */
  lemma FilterUpToStep<T>(s: seq<T>, p: T -> bool, n: nat)
    requires n < |s|
    ensures p(s[n]) ==> FilterUpTo(s, p, n + 1) == FilterUpTo(s, p, n) + [s[n]]
    ensures !p(s[n]) ==> FilterUpTo(s, p, n + 1) == FilterUpTo(s, p, n)
  {
    assert FilterUpTo(s, p, n) + [] == FilterUpTo(s, p, n);
  }

  lemma FilterMembers<T>(s: seq<T>, p: T -> bool)
    ensures forall i | 0 <= i < |Filter(s, p)| :: Filter(s, p)[i] in s && p(Filter(s, p)[i])
    ensures forall i | 0 <= i < |s| && p(s[i]) :: s[i] in Filter(s, p)
  {
    FilterUpToMembers(s, p, |s|);
    assert s[..|s|] == s;
  }

  /** Position of the first occurrence of `x` in `s`, if any. */
  function IndexOf<T(==)>(s: seq<T>, x: T): (r: Option<nat>)
    ensures r.Some? ==> r.value < |s| && s[r.value] == x && x !in s[..r.value]
    ensures r.None? <==> x !in s
    decreases |s|
  {
    if |s| == 0 then None
    else if s[0] == x then Some(0)
    else
      match IndexOf(s[1..], x)
      case None => None
      case Some(k) =>
        assert s[..k + 1] == [s[0]] + s[1..][..k];
        Some(k + 1)
  }

  /** Position of the last occurrence of `x` in `s`, if any. */
  function LastIndexOf<T(==)>(s: seq<T>, x: T): (r: Option<nat>)
    ensures r.Some? ==> r.value < |s| && s[r.value] == x && x !in s[r.value + 1..]
    ensures r.None? <==> x !in s
    decreases |s|
  {
    if |s| == 0 then None
    else if s[|s| - 1] == x then Some(|s| - 1)
    else
      assert s == s[..|s| - 1] + [s[|s| - 1]];
      match LastIndexOf(s[..|s| - 1], x)
      case None => None
      case Some(k) =>
        assert s[k + 1..] == s[..|s| - 1][k + 1..] + [s[|s| - 1]];
        Some(k)
  }

  /** Concatenation is associative; stated once so callers need not rediscover it. */
  lemma AppendAssoc<T>(a: seq<T>, b: seq<T>, c: seq<T>)
    ensures (a + b) + c == a + (b + c)
  {
  }

  /** The consecutive ids `lo, lo + 1, ..., hi - 1`. */
  function Range(lo: nat, hi: nat): (r: seq<nat>)
    requires lo <= hi
    ensures |r| == hi - lo
    ensures forall j | 0 <= j < |r| :: r[j] == lo + j
  {
    seq(hi - lo, j requires 0 <= j < hi - lo => lo + j)
  }

  lemma RangeExtend(lo: nat, hi: nat)
    requires lo <= hi
    ensures Range(lo, hi) + [hi] == Range(lo, hi + 1)
  {
  }
}
