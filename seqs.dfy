/** Sequence helpers: distinctness, first occurrence and order-preserving de-duplication. */
module Seqs {

  predicate Distinct<T(==)>(s: seq<T>)
  {
    forall i, j :: 0 <= i < j < |s| ==> s[i] != s[j]
  }

  function FirstIndex<T(==)>(s: seq<T>, x: T): (i: nat)
    requires x in s
    ensures i < |s| && s[i] == x && x !in s[..i]
  {
    if s[0] == x then 0 else 1 + FirstIndex(s[1..], x)
  }

  lemma FirstIndexOfPrefix<T>(s: seq<T>, n: nat, x: T)
    requires n <= |s| && x in s[..n]
    ensures FirstIndex(s, x) == FirstIndex(s[..n], x)
  {
    var i, j := FirstIndex(s, x), FirstIndex(s[..n], x);
    assert s[..n][j] == s[j];
    forall k | 0 <= k < j ensures s[k] != x { assert s[..n][..j][k] == s[k]; }
    forall k | 0 <= k < i ensures s[k] != x { assert s[..i][k] == s[k]; }
  }

  lemma FirstIndexAfterPrefix<T>(s: seq<T>, n: nat)
    requires n < |s| && s[n] !in s[..n]
    ensures FirstIndex(s, s[n]) == n
  {
    var i := FirstIndex(s, s[n]);
    forall k | 0 <= k < n ensures s[k] != s[n] { assert s[..n][k] == s[k]; }
    forall k | 0 <= k < i ensures s[k] != s[n] { assert s[..i][k] == s[k]; }
  }

  /** The distinct elements of `s` in order of first occurrence, as itertools' `unique` yields them. */
  function Dedup<T(==,!new)>(s: seq<T>): (r: seq<T>)
    ensures Distinct(r)
    ensures forall x :: x in r <==> x in s
    ensures forall i, j :: 0 <= i < j < |r| ==> FirstIndex(s, r[i]) < FirstIndex(s, r[j])
  {
    if s == [] then []
    else
      var n := |s| - 1;
      var d := Dedup(s[..n]);
      DedupOrderStep(s, n, d);
      if s[n] in d then d else d + [s[n]]
  }

  lemma DedupOrderStep<T(!new)>(s: seq<T>, n: nat, d: seq<T>)
    requires n == |s| - 1
    requires forall x :: x in d <==> x in s[..n]
    requires forall i, j :: 0 <= i < j < |d| ==> FirstIndex(s[..n], d[i]) < FirstIndex(s[..n], d[j])
    ensures forall i :: 0 <= i < |d| ==> d[i] in s
    ensures forall i, j :: 0 <= i < j < |d| ==> FirstIndex(s, d[i]) < FirstIndex(s, d[j])
    ensures s[n] !in d ==> forall i :: 0 <= i < |d| ==> FirstIndex(s, d[i]) < FirstIndex(s, s[n])
  {
    assert s == s[..n] + [s[n]];
    forall i | 0 <= i < |d| ensures d[i] in s { assert d[i] in s[..n]; }
    forall i | 0 <= i < |d| ensures FirstIndex(s, d[i]) == FirstIndex(s[..n], d[i]) {
      FirstIndexOfPrefix(s, n, d[i]);
    }
    if s[n] !in d {
      FirstIndexAfterPrefix(s, n);
    }
  }

  /** Iterator `skip(n)`: drops the first `n` elements, or all of them. */
  function Skip<T>(s: seq<T>, n: nat): (r: seq<T>)
    ensures |r| == if n <= |s| then |s| - n else 0
    ensures forall k :: 0 <= k < |r| ==> r[k] == s[n + k]
  {
    if n <= |s| then s[n..] else []
  }

  /** Iterator `take(n)`: keeps the first `n` elements, or all of them. */
  function Take<T>(s: seq<T>, n: nat): (r: seq<T>)
    ensures |r| == if n <= |s| then n else |s|
    ensures forall k :: 0 <= k < |r| ==> r[k] == s[k]
  {
    if n <= |s| then s[..n] else s
  }

  /** `take(b).skip(a)` and `skip(a).take(b - a)` both give the slice from `a` to `b`, clipped to the sequence. */
  lemma TakeSkip<T>(s: seq<T>, a: nat, b: nat)
    requires a <= b
    ensures Skip(Take(s, b), a) == Take(Skip(s, a), b - a)
    ensures Skip(Take(s, b), a) == s[Min(a, |s|)..Min(b, |s|)]
  {
  }

  function Min(a: nat, b: nat): nat { if a <= b then a else b }

  function Max(a: nat, b: nat): nat { if a <= b then b else a }
}
