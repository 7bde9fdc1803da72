/** What several modules need about sequences and arrays of numbers. */
module Sequences {

  function SumOf(list: seq<int>): int {
    if list == [] then 0 else SumOf(list[..|list| - 1]) + list[|list| - 1]
  }

  lemma SumOfAppend(list: seq<int>, x: int)
    ensures SumOf(list + [x]) == SumOf(list) + x
  {
    assert (list + [x])[..|list|] == list;
  }

  lemma SumOfConcat(a: seq<int>, b: seq<int>)
    ensures SumOf(a + b) == SumOf(a) + SumOf(b)
  {
    if b == [] {
      assert a + b == a;
    } else {
      assert (a + b)[..|a + b| - 1] == a + b[..|b| - 1];
      SumOfConcat(a, b[..|b| - 1]);
    }
  }

  lemma SumOfSplit(a: seq<int>, x: int, b: seq<int>)
    ensures SumOf(a + [x] + b) == SumOf(a + b) + x
    ensures multiset(a + [x] + b) == multiset(a + b) + multiset{x}
  {
    SumOfConcat(a + [x], b);
    SumOfAppend(a, x);
    SumOfConcat(a, b);
  }

  lemma SumOfUpdate(xs: seq<int>, i: nat, v: int)
    requires i < |xs|
    ensures SumOf(xs[i := v]) == SumOf(xs) - xs[i] + v
  {
    var n := |xs| - 1;
    if i < n {
      assert xs[i := v][..n] == xs[..n][i := v];
      SumOfUpdate(xs[..n], i, v);
    } else {
      assert xs[i := v][..n] == xs[..n];
    }
  }

  lemma SumOfNat(xs: seq<nat>)
    ensures SumOf(xs) >= 0
  {}

  predicate NoDup(list: seq<int>) {
    forall i, j :: 0 <= i < j < |list| ==> list[i] != list[j]
  }

  lemma TwiceCounts<T>(xs: seq<T>, i: nat, j: nat)
    requires i < j < |xs| && xs[i] == xs[j]
    ensures multiset(xs)[xs[i]] >= 2
  {
    assert xs == xs[..j] + [xs[j]] + xs[j + 1..];
    assert xs[..j][i] == xs[i];
  }

  lemma {:induction false} NoDupOnce(xs: seq<int>, x: int)
    requires NoDup(xs)
    ensures multiset(xs)[x] <= 1
  {
    if xs != [] {
      assert xs == [xs[0]] + xs[1..];
      NoDupOnce(xs[1..], x);
      assert xs[0] !in xs[1..];
    }
  }

  /** One assignment at the end of the used part of an array. */
  method Append(list: array<int>, n: nat, x: int)
    requires n < list.Length
    modifies list
    ensures list[..n + 1] == old(list[..n]) + [x]
  {
    list[n] := x;
  }
}
