/** The manager's bubble sort: decreasing order of |key|, equal keys in place. */
module SortSubset {

  function Abs(x: int): nat {
    if x < 0 then -x else x
  }

  /** The elements of `list` are indices of `keys`. */
  predicate Indices(list: seq<int>, keys: seq<int>) {
    forall i :: 0 <= i < |list| ==> 0 <= list[i] < |keys|
  }

  predicate Descending(list: seq<int>, keys: seq<int>)
    requires Indices(list, keys)
  {
    forall i, j :: 0 <= i < j < |list| ==> Abs(keys[list[j]]) <= Abs(keys[list[i]])
  }

  function Insert(x: int, list: seq<int>, keys: seq<int>): (r: seq<int>)
    requires 0 <= x < |keys| && Indices(list, keys)
    ensures |r| == |list| + 1 && Indices(r, keys)
  {
    if list == [] || Abs(keys[list[0]]) <= Abs(keys[x]) then [x] + list
    else [list[0]] + Insert(x, list[1..], keys)
  }

  /** The stable sort in decreasing order of |key|. */
  function SortDesc(list: seq<int>, keys: seq<int>): (r: seq<int>)
    requires Indices(list, keys)
    ensures |r| == |list| && Indices(r, keys)
  {
    if list == [] then [] else Insert(list[0], SortDesc(list[1..], keys), keys)
  }

  lemma InsertSorted(x: int, list: seq<int>, keys: seq<int>)
    requires 0 <= x < |keys| && Indices(list, keys) && Descending(list, keys)
    ensures Descending(Insert(x, list, keys), keys)
  {
    if list == [] || Abs(keys[list[0]]) <= Abs(keys[x]) {
    } else {
      var rest := Insert(x, list[1..], keys);
      InsertSorted(x, list[1..], keys);
      InsertBag(x, list[1..], keys);
      forall j | 0 <= j < |rest|
        ensures Abs(keys[rest[j]]) <= Abs(keys[list[0]])
      {
        assert rest[j] in multiset(rest);
      }
    }
  }

  lemma InsertBag(x: int, list: seq<int>, keys: seq<int>)
    requires 0 <= x < |keys| && Indices(list, keys)
    ensures multiset(Insert(x, list, keys)) == multiset(list) + multiset{x}
  {
    if list == [] || Abs(keys[list[0]]) <= Abs(keys[x]) {
    } else {
      InsertBag(x, list[1..], keys);
      assert list == [list[0]] + list[1..];
    }
  }

  /** SortDesc returns a descending permutation. */
  lemma {:induction false} SortDescSorts(list: seq<int>, keys: seq<int>)
    requires Indices(list, keys)
    ensures Descending(SortDesc(list, keys), keys)
    ensures multiset(SortDesc(list, keys)) == multiset(list)
  {
    if list != [] {
      SortDescSorts(list[1..], keys);
      InsertSorted(list[0], SortDesc(list[1..], keys), keys);
      InsertBag(list[0], SortDesc(list[1..], keys), keys);
      assert list == [list[0]] + list[1..];
    }
  }

  lemma InsertCommutes(a: int, b: int, list: seq<int>, keys: seq<int>)
    requires 0 <= a < |keys| && 0 <= b < |keys| && Indices(list, keys)
    requires Abs(keys[a]) < Abs(keys[b])
    ensures Insert(a, Insert(b, list, keys), keys) == Insert(b, Insert(a, list, keys), keys)
  {
    if list == [] || Abs(keys[list[0]]) <= Abs(keys[a]) {
      assert ([b] + list)[1..] == list && ([a] + list)[1..] == list;
    } else {
      InsertCommutes(a, b, list[1..], keys);
      if Abs(keys[list[0]]) <= Abs(keys[b]) {
        assert ([b] + list)[1..] == list;
      } else {
        assert ([list[0]] + Insert(b, list[1..], keys))[1..] == Insert(b, list[1..], keys);
        assert ([list[0]] + Insert(a, list[1..], keys))[1..] == Insert(a, list[1..], keys);
      }
    }
  }

  /** Exchanging two neighbours in the wrong order leaves the sorted list as it is. */
  lemma SwapKeepsSort(list: seq<int>, j: nat, keys: seq<int>)
    requires Indices(list, keys) && j + 1 < |list|
    requires Abs(keys[list[j]]) < Abs(keys[list[j + 1]])
    ensures SortDesc(list[j := list[j + 1]][j + 1 := list[j]], keys) == SortDesc(list, keys)
  {
    var swapped := list[j := list[j + 1]][j + 1 := list[j]];
    if j == 0 {
      assert swapped[1..][1..] == list[1..][1..];
      InsertCommutes(list[0], list[1], SortDesc(list[1..][1..], keys), keys);
    } else {
      assert swapped[1..] == list[1..][j - 1 := list[1..][j]][j := list[1..][j - 1]];
      SwapKeepsSort(list[1..], j - 1, keys);
    }
  }

  lemma SortedIsFixed(list: seq<int>, keys: seq<int>)
    requires Indices(list, keys) && Descending(list, keys)
    ensures SortDesc(list, keys) == list
  {
    if list != [] {
      SortedIsFixed(list[1..], keys);
      assert list == [list[0]] + list[1..];
    }
  }

  /** Everything from position i on is in its final place. */
  predicate TailDone(list: seq<int>, i: nat, keys: seq<int>)
    requires Indices(list, keys)
  {
    forall x, y :: 0 <= x < y < |list| && i <= y ==> Abs(keys[list[y]]) <= Abs(keys[list[x]])
  }

  /** One pass of bubbles has reached position j of the first i + 1 elements. */
  predicate InPass(list: seq<int>, i: nat, j: nat, swapped: bool, keys: seq<int>)
    requires Indices(list, keys)
  {
    && j <= i < |list|
    && TailDone(list, i + 1, keys)
    && (forall x :: 0 <= x < j ==> Abs(keys[list[j]]) <= Abs(keys[list[x]]))
    && (!swapped ==> Descending(list[..j + 1], keys))
  }

  function Swapped(list: seq<int>, j: nat): (r: seq<int>)
    requires j + 1 < |list|
    ensures |r| == |list|
  {
    list[j := list[j + 1]][j + 1 := list[j]]
  }

  lemma PassStep(list: seq<int>, i: nat, j: nat, swapped: bool, keys: seq<int>)
    requires Indices(list, keys) && InPass(list, i, j, swapped, keys) && j < i
    ensures Abs(keys[list[j]]) < Abs(keys[list[j + 1]]) ==> InPass(Swapped(list, j), i, j + 1, true, keys)
    ensures Abs(keys[list[j]]) >= Abs(keys[list[j + 1]]) ==> InPass(list, i, j + 1, swapped, keys)
  {}

  lemma PassEnd(list: seq<int>, i: nat, swapped: bool, keys: seq<int>)
    requires Indices(list, keys) && InPass(list, i, i, swapped, keys)
    ensures TailDone(list, i, keys)
    ensures !swapped ==> Descending(list, keys)
  {
    forall x, y | 0 <= x < y < |list| && !swapped
      ensures Abs(keys[list[y]]) <= Abs(keys[list[x]])
    {
      if y <= i {
        assert list[..i + 1][x] == list[x] && list[..i + 1][y] == list[y];
      }
    }
  }

  method SwapAt(subset: array<int>, size: nat, j: nat)
    requires j + 1 < size <= subset.Length
    modifies subset
    ensures subset[..size] == Swapped(old(subset[..size]), j)
    ensures subset[size..] == old(subset[size..])
  {
    subset[j], subset[j + 1] := subset[j + 1], subset[j];
  }

  /** One pass of the inner loop over the first i + 1 elements. */
  method Pass(subset: array<int>, keys: array<int>, size: nat, i: nat) returns (swapped: bool)
    requires subset != keys && i < size <= subset.Length
    requires Indices(subset[..size], keys[..]) && TailDone(subset[..size], i + 1, keys[..])
    modifies subset
    ensures Indices(subset[..size], keys[..]) && TailDone(subset[..size], i, keys[..])
    ensures SortDesc(subset[..size], keys[..]) == SortDesc(old(subset[..size]), keys[..])
    ensures subset[size..] == old(subset[size..])
    ensures !swapped ==> Descending(subset[..size], keys[..])
  {
    ghost var ks := keys[..];
    ghost var list := subset[..size];
    swapped := false;
    var j := 0;
    while j < i
      invariant 0 <= j <= i
      invariant keys[..] == ks && list == subset[..size] && subset[size..] == old(subset[size..])
      invariant Indices(list, ks) && InPass(list, i, j, swapped, ks)
      invariant SortDesc(list, ks) == SortDesc(old(subset[..size]), ks)
    {
      PassStep(list, i, j, swapped, ks);
      var a, b := subset[j], subset[j + 1];
      assert a == list[j] && b == list[j + 1];
      if Abs(keys[a]) < Abs(keys[b]) {
        SwapKeepsSort(list, j, ks);
        SwapAt(subset, size, j);
        list := subset[..size];
        swapped := true;
      }
      j := j + 1;
    }
    PassEnd(list, i, swapped, ks);
  }

  /** manager_sort_subset: bubble sort with early exit of the first `size` elements. */
  method Sort(subset: array<int>, keys: array<int>, size: nat)
    requires subset != keys && size <= subset.Length
    requires Indices(subset[..size], keys[..])
    modifies subset
    ensures Indices(subset[..size], keys[..])
    ensures subset[..size] == SortDesc(old(subset[..size]), keys[..])
    ensures subset[size..] == old(subset[size..])
  {
    var i := size - 1;
    while i >= 0
      invariant -1 <= i < size
      invariant subset[size..] == old(subset[size..])
      invariant Indices(subset[..size], keys[..]) && TailDone(subset[..size], i + 1, keys[..])
      invariant SortDesc(subset[..size], keys[..]) == SortDesc(old(subset[..size]), keys[..])
      decreases i
    {
      var swapped := Pass(subset, keys, size, i);
      if !swapped {
        break;
      }
      i := i - 1;
    }
    SortedIsFixed(subset[..size], keys[..]);
  }
}
