/** The manager's greedy choice of entries whose loads fill a goal. */
module Greedy {
  import opened SortSubset

  predicate NonNegative(weights: seq<int>) {
    forall i :: 0 <= i < |weights| ==> 0 <= weights[i]
  }

  function Sum(list: seq<int>, weights: seq<int>): (r: int)
    requires Indices(list, weights)
    ensures NonNegative(weights) ==> 0 <= r
  {
    if list == [] then 0 else weights[list[0]] + Sum(list[1..], weights)
  }

  /** One forward pass: an entry is taken when it still fits, and the pass stops at
      the first entry of weight zero. */
  function Chosen(list: seq<int>, weights: seq<int>, room: int): (r: seq<int>)
    requires Indices(list, weights)
    ensures |r| <= |list| && Indices(r, weights)
    ensures forall x :: x in r ==> x in list && weights[x] != 0
  {
    if list == [] then []
    else if weights[list[0]] > room then Chosen(list[1..], weights, room)
    else if weights[list[0]] == 0 then []
    else
      [list[0]] + Chosen(list[1..], weights, room - weights[list[0]])
  }

  /** The entries manager_balance_load hands out: the pass over the sorted candidates. */
  function Choice(list: seq<int>, weights: seq<int>, goal: int): (r: seq<int>)
    requires Indices(list, weights)
    ensures Indices(r, weights)
  {
    Chosen(SortDesc(list, weights), weights, goal)
  }

  // ------------------------------------------------------------------ sums

  lemma SumAppend(a: seq<int>, b: seq<int>, weights: seq<int>)
    requires Indices(a, weights) && Indices(b, weights)
    ensures Indices(a + b, weights) && Sum(a + b, weights) == Sum(a, weights) + Sum(b, weights)
  {
    if a == [] {
      assert a + b == b;
    } else {
      assert (a + b)[1..] == a[1..] + b;
      SumAppend(a[1..], b, weights);
    }
  }

  lemma SumRemove(a: seq<int>, j: nat, weights: seq<int>)
    requires Indices(a, weights) && j < |a|
    ensures Indices(a[..j] + a[j + 1..], weights)
    ensures Sum(a, weights) == weights[a[j]] + Sum(a[..j] + a[j + 1..], weights)
    ensures multiset(a) == multiset{a[j]} + multiset(a[..j] + a[j + 1..])
  {
    assert a == a[..j] + [a[j]] + a[j + 1..];
    SumAppend(a[..j] + [a[j]], a[j + 1..], weights);
    SumAppend(a[..j], [a[j]], weights);
    SumAppend(a[..j], a[j + 1..], weights);
  }

  /** The weight of the elements of `list` that fit the goal by themselves. */
  function FitSum(list: seq<int>, weights: seq<int>, goal: int): int
    requires Indices(list, weights)
  {
    if list == [] then 0
    else (if weights[list[0]] <= goal then weights[list[0]] else 0) + FitSum(list[1..], weights, goal)
  }

  lemma BagHead(list: seq<int>)
    requires list != []
    ensures multiset(list) == multiset{list[0]} + multiset(list[1..])
  {
    assert list == [list[0]] + list[1..];
  }

  lemma BagShrink(x: int, r: multiset<int>, rest: multiset<int>)
    requires multiset{x} + r <= multiset{x} + rest
    ensures r <= rest
  {
    forall y
      ensures r[y] <= rest[y]
    {
      assert (multiset{x} + r)[y] <= (multiset{x} + rest)[y];
    }
  }

  lemma BagSkip(x: int, t: multiset<int>, rest: multiset<int>)
    requires x !in t && t <= multiset{x} + rest
    ensures t <= rest
  {
    forall y
      ensures t[y] <= rest[y]
    {
      assert t[y] <= (multiset{x} + rest)[y];
    }
  }

  /** A sub-collection of fitting elements weighs no more than all fitting elements. */
  lemma SubSum(t: seq<int>, list: seq<int>, weights: seq<int>, goal: int)
    requires Indices(list, weights) && NonNegative(weights) && Indices(t, weights)
    requires multiset(t) <= multiset(list)
    requires forall x :: x in multiset(t) ==> weights[x] <= goal
    ensures Sum(t, weights) <= FitSum(list, weights, goal)
  {
    if list == [] {
      assert |multiset(t)| == 0;
    } else {
      BagHead(list);
      if list[0] in t {
        var j :| 0 <= j < |t| && t[j] == list[0];
        SumRemove(t, j, weights);
        BagShrink(list[0], multiset(t[..j] + t[j + 1..]), multiset(list[1..]));
        SubSum(t[..j] + t[j + 1..], list[1..], weights, goal);
      } else {
        BagSkip(list[0], multiset(t), multiset(list[1..]));
        SubSum(t, list[1..], weights, goal);
      }
    }
  }

  lemma EachAtMostSum(t: seq<int>, weights: seq<int>, x: int)
    requires Indices(t, weights) && NonNegative(weights) && x in t
    ensures weights[x] <= Sum(t, weights)
  {
    if x != t[0] {
      assert t == [t[0]] + t[1..];
      EachAtMostSum(t[1..], weights, x);
    }
  }

  // -------------------------------------------------------- properties of the pass

  lemma ChosenFits(list: seq<int>, weights: seq<int>, room: int)
    requires Indices(list, weights) && NonNegative(weights) && room >= 0
    ensures Sum(Chosen(list, weights, room), weights) <= room
    ensures multiset(Chosen(list, weights, room)) <= multiset(list)
  {
    if list != [] {
      assert list == [list[0]] + list[1..];
      if weights[list[0]] > room {
        ChosenFits(list[1..], weights, room);
      } else if weights[list[0]] != 0 {
        ChosenFits(list[1..], weights, room - weights[list[0]]);
      }
    }
  }

  lemma DescendingTail(list: seq<int>, weights: seq<int>)
    requires Indices(list, weights) && NonNegative(weights) && Descending(list, weights) && list != []
    ensures Indices(list[1..], weights) && Descending(list[1..], weights)
    ensures forall x :: x in list[1..] ==> weights[x] <= weights[list[0]]
    ensures multiset(list) == multiset{list[0]} + multiset(list[1..])
  {
    assert list == [list[0]] + list[1..];
    forall j | 1 <= j < |list|
      ensures weights[list[j]] <= weights[list[0]]
    {
      assert Abs(weights[list[j]]) <= Abs(weights[list[0]]);
    }
  }

  /** No nonzero element that was left out still fits beside the chosen ones. */
  lemma ChosenMaximal(list: seq<int>, weights: seq<int>, room: int, x: int)
    requires Indices(list, weights) && NonNegative(weights) && room >= 0 && Descending(list, weights)
    requires 0 <= x < |weights| && multiset(list)[x] > multiset(Chosen(list, weights, room))[x]
    ensures weights[x] != 0 ==> Sum(Chosen(list, weights, room), weights) + weights[x] > room
  {
    if list != [] {
      DescendingTail(list, weights);
      var h := weights[list[0]];
      if h > room {
        if x == list[0] {
          ChosenFits(list, weights, room);
        } else {
          ChosenMaximal(list[1..], weights, room, x);
        }
      } else if h == 0 {
        assert x in multiset(list);
        assert x == list[0] || x in list[1..];
      } else {
        BagHead(Chosen(list, weights, room));
        assert Chosen(list, weights, room)[1..] == Chosen(list[1..], weights, room - h);
        ChosenMaximal(list[1..], weights, room - h, x);
      }
    }
  }

  /** Either the pass fills more than half of the goal, or it takes everything that
      fits the goal; `taken` is what the pass has taken before `list`. */
  lemma HalfOrAll(list: seq<int>, weights: seq<int>, goal: int, taken: int)
    requires Indices(list, weights) && NonNegative(weights) && Descending(list, weights)
    requires 0 <= taken <= goal
    requires taken == 0 || forall x :: x in list ==> weights[x] <= taken
    ensures
      var total := taken + Sum(Chosen(list, weights, goal - taken), weights);
      2 * total > goal || total == taken + FitSum(list, weights, goal)
  {
    if list != [] {
      DescendingTail(list, weights);
      var h := weights[list[0]];
      if h > goal {
        HalfOrAll(list[1..], weights, goal, taken);
      } else if h > goal - taken {
        assert list[0] in list;
        ChosenFits(list, weights, goal - taken);
      } else if h == 0 {
        AllZero(list, weights, goal);
      } else {
        assert Chosen(list, weights, goal - taken) == [list[0]] + Chosen(list[1..], weights, goal - taken - h);
        HalfOrAll(list[1..], weights, goal, taken + h);
      }
    }
  }

  lemma AllZero(list: seq<int>, weights: seq<int>, goal: int)
    requires Indices(list, weights) && NonNegative(weights) && Descending(list, weights)
    requires list != [] ==> weights[list[0]] == 0
    ensures FitSum(list, weights, goal) == 0
  {
    if list != [] {
      if list[1..] != [] {
        assert Abs(weights[list[1]]) <= Abs(weights[list[0]]);
      }
      AllZero(list[1..], weights, goal);
    }
  }

  /** The greedy choice stays within the goal, cannot be extended, and weighs at
      least half as much as any collection of candidates within the goal. */
  lemma ChoiceIsHalfOptimal(list: seq<int>, weights: seq<int>, goal: int, other: seq<int>)
    requires Indices(list, weights) && NonNegative(weights) && goal >= 0
    requires Indices(other, weights) && multiset(other) <= multiset(list) && Sum(other, weights) <= goal
    ensures multiset(Choice(list, weights, goal)) <= multiset(list)
    ensures Sum(Choice(list, weights, goal), weights) <= goal
    ensures forall x :: 0 <= x < |weights| && multiset(list)[x] > multiset(Choice(list, weights, goal))[x]
                        && weights[x] != 0
              ==> Sum(Choice(list, weights, goal), weights) + weights[x] > goal
    ensures 2 * Sum(Choice(list, weights, goal), weights) >= Sum(other, weights)
  {
    var sorted := SortDesc(list, weights);
    SortDescSorts(list, weights);
    ChosenFits(sorted, weights, goal);
    forall x | 0 <= x < |weights| && multiset(list)[x] > multiset(Choice(list, weights, goal))[x] && weights[x] != 0
      ensures Sum(Choice(list, weights, goal), weights) + weights[x] > goal
    {
      ChosenMaximal(sorted, weights, goal, x);
    }
    HalfOrAll(sorted, weights, goal, 0);
    forall x | x in multiset(other)
      ensures weights[x] <= goal
    {
      EachAtMostSum(other, weights, x);
    }
    SubSum(other, sorted, weights, goal);
  }
}
