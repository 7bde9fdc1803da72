/** Exactly when the windowed rebalancer's final loads are those of the table it makes:
    the error of every server through the nested loop. */
module Bookkeeping {
  import opened Sequences
  import opened SortSubset
  import opened Greedy
  import opened Rebalance
  import opened TrueLoads

  /** By how much the bookkeeping of server s is above the weight of its entries,
      relative to the mean. */
  function Err(inp: Input, w: Work, mean: int, s: int): int
    requires WorkOk(inp, w) && 0 <= s < inp.nb
  {
    w.load[s] - (LoadOf(w.target, inp.weights, s, |w.target|) - mean)
  }

  // ------------------------------------------------------------ honest hand-overs

  /** The entries handed over in one turn of the inner loop. */
  function Handed(inp: Input, w: Work, l: int, pos: nat): (r: seq<int>)
    requires WorkOk(inp, w) && 0 <= l < inp.nb && pos < |w.under|
    ensures Indices(r, inp.weights)
  {
    Choice(w.cands, inp.weights, Goal(w, l, w.under[pos]))
  }

  predicate AllWith(list: seq<int>, target: seq<int>, l: int)
    requires Indices(list, target)
  {
    forall j :: 0 <= j < |list| ==> target[list[j]] == l
  }

  /** Every entry handed over in the rest of the inner loop still is with the giver. */
  predicate HonestDrain(inp: Input, w: Work, il: nat, pos: nat)
    requires WorkOk(inp, w) && il < |w.over|
    decreases |w.under| - pos
  {
    pos < |w.under| ==>
      && AllWith(Handed(inp, w, w.over[il], pos), w.target, w.over[il])
      && var w1 := Give(inp, w, w.over[il], pos);
         w1.load[w1.over[il]] <= 0 || HonestDrain(inp, w1, il, pos + 1)
  }

  /** And in the rest of the outer loop. */
  predicate HonestLoop(inp: Input, w: Work, il: nat)
    requires WorkOk(inp, w)
    decreases |w.over| - il
  {
    il < |w.over| ==>
      HonestDrain(inp, Prepare(inp, w, il), il, 0) && HonestLoop(inp, Round(inp, w, il), il + 1)
  }

  // ------------------------------------------------------------ the error of one credit

  /** The weight of the listed entries that server x has. */
  function HeldSum(list: seq<int>, target: seq<int>, weights: seq<int>, x: int): int
    requires Indices(list, target) && Indices(list, weights)
  {
    if list == [] then 0
    else (if target[list[0]] == x then weights[list[0]] else 0) + HeldSum(list[1..], target, weights, x)
  }

  lemma HeldSame(list: seq<int>, target: seq<int>, weights: seq<int>, x: int, e: int, s: int)
    requires Indices(list, target) && Indices(list, weights) && 0 <= e < |target| && e !in list
    ensures HeldSum(list, target[e := s], weights, x) == HeldSum(list, target, weights, x)
  {
    if list != [] {
      assert list == [list[0]] + list[1..];
      HeldSame(list[1..], target, weights, x, e, s);
    }
  }

  predicate Positive(list: seq<int>, weights: seq<int>)
    requires Indices(list, weights)
  {
    forall j :: 0 <= j < |list| ==> weights[list[j]] > 0
  }

  lemma {:induction false} HeldBounds(list: seq<int>, target: seq<int>, weights: seq<int>, x: int)
    requires Indices(list, target) && Indices(list, weights) && Positive(list, weights)
    ensures 0 <= HeldSum(list, target, weights, x) <= Sum(list, weights)
    ensures HeldSum(list, target, weights, x) == Sum(list, weights) <==> AllWith(list, target, x)
    ensures (forall j :: 0 <= j < |list| ==> target[list[j]] != x) ==> HeldSum(list, target, weights, x) == 0
  {
    if list != [] {
      assert list == [list[0]] + list[1..];
      HeldBounds(list[1..], target, weights, x);
    }
  }

  /** One credit moves the weight of its entry from the error of the giver to the error
      of the server that has the entry. */
  lemma CreditOneErr(inp: Input, w: Work, e: int, l: int, s: int, mean: int, x: int)
    requires WorkOk(inp, w) && 0 <= e < |inp.weights| && 0 <= l < inp.nb && 0 <= s < inp.nb && 0 <= x < inp.nb
    ensures Err(inp, CreditOne(inp, w, e, l, s), mean, x)
            == Err(inp, w, mean, x) - (if x == l then inp.weights[e] else 0)
               + (if x == w.target[e] then inp.weights[e] else 0)
  {
    LoadOfUpdate(w.target, inp.weights, x, |w.target|, e, s);
  }

  lemma {:induction false} CreditErr(inp: Input, w: Work, list: seq<int>, l: int, s: int, mean: int, x: int)
    requires WorkOk(inp, w) && Indices(list, inp.weights) && NoDup(list)
    requires 0 <= l < inp.nb && 0 <= s < inp.nb && 0 <= x < inp.nb
    ensures Err(inp, Credit(inp, w, list, l, s), mean, x)
            == Err(inp, w, mean, x) - (if x == l then Sum(list, inp.weights) else 0)
               + HeldSum(list, w.target, inp.weights, x)
    decreases |list|
  {
    if list != [] {
      var e, rest := list[0], list[1..];
      assert e !in rest;
      CreditOneErr(inp, w, e, l, s, mean, x);
      CreditErr(inp, CreditOne(inp, w, e, l, s), rest, l, s, mean, x);
      HeldSame(rest, w.target, inp.weights, x, e, s);
    }
  }

  // ------------------------------------------------------------ the error of one turn

  lemma GiveErr(inp: Input, w: Work, l: int, pos: nat, mean: int, x: int)
    requires WorkOk(inp, w) && NoDup(w.cands) && 0 <= l < inp.nb && pos < |w.under| && 0 <= x < inp.nb
    ensures
      var list := Handed(inp, w, l, pos);
      Err(inp, Give(inp, w, l, pos), mean, x)
      == Err(inp, w, mean, x) - (if x == l then Sum(list, inp.weights) else 0)
         + HeldSum(list, w.target, inp.weights, x)
  {
    var s, list := w.under[pos], Handed(inp, w, l, pos);
    var sorted := SortDesc(w.cands, inp.weights);
    SortSame(w.cands, inp.weights);
    ChosenNoDup(sorted, inp.weights, Goal(w, l, s));
    var w0 := w.(cands := sorted);
    CreditErr(inp, w0, list, l, s, mean, x);
  }

  /** The state before a turn of the inner loop. */
  predicate Turning(inp: Input, w: Work, il: nat)
    requires WorkOk(inp, w)
  {
    LoadsOk(inp, w) && ListsOk(inp, w, il + 1) && Draining(inp, w, il)
  }

  /** The handed entries weigh something and are with servers that are already behind. */
  lemma HandedOk(inp: Input, w: Work, il: nat, pos: nat)
    requires WorkOk(inp, w) && Turning(inp, w, il) && pos < |w.under|
    ensures Positive(Handed(inp, w, w.over[il], pos), inp.weights)
    ensures forall j, y :: 0 <= j < |Handed(inp, w, w.over[il], pos)| && il < y < |w.over| ==>
              w.target[Handed(inp, w, w.over[il], pos)[j]] != w.over[y]
  {
    var list := Handed(inp, w, w.over[il], pos);
    ChoiceOk(inp, w, Goal(w, w.over[il], w.under[pos]));
    forall j | 0 <= j < |list|
      ensures inp.weights[list[j]] > 0 && forall y :: il < y < |w.over| ==> w.target[list[j]] != w.over[y]
    {
      assert list[j] in list;
      assert TargetOk(inp, w.target, list[j]);
      var c :| 0 <= c < |w.cands| && w.cands[c] == list[j];
    }
  }

  /** The errors of the overloaded servers from position il on are zero. */
  predicate AheadExact(inp: Input, w: Work, il: nat, mean: int)
    requires WorkOk(inp, w)
  {
    forall y :: il <= y < |w.over| ==> Err(inp, w, mean, w.over[y]) == 0
  }

  lemma TurnErr(inp: Input, w: Work, il: nat, pos: nat, mean: int, w1: Work)
    requires WorkOk(inp, w) && Turning(inp, w, il) && pos < |w.under|
    requires w1 == Give(inp, w, w.over[il], pos)
    ensures Err(inp, w1, mean, w.over[il]) <= Err(inp, w, mean, w.over[il])
    ensures if AllWith(Handed(inp, w, w.over[il], pos), w.target, w.over[il])
            then forall x :: 0 <= x < inp.nb ==> Err(inp, w1, mean, x) == Err(inp, w, mean, x)
            else Err(inp, w1, mean, w.over[il]) < Err(inp, w, mean, w.over[il])
    ensures AheadExact(inp, w, il + 1, mean) ==> AheadExact(inp, w1, il + 1, mean)
  {
    var l, list := w.over[il], Handed(inp, w, w.over[il], pos);
    HandedOk(inp, w, il, pos);
    GiveErr(inp, w, l, pos, mean, l);
    HeldBounds(list, w.target, inp.weights, l);
    if AllWith(list, w.target, l) {
      forall x | 0 <= x < inp.nb
        ensures Err(inp, w1, mean, x) == Err(inp, w, mean, x)
      {
        GiveErr(inp, w, l, pos, mean, x);
        HeldBounds(list, w.target, inp.weights, x);
      }
    }
    forall y | il < y < |w.over|
      ensures Err(inp, w1, mean, w.over[y]) == Err(inp, w, mean, w.over[y])
    {
      GiveErr(inp, w, l, pos, mean, w.over[y]);
      HeldBounds(list, w.target, inp.weights, w.over[y]);
    }
  }

  // ------------------------------------------------------------ the loops

  predicate SameErr(inp: Input, w: Work, w1: Work, mean: int)
    requires WorkOk(inp, w) && WorkOk(inp, w1)
  {
    forall x :: 0 <= x < inp.nb ==> Err(inp, w1, mean, x) == Err(inp, w, mean, x)
  }

  /** Taking the emptied giver off its list changes no error. */
  lemma DropErr(inp: Input, w1: Work, il: nat, mean: int, w2: Work)
    requires WorkOk(inp, w1) && il < |w1.over| && w2 == w1.(over := RemoveAt(w1.over, il))
    ensures WorkOk(inp, w2) && SameErr(inp, w1, w2, mean)
    ensures AheadExact(inp, w1, il + 1, mean) ==> AheadExact(inp, w2, il + 1, mean)
  {
    forall x | 0 <= x < inp.nb
      ensures Err(inp, w2, mean, x) == Err(inp, w1, mean, x)
    {}
    forall y | il < y < |w2.over|
      ensures w2.over[y] == w1.over[y]
    {}
  }

  /** One turn, and what the rest of the inner loop does, together. */
  lemma DrainCases(inp: Input, w: Work, il: nat, pos: nat, w1: Work)
    requires WorkOk(inp, w) && il < |w.over| && pos < |w.under| && w1 == Give(inp, w, w.over[il], pos)
    ensures
      var stop := w1.load[w1.over[il]] <= 0;
      && Drain(inp, w, il, pos)
         == (if stop then w1.(over := RemoveAt(w1.over, il)) else Drain(inp, w1, il, pos + 1))
      && (HonestDrain(inp, w, il, pos) <==>
          AllWith(Handed(inp, w, w.over[il], pos), w.target, w.over[il]) && (stop || HonestDrain(inp, w1, il, pos + 1)))
  {}

  /** What the inner loop does to the errors: none changes when it is honest, and
      otherwise the error of its giver l gets smaller. */
  predicate DrainedErr(inp: Input, w: Work, end: Work, l: int, mean: int, honest: bool)
    requires WorkOk(inp, w) && WorkOk(inp, end) && 0 <= l < inp.nb
  {
    && Err(inp, end, mean, l) <= Err(inp, w, mean, l)
    && if honest then SameErr(inp, w, end, mean) else Err(inp, end, mean, l) < Err(inp, w, mean, l)
  }

  lemma {:induction false} DrainErr(inp: Input, w: Work, il: nat, pos: nat, mean: int, end: Work)
    requires WorkOk(inp, w) && Turning(inp, w, il) && AheadExact(inp, w, il + 1, mean)
    requires end == Drain(inp, w, il, pos)
    ensures DrainedErr(inp, w, end, w.over[il], mean, HonestDrain(inp, w, il, pos))
    ensures AheadExact(inp, end, il + 1, mean)
    decreases |w.under| - pos
  {
    if pos < |w.under| {
      var w1 := Give(inp, w, w.over[il], pos);
      DrainCases(inp, w, il, pos, w1);
      TurnErr(inp, w, il, pos, mean, w1);
      if w1.load[w1.over[il]] <= 0 {
        DropErr(inp, w1, il, mean, end);
      } else {
        GiveKeeps(inp, w, il, pos);
        DrainErr(inp, w1, il, pos + 1, mean, end);
      }
    }
  }

  /** A turn of the outer loop: no error changes when it is honest, and otherwise its
      giver is left with a negative error. */
  lemma RoundErr(inp: Input, w: Work, il: nat, mean: int, w1: Work)
    requires WorkOk(inp, w) && Kept(inp, w, il) && il < |w.over| && AheadExact(inp, w, il, mean)
    requires w1 == Round(inp, w, il)
    ensures if HonestDrain(inp, Prepare(inp, w, il), il, 0) then SameErr(inp, w, w1, mean)
            else Err(inp, w1, mean, w.over[il]) < 0
    ensures AheadExact(inp, w1, il + 1, mean)
  {
    var p := Prepare(inp, w, il);
    PrepareKeeps(inp, w, il);
    assert SameErr(inp, w, p, mean);
    DrainErr(inp, p, il, 0, mean, w1);
  }

  lemma LoopCases(inp: Input, w: Work, il: nat, w1: Work)
    requires WorkOk(inp, w) && il < |w.over| && w1 == Round(inp, w, il)
    ensures Loop(inp, w, il) == Loop(inp, w1, il + 1)
    ensures HonestLoop(inp, w, il) <==> HonestDrain(inp, Prepare(inp, w, il), il, 0) && HonestLoop(inp, w1, il + 1)
  {}

  lemma SameErrTwice(inp: Input, w: Work, w1: Work, w2: Work, mean: int)
    requires WorkOk(inp, w) && WorkOk(inp, w1) && WorkOk(inp, w2)
    requires SameErr(inp, w, w1, mean) && SameErr(inp, w1, w2, mean)
    ensures SameErr(inp, w, w2, mean)
  {
    forall x | 0 <= x < inp.nb
      ensures Err(inp, w2, mean, x) == Err(inp, w, mean, x)
    {
      assert Err(inp, w1, mean, x) == Err(inp, w, mean, x);
    }
  }

  /** Some server's bookkeeping is below the weight of its entries. */
  ghost predicate SomeBelow(inp: Input, w: Work, mean: int)
    requires WorkOk(inp, w)
  {
    exists x :: 0 <= x < inp.nb && Err(inp, w, mean, x) < 0
  }

  /** What the outer loop does to the errors. */
  ghost predicate LoopedErr(inp: Input, w: Work, end: Work, mean: int, honest: bool)
    requires WorkOk(inp, w) && WorkOk(inp, end)
  {
    if honest then SameErr(inp, w, end, mean) else SomeBelow(inp, end, mean)
  }

  lemma TogetherErr(inp: Input, w: Work, w1: Work, end: Work, mean: int, l: int, first: bool, rest: bool)
    requires WorkOk(inp, w) && WorkOk(inp, w1) && WorkOk(inp, end) && 0 <= l < inp.nb
    requires if first then SameErr(inp, w, w1, mean) else Err(inp, w1, mean, l) < 0
    requires LoopedErr(inp, w1, end, mean, rest)
    ensures LoopedErr(inp, w, end, mean, first && rest)
  {
    if rest {
      if first {
        SameErrTwice(inp, w, w1, end, mean);
      } else {
        assert Err(inp, end, mean, l) == Err(inp, w1, mean, l);
      }
    }
  }

  /** A turn followed by the rest of the outer loop. */
  lemma LoopTurn(inp: Input, w: Work, il: nat, mean: int, w1: Work, end: Work, first: bool, rest: bool)
    requires WorkOk(inp, w) && il < |w.over| && w1 == Round(inp, w, il) && WorkOk(inp, end)
    requires first == HonestDrain(inp, Prepare(inp, w, il), il, 0)
    requires Kept(inp, w1, il + 1) && AheadExact(inp, w1, il + 1, mean) ==> LoopedErr(inp, w1, end, mean, rest)
    ensures Kept(inp, w, il) && AheadExact(inp, w, il, mean) ==> LoopedErr(inp, w, end, mean, first && rest)
  {
    if Kept(inp, w, il) && AheadExact(inp, w, il, mean) {
      RoundKept(inp, w, il);
      RoundErr(inp, w, il, mean, w1);
      TogetherErr(inp, w, w1, end, mean, w.over[il], first, rest);
    }
  }

  /** The outer loop changes no error when it is honest, and otherwise leaves some
      server with a negative one: an honest turn repairs nothing, and a dishonest turn
      spoils its own giver. */
  lemma {:induction false} LoopErr(inp: Input, w: Work, il: nat, mean: int, end: Work)
    requires WorkOk(inp, w) && end == Loop(inp, w, il)
    ensures Kept(inp, w, il) && AheadExact(inp, w, il, mean) ==> LoopedErr(inp, w, end, mean, HonestLoop(inp, w, il))
    decreases |w.over| - il
  {
    if il < |w.over| {
      var w1 := Round(inp, w, il);
      LoopCases(inp, w, il, w1);
      LoopErr(inp, w1, il + 1, mean, end);
      LoopTurn(inp, w, il, mean, w1, end, HonestDrain(inp, Prepare(inp, w, il), il, 0), HonestLoop(inp, w1, il + 1));
    }
  }

  lemma TrueIffNoErr(inp: Input, w: Work, mean: int)
    requires WorkOk(inp, w)
    ensures Consistent(inp, w, mean) <==> forall s :: 0 <= s < inp.nb ==> Err(inp, w, mean, s) == 0
  {
    if forall s :: 0 <= s < inp.nb ==> Err(inp, w, mean, s) == 0 {
      forall s | 0 <= s < inp.nb
        ensures w.load[s] == LoadOf(w.target, inp.weights, s, |w.target|) - mean
      {
        assert Err(inp, w, mean, s) == 0;
      }
    }
  }

  /** Load levels that were true to begin with are true in the end exactly when every
      entry that was handed over still was with the server that handed it over. */
  lemma TrueInTheEndIff(inp: Input, mean: int)
    requires Valid(inp) && Consistent(inp, Start(inp), mean)
    ensures Consistent(inp, Result(inp), mean) <==> HonestLoop(inp, Start(inp), 0)
  {
    StartOk(inp);
    TrueIffNoErr(inp, Start(inp), mean);
    TrueIffNoErr(inp, Result(inp), mean);
    FinalErr(inp, Start(inp), mean, Result(inp));
  }

  lemma FinalErr(inp: Input, w: Work, mean: int, end: Work)
    requires WorkOk(inp, w) && Kept(inp, w, 0) && end == Loop(inp, w, 0)
    requires forall s :: 0 <= s < inp.nb ==> Err(inp, w, mean, s) == 0
    ensures HonestLoop(inp, w, 0) <==> forall s :: 0 <= s < inp.nb ==> Err(inp, end, mean, s) == 0
  {
    LoopErr(inp, w, 0, mean, end);
  }

  // ------------------------------------------------------------ two givers, one receiver

  /** Server 0 has entries of weight 14 and 4, server 1 one of weight 17, server 2 one of
      weight 1. */
  predicate TwoGivers(inp: Input) {
    && Valid(inp) && inp.nb == 3 && |inp.owner| == 4
    && inp.owner[0] == 0 && inp.owner[1] == 0 && inp.owner[2] == 1 && inp.owner[3] == 2
    && inp.weights[0] == 14 && inp.weights[1] == 4 && inp.weights[2] == 17 && inp.weights[3] == 1
    && inp.load0[0] == 6 && inp.load0[1] == 5 && inp.load0[2] == -11
  }

  lemma TwoGiversInput()
    ensures TwoGivers(Input(3, [0, 0, 1, 2], [14, 4, 17, 1], [6, 5, -11]))
  {}

  predicate Single(list: seq<int>, a: int) {
    |list| == 1 && list[0] == a
  }

  lemma LoopNext(inp: Input, w: Work, il: nat, w1: Work, end: Work)
    requires WorkOk(inp, w) && il < |w.over| && w1 == Round(inp, w, il) && end == Loop(inp, w, il)
    ensures end == Loop(inp, w1, il + 1)
  {}

  lemma LoopOver(inp: Input, w: Work, il: nat, end: Work)
    requires WorkOk(inp, w) && il >= |w.over| && end == Loop(inp, w, il)
    ensures end == w
  {}

  lemma GiversStart(inp: Input)
    requires TwoGivers(inp)
    ensures Pair(Start(inp).over, 0, 1) && Single(Start(inp).under, 2)
  {
    var load := inp.load0;
    assert Overloaded(load, 1) == [0] && Overloaded(load, 2) == [0, 1];
    assert Underloaded(load, 1) == [] && Underloaded(load, 2) == [];
    SortedIsFixed(Overloaded(load, 3), load);
  }

  lemma GiversOwned(inp: Input)
    requires TwoGivers(inp)
    ensures Pair(Owned(inp.owner, 0, 4), 0, 1) && Single(Owned(inp.owner, 1, 4), 2)
  {
    assert Owned(inp.owner, 0, 1) == [0] && Owned(inp.owner, 0, 2) == [0, 1] && Owned(inp.owner, 0, 3) == [0, 1];
    assert Owned(inp.owner, 1, 1) == [] && Owned(inp.owner, 1, 2) == [] && Owned(inp.owner, 1, 3) == [2];
  }

  /** The first giver hands over the entry of weight 4 and keeps the rest. */
  lemma FirstGiver(inp: Input, end: Work) returns (w1: Work)
    requires TwoGivers(inp) && end == Result(inp)
    ensures WorkOk(inp, w1) && end == Loop(inp, w1, 1)
    ensures Pair(w1.over, 0, 1) && Single(w1.under, 2) && Pair(w1.cands, 0, 1)
    ensures w1.load[1] == 5 && w1.load[2] == -7 && w1.target == inp.owner[1 := 2]
  {
    GiversStart(inp);
    GiversOwned(inp);
    var w := Prepare(inp, Start(inp), 0);
    SortedIsFixed(Start(inp).under, inp.load0);
    w1 := GiveOne(inp, w, 0, 0, 1, 0);
    DrainMore(inp, w, 0, 0, w1);
    DrainEnd(inp, w1, 0, 1);
    LoopNext(inp, Start(inp), 0, w1, end);
  }

  predicate Triple(list: seq<int>, a: int, b: int, c: int) {
    |list| == 3 && list[0] == a && list[1] == b && list[2] == c
  }

  lemma SortTriple(list: seq<int>, keys: seq<int>)
    requires Indices(list, keys) && Triple(list, 0, 1, 2) && keys[0] == 14 && keys[1] == 4 && keys[2] == 17
    ensures Triple(SortDesc(list, keys), 2, 0, 1)
  {
    var two := list[0 := 0][1 := 2][2 := 1];
    var three := two[0 := 2][1 := 0];
    SwapKeepsSort(list, 1, keys);
    SwapKeepsSort(two, 0, keys);
    SortedIsFixed(three, keys);
    assert list[1 := list[2]][2 := list[1]] == two;
    assert two[0 := two[1]][1 := two[0]] == three;
  }

  lemma ChooseLast(list: seq<int>, weights: seq<int>)
    requires Indices(list, weights) && Triple(list, 2, 0, 1)
    requires weights[0] == 14 && weights[1] == 4 && weights[2] == 17
    ensures Chosen(list, weights, 5) == [1]
  {
    var two := list[1..];
    ChooseLight(two, 0, 1, weights, 5);
  }

  /** The second giver hands over the same entry, which it does not have. */
  lemma SecondGiver(inp: Input, w: Work) returns (w1: Work)
    requires TwoGivers(inp) && WorkOk(inp, w) && Pair(w.over, 0, 1) && Single(w.under, 2) && Triple(w.cands, 0, 1, 2)
    requires w.load[1] == 5 && w.load[2] == -7 && w.target == inp.owner[1 := 2]
    ensures w1 == Give(inp, w, 1, 0) && WorkOk(inp, w1) && Pair(w1.over, 0, 1) && Single(w1.under, 2)
    ensures w1.load[1] == 1 && w1.target == inp.owner[1 := 2]
    ensures !AllWith(Handed(inp, w, 1, 0), w.target, 1)
  {
    SortTriple(w.cands, inp.weights);
    var sorted := SortDesc(w.cands, inp.weights);
    ChooseLast(sorted, inp.weights);
    assert Goal(w, 1, 2) == 5;
    CreditSingle(inp, w.(cands := sorted), Choice(w.cands, inp.weights, 5), 1, 1, 2);
    w1 := CreditOne(inp, w.(cands := sorted), 1, 1, 2);
  }

  lemma SecondRound(inp: Input, w: Work, end: Work)
    requires TwoGivers(inp) && WorkOk(inp, w) && Pair(w.over, 0, 1) && Single(w.under, 2) && Pair(w.cands, 0, 1)
    requires w.load[1] == 5 && w.load[2] == -7 && w.target == inp.owner[1 := 2]
    requires end == Loop(inp, w, 1)
    ensures WorkOk(inp, end) && end.load[1] == 1 && end.target == inp.owner[1 := 2]
  {
    GiversOwned(inp);
    SortedIsFixed(w.under, w.load);
    var p := Prepare(inp, w, 1);
    var w2 := SecondGiver(inp, p);
    DrainMore(inp, p, 1, 0, w2);
    DrainEnd(inp, w2, 1, 1);
    LoopNext(inp, w, 1, w2, end);
    LoopOver(inp, w2, 2, end);
  }

  /** With two givers and one receiver an entry can be credited by both: here server 1
      gives nothing away and is 5 above the mean of 12, and the bookkeeping says 1. */
  lemma TwoGiversMayMislead(inp: Input)
    requires TwoGivers(inp)
    ensures Consistent(inp, Start(inp), 12)
    ensures Result(inp).target == inp.owner[1 := 2] && Result(inp).load[1] == 1
    ensures LoadOf(Result(inp).target, inp.weights, 1, 4) - 12 == 5
    ensures !Consistent(inp, Result(inp), 12) && !HonestLoop(inp, Start(inp), 0)
  {
    GiversStart(inp);
    var end := Result(inp);
    var w1 := FirstGiver(inp, end);
    SecondRound(inp, w1, end);
    FourEntries(end.target, inp.weights, 1);
    forall s | 0 <= s < 3
      ensures inp.load0[s] == LoadOf(inp.owner, inp.weights, s, 4) - 12
    {
      FourEntries(inp.owner, inp.weights, s);
    }
    TrueInTheEndIff(inp, 12);
  }
}
