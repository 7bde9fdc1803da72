/** When the rebalancer's bookkeeping agrees with the loads of the new table. */
module TrueLoads {
  import opened Sequences
  import opened SortSubset
  import opened Greedy
  import opened Rebalance

  /** The weight of the entries below n that the table gives to server s. */
  function LoadOf(target: seq<int>, weights: seq<int>, s: int, n: nat): int
    requires n <= |target| && n <= |weights|
  {
    if n == 0 then 0
    else LoadOf(target, weights, s, n - 1) + if target[n - 1] == s then weights[n - 1] else 0
  }

  /** Every server's load is the weight of its entries, relative to `mean`. */
  predicate Consistent(inp: Input, w: Work, mean: int)
    requires WorkOk(inp, w)
  {
    forall s :: 0 <= s < inp.nb ==> w.load[s] == LoadOf(w.target, inp.weights, s, |w.target|) - mean
  }

  lemma LoadOfUpdate(target: seq<int>, weights: seq<int>, s: int, n: nat, e: nat, to: int)
    requires n <= |target| && n <= |weights| && e < |target| && e < |weights|
    ensures LoadOf(target[e := to], weights, s, n)
            == LoadOf(target, weights, s, n)
               - (if e < n && target[e] == s then weights[e] else 0)
               + (if e < n && to == s then weights[e] else 0)
  {
    if n > 0 {
      LoadOfUpdate(target, weights, s, n - 1, e, to);
    }
  }

  /** A credit keeps the bookkeeping true exactly when the entry still was with the
      server that gives it (or weighs nothing). */
  lemma CreditConsistentIff(inp: Input, w: Work, e: int, l: int, s: int, mean: int)
    requires WorkOk(inp, w) && 0 <= e < |inp.weights| && 0 <= l < inp.nb && 0 <= s < inp.nb && l != s
    requires Consistent(inp, w, mean)
    ensures Consistent(inp, CreditOne(inp, w, e, l, s), mean) <==> w.target[e] == l || inp.weights[e] == 0
  {
    var w' := CreditOne(inp, w, e, l, s);
    forall x | 0 <= x < inp.nb
      ensures LoadOf(w'.target, inp.weights, x, |w.target|)
              == LoadOf(w.target, inp.weights, x, |w.target|)
                 - (if w.target[e] == x then inp.weights[e] else 0) + (if s == x then inp.weights[e] else 0)
    {
      LoadOfUpdate(w.target, inp.weights, x, |w.target|, e, s);
    }
    assert w'.load[l] == w.load[l] - inp.weights[e] && w'.load[s] == w.load[s] + inp.weights[e];
  }

  lemma {:induction false} CreditsConsistent(inp: Input, w: Work, set_: seq<int>, l: int, s: int, mean: int)
    requires WorkOk(inp, w) && Indices(set_, inp.weights) && 0 <= l < inp.nb && 0 <= s < inp.nb && l != s
    requires Consistent(inp, w, mean) && NoDup(set_)
    requires forall x :: x in set_ ==> w.target[x] == l
    ensures Consistent(inp, Credit(inp, w, set_, l, s), mean)
    decreases |set_|
  {
    if set_ != [] {
      assert set_ == [set_[0]] + set_[1..];
      CreditConsistentIff(inp, w, set_[0], l, s, mean);
      assert set_[0] !in set_[1..];
      CreditsConsistent(inp, CreditOne(inp, w, set_[0], l, s), set_[1..], l, s, mean);
    }
  }

  lemma ChosenNoDup(list: seq<int>, weights: seq<int>, room: int)
    requires Indices(list, weights) && NoDup(list)
    ensures NoDup(Chosen(list, weights, room))
  {
    if list != [] {
      assert list == [list[0]] + list[1..];
      assert list[0] !in list[1..];
      ChosenNoDup(list[1..], weights, room);
      ChosenNoDup(list[1..], weights, room - weights[list[0]]);
    }
  }

  /** A turn that hands over entries which are still with the giver keeps the
      bookkeeping true. */
  lemma GiveConsistent(inp: Input, w: Work, l: int, s: int, mean: int)
    requires WorkOk(inp, w) && 0 <= l < inp.nb && 0 <= s < inp.nb && l != s && |w.under| > 0 && w.under[0] == s
    requires Consistent(inp, w, mean) && NoDup(w.cands) && forall x :: x in w.cands ==> w.target[x] == l
    ensures Consistent(inp, Give(inp, w, l, 0), mean)
  {
    var set_ := Choice(w.cands, inp.weights, Goal(w, l, s));
    var w0 := w.(cands := SortDesc(w.cands, inp.weights));
    SortSame(w.cands, inp.weights);
    ChosenNoDup(w0.cands, inp.weights, Goal(w, l, s));
    CreditsConsistent(inp, w0, set_, l, s, mean);
  }

  /** The first candidates are the giver's own entries. */
  lemma FirstCandidates(inp: Input, w: Work, l: int)
    requires Valid(inp) && |Start(inp).over| > 0 && w == Prepare(inp, Start(inp), 0) && l == w.over[0]
    ensures NoDup(w.cands) && forall x :: x in w.cands ==> w.target[x] == l
  {
    ListsExact(inp.load0, inp.owner, l, inp.nb, |inp.owner|);
    assert w.cands == Owned(inp.owner, l, |inp.owner|);
  }

  /** With one overloaded server and one underloaded one, and load levels that were
      true to begin with, the final loads are those of the new table. */
  lemma OneToOneIsTrue(inp: Input, mean: int)
    requires Valid(inp) && |Start(inp).over| == 1 && |Start(inp).under| == 1
    requires Consistent(inp, Start(inp), mean)
    ensures Consistent(inp, Result(inp), mean)
  {
    StartOk(inp);
    var w := Prepare(inp, Start(inp), 0);
    PrepareKeeps(inp, Start(inp), 0);
    var l, s := w.over[0], w.under[0];
    FirstCandidates(inp, w, l);
    GiveConsistent(inp, w, l, s, mean);
    OneRound(inp, w, Give(inp, w, l, 0));
  }

  lemma OneRound(inp: Input, w: Work, w1: Work)
    requires Valid(inp) && |Start(inp).over| == 1 && w == Prepare(inp, Start(inp), 0) && |w.under| == 1
    requires w1 == Give(inp, w, w.over[0], 0)
    ensures Result(inp).load == w1.load && Result(inp).target == w1.target
  {
    var w2 := Drain(inp, w, 0, 0);
    if w1.load[w1.over[0]] <= 0 {
      assert w2 == w1.(over := RemoveAt(w1.over, 0));
    } else {
      assert Drain(inp, w1, 0, 1) == w1;
    }
    assert Loop(inp, Start(inp), 0) == Loop(inp, w2, 1);
  }

  // ------------------------------------------------------------ a double credit

  /** Server 0 has entries of weight 3 and 17, servers 1 and 2 one of weight 8 each. */
  predicate Twice(inp: Input) {
    && Valid(inp) && inp.nb == 3 && |inp.owner| == 4
    && inp.owner[0] == 0 && inp.owner[1] == 0 && inp.owner[2] == 1 && inp.owner[3] == 2
    && inp.weights[0] == 3 && inp.weights[1] == 17 && inp.weights[2] == 8 && inp.weights[3] == 8
    && inp.load0[0] == 8 && inp.load0[1] == -4 && inp.load0[2] == -4
  }

  predicate Pair(list: seq<int>, a: int, b: int) {
    |list| == 2 && list[0] == a && list[1] == b
  }

  lemma SortPair(list: seq<int>, heavy: int, light: int, keys: seq<int>)
    requires Indices(list, keys) && (Pair(list, heavy, light) || Pair(list, light, heavy))
    requires Abs(keys[light]) < Abs(keys[heavy])
    ensures Pair(SortDesc(list, keys), heavy, light)
  {
    if Pair(list, heavy, light) {
      SortedIsFixed(list, keys);
    } else {
      var down := list[0 := list[1]][1 := list[0]];
      SwapKeepsSort(list, 0, keys);
      SortedIsFixed(down, keys);
    }
  }

  /** The pass over two candidates of which only the lighter one fits. */
  lemma ChooseLight(list: seq<int>, heavy: int, light: int, weights: seq<int>, goal: int)
    requires Indices(list, weights) && Pair(list, heavy, light)
    requires 0 < weights[light] <= goal < weights[heavy]
    ensures Chosen(list, weights, goal) == [light]
  {
    var one := list[1..];
    assert one[1..] == [];
    assert Chosen(one, weights, goal) == [light] + Chosen([], weights, goal - weights[light]);
  }

  lemma CreditSingle(inp: Input, w: Work, set_: seq<int>, e: int, l: int, s: int)
    requires WorkOk(inp, w) && 0 <= e < |inp.weights| && set_ == [e] && 0 <= l < inp.nb && 0 <= s < inp.nb
    ensures Credit(inp, w, set_, l, s) == CreditOne(inp, w, e, l, s)
  {
    assert set_[1..] == [];
    assert Credit(inp, CreditOne(inp, w, e, l, s), [], l, s) == CreditOne(inp, w, e, l, s);
  }

  /** A hand-over of one entry that does not use up the receiver's room. */
  lemma GiveOne(inp: Input, w: Work, l: int, pos: nat, light: int, heavy: int) returns (w1: Work)
    requires WorkOk(inp, w) && 0 <= l < inp.nb && pos < |w.under| && l != w.under[pos]
    requires Pair(w.cands, light, heavy) || Pair(w.cands, heavy, light)
    requires 0 < inp.weights[light] <= Goal(w, l, w.under[pos]) < inp.weights[heavy]
    requires w.load[w.under[pos]] + inp.weights[light] < 0
    ensures w1 == Give(inp, w, l, pos) && WorkOk(inp, w1)
    ensures w1.over == w.over && w1.under == w.under && Pair(w1.cands, heavy, light)
    ensures w1.target == w.target[light := w.under[pos]]
    ensures w1.load[l] == w.load[l] - inp.weights[light]
    ensures w1.load[w.under[pos]] == w.load[w.under[pos]] + inp.weights[light]
    ensures forall x :: 0 <= x < inp.nb && x != l && x != w.under[pos] ==> w1.load[x] == w.load[x]
  {
    var sorted := SortDesc(w.cands, inp.weights);
    SortPair(w.cands, heavy, light, inp.weights);
    var goal := Goal(w, l, w.under[pos]);
    ChooseLight(sorted, heavy, light, inp.weights, goal);
    CreditSingle(inp, w.(cands := sorted), Choice(w.cands, inp.weights, goal), light, l, w.under[pos]);
    w1 := CreditOne(inp, w.(cands := sorted), light, l, w.under[pos]);
  }

  lemma TwiceOver(inp: Input)
    requires Twice(inp)
    ensures Start(inp).over == [0]
  {
    var load := inp.load0;
    assert Overloaded(load, 1) == [0];
    assert Overloaded(load, 2) == [0];
    SortedIsFixed(Overloaded(load, 3), load);
  }

  lemma TwiceUnder(inp: Input)
    requires Twice(inp)
    ensures Pair(Start(inp).under, 1, 2)
  {
    assert Underloaded(inp.load0, 1) == [];
    assert Underloaded(inp.load0, 2) == [1];
  }

  lemma TwiceOwned(inp: Input)
    requires Twice(inp)
    ensures Pair(Owned(inp.owner, 0, 4), 0, 1)
  {
    assert Owned(inp.owner, 0, 1) == [0];
    assert Owned(inp.owner, 0, 2) == [0, 1];
    assert Owned(inp.owner, 0, 3) == [0, 1];
  }

  lemma TwicePrepare(inp: Input) returns (w: Work)
    requires Twice(inp)
    ensures |Start(inp).over| == 1 && w == Prepare(inp, Start(inp), 0) && WorkOk(inp, w)
    ensures w.over == [0] && Pair(w.under, 1, 2) && Pair(w.cands, 0, 1)
    ensures w.load == inp.load0 && w.target == inp.owner
  {
    TwiceOver(inp);
    TwiceUnder(inp);
    TwiceOwned(inp);
    SortedIsFixed(Start(inp).under, inp.load0);
    w := Prepare(inp, Start(inp), 0);
  }

  lemma DrainMore(inp: Input, w: Work, il: nat, pos: nat, w1: Work)
    requires WorkOk(inp, w) && il < |w.over| && pos < |w.under| && w1 == Give(inp, w, w.over[il], pos)
    requires w1.load[w1.over[il]] > 0
    ensures Drain(inp, w, il, pos) == Drain(inp, w1, il, pos + 1)
  {}

  lemma DrainEnd(inp: Input, w: Work, il: nat, pos: nat)
    requires WorkOk(inp, w) && il < |w.over| && pos >= |w.under|
    ensures Drain(inp, w, il, pos) == w
  {}

  lemma TwiceDrain(inp: Input, w: Work) returns (w2: Work)
    requires Twice(inp) && WorkOk(inp, w) && w.over == [0] && Pair(w.under, 1, 2) && Pair(w.cands, 0, 1)
    requires w.load == inp.load0 && w.target == inp.owner
    ensures w2 == Drain(inp, w, 0, 0) && WorkOk(inp, w2) && w2.over == [0]
    ensures w2.load[0] == 2 && w2.load[1] == -1 && w2.load[2] == -1
    ensures w2.target == inp.owner[0 := 2]
  {
    var w1 := GiveOne(inp, w, 0, 0, 0, 1);
    w2 := GiveOne(inp, w1, 0, 1, 0, 1);
    DrainTwice(inp, w, w1, w2);
    assert inp.owner[0 := 1][0 := 2] == inp.owner[0 := 2];
  }

  lemma DrainTwice(inp: Input, w: Work, w1: Work, w2: Work)
    requires WorkOk(inp, w) && WorkOk(inp, w1) && WorkOk(inp, w2)
    requires |w.over| == |w1.over| == |w2.over| == 1 && |w.under| == |w1.under| == |w2.under| == 2
    requires w1 == Give(inp, w, w.over[0], 0) && w2 == Give(inp, w1, w1.over[0], 1)
    requires w1.load[w1.over[0]] > 0 && w2.load[w2.over[0]] > 0
    ensures Drain(inp, w, 0, 0) == w2
  {
    DrainMore(inp, w, 0, 0, w1);
    DrainLast(inp, w1, w2);
  }

  lemma DrainLast(inp: Input, w1: Work, w2: Work)
    requires WorkOk(inp, w1) && WorkOk(inp, w2) && |w1.over| == |w2.over| == 1 && |w1.under| == |w2.under| == 2
    requires w2 == Give(inp, w1, w1.over[0], 1) && w2.load[w2.over[0]] > 0
    ensures Drain(inp, w1, 0, 1) == w2
  {
    DrainMore(inp, w1, 0, 1, w2);
    DrainEnd(inp, w2, 0, 2);
  }

  lemma LoopOnce(inp: Input, w: Work, w1: Work, w2: Work)
    requires WorkOk(inp, w) && |w.over| == 1 && w1 == Prepare(inp, w, 0) && w2 == Drain(inp, w1, 0, 0)
    ensures Loop(inp, w, 0) == w2
  {
    assert Loop(inp, w2, 1) == w2;
  }

  /** The weights of the four entries on server s. */
  lemma FourEntries(target: seq<int>, weights: seq<int>, s: int)
    requires |target| == |weights| == 4
    ensures LoadOf(target, weights, s, 4)
            == (if target[0] == s then weights[0] else 0) + (if target[1] == s then weights[1] else 0)
               + (if target[2] == s then weights[2] else 0) + (if target[3] == s then weights[3] else 0)
  {
    assert LoadOf(target, weights, s, 1) == if target[0] == s then weights[0] else 0;
    assert LoadOf(target, weights, s, 2) == LoadOf(target, weights, s, 1) + if target[1] == s then weights[1] else 0;
    assert LoadOf(target, weights, s, 3) == LoadOf(target, weights, s, 2) + if target[2] == s then weights[2] else 0;
  }

  lemma TwiceInput()
    ensures Twice(Input(3, [0, 0, 1, 2], [3, 17, 8, 8], [8, -4, -4]))
  {}

  /** With two underloaded servers an entry can be credited twice: here entry 0 ends
      on server 2 alone, the load of server 0 is 5 above the mean of 12, and the
      bookkeeping says 2. */
  lemma TwoReceiversMayMislead(inp: Input)
    requires Twice(inp)
    ensures Consistent(inp, Start(inp), 12)
    ensures Result(inp).target == inp.owner[0 := 2] && Result(inp).load[0] == 2
    ensures LoadOf(Result(inp).target, inp.weights, 0, 4) - 12 == 5
    ensures !Consistent(inp, Result(inp), 12)
  {
    var w := TwicePrepare(inp);
    var w2 := TwiceDrain(inp, w);
    LoopOnce(inp, Start(inp), w, w2);
    FourEntries(w2.target, inp.weights, 0);
    forall s | 0 <= s < 3
      ensures inp.load0[s] == LoadOf(inp.owner, inp.weights, s, 4) - 12
    {
      FourEntries(inp.owner, inp.weights, s);
    }
  }
}
