/** The rebalancers add and subtract loads in the C type int. When the reported loads,
    with the heaviest index on top, stay inside that type, no addition or subtraction of
    a whole call leaves it, and the unbounded integers of the other modules stand for
    the code's. */
module Ranges {
  import opened Division
  import opened Sequences
  import opened SortSubset
  import opened Greedy
  import opened Table
  import opened Rebalance
  import opened Bookkeeping
  import opened DhRebalance
  import opened ManagerDh

  const INT_MAX: int := 0x7fff_ffff

  /** x and -x are values of the C type int. */
  predicate Fits(x: int) {
    -INT_MAX <= x <= INT_MAX
  }

  lemma {:induction false} PrefixBelow(xs: seq<int>, n: nat)
    requires NonNegative(xs) && n <= |xs|
    ensures 0 <= SumOf(xs[..n]) <= SumOf(xs)
    decreases |xs|
  {
    if n == |xs| && n > 0 {
      PrefixBelow(xs[..n - 1], n - 1);
    } else if n < |xs| {
      var init := xs[..|xs| - 1];
      PrefixBelow(init, n);
      assert init[..n] == xs[..n];
    }
    assert xs[..|xs|] == xs;
  }

  lemma ElementBelow(xs: seq<int>, k: nat)
    requires NonNegative(xs) && k < |xs|
    ensures xs[k] <= SumOf(xs)
  {
    PrefixBelow(xs, k);
    PrefixBelow(xs, k + 1);
    assert xs[..k + 1] == xs[..k] + [xs[k]];
    SumOfAppend(xs[..k], xs[k]);
  }

  /** No index brings a load of at most `limit` out of the type. */
  predicate Room(weights: seq<int>, limit: int) {
    0 <= limit <= INT_MAX && forall e :: 0 <= e < |weights| ==> 0 <= weights[e] <= INT_MAX - limit
  }

  // ------------------------------------------------------- the windowed rebalancer

  /** The sums that the pass over the candidates compares with the goal. */
  predicate PassFits(list: seq<int>, weights: seq<int>, goal: int, room: int)
    requires Indices(list, weights)
  {
    list == [] ||
    (Fits(goal - room + weights[list[0]]) &&
     if weights[list[0]] > room then PassFits(list[1..], weights, goal, room)
     else weights[list[0]] != 0 ==> PassFits(list[1..], weights, goal, room - weights[list[0]]))
  }

  predicate LoadsFit(w: Work) {
    forall s :: 0 <= s < |w.load| ==> Fits(w.load[s])
  }

  /** The loads while the chosen entries are credited one by one. */
  predicate CreditFits(inp: Input, w: Work, list: seq<int>, l: int, s: int)
    requires WorkOk(inp, w) && Indices(list, inp.weights) && 0 <= l < inp.nb && 0 <= s < inp.nb
    decreases |list|
  {
    LoadsFit(w) && (list == [] || CreditFits(inp, CreditOne(inp, w, list[0], l, s), list[1..], l, s))
  }

  /** One turn of the inner loop: the goal, the pass and the credits. */
  predicate TurnFits(inp: Input, w: Work, il: nat, pos: nat)
    requires WorkOk(inp, w) && il < |w.over| && pos < |w.under|
  {
    var l, s := w.over[il], w.under[pos];
    var goal := Goal(w, l, s);
    var sorted := SortDesc(w.cands, inp.weights);
    && Fits(goal) && PassFits(sorted, inp.weights, goal, goal)
    && CreditFits(inp, w.(cands := sorted), Choice(w.cands, inp.weights, goal), l, s)
  }

  /** A turn of the inner loop: the state it starts in and the two positions. */
  datatype Turn = Turn(w: Work, il: nat, pos: nat)

  /** The turns of one inner loop, and of the whole call. */
  function DrainTurns(inp: Input, w: Work, il: nat, pos: nat): seq<Turn>
    requires WorkOk(inp, w) && il < |w.over|
    decreases |w.under| - pos
  {
    if pos >= |w.under| then []
    else
      var w1 := Give(inp, w, w.over[il], pos);
      [Turn(w, il, pos)] + if w1.load[w1.over[il]] <= 0 then [] else DrainTurns(inp, w1, il, pos + 1)
  }

  function LoopTurns(inp: Input, w: Work, il: nat): seq<Turn>
    requires WorkOk(inp, w)
    decreases |w.over| - il
  {
    if il >= |w.over| then []
    else DrainTurns(inp, Prepare(inp, w, il), il, 0) + LoopTurns(inp, Round(inp, w, il), il + 1)
  }

  lemma {:induction false} PassInRange(list: seq<int>, weights: seq<int>, goal: int, room: int, limit: int)
    requires Indices(list, weights) && Room(weights, limit) && 0 <= room <= goal <= limit
    ensures PassFits(list, weights, goal, room)
    decreases |list|
  {
    if list != [] {
      var g := weights[list[0]];
      if g > room {
        PassInRange(list[1..], weights, goal, room, limit);
      } else if g != 0 {
        PassInRange(list[1..], weights, goal, room - g, limit);
      }
    }
  }

  /** No load was further from zero at the start than `limit`. */
  predicate Within(inp: Input, limit: int) {
    Room(inp.weights, limit) && forall s :: 0 <= s < |inp.load0| ==> -limit <= inp.load0[s] <= limit
  }

  lemma LoadsInRange(inp: Input, w: Work, limit: int)
    requires WorkOk(inp, w) && Within(inp, limit) && LoadsOk(inp, w)
    ensures forall s :: 0 <= s < inp.nb ==> -limit <= w.load[s] <= limit
  {}

  lemma {:induction false} CreditInRange(inp: Input, w: Work, list: seq<int>, l: int, s: int, limit: int)
    requires WorkOk(inp, w) && LoadsOk(inp, w) && Within(inp, limit) && Indices(list, inp.weights)
    requires 0 <= l < inp.nb && 0 <= s < inp.nb && inp.load0[l] > 0 && inp.load0[s] < 0
    requires forall x :: x in list ==> inp.weights[x] > 0 && inp.load0[inp.owner[x]] > 0
    requires Sum(list, inp.weights) <= w.load[l] && Sum(list, inp.weights) <= -w.load[s]
    ensures CreditFits(inp, w, list, l, s)
    decreases |list|
  {
    LoadsInRange(inp, w, limit);
    if list != [] {
      CreditOneKeeps(inp, w, list[0], l, s);
      CreditInRange(inp, CreditOne(inp, w, list[0], l, s), list[1..], l, s, limit);
    }
  }

  lemma TurnInRange(inp: Input, w: Work, il: nat, pos: nat, limit: int)
    requires WorkOk(inp, w) && Turning(inp, w, il) && Within(inp, limit) && pos < |w.under|
    ensures TurnFits(inp, w, il, pos)
  {
    var l, s := w.over[il], w.under[pos];
    var goal := Goal(w, l, s);
    var sorted := SortDesc(w.cands, inp.weights);
    LoadsInRange(inp, w, limit);
    PassInRange(sorted, inp.weights, goal, goal, limit);
    ChoiceOk(inp, w, goal);
    CreditInRange(inp, w.(cands := sorted), Choice(w.cands, inp.weights, goal), l, s, limit);
  }

  predicate TurnOk(inp: Input, t: Turn) {
    WorkOk(inp, t.w) && Turning(inp, t.w, t.il) && t.pos < |t.w.under|
  }

  predicate AllOk(inp: Input, turns: seq<Turn>) {
    forall k :: 0 <= k < |turns| ==> TurnOk(inp, turns[k])
  }

  lemma TurnKeeps(inp: Input, w: Work, il: nat, pos: nat, w1: Work)
    requires TurnOk(inp, Turn(w, il, pos)) && w1 == Give(inp, w, w.over[il], pos)
    ensures w1.load[w1.over[il]] > 0 ==> Turning(inp, w1, il)
  {
    GiveKeeps(inp, w, il, pos);
  }

  lemma {:induction false} DrainTurnsOk(inp: Input, w: Work, il: nat, pos: nat, turns: seq<Turn>)
    requires WorkOk(inp, w) && Turning(inp, w, il) && turns == DrainTurns(inp, w, il, pos)
    ensures AllOk(inp, turns)
    decreases |w.under| - pos
  {
    if pos < |w.under| {
      var w1 := Give(inp, w, w.over[il], pos);
      TurnKeeps(inp, w, il, pos, w1);
      if w1.load[w1.over[il]] > 0 {
        DrainTurnsOk(inp, w1, il, pos + 1, DrainTurns(inp, w1, il, pos + 1));
      }
    }
  }

  lemma RoundTurnsOk(inp: Input, w: Work, il: nat, w1: Work, turns: seq<Turn>)
    requires Kept(inp, w, il) && il < |w.over| && w1 == Round(inp, w, il)
    requires turns == DrainTurns(inp, Prepare(inp, w, il), il, 0)
    ensures Kept(inp, w1, il + 1) && AllOk(inp, turns)
  {
    PrepareKeeps(inp, w, il);
    DrainTurnsOk(inp, Prepare(inp, w, il), il, 0, turns);
    RoundKeeps(inp, w, il);
  }

  lemma AllOkConcat(inp: Input, a: seq<Turn>, b: seq<Turn>)
    requires AllOk(inp, a) && AllOk(inp, b)
    ensures AllOk(inp, a + b)
  {}

  lemma LoopTurnsStep(inp: Input, w: Work, il: nat, w1: Work, first: seq<Turn>, rest: seq<Turn>)
    requires WorkOk(inp, w) && il < |w.over| && w1 == Round(inp, w, il)
    requires first == DrainTurns(inp, Prepare(inp, w, il), il, 0) && rest == LoopTurns(inp, w1, il + 1)
    ensures LoopTurns(inp, w, il) == first + rest
  {}

  lemma {:induction false} LoopTurnsOk(inp: Input, w: Work, il: nat, turns: seq<Turn>)
    requires WorkOk(inp, w) && turns == LoopTurns(inp, w, il)
    ensures Kept(inp, w, il) ==> AllOk(inp, turns)
    decreases |w.over| - il
  {
    if Kept(inp, w, il) && il < |w.over| {
      var w1 := Round(inp, w, il);
      var first, rest := DrainTurns(inp, Prepare(inp, w, il), il, 0), LoopTurns(inp, w1, il + 1);
      RoundTurnsOk(inp, w, il, w1, first);
      LoopTurnsStep(inp, w, il, w1, first, rest);
      LoopTurnsOk(inp, w1, il + 1, rest);
      AllOkConcat(inp, first, rest);
    }
  }

  /** The mean and the relative loads. */
  lemma RelativeInRange(all: seq<int>)
    requires NonNegative(all) && all != []
    ensures 0 <= SumOf(all) / |all| <= SumOf(all)
    ensures forall s :: 0 <= s < |all| ==> -SumOf(all) <= RelativeLoads(all)[s] <= SumOf(all)
  {
    PrefixBelow(all, 0);
    DivBelow(SumOf(all), |all|);
    forall s | 0 <= s < |all|
      ensures -SumOf(all) <= RelativeLoads(all)[s] <= SumOf(all)
    {
      ElementBelow(all, s);
    }
  }

  lemma AllTurnsFit(inp: Input, turns: seq<Turn>, limit: int)
    requires AllOk(inp, turns) && Within(inp, limit)
    ensures forall t :: t in turns ==> TurnFits(inp, t.w, t.il, t.pos)
  {
    forall t | t in turns
      ensures TurnFits(inp, t.w, t.il, t.pos)
    {
      assert TurnOk(inp, t);
      TurnInRange(inp, t.w, t.il, t.pos, limit);
    }
  }

  lemma StartKept(inp: Input, w: Work)
    requires Rebalance.Valid(inp) && w == Start(inp)
    ensures Kept(inp, w, 0)
  {
    StartOk(inp);
  }

  lemma LimitOk(inp: Input, all: seq<int>)
    requires inp.load0 == RelativeLoads(all) && NonNegative(all) && all != [] && Room(inp.weights, SumOf(all))
    ensures Within(inp, SumOf(all))
  {
    RelativeInRange(all);
  }

  lemma SumsInRange(all: seq<int>)
    requires NonNegative(all) && all != [] && SumOf(all) <= INT_MAX
    ensures forall n :: 0 <= n <= |all| ==> Fits(SumOf(all[..n]))
    ensures Fits(SumOf(all) / |all|)
  {
    forall n | 0 <= n <= |all|
      ensures Fits(SumOf(all[..n]))
    {
      PrefixBelow(all, n);
    }
    RelativeInRange(all);
  }

  lemma TurnsInRange(inp: Input, w: Work, limit: int, turns: seq<Turn>)
    requires Kept(inp, w, 0) && Within(inp, limit) && turns == LoopTurns(inp, w, 0)
    ensures LoadsFit(w) && AllOk(inp, turns)
    ensures forall t :: t in turns ==> TurnFits(inp, t.w, t.il, t.pos)
  {
    LoadsInRange(inp, w, limit);
    LoopTurnsOk(inp, w, 0, turns);
    AllTurnsFit(inp, turns, limit);
  }

  /** If the reported loads together, with the heaviest index added, stay inside the
      type, then so does everything manager_calculate_relab computes from them: the sum,
      the mean, the relative loads, and in every turn of the loops the goal, the pass
      and the credits. */
  lemma WindowedInRange(inp: Input, all: seq<int>, w: Work, turns: seq<Turn>)
    requires Rebalance.Valid(inp) && inp.load0 == RelativeLoads(all) && NonNegative(all) && all != []
    requires Room(inp.weights, SumOf(all))
    requires w == Start(inp) && turns == LoopTurns(inp, w, 0)
    ensures forall n :: 0 <= n <= |all| ==> Fits(SumOf(all[..n]))
    ensures Fits(SumOf(all) / |all|) && LoadsFit(w)
    ensures AllOk(inp, turns) && forall t :: t in turns ==> TurnFits(inp, t.w, t.il, t.pos)
  {
    SumsInRange(all);
    LimitOk(inp, all);
    StartKept(inp, w);
    TurnsInRange(inp, w, SumOf(all), turns);
  }

  // ------------------------------------------------------------- the DH rebalancer

  /** The sums that the pass over the values compares with the goal. */
  predicate ScanFits(list: seq<int>, goal: int, p: Scanned)
    decreases |list|
  {
    list == [] ||
    (Fits(p.sum + list[0]) && (Stops(list[0], goal, p) || ScanFits(list[1..], goal, Look(list[0], goal, p))))
  }

  /** All the sums of one call of manager_balance_load. */
  predicate CallFits(current: int, list: seq<int>, goal: int) {
    var p := Greedily(current, list, goal);
    && ScanFits(SortValues(list), goal, Scanned([], current, None))
    && Fits(p.sum) && (p.last.Some? ==> Fits(p.sum + p.last.value))
  }

  predicate Between(list: seq<int>, heaviest: int) {
    forall i :: 0 <= i < |list| ==> 0 <= list[i] <= heaviest
  }

  lemma {:induction false} ScanInRange(list: seq<int>, goal: int, p: Scanned, heaviest: int)
    requires -INT_MAX <= p.sum <= goal && 0 <= goal <= INT_MAX && goal + heaviest <= INT_MAX
    requires Between(list, heaviest) && (p.last.Some? ==> 0 <= p.last.value <= heaviest)
    ensures ScanFits(list, goal, p)
    ensures
      var q := Scan(list, goal, p);
      Fits(q.sum) && (q.last.Some? ==> Fits(q.sum + q.last.value))
    decreases |list|
  {
    if list != [] {
      assert 0 <= list[0] <= heaviest;
      if !Stops(list[0], goal, p) {
        ScanInRange(list[1..], goal, Look(list[0], goal, p), heaviest);
      }
    }
  }

  lemma PickInRange(current: int, list: seq<int>, goal: int, heaviest: int)
    requires -INT_MAX <= current <= goal && 0 <= goal <= INT_MAX && goal + heaviest <= INT_MAX
    requires Between(list, heaviest)
    ensures CallFits(current, list, goal)
  {
    SortValuesSorts(list);
    var sorted := SortValues(list);
    forall i | 0 <= i < |sorted|
      ensures 0 <= sorted[i] <= heaviest
    {
      assert sorted[i] in multiset(sorted);
      assert sorted[i] in list;
    }
    ScanInRange(sorted, goal, Scanned([], current, None), heaviest);
  }

  /** The passes that look for the receivers. */
  predicate DealFits(load: seq<int>, d: Deal, unders: seq<int>)
    requires DealOk(load, d) && AllUnder(load, unders)
    decreases |unders|
  {
    unders == [] ||
    (CallFits(load[unders[0]], d.left, 0) && DealFits(load, Serve(load, d, unders[0]), unders[1..]))
  }

  lemma {:induction false} DealInRange(load: seq<int>, d: Deal, unders: seq<int>)
    requires DealOk(load, d) && AllUnder(load, unders) && forall s :: 0 <= s < |load| ==> Fits(load[s])
    ensures DealFits(load, d, unders)
    decreases |unders|
  {
    if unders != [] {
      forall i | 0 <= i < |d.left|
        ensures 0 <= d.left[i] <= INT_MAX
      {
        OnOffer(load, d, d.left[i]);
      }
      PickInRange(load[unders[0]], d.left, 0, INT_MAX);
      DealInRange(load, Serve(load, d, unders[0]), unders[1..]);
    }
  }

  /** The load of one server, added up entry by entry. */
  lemma {:induction false} ValuesBelow(t: seq<Assign>, weights: seq<int>, s: int, n: nat)
    requires n <= |t| == |weights| && NonNegative(weights)
    ensures 0 <= SumOf(ValuesOf(t, weights, s, n)) <= SumOf(weights[..n])
  {
    if n > 0 {
      ValuesBelow(t, weights, s, n - 1);
      SumStep(t, weights, n - 1);
    }
  }

  lemma LoadsBelow(t: seq<Assign>, weights: seq<int>, nb: nat, s: nat)
    requires |t| == |weights| && NonNegative(weights) && s < nb
    ensures -SumOf(weights) <= Loads(t, weights, nb)[s] <= SumOf(weights)
  {
    ValuesBelow(t, weights, s, |t|);
    assert weights[..|t|] == weights;
    DivBelow(SumOf(weights), nb);
  }

  lemma ValuesBetween(t: seq<Assign>, weights: seq<int>, s: int, limit: int)
    requires |t| == |weights| && Room(weights, limit)
    ensures Between(ValuesOf(t, weights, s, |t|), INT_MAX - limit)
  {
    var vals := ValuesOf(t, weights, s, |t|);
    forall i | 0 <= i < |vals|
      ensures 0 <= vals[i] <= INT_MAX - limit
    {
      ValuesIn(t, weights, s, |t|);
      assert vals[i] in vals;
    }
  }

  /** If the access indices together, with the heaviest added once more, stay inside the
      type, then so does everything the DH manager computes from them. */
  lemma DhInRange(t: seq<Assign>, weights: seq<int>, nb: nat, load: seq<int>)
    requires |t| == |weights| && nb > 0 && load == Loads(t, weights, nb) && Room(weights, SumOf(weights))
    ensures forall s, n :: 0 <= n <= |t| ==> Fits(SumOf(ValuesOf(t, weights, s, n))) && Fits(SumOf(weights[..n]))
    ensures forall s :: 0 <= s < nb ==> Fits(load[s])
    ensures AllUnder(load, Underloaded(load, nb)) && DealFits(load, FirstDeal(load), Underloaded(load, nb))
    ensures forall s :: 0 <= s < nb && load[s] > 0 ==> CallFits(0, ValuesOf(t, weights, s, |t|), load[s])
  {
    forall s, n | 0 <= n <= |t|
      ensures Fits(SumOf(ValuesOf(t, weights, s, n))) && Fits(SumOf(weights[..n]))
    {
      ValuesBelow(t, weights, s, n);
      PrefixBelow(weights, n);
    }
    forall s | 0 <= s < nb
      ensures -SumOf(weights) <= load[s] <= SumOf(weights)
    {
      LoadsBelow(t, weights, nb, s);
    }
    UnderloadedUnder(load, nb);
    DealInRange(load, FirstDeal(load), Underloaded(load, nb));
    forall s | 0 <= s < nb && load[s] > 0
      ensures CallFits(0, ValuesOf(t, weights, s, |t|), load[s])
    {
      ValuesBetween(t, weights, s, SumOf(weights));
      PickInRange(0, ValuesOf(t, weights, s, |t|), load[s], INT_MAX - SumOf(weights));
    }
  }
}
