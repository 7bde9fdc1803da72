/** Which servers get a turn in the windowed rebalancer's two loops, in which order, and
    what a turn does. */
module Turns {
  import opened Sequences
  import opened SortSubset
  import opened Greedy
  import opened Rebalance
  import opened TrueLoads
  import opened Bookkeeping

  // ------------------------------------------------------------ one turn

  lemma {:induction false} CreditTargets(inp: Input, w: Work, list: seq<int>, l: int, s: int, e: int)
    requires WorkOk(inp, w) && Indices(list, inp.weights) && 0 <= l < inp.nb && 0 <= s < inp.nb
    requires 0 <= e < |w.target|
    ensures Credit(inp, w, list, l, s).target[e] == if e in list then s else w.target[e]
    decreases |list|
  {
    if list != [] {
      CreditTargets(inp, CreditOne(inp, w, list[0], l, s), list[1..], l, s, e);
      assert list == [list[0]] + list[1..];
    }
  }

  /** What the turn of giver l and receiver s does with the entries `given`. */
  predicate Handover(inp: Input, w: Work, w1: Work, l: int, s: int, given: seq<int>)
    requires WorkOk(inp, w) && WorkOk(inp, w1) && Indices(given, inp.weights)
    requires 0 <= l < inp.nb && 0 <= s < inp.nb && l != s
  {
    && w1.load[l] == w.load[l] - Sum(given, inp.weights) >= 0
    && w1.load[s] == w.load[s] + Sum(given, inp.weights) <= 0
    && (forall x :: 0 <= x < inp.nb && x != l && x != s ==> w1.load[x] == w.load[x])
    && (forall e :: 0 <= e < |w.target| ==> w1.target[e] == if e in given then s else w.target[e])
  }

  /** Nothing that the turn left behind would still fit both servers. */
  predicate NothingFits(inp: Input, w: Work, w1: Work, l: int, s: int, given: seq<int>)
    requires WorkOk(inp, w) && WorkOk(inp, w1) && 0 <= l < inp.nb && 0 <= s < inp.nb
  {
    forall e :: e in w.cands && e !in given && inp.weights[e] > 0 ==>
      inp.weights[e] > w1.load[l] || inp.weights[e] > -w1.load[s]
  }

  /** A turn hands over candidates until the giver is at the mean, the receiver is at the
      mean, or no candidate fits both any more; and then only a receiver that is at the
      mean leaves its list. */
  lemma TurnFills(inp: Input, w: Work, il: nat, pos: nat, w1: Work) returns (given: seq<int>)
    requires WorkOk(inp, w) && Turning(inp, w, il) && pos < |w.under| && w1 == Give(inp, w, w.over[il], pos)
    ensures WorkOk(inp, w1) && Indices(given, inp.weights) && multiset(given) <= multiset(w.cands)
    ensures w.over[il] != w.under[pos] && Handover(inp, w, w1, w.over[il], w.under[pos], given)
    ensures NothingFits(inp, w, w1, w.over[il], w.under[pos], given)
    ensures w1.over == w.over && multiset(w1.cands) == multiset(w.cands)
    ensures w1.under == if w1.load[w.under[pos]] == 0 then RemoveAt(w.under, pos) else w.under
  {
    var l, s := w.over[il], w.under[pos];
    var goal := Goal(w, l, s);
    var w0 := w.(cands := SortDesc(w.cands, inp.weights));
    given := Choice(w.cands, inp.weights, goal);
    ChoiceOk(inp, w, goal);
    SortDescSorts(w.cands, inp.weights);
    CreditKeeps(inp, w0, given, l, s);
    ChoiceIsHalfOptimal(w.cands, inp.weights, goal, []);
    forall e | 0 <= e < |w.target|
      ensures w1.target[e] == if e in given then s else w.target[e]
    {
      CreditTargets(inp, w0, given, l, s, e);
    }
    LeftOut(inp, w, given, goal);
  }

  /** A left out candidate of some weight does not fit the goal. */
  lemma LeftOut(inp: Input, w: Work, given: seq<int>, goal: int)
    requires WorkOk(inp, w) && Indices(given, inp.weights)
    requires forall x :: 0 <= x < |inp.weights| && multiset(w.cands)[x] > multiset(given)[x] && inp.weights[x] != 0
               ==> Sum(given, inp.weights) + inp.weights[x] > goal
    ensures forall e :: e in w.cands && e !in given && inp.weights[e] > 0 ==>
              Sum(given, inp.weights) + inp.weights[e] > goal
  {
    forall e | e in w.cands && e !in given && inp.weights[e] > 0
      ensures Sum(given, inp.weights) + inp.weights[e] > goal
    {
      assert e in multiset(w.cands) && e !in multiset(given);
    }
  }

  /** It hands over at least half of what any choice of candidates could. */
  lemma TurnIsHalfOptimal(inp: Input, w: Work, il: nat, pos: nat, w1: Work, other: seq<int>)
    requires WorkOk(inp, w) && Turning(inp, w, il) && pos < |w.under| && w1 == Give(inp, w, w.over[il], pos)
    requires Indices(other, inp.weights) && multiset(other) <= multiset(w.cands)
    requires Sum(other, inp.weights) <= w.load[w.over[il]] && Sum(other, inp.weights) <= -w.load[w.under[pos]]
    ensures 2 * (w.load[w.over[il]] - w1.load[w.over[il]]) >= Sum(other, inp.weights)
  {
    var l, s := w.over[il], w.under[pos];
    var goal := Goal(w, l, s);
    ChoiceOk(inp, w, goal);
    CreditKeeps(inp, w.(cands := SortDesc(w.cands, inp.weights)), Choice(w.cands, inp.weights, goal), l, s);
    ChoiceIsHalfOptimal(w.cands, inp.weights, goal, other);
  }

  // ------------------------------------------------------------ the order of the turns

  /** The most overloaded server gives first. */
  lemma MostLoadedFirst(inp: Input)
    requires Valid(inp)
    ensures forall i, j :: 0 <= i < j < |Start(inp).over| ==>
              inp.load0[Start(inp).over[j]] <= inp.load0[Start(inp).over[i]]
    ensures forall s :: s in Start(inp).over <==> 0 <= s < inp.nb && inp.load0[s] > 0
  {
    var over := Overloaded(inp.load0, inp.nb);
    ListsExact(inp.load0, inp.owner, 0, inp.nb, 0);
    SortSame(over, inp.load0);
    SortDescSorts(over, inp.load0);
    var sorted := Start(inp).over;
    forall i | 0 <= i < |sorted|
      ensures inp.load0[sorted[i]] > 0
    {
      assert sorted[i] in sorted;
    }
  }

  /** To each giver, the most underloaded server comes first. */
  lemma MostIdleFirst(inp: Input, w: Work, il: nat, w0: Work)
    requires Kept(inp, w, il) && il < |w.over| && w0 == Prepare(inp, w, il)
    ensures forall i, j :: 0 <= i < j < |w0.under| ==> w0.load[w0.under[i]] <= w0.load[w0.under[j]]
    ensures multiset(w0.under) == multiset(w.under) && w0.load == w.load && w0.target == w.target
  {
    SortDescSorts(w.under, w.load);
    SortSame(w.under, w.load);
    forall i | 0 <= i < |w0.under|
      ensures w0.load[w0.under[i]] < 0
    {
      assert w0.under[i] in w.under;
    }
  }

  // ------------------------------------------------------------ who is visited

  /** How many of the servers list[from..stop] are at the mean. */
  function Even(load: seq<int>, list: seq<int>, from: int, stop: int): nat
    requires Indices(list, load) && 0 <= from && stop <= |list|
    decreases stop - from
  {
    if from >= stop then 0 else (if load[list[from]] == 0 then 1 else 0) + Even(load, list, from + 1, stop)
  }

  lemma {:induction false} EvenSame(load: seq<int>, a: seq<int>, b: seq<int>, from: int, stop: int)
    requires Indices(a, load) && Indices(b, load) && 0 <= from && stop <= |a| && stop <= |b|
    requires forall q :: from <= q < stop ==> a[q] == b[q]
    ensures Even(load, a, from, stop) == Even(load, b, from, stop)
    decreases stop - from
  {
    if from < stop {
      EvenSame(load, a, b, from + 1, stop);
    }
  }

  /** Of the servers at position `from` and after it, the first `visits` are visited: up
      to the first one that the removals before it have taken out of reach. Each server
      found at the mean shortens the list by one. */
  predicate VisitedIff(visits: nat, list: seq<int>, from: nat, load: seq<int>)
    requires Indices(list, load)
  {
    && (visits > 0 ==> from + visits <= |list|)
    && forall p :: from <= p < |list| ==> (p - from < visits <==> p + Even(load, list, from, p) < |list|)
  }

  /** One more visit in front: the server at `from` stays on the list, or the last one
      takes its place. */
  lemma VisitedStep(rest: nat, list: seq<int>, from: nat, load: seq<int>, next: seq<int>)
    requires Indices(list, load) && Indices(next, load) && from < |list| && VisitedIff(rest, next, from + 1, load)
    requires next == if load[list[from]] == 0 then RemoveAt(list, from) else list
    ensures VisitedIff(rest + 1, list, from, load)
  {
    forall p | from <= p < |list|
      ensures p - from < rest + 1 <==> p + Even(load, list, from, p) < |list|
    {
      if from < p < |next| {
        EvenSame(load, list, next, from + 1, p);
      }
    }
  }

  // ------------------------------------------------------------ the inner loop

  /** What a turn leaves alone: all loads but those of giver l and receiver s, and the
      servers of all entries that are no candidates. */
  predicate Untouched(inp: Input, w: Work, w1: Work, l: int, s: int)
    requires WorkOk(inp, w) && WorkOk(inp, w1)
  {
    && (forall x :: 0 <= x < inp.nb && x != l && x != s ==> w1.load[x] == w.load[x])
    && (forall e :: 0 <= e < |w.target| && e !in w.cands ==> w1.target[e] == w.target[e])
    && multiset(w1.cands) == multiset(w.cands)
  }

  /** A turn of giver over[il] and receiver under[pos]. */
  predicate TurnLink(inp: Input, w: Work, w1: Work, il: nat, pos: nat) {
    && WorkOk(inp, w) && WorkOk(inp, w1) && il < |w.over| && pos < |w.under| && w1.over == w.over
    && Untouched(inp, w, w1, w.over[il], w.under[pos]) && w.load[w.over[il]] > 0 && w1.load[w.over[il]] >= 0
    && w1.under == (if w1.load[w.under[pos]] == 0 then RemoveAt(w.under, pos) else w.under)
    && NoDup(w.under) && w.under[pos] != w.over[il]
  }

  lemma TurnLinks(inp: Input, w: Work, il: nat, pos: nat, w1: Work)
    requires WorkOk(inp, w) && Turning(inp, w, il) && pos < |w.under| && w1 == Give(inp, w, w.over[il], pos)
    ensures TurnLink(inp, w, w1, il, pos)
  {
    var given := TurnFills(inp, w, il, pos, w1);
    forall e | 0 <= e < |w.target| && e !in w.cands
      ensures e !in given
    {
      assert e !in multiset(w.cands);
    }
  }

  lemma TurnKeeps(inp: Input, w: Work, il: nat, pos: nat, w1: Work)
    requires WorkOk(inp, w) && Turning(inp, w, il) && pos < |w.under| && w1 == Give(inp, w, w.over[il], pos)
    ensures w1.load[w1.over[il]] > 0 ==> Turning(inp, w1, il)
  {
    GiveKeeps(inp, w, il, pos);
  }

  predicate TurnAt(inp: Input, states: seq<Work>, il: nat, pos: nat, i: nat)
    requires i + 1 < |states|
  {
    TurnLink(inp, states[i], states[i + 1], il, pos + i)
  }

  /** The states of one inner loop from position `pos` on: one before each turn, and the
      last one, in which the giver is at the mean or no receiver is left. */
  predicate TurnChain(inp: Input, states: seq<Work>, il: nat, pos: nat) {
    && states != []
    && (forall i :: 0 <= i < |states| - 1 ==> TurnAt(inp, states, il, pos, i))
    && var last := states[|states| - 1];
       WorkOk(inp, last) && il < |last.over|
       && (last.load[last.over[il]] == 0 || (last.load[last.over[il]] > 0 && pos + |states| - 1 >= |last.under|))
  }

  lemma ChainCons(inp: Input, w: Work, states: seq<Work>, il: nat, pos: nat)
    requires TurnChain(inp, states, il, pos + 1) && TurnLink(inp, w, states[0], il, pos)
    ensures TurnChain(inp, [w] + states, il, pos)
  {
    var all := [w] + states;
    forall i | 0 <= i < |all| - 1
      ensures TurnAt(inp, all, il, pos, i)
    {
      if i > 0 {
        assert TurnAt(inp, states, il, pos + 1, i - 1);
      }
    }
  }

  /** The states the inner loop goes through, one before each turn and the last one. */
  function DrainStates(inp: Input, w: Work, il: nat, pos: nat): (r: seq<Work>)
    requires WorkOk(inp, w) && il < |w.over|
    ensures r != [] && r[0] == w
    decreases |w.under| - pos
  {
    if pos >= |w.under| then [w]
    else
      var w1 := Give(inp, w, w.over[il], pos);
      [w] + if w1.load[w1.over[il]] <= 0 then [w1] else DrainStates(inp, w1, il, pos + 1)
  }

  lemma DrainStatesStep(inp: Input, w: Work, il: nat, pos: nat, w1: Work)
    requires WorkOk(inp, w) && il < |w.over| && pos < |w.under| && w1 == Give(inp, w, w.over[il], pos)
    ensures DrainStates(inp, w, il, pos)
            == [w] + if w1.load[w1.over[il]] <= 0 then [w1] else DrainStates(inp, w1, il, pos + 1)
    ensures Drain(inp, w, il, pos)
            == if w1.load[w1.over[il]] <= 0 then w1.(over := RemoveAt(w1.over, il)) else Drain(inp, w1, il, pos + 1)
  {}

  /** After the last turn a giver at the mean leaves its list. */
  predicate EndsWith(last: Work, il: nat, end: Work)
    requires il < |last.over| && 0 <= last.over[il] < |last.load|
  {
    end == if last.load[last.over[il]] == 0 then last.(over := RemoveAt(last.over, il)) else last
  }

  predicate Drains(inp: Input, states: seq<Work>, il: nat, pos: nat, end: Work) {
    TurnChain(inp, states, il, pos) && EndsWith(states[|states| - 1], il, end)
  }

  /** The turn that brings the giver to the mean. */
  lemma LastTurn(inp: Input, w: Work, il: nat, pos: nat, w1: Work)
    requires WorkOk(inp, w) && Turning(inp, w, il) && pos < |w.under| && w1 == Give(inp, w, w.over[il], pos)
    requires w1.load[w1.over[il]] <= 0
    ensures Drains(inp, DrainStates(inp, w, il, pos), il, pos, Drain(inp, w, il, pos))
  {
    TurnLinks(inp, w, il, pos, w1);
    LastLink(inp, w, il, pos, w1);
    DrainStatesStep(inp, w, il, pos, w1);
  }

  lemma LastLink(inp: Input, w: Work, il: nat, pos: nat, w1: Work)
    requires TurnLink(inp, w, w1, il, pos) && w1.load[w1.over[il]] == 0
    ensures Drains(inp, [w] + [w1], il, pos, w1.(over := RemoveAt(w1.over, il)))
  {
    ChainCons(inp, w, [w1], il, pos);
  }

  /** Any other turn. */
  lemma OtherTurn(inp: Input, w: Work, il: nat, pos: nat, w1: Work)
    requires WorkOk(inp, w) && Turning(inp, w, il) && pos < |w.under| && w1 == Give(inp, w, w.over[il], pos)
    requires w1.load[w1.over[il]] > 0
    requires Drains(inp, DrainStates(inp, w1, il, pos + 1), il, pos + 1, Drain(inp, w1, il, pos + 1))
    ensures Drains(inp, DrainStates(inp, w, il, pos), il, pos, Drain(inp, w, il, pos))
  {
    TurnLinks(inp, w, il, pos, w1);
    DrainStatesStep(inp, w, il, pos, w1);
    ChainCons(inp, w, DrainStates(inp, w1, il, pos + 1), il, pos);
  }

  lemma {:induction false} DrainStatesChain(inp: Input, w: Work, il: nat, pos: nat)
    requires WorkOk(inp, w) && il < |w.over|
    ensures Turning(inp, w, il) ==> Drains(inp, DrainStates(inp, w, il, pos), il, pos, Drain(inp, w, il, pos))
    decreases |w.under| - pos
  {
    if Turning(inp, w, il) && pos < |w.under| {
      var w1 := Give(inp, w, w.over[il], pos);
      if w1.load[w1.over[il]] <= 0 {
        LastTurn(inp, w, il, pos, w1);
      } else {
        TurnKeeps(inp, w, il, pos, w1);
        DrainStatesChain(inp, w1, il, pos + 1);
        OtherTurn(inp, w, il, pos, w1);
      }
    }
  }

  /** What the rest of the inner loop leaves alone. */
  predicate RestUntouched(inp: Input, w: Work, end: Work, l: int, under: seq<int>, pos: nat)
    requires WorkOk(inp, w) && WorkOk(inp, end)
  {
    && (forall x :: 0 <= x < inp.nb && x != l && Behind(under, pos, x) ==> end.load[x] == w.load[x])
    && (forall e :: 0 <= e < |w.target| && e !in w.cands ==> end.target[e] == w.target[e])
    && multiset(end.cands) == multiset(w.cands)
  }

  /** Server x is not in the part of the list that is still ahead. */
  predicate Behind(list: seq<int>, from: nat, x: int) {
    forall j :: from <= j < |list| ==> list[j] != x
  }

  lemma RestStep(inp: Input, w: Work, w1: Work, end: Work, il: nat, pos: nat)
    requires TurnLink(inp, w, w1, il, pos) && WorkOk(inp, end)
    requires RestUntouched(inp, w1, end, w.over[il], w1.under, pos + 1)
    ensures RestUntouched(inp, w, end, w.over[il], w.under, pos)
    ensures end.load[w.under[pos]] == w1.load[w.under[pos]]
  {
    var l, s := w.over[il], w.under[pos];
    assert Behind(w1.under, pos + 1, s);
    forall x | 0 <= x < inp.nb && x != l && Behind(w.under, pos, x)
      ensures end.load[x] == w.load[x]
    {
      assert w.under[pos] != x;
      assert Behind(w1.under, pos + 1, x);
    }
    forall e | 0 <= e < |w.target| && e !in w.cands
      ensures end.target[e] == w.target[e]
    {
      assert e !in multiset(w1.cands);
    }
  }

  /** The rest of the inner loop from state w on, which ends with `last` after `visits`
      more turns. */
  predicate Visits(inp: Input, w: Work, last: Work, il: nat, pos: nat, visits: nat) {
    && WorkOk(inp, w) && WorkOk(inp, last) && w.over == last.over && il < |w.over|
    && RestUntouched(inp, w, last, w.over[il], w.under, pos)
    && (last.load[w.over[il]] > 0 ==> VisitedIff(visits, w.under, pos, last.load))
  }

  lemma {:induction false} ChainVisits(inp: Input, states: seq<Work>, il: nat, pos: nat, i: nat)
    requires i < |states|
    ensures TurnChain(inp, states, il, pos) ==>
              Visits(inp, states[i], states[|states| - 1], il, pos + i, |states| - 1 - i)
    decreases |states| - i
  {
    if i < |states| - 1 && TurnChain(inp, states, il, pos) {
      ChainVisits(inp, states, il, pos, i + 1);
      assert TurnAt(inp, states, il, pos, i);
      VisitsStep(inp, states[i], states[i + 1], states[|states| - 1], il, pos + i, |states| - 2 - i);
    }
  }

  lemma VisitsStep(inp: Input, w: Work, w1: Work, last: Work, il: nat, pos: nat, rest: nat)
    requires TurnLink(inp, w, w1, il, pos) && Visits(inp, w1, last, il, pos + 1, rest)
    ensures Visits(inp, w, last, il, pos, rest + 1)
  {
    RestStep(inp, w, w1, last, il, pos);
    if last.load[w.over[il]] > 0 {
      VisitedStep(rest, w.under, pos, last.load, w1.under);
    }
  }

  /** The list ahead is still the one the loop began with. */
  lemma {:induction false} SameAhead(inp: Input, states: seq<Work>, il: nat, pos: nat, i: nat)
    requires TurnChain(inp, states, il, pos) && i < |states|
    ensures |states[i].under| <= |states[0].under|
    ensures forall p :: pos + i <= p < |states[i].under| ==> states[i].under[p] == states[0].under[p]
  {
    if i > 0 {
      SameAhead(inp, states, il, pos, i - 1);
      assert TurnAt(inp, states, il, pos, i - 1);
    }
  }

  /** The turns of one giver: the i-th is with the i-th receiver of the list. If the giver
      is not brought to the mean, the p-th receiver gets a turn exactly when p plus the
      number of receivers before it that end at the mean is less than their number: each
      of those is replaced with the last one on the list, which the loop passes over. */
  lemma ReceiversIff(inp: Input, w: Work, il: nat, end: Work, states: seq<Work>)
    requires WorkOk(inp, w) && Turning(inp, w, il)
    requires end == Drain(inp, w, il, 0) && states == DrainStates(inp, w, il, 0)
    ensures TurnChain(inp, states, il, 0) && states[0] == w && EndsWith(states[|states| - 1], il, end)
    ensures forall i :: 0 <= i < |states| - 1 ==>
              |states[i].under| <= |w.under| && i < |states[i].under| && states[i].under[i] == w.under[i]
    ensures WorkOk(inp, end) && end.load[w.over[il]] >= 0
    ensures end.load[w.over[il]] > 0 ==> VisitedIff(|states| - 1, w.under, 0, end.load)
    ensures end.over == if end.load[w.over[il]] == 0 then RemoveAt(w.over, il) else w.over
    ensures RestUntouched(inp, w, end, w.over[il], w.under, 0)
  {
    DrainStatesChain(inp, w, il, 0);
    ChainVisits(inp, states, il, 0, 0);
    forall i | 0 <= i < |states| - 1
      ensures |states[i].under| <= |w.under| && i < |states[i].under| && states[i].under[i] == w.under[i]
    {
      SameAhead(inp, states, il, 0, i);
      assert TurnAt(inp, states, il, 0, i);
    }
  }

  // ------------------------------------------------------------ the outer loop

  /** What a turn of the outer loop does. */
  ghost predicate RoundDone(inp: Input, w: Work, w1: Work, il: nat)
    requires WorkOk(inp, w) && WorkOk(inp, w1) && il < |w.over|
  {
    && w1.over == (if w1.load[w.over[il]] == 0 then RemoveAt(w.over, il) else w.over)
    && (forall x :: 0 <= x < inp.nb && x != w.over[il] && inp.load0[x] > 0 ==> w1.load[x] == w.load[x])
    && (forall e :: 0 <= e < |w.target| && e !in w1.cands ==> w1.target[e] == w.target[e])
    && (forall e :: e in w1.cands <==> e in w.cands || (0 <= e < |inp.owner| && inp.owner[e] == w.over[il]))
  }

  /** None of server x's entries is a candidate. */
  predicate NoneOf(inp: Input, cands: seq<int>, x: int) {
    forall e :: 0 <= e < |inp.owner| && inp.owner[e] == x ==> e !in cands
  }

  /** The servers that still are to give: each once, overloaded, none of their entries
      yet a candidate. */
  predicate Ahead(inp: Input, w: Work, il: nat)
    requires WorkOk(inp, w)
  {
    && NoDup(w.over)
    && forall p :: il <= p < |w.over| ==> inp.load0[w.over[p]] > 0 && NoneOf(inp, w.cands, w.over[p])
  }

  ghost predicate RoundLink(inp: Input, w: Work, w1: Work, il: nat) {
    WorkOk(inp, w) && WorkOk(inp, w1) && il < |w.over| && RoundDone(inp, w, w1, il) && Ahead(inp, w, il)
  }

  lemma KeptAhead(inp: Input, w: Work, il: nat)
    requires Kept(inp, w, il)
    ensures Ahead(inp, w, il)
  {
    forall p | il <= p < |w.over|
      ensures NoneOf(inp, w.cands, w.over[p])
    {
      assert forall c :: 0 <= c < |w.cands| ==> inp.owner[w.cands[c]] != w.over[p];
    }
  }

  lemma CandsSame(w0: Work, w1: Work)
    requires multiset(w1.cands) == multiset(w0.cands)
    ensures forall e :: e in w1.cands <==> e in w0.cands
  {
    forall e
      ensures e in w1.cands <==> e in w0.cands
    {
      assert e in multiset(w1.cands) <==> e in multiset(w0.cands);
    }
  }

  lemma PreparedDone(inp: Input, w: Work, w0: Work, w1: Work, il: nat)
    requires WorkOk(inp, w) && il < |w.over| && w0 == Prepare(inp, w, il) && WorkOk(inp, w1)
    requires forall j :: 0 <= j < |w0.under| ==> inp.load0[w0.under[j]] < 0
    requires RestUntouched(inp, w0, w1, w.over[il], w0.under, 0)
    requires w1.over == if w1.load[w.over[il]] == 0 then RemoveAt(w.over, il) else w.over
    ensures RoundDone(inp, w, w1, il)
  {
    ListsExact(w.load, inp.owner, w.over[il], 0, |inp.owner|);
    CandsSame(w0, w1);
    forall x | 0 <= x < inp.nb && x != w.over[il] && inp.load0[x] > 0
      ensures w1.load[x] == w.load[x]
    {
      assert Behind(w0.under, 0, x);
    }
  }

  lemma RoundLinks(inp: Input, w: Work, il: nat, w1: Work)
    requires Kept(inp, w, il) && il < |w.over| && w1 == Round(inp, w, il)
    ensures RoundLink(inp, w, w1, il)
  {
    var w0 := Prepare(inp, w, il);
    PrepareKeeps(inp, w, il);
    ReceiversIff(inp, w0, il, w1, DrainStates(inp, w0, il, 0));
    PreparedDone(inp, w, w0, w1, il);
    KeptAhead(inp, w, il);
  }

  ghost predicate RoundAt(inp: Input, states: seq<Work>, il: nat, i: nat)
    requires i + 1 < |states|
  {
    RoundLink(inp, states[i], states[i + 1], il + i)
  }

  /** The states of the outer loop: one before each turn, and the last one. */
  ghost predicate RoundChain(inp: Input, states: seq<Work>, il: nat) {
    && states != []
    && (forall i :: 0 <= i < |states| - 1 ==> RoundAt(inp, states, il, i))
    && WorkOk(inp, states[|states| - 1]) && il + |states| - 1 >= |states[|states| - 1].over|
  }

  lemma RoundCons(inp: Input, w: Work, states: seq<Work>, il: nat)
    requires RoundChain(inp, states, il + 1) && RoundLink(inp, w, states[0], il)
    ensures RoundChain(inp, [w] + states, il)
  {
    var all := [w] + states;
    forall i | 0 <= i < |all| - 1
      ensures RoundAt(inp, all, il, i)
    {
      if i > 0 {
        assert RoundAt(inp, states, il + 1, i - 1);
      }
    }
  }

  /** The states the outer loop goes through, one before each turn and the last one. */
  function LoopStates(inp: Input, w: Work, il: nat): (r: seq<Work>)
    requires WorkOk(inp, w)
    ensures r != [] && r[0] == w
    decreases |w.over| - il
  {
    if il >= |w.over| then [w] else [w] + LoopStates(inp, Round(inp, w, il), il + 1)
  }

  lemma LoopStatesStep(inp: Input, w: Work, il: nat, w1: Work)
    requires WorkOk(inp, w) && il < |w.over| && w1 == Round(inp, w, il)
    ensures LoopStates(inp, w, il) == [w] + LoopStates(inp, w1, il + 1)
    ensures Loop(inp, w, il) == Loop(inp, w1, il + 1)
  {}

  lemma {:induction false} LoopStatesEnd(inp: Input, w: Work, il: nat)
    requires WorkOk(inp, w)
    ensures LoopStates(inp, w, il)[|LoopStates(inp, w, il)| - 1] == Loop(inp, w, il)
    decreases |w.over| - il
  {
    if il < |w.over| {
      LoopStatesEnd(inp, Round(inp, w, il), il + 1);
    }
  }

  lemma {:induction false} LoopStatesChain(inp: Input, w: Work, il: nat)
    requires WorkOk(inp, w)
    ensures Kept(inp, w, il) ==> RoundChain(inp, LoopStates(inp, w, il), il)
    decreases |w.over| - il
  {
    if il < |w.over| && Kept(inp, w, il) {
      var w1 := Round(inp, w, il);
      LoopStatesStep(inp, w, il, w1);
      RoundLinks(inp, w, il, w1);
      RoundKept(inp, w, il);
      LoopStatesChain(inp, w1, il + 1);
      RoundCons(inp, w, LoopStates(inp, w1, il + 1), il);
    }
  }

  predicate Stay(inp: Input, w: Work, end: Work, x: int)
    requires |w.target| == |end.target| == |inp.owner|
  {
    forall e :: 0 <= e < |inp.owner| && inp.owner[e] == x ==> end.target[e] == w.target[e]
  }

  /** Server x keeps its load and, if none of its entries is a candidate, its entries. */
  predicate Keeps(inp: Input, w: Work, end: Work, x: int)
    requires WorkOk(inp, w) && WorkOk(inp, end) && 0 <= x < inp.nb
  {
    end.load[x] == w.load[x] && (NoneOf(inp, w.cands, x) ==> Stay(inp, w, end, x))
  }

  lemma KeepsStep(inp: Input, w: Work, w1: Work, end: Work, il: nat, x: int)
    requires RoundLink(inp, w, w1, il) && WorkOk(inp, end)
    requires 0 <= x < inp.nb && inp.load0[x] > 0 && w.over[il] != x && Keeps(inp, w1, end, x)
    ensures Keeps(inp, w, end, x)
  {}

  /** A server that was overloaded at the start and is not ahead keeps its load to the
      end; and if none of its entries is a candidate, they all stay. */
  lemma {:induction false} ChainKeeps(inp: Input, states: seq<Work>, il: nat, i: nat, x: int)
    requires RoundChain(inp, states, il) && i < |states| && WorkOk(inp, states[i])
    requires 0 <= x < inp.nb && inp.load0[x] > 0 && Behind(states[i].over, il + i, x)
    ensures Keeps(inp, states[i], states[|states| - 1], x)
    decreases |states| - i
  {
    if i < |states| - 1 {
      var w, w1 := states[i], states[i + 1];
      assert RoundAt(inp, states, il, i);
      assert Behind(w1.over, il + i + 1, x);
      ChainKeeps(inp, states, il, i + 1, x);
      KeepsStep(inp, w, w1, states[|states| - 1], il + i, x);
    }
  }

  /** The servers ahead that do not get a turn keep their whole load and all entries. */
  predicate OthersKeep(inp: Input, w: Work, end: Work, il: nat, givers: nat)
    requires WorkOk(inp, w) && WorkOk(inp, end)
  {
    forall p :: il + givers <= p < |w.over| ==> end.load[w.over[p]] == w.load[w.over[p]] && Stay(inp, w, end, w.over[p])
  }

  /** The last server on the list goes to a place that is already behind. */
  lemma CutOff(list: seq<int>, next: seq<int>, il: nat, p: nat)
    requires NoDup(list) && il < p < |list| && (next == list || next == RemoveAt(list, il)) && p >= |next|
    ensures Behind(next, il + 1, list[p])
  {}

  lemma SkippedStays(inp: Input, states: seq<Work>, il: nat, i: nat, p: nat)
    requires RoundChain(inp, states, il) && i < |states| - 1 && RoundLink(inp, states[i], states[i + 1], il + i)
    requires OthersKeep(inp, states[i + 1], states[|states| - 1], il + i + 1, |states| - 2 - i)
    requires il + |states| - 1 <= p < |states[i].over|
    ensures
      var w, end := states[i], states[|states| - 1];
      end.load[w.over[p]] == w.load[w.over[p]] && Stay(inp, w, end, w.over[p])
  {
    var w, w1, end := states[i], states[i + 1], states[|states| - 1];
    var x := w.over[p];
    if p < |w1.over| {
      assert w1.over[p] == x;
    } else {
      CutOff(w.over, w1.over, il + i, p);
      ChainKeeps(inp, states, il, i + 1, x);
    }
  }

  /** A giver's load does not change after its turn. */
  lemma GiverDone(inp: Input, states: seq<Work>, il: nat, i: nat)
    requires RoundChain(inp, states, il) && i < |states| - 1 && RoundLink(inp, states[i], states[i + 1], il + i)
    ensures
      var l := states[i].over[il + i];
      states[|states| - 1].load[l] == states[i + 1].load[l]
  {
    assert Behind(states[i + 1].over, il + i + 1, states[i].over[il + i]);
    ChainKeeps(inp, states, il, i + 1, states[i].over[il + i]);
  }

  lemma {:induction false} ChainGivers(inp: Input, states: seq<Work>, il: nat, i: nat)
    requires RoundChain(inp, states, il) && i < |states| && WorkOk(inp, states[i])
    ensures VisitedIff(|states| - 1 - i, states[i].over, il + i, states[|states| - 1].load)
    ensures OthersKeep(inp, states[i], states[|states| - 1], il + i, |states| - 1 - i)
    decreases |states| - i
  {
    if i < |states| - 1 {
      var w, w1, end := states[i], states[i + 1], states[|states| - 1];
      assert RoundAt(inp, states, il, i);
      ChainGivers(inp, states, il, i + 1);
      GiverDone(inp, states, il, i);
      VisitedStep(|states| - 2 - i, w.over, il + i, end.load, w1.over);
      forall p | il + |states| - 1 <= p < |w.over|
        ensures end.load[w.over[p]] == w.load[w.over[p]] && Stay(inp, w, end, w.over[p])
      {
        SkippedStays(inp, states, il, i, p);
      }
    }
  }

  /** The list ahead is still the one the loop began with. */
  lemma {:induction false} SameGivers(inp: Input, states: seq<Work>, il: nat, i: nat)
    requires RoundChain(inp, states, il) && i < |states|
    ensures |states[i].over| <= |states[0].over|
    ensures forall p :: il + i <= p < |states[i].over| ==> states[i].over[p] == states[0].over[p]
  {
    if i > 0 {
      SameGivers(inp, states, il, i - 1);
      assert RoundAt(inp, states, il, i - 1);
    }
  }

  /** Which overloaded servers get a turn, in the order of their loads: the p-th does
      exactly when p plus the number of servers before it that end at the mean is less
      than the number of overloaded servers. The others keep their whole load and all
      their entries. */
  lemma GiversIff(inp: Input, w: Work, end: Work, states: seq<Work>)
    requires Valid(inp) && w == Start(inp) && end == Result(inp) && states == LoopStates(inp, w, 0)
    ensures RoundChain(inp, states, 0) && states[0] == w && states[|states| - 1] == end
    ensures forall i :: 0 <= i < |states| - 1 ==>
              |states[i].over| <= |w.over| && i < |states[i].over| && states[i].over[i] == w.over[i]
    ensures VisitedIff(|states| - 1, w.over, 0, end.load)
    ensures forall p :: |states| - 1 <= p < |w.over| ==>
              end.load[w.over[p]] == inp.load0[w.over[p]] && Stay(inp, w, end, w.over[p])
  {
    StartOk(inp);
    LoopStatesChain(inp, w, 0);
    LoopStatesEnd(inp, w, 0);
    ChainGivers(inp, states, 0, 0);
    forall i | 0 <= i < |states| - 1
      ensures |states[i].over| <= |w.over| && i < |states[i].over| && states[i].over[i] == w.over[i]
    {
      SameGivers(inp, states, 0, i);
      assert RoundAt(inp, states, 0, i);
    }
  }

  // ------------------------------------------------------------ a server that is passed over

  /** Servers 0 and 1 are 2 and 1 above the mean and have one entry of that weight each;
      server 2 lacks 3. */
  predicate TwoToGive(inp: Input) {
    && Valid(inp) && inp.nb == 3 && |inp.owner| == 3
    && inp.owner[0] == 0 && inp.owner[1] == 1 && inp.owner[2] == 2
    && inp.weights[0] == 2 && inp.weights[1] == 1 && inp.weights[2] == 1
    && inp.load0[0] == 2 && inp.load0[1] == 1 && inp.load0[2] == -3
  }

  lemma TwoToGiveInput()
    ensures TwoToGive(Input(3, [0, 1, 2], [2, 1, 1], [2, 1, -3]))
  {}

  lemma TwoToGiveStart(inp: Input)
    requires TwoToGive(inp)
    ensures Pair(Start(inp).over, 0, 1) && Single(Start(inp).under, 2) && Single(Owned(inp.owner, 0, 3), 0)
  {
    var load := inp.load0;
    assert Overloaded(load, 1) == [0] && Overloaded(load, 2) == [0, 1];
    assert Underloaded(load, 1) == [] && Underloaded(load, 2) == [];
    assert Owned(inp.owner, 0, 1) == [0] && Owned(inp.owner, 0, 2) == [0];
    SortedIsFixed(Overloaded(load, 3), load);
  }

  /** The only candidate fits and is handed over. */
  lemma OnlyCandidate(inp: Input, w: Work, l: int, s: int, e: int) returns (w1: Work)
    requires WorkOk(inp, w) && 0 <= l < inp.nb && Single(w.under, s) && l != s && Single(w.cands, e)
    requires 0 < inp.weights[e] <= Goal(w, l, s) && w.load[s] + inp.weights[e] < 0
    ensures w1 == Give(inp, w, l, 0) && WorkOk(inp, w1) && w1.over == w.over && w1.under == w.under
    ensures w1.target == w.target[e := s] && w1.load[l] == w.load[l] - inp.weights[e]
    ensures forall x :: 0 <= x < inp.nb && x != l && x != s ==> w1.load[x] == w.load[x]
    ensures w1.load[s] == w.load[s] + inp.weights[e]
  {
    var goal := Goal(w, l, s);
    SortedIsFixed(w.cands, inp.weights);
    assert w.cands[1..] == [];
    assert Choice(w.cands, inp.weights, goal) == [e];
    CreditSingle(inp, w, Choice(w.cands, inp.weights, goal), e, l, s);
    w1 := CreditOne(inp, w, e, l, s);
  }

  /** The first giver is brought to the mean, the second takes its place on the list, and
      the loop, which has gone on to the next place, ends. */
  lemma GiverIsPassedOver(inp: Input, end: Work)
    requires TwoToGive(inp) && end == Result(inp)
    ensures end.target == inp.owner[0 := 2] && end.load[1] == 1 && end.load[2] == -1
  {
    TwoToGiveStart(inp);
    var w := Start(inp);
    SortedIsFixed(w.under, w.load);
    var w0 := Prepare(inp, w, 0);
    var w1 := OnlyCandidate(inp, w0, 0, 2, 0);
    assert Drain(inp, w0, 0, 0) == w1.(over := RemoveAt(w1.over, 0));
    LoopNext(inp, w, 0, Drain(inp, w0, 0, 0), end);
    LoopOver(inp, Drain(inp, w0, 0, 0), 1, end);
  }
}
