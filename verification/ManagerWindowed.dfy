/** The windowed manager's rebalancing code over its arrays, proved to compute the
    function of module Rebalance. */
module ManagerWindowed {
  import opened Table
  import opened Mlt
  import opened Sequences
  import opened SortSubset
  import opened Greedy
  import opened Rebalance

  /** After i candidates `taken` have been chosen, weighing `sum` with the start. */
  predicate PassAt(cands: seq<int>, ws: seq<int>, goal: int, whole: seq<int>, i: nat, sum: int, taken: seq<int>) {
    && Indices(cands, ws) && i <= |cands| && |taken| <= i && sum >= 0
    && taken + Chosen(cands[i..], ws, goal - sum) == whole
  }

  /** A candidate that is skipped or taken. */
  lemma PassStep(cands: seq<int>, ws: seq<int>, goal: int, whole: seq<int>, i: nat, sum: int, taken: seq<int>,
                 sum': int, taken': seq<int>)
    requires PassAt(cands, ws, goal, whole, i, sum, taken) && i < |cands| && NonNegative(ws)
    requires if sum + ws[cands[i]] > goal then sum' == sum && taken' == taken
             else ws[cands[i]] != 0 && sum' == sum + ws[cands[i]] && taken' == taken + [cands[i]]
    ensures PassAt(cands, ws, goal, whole, i + 1, sum', taken')
  {
    assert cands[i..][1..] == cands[i + 1..];
    var e := cands[i];
    if sum + ws[e] <= goal {
      var rest := Chosen(cands[i + 1..], ws, goal - sum');
      assert taken + ([e] + rest) == (taken + [e]) + rest;
    }
  }

  /** A candidate of weight zero that fits ends the pass. */
  lemma PassStop(cands: seq<int>, ws: seq<int>, goal: int, whole: seq<int>, i: nat, sum: int, taken: seq<int>)
    requires PassAt(cands, ws, goal, whole, i, sum, taken) && i < |cands|
    requires sum + ws[cands[i]] <= goal && ws[cands[i]] == 0
    ensures whole == taken
  {}

  lemma PassEnd(cands: seq<int>, ws: seq<int>, goal: int, whole: seq<int>, i: nat, sum: int, taken: seq<int>)
    requires PassAt(cands, ws, goal, whole, i, sum, taken) && i == |cands|
    ensures whole == taken
  {
    assert cands[i..] == [];
  }

  /** The forward pass of manager_balance_load over sorted candidates. */
  method Pass(list: array<int>, weights: array<int>, size: nat, current: nat, goal: int, subset: array<int>)
    returns (n: nat)
    requires list != subset && weights != subset && size <= list.Length && size <= subset.Length
    requires Indices(list[..size], weights[..]) && NonNegative(weights[..])
    modifies subset
    ensures n <= size && subset[..n] == Chosen(list[..size], weights[..], goal - current)
  {
    ghost var cands, ws := list[..size], weights[..];
    ghost var whole := Chosen(cands, ws, goal - current);
    ghost var taken: seq<int> := [];
    var sum: int := current;
    var last := -1;
    n := 0;
    var i := 0;
    assert cands[0..] == cands;
    while i < size
      invariant 0 <= i <= size && -1 <= last < i && n == |taken|
      invariant PassAt(cands, ws, goal, whole, i, sum, taken)
      invariant subset[..n] == taken
    {
      ghost var sum0, taken0 := sum, taken;
      var e := list[i];
      assert e == cands[i];
      if sum + weights[e] <= goal {
        if weights[e] == 0 {
          PassStop(cands, ws, goal, whole, i, sum, taken);
          break;
        }
        sum := sum + weights[e];
        Append(subset, n, e);
        n := n + 1;
        taken := taken + [e];
      } else {
        last := i;
      }
      PassStep(cands, ws, goal, whole, i, sum0, taken0, sum, taken);
      i := i + 1;
    }
    if i == size {
      PassEnd(cands, ws, goal, whole, i, sum, taken);
    }
    // One more entry would be taken if it brought the sum nearer to zero; a sum of
    // loads that is never negative cannot come nearer.
    if last != -1 {
      var e := list[last];
      assert e == cands[last];
      if Abs(sum + weights[e]) < Abs(sum) {
        assert false;
      }
    }
  }

  /** manager_balance_load: the candidates are sorted in place, the chosen ones are
      written to `subset`. */
  method BalanceLoad(current: nat, list: array<int>, size: nat, goal: int, weights: array<int>, subset: array<int>)
    returns (n: nat)
    requires list != subset && weights != subset && list != weights && size <= list.Length && size <= subset.Length
    requires Indices(list[..size], weights[..]) && NonNegative(weights[..])
    modifies list, subset
    ensures Indices(list[..size], weights[..])
    ensures list[..size] == SortDesc(old(list[..size]), weights[..])
    ensures n <= size && subset[..n] == Choice(old(list[..size]), weights[..], goal - current)
  {
    Sort(list, weights, size);
    n := Pass(list, weights, size, current, goal, subset);
  }

  // ------------------------------------------------------- the lists it starts from

  /** The first loop: the server of every entry. */
  method ReadTargets(table: Mlt) returns (target: array<int>)
    requires table.Valid()
    ensures fresh(target) && target.Length == table.size
    ensures forall e :: 0 <= e < table.size ==> target[e] == table.idSrv[e]
  {
    target := new int[table.size];
    for e := 0 to table.size
      invariant forall j :: 0 <= j < e ==> target[j] == table.idSrv[j]
    {
      var rc, srv, ver, s := table.GetEntry(e);
      target[e] := srv;
    }
  }

  /** The sum of the reported loads. */
  method SumAll(all: array<int>) returns (sum: int)
    ensures sum == SumOf(all[..])
  {
    sum := 0;
    for s := 0 to all.Length
      invariant sum == SumOf(all[..s])
    {
      assert all[..s + 1] == all[..s] + [all[s]];
      sum := sum + all[s];
    }
    assert all[..] == all[..all.Length];
  }

  /** Relative loads, and the servers above and below the mean. */
  method Split(all: array<int>, mean: int, load: array<int>, subsetL: array<int>, subsetS: array<int>)
    returns (sizeL: nat, sizeS: nat)
    requires load.Length == subsetL.Length == subsetS.Length == all.Length
    requires all != load && all != subsetL && all != subsetS && load != subsetL && load != subsetS && subsetL != subsetS
    modifies load, subsetL, subsetS
    ensures forall s :: 0 <= s < all.Length ==> load[s] == all[s] - mean
    ensures sizeL <= all.Length && subsetL[..sizeL] == Overloaded(load[..], all.Length)
    ensures sizeS <= all.Length && subsetS[..sizeS] == Underloaded(load[..], all.Length)
  {
    sizeL, sizeS := 0, 0;
    ghost var ls: seq<int> := [];
    for s := 0 to all.Length
      invariant SplitTo(load, subsetL, subsetS, sizeL, sizeS, ls) && |ls| == s
      invariant forall j :: 0 <= j < s ==> ls[j] == all[j] - mean
    {
      sizeL, sizeS := SplitOne(s, all[s] - mean, load, subsetL, subsetS, sizeL, sizeS, ls);
      ls := ls + [all[s] - mean];
    }
    assert load[..] == ls;
    assert forall s :: 0 <= s < all.Length ==> load[s] == ls[s];
  }

  /** The arrays hold the loads `ls` and their two lists. */
  ghost predicate SplitTo(load: array<int>, subsetL: array<int>, subsetS: array<int>, sizeL: nat, sizeS: nat,
                          ls: seq<int>)
    reads load, subsetL, subsetS
  {
    && sizeL <= |ls| <= subsetL.Length && sizeS <= |ls| <= subsetS.Length && |ls| <= load.Length
    && load[..|ls|] == ls
    && subsetL[..sizeL] == Overloaded(ls, |ls|) && subsetS[..sizeS] == Underloaded(ls, |ls|)
  }

  /** One server. */
  method SplitOne(s: nat, x: int, load: array<int>, subsetL: array<int>, subsetS: array<int>, sizeL0: nat, sizeS0: nat,
                  ghost ls: seq<int>)
    returns (sizeL: nat, sizeS: nat)
    requires load != subsetL && load != subsetS && subsetL != subsetS
    requires SplitTo(load, subsetL, subsetS, sizeL0, sizeS0, ls) && s == |ls|
    requires |ls| < load.Length && |ls| < subsetL.Length && |ls| < subsetS.Length
    modifies load, subsetL, subsetS
    ensures SplitTo(load, subsetL, subsetS, sizeL, sizeS, ls + [x])
  {
    SplitStep(ls, x);
    sizeL, sizeS := sizeL0, sizeS0;
    Append(load, s, x);
    if x > 0 {
      Append(subsetL, sizeL, s);
      sizeL := sizeL + 1;
    } else if x < 0 {
      Append(subsetS, sizeS, s);
      sizeS := sizeS + 1;
    }
  }

  lemma SplitPrefix(a: seq<int>, b: seq<int>, n: nat)
    requires n <= |a|
    ensures Overloaded(a + b, n) == Overloaded(a, n) && Underloaded(a + b, n) == Underloaded(a, n)
  {}

  lemma SplitStep(a: seq<int>, x: int)
    ensures Overloaded(a + [x], |a| + 1) == if x > 0 then Overloaded(a, |a|) + [|a|] else Overloaded(a, |a|)
    ensures Underloaded(a + [x], |a| + 1) == if x < 0 then Underloaded(a, |a|) + [|a|] else Underloaded(a, |a|)
  {
    SplitPrefix(a, [x], |a|);
  }

  /** The entries of one more server join the candidates. */
  method AddCandidates(table: Mlt, ghost owner: seq<int>, srv: int, list: array<int>, size: nat) returns (n: nat)
    requires table.Valid() && !table.Owns(list) && |owner| == table.size
    requires forall e :: 0 <= e < table.size ==> table.idSrv[e] == owner[e]
    requires size + |Owned(owner, srv, table.size)| <= list.Length
    modifies list
    ensures n <= list.Length && list[..n] == old(list[..size]) + Owned(owner, srv, table.size)
  {
    n := size;
    for e := 0 to table.size
      invariant size <= n && n == size + |Owned(owner, srv, e)| <= list.Length
      invariant list[..n] == old(list[..size]) + Owned(owner, srv, e)
    {
      OwnedGrows(owner, srv, e + 1, table.size);
      var rc, s, ver, st := table.GetEntry(e);
      if s == srv {
        ghost var before := list[..n];
        list[n] := e;
        n := n + 1;
        assert list[..n] == before + [e];
      }
    }
  }

  lemma OwnedGrows(owner: seq<int>, srv: int, m: nat, n: nat)
    requires m <= n <= |owner|
    ensures |Owned(owner, srv, m)| <= |Owned(owner, srv, n)|
  {
    if m < n {
      OwnedGrows(owner, srv, m, n - 1);
    }
  }

  method RemoveFrom(list: array<int>, size: nat, i: nat)
    requires i < size <= list.Length
    modifies list
    ensures list[..size - 1] == RemoveAt(old(list[..size]), i)
  {
    list[i] := list[size - 1];
  }

  // ------------------------------------------------------------------ the loops

  /** The inner loop, from here on, ends in `end`. */
  ghost predicate DrainsTo(inp: Input, w: Work, il: nat, pos: nat, end: Work) {
    WorkOk(inp, w) && il < |w.over| && Drain(inp, w, il, pos) == end
  }

  lemma DrainStep(inp: Input, w: Work, il: nat, pos: nat, end: Work, w1: Work)
    requires DrainsTo(inp, w, il, pos, end) && pos < |w.under| && w1 == Give(inp, w, w.over[il], pos)
    ensures if w1.load[w1.over[il]] <= 0 then end == w1.(over := RemoveAt(w1.over, il))
            else DrainsTo(inp, w1, il, pos + 1, end)
  {}

  lemma DrainDone(inp: Input, w: Work, il: nat, pos: nat, end: Work)
    requires DrainsTo(inp, w, il, pos, end) && pos >= |w.under|
    ensures end == w
  {}

  /** From turn `il` on the outer loop ends with `end`. */
  ghost predicate LoopsTo(inp: Input, w: Work, il: nat, end: Work) {
    Kept(inp, w, il) && Loop(inp, w, il) == end
  }

  lemma LoopStarts(inp: Input, w: Work)
    requires Rebalance.Valid(inp) && w == Start(inp)
    ensures LoopsTo(inp, w, 0, Result(inp))
  {
    StartOk(inp);
  }

  lemma LoopStep(inp: Input, w: Work, il: nat, end: Work, w1: Work)
    requires LoopsTo(inp, w, il, end) && il < |w.over| && w1 == Round(inp, w, il)
    ensures LoopsTo(inp, w1, il + 1, end)
  {
    RoundKept(inp, w, il);
  }

  lemma LoopDone(inp: Input, w: Work, il: nat, end: Work)
    requires LoopsTo(inp, w, il, end) && il >= |w.over|
    ensures end == w
  {}

  /** The candidates, never reset, always fit the N_entry elements of their array. */
  lemma CandidatesFit(inp: Input, w: Work, il: nat)
    requires Kept(inp, w, il) && il < |w.over|
    ensures |w.cands| + |Owned(inp.owner, w.over[il], |inp.owner|)| <= |inp.owner|
  {
    PrepareKeeps(inp, w, il);
    NoDupLength(Prepare(inp, w, il).cands, |inp.owner|);
  }

  /** The arrays of one call of manager_calculate_relab. */
  class Lists {
    const weights: array<int>
    const load: array<int>
    const target: array<int>
    const subsetL: array<int>
    const subsetS: array<int>
    const chosen: array<int>
    const subsetSrv: array<int>
    var sizeL: nat
    var sizeS: nat
    var sizeSrv: nat

    constructor (weights: array<int>, load: array<int>, target: array<int>, subsetL: array<int>, subsetS: array<int>,
                 chosen: array<int>, subsetSrv: array<int>, sizeL: nat, sizeS: nat)
      ensures this.weights == weights && this.load == load && this.target == target && this.subsetL == subsetL
      ensures this.subsetS == subsetS && this.chosen == chosen && this.subsetSrv == subsetSrv
      ensures this.sizeL == sizeL && this.sizeS == sizeS && sizeSrv == 0
    {
      this.weights, this.load, this.target, this.subsetL := weights, load, target, subsetL;
      this.subsetS, this.chosen, this.subsetSrv := subsetS, chosen, subsetSrv;
      this.sizeL, this.sizeS, sizeSrv := sizeL, sizeS, 0;
    }

    ghost predicate Separate() {
      && weights != load && weights != target && weights != subsetL && weights != subsetS && weights != chosen
      && weights != subsetSrv && load != target && load != subsetL && load != subsetS && load != chosen
      && load != subsetSrv && target != subsetL && target != subsetS && target != chosen && target != subsetSrv
      && subsetL != subsetS && subsetL != chosen && subsetL != subsetSrv && subsetS != chosen && subsetS != subsetSrv
      && chosen != subsetSrv
      && chosen.Length == subsetSrv.Length
    }

    /** The used parts of the arrays. */
    ghost function View(): (seq<int>, seq<int>, seq<int>, seq<int>, seq<int>, seq<int>)
      requires sizeL <= subsetL.Length && sizeS <= subsetS.Length && sizeSrv <= subsetSrv.Length
      reads this, weights, load, target, subsetL, subsetS, subsetSrv
    {
      (weights[..], load[..], target[..], subsetL[..sizeL], subsetS[..sizeS], subsetSrv[..sizeSrv])
    }

    /** The arrays hold the lists of `w`. */
    ghost predicate Hold(inp: Input, w: Work)
      reads this, weights, load, target, subsetL, subsetS, subsetSrv
    {
      && WorkOk(inp, w)
      && sizeL <= subsetL.Length && sizeS <= subsetS.Length && sizeSrv <= subsetSrv.Length
      && View() == (inp.weights, w.load, w.target, w.over, w.under, w.cands)
    }

    /** The loop that hands the chosen entries over. */
    method CreditAll(ghost inp: Input, ghost w0: Work, size: nat, l: int, s: int) returns (ghost w: Work)
      requires Separate() && Hold(inp, w0) && size <= chosen.Length && Indices(chosen[..size], inp.weights)
      requires 0 <= l < inp.nb && 0 <= s < inp.nb
      modifies target, load
      ensures w == Credit(inp, w0, chosen[..size], l, s) && Hold(inp, w)
    {
      w := w0;
      ghost var picked := chosen[..size];
      var j := 0;
      assert picked[0..] == picked;
      while j < size
        invariant j <= size && Hold(inp, w)
        invariant Credit(inp, w, picked[j..], l, s) == Credit(inp, w0, picked, l, s)
      {
        var e := chosen[j];
        assert e == picked[j] && picked[j..][1..] == picked[j + 1..];
        target[e] := s;
        load[s] := load[s] + weights[e];
        load[l] := load[l] - weights[e];
        w := CreditOne(inp, w, e, l, s);
        assert load[..] == w.load && target[..] == w.target;
        j := j + 1;
      }
      assert picked[size..] == [];
    }

    /** The greedy choice of the candidates for one receiver. */
    method ChooseFor(ghost inp: Input, ghost w0: Work, goal: int) returns (n: nat, ghost w: Work)
      requires Separate() && Hold(inp, w0) && NonNegative(inp.weights)
      modifies chosen, subsetSrv
      ensures w == w0.(cands := SortDesc(w0.cands, inp.weights)) && Hold(inp, w)
      ensures n <= chosen.Length && chosen[..n] == Choice(w0.cands, inp.weights, goal)
    {
      n := BalanceLoad(0, subsetSrv, sizeSrv, goal, weights, chosen);
      w := w0.(cands := SortDesc(w0.cands, inp.weights));
    }

    /** A receiver that is full leaves its list. */
    method DropFull(ghost inp: Input, ghost w0: Work, s: int, pos: nat) returns (ghost w: Work)
      requires Separate() && Hold(inp, w0) && pos < sizeS && 0 <= s < inp.nb
      modifies this`sizeS, subsetS
      ensures w == (if w0.load[s] >= 0 then w0.(under := RemoveAt(w0.under, pos)) else w0) && Hold(inp, w)
    {
      w := w0;
      if load[s] >= 0 {
        RemoveFrom(subsetS, sizeS, pos);
        sizeS := sizeS - 1;
        w := w0.(under := RemoveAt(w0.under, pos));
      }
    }

    /** One turn of the inner loop, without its last test. */
    method GiveTo(ghost inp: Input, ghost w0: Work, l: int, pos: nat) returns (ghost w: Work)
      requires Separate() && Hold(inp, w0) && 0 <= l < inp.nb && pos < sizeS
      requires NonNegative(inp.weights)
      modifies this`sizeS, target, load, subsetS, chosen, subsetSrv
      ensures w == Give(inp, w0, l, pos) && Hold(inp, w)
    {
      var s := subsetS[pos];
      assert s == w0.under[pos];
      var goal := if Abs(load[s]) < load[l] then Abs(load[s]) else load[l];
      var n: nat;
      n, w := ChooseFor(inp, w0, goal);
      w := CreditAll(inp, w, n, l, s);
      w := DropFull(inp, w, s, pos);
    }

    /** An emptied giver leaves its list. */
    method DropEmptied(ghost inp: Input, ghost w0: Work, il: nat) returns (ghost w: Work)
      requires Separate() && Hold(inp, w0) && il < sizeL
      modifies this`sizeL, subsetL
      ensures w == w0.(over := RemoveAt(w0.over, il)) && Hold(inp, w)
    {
      RemoveFrom(subsetL, sizeL, il);
      sizeL := sizeL - 1;
      w := w0.(over := RemoveAt(w0.over, il));
    }

    /** One turn of the inner loop; `stop` says that the giver is empty. */
    method Turn(ghost inp: Input, ghost w0: Work, il: nat, pos: nat, ghost end: Work)
      returns (stop: bool, ghost w: Work)
      requires Separate() && Hold(inp, w0) && il < sizeL && pos < sizeS && NonNegative(inp.weights)
      requires DrainsTo(inp, w0, il, pos, end)
      modifies this`sizeL, this`sizeS, target, load, subsetL, subsetS, chosen, subsetSrv
      ensures Hold(inp, w) && sizeSrv == old(sizeSrv) && sizeS <= old(sizeS)
      ensures if stop then w == end else il < sizeL && DrainsTo(inp, w, il, pos + 1, end)
    {
      var l := subsetL[il];
      assert l == w0.over[il];
      w := GiveTo(inp, w0, l, pos);
      DrainStep(inp, w0, il, pos, end, w);
      assert w.over[il] == l && load[l] == w.load[l];
      stop := load[l] <= 0;
      if stop {
        w := DropEmptied(inp, w, il);
      }
    }

    /** The inner loop: one overloaded server is drained into the underloaded ones. */
    method DrainAll(ghost inp: Input, ghost w0: Work, il: nat, ghost end: Work) returns (ghost w: Work)
      requires Separate() && Hold(inp, w0) && il < sizeL && NonNegative(inp.weights)
      requires DrainsTo(inp, w0, il, 0, end)
      modifies this`sizeL, this`sizeS, target, load, subsetL, subsetS, chosen, subsetSrv
      ensures w == end && Hold(inp, w) && sizeSrv == old(sizeSrv)
    {
      w := w0;
      var pos := 0;
      while pos < sizeS
        invariant Hold(inp, w) && il < sizeL && sizeSrv == old(sizeSrv)
        invariant DrainsTo(inp, w, il, pos, end)
        decreases sizeS - pos
      {
        var stop: bool;
        stop, w := Turn(inp, w, il, pos, end);
        if stop {
          return;
        }
        pos := pos + 1;
      }
      DrainDone(inp, w, il, pos, end);
    }

    /** The table has the owners, and none of its arrays is one of these. */
    ghost predicate TableOk(owner: seq<int>, table: Mlt)
      reads table, table.Arrays()
    {
      && table.Valid() && table.size == |owner| == subsetSrv.Length
      && (forall e :: 0 <= e < table.size ==> table.idSrv[e] == owner[e])
      && !table.Owns(subsetSrv) && !table.Owns(target) && !table.Owns(load)
      && !table.Owns(subsetL) && !table.Owns(subsetS) && !table.Owns(chosen)
    }

    /** The outer loop over the overloaded servers. */
    method RunAll(ghost inp: Input, ghost w0: Work, table: Mlt, ghost end: Work)
      requires Separate() && Hold(inp, w0) && LoopsTo(inp, w0, 0, end)
      requires TableOk(inp.owner, table)
      modifies this, target, load, subsetL, subsetS, chosen, subsetSrv
      ensures target[..] == end.target
    {
      ghost var w := w0;
      var il := 0;
      while il < sizeL
        invariant Hold(inp, w) && LoopsTo(inp, w, il, end)
        decreases sizeL - il
      {
        w := OneRound(inp, w, il, table, end);
        il := il + 1;
      }
      LoopDone(inp, w, il, end);
    }

    /** The giver's entries become candidates and the receivers are sorted. */
    method GetReady(ghost inp: Input, ghost w0: Work, il: nat, table: Mlt) returns (ghost w: Work)
      requires Separate() && Hold(inp, w0) && Kept(inp, w0, il) && il < sizeL
      requires TableOk(inp.owner, table)
      modifies this`sizeSrv, subsetS, subsetSrv
      ensures w == Prepare(inp, w0, il) && Hold(inp, w)
    {
      var l := subsetL[il];
      assert l == w0.over[il];
      CandidatesFit(inp, w0, il);
      sizeSrv := AddCandidates(table, inp.owner, l, subsetSrv, sizeSrv);
      Sort(subsetS, load, sizeS);
      w := Prepare(inp, w0, il);
    }

    /** One turn of the outer loop. */
    method OneRound(ghost inp: Input, ghost w0: Work, il: nat, table: Mlt, ghost end: Work) returns (ghost w: Work)
      requires Separate() && Hold(inp, w0) && LoopsTo(inp, w0, il, end) && il < sizeL
      requires TableOk(inp.owner, table)
      modifies this, target, load, subsetL, subsetS, chosen, subsetSrv
      ensures Hold(inp, w) && sizeL <= old(sizeL) && LoopsTo(inp, w, il + 1, end)
    {
      w := GetReady(inp, w0, il, table);
      w := DrainAll(inp, w, il, Drain(inp, w, il, 0));
      LoopStep(inp, w0, il, end, w);
    }
  }

  // ------------------------------------------------------------------ the manager

  class Manager {
    const table: Mlt
    const globalList: array<int>
    const allList: array<int>
    var meanLoad: int

    ghost predicate Valid()
      reads this, globalList, allList, table, table.Arrays()
    {
      && table.Valid() && globalList !in table.Arrays() && allList !in table.Arrays() && globalList != allList
      && globalList.Length == table.size && allList.Length > 0
      && NonNegative(globalList[..])
      && forall e :: 0 <= e < table.size ==> table.Assigns()[e].srv < allList.Length
    }

    constructor (size: nat, nb: nat)
      requires size > 0 && nb > 0
      ensures Valid() && table.Assigns() == Initial(size, nb) && allList.Length == nb
    {
      var t := new Mlt(size, nb);
      table := t;
      globalList := new int[size](_ => 0);
      allList := new int[nb](_ => 0);
      meanLoad := 0;
    }

    /** manager_merge_eacl: a zero in the new list leaves the old index in place. */
    method MergeEacl(newList: array<int>)
      requires Valid() && newList.Length == globalList.Length && newList != globalList
      requires NonNegative(newList[..])
      modifies globalList
      ensures Valid()
      ensures forall e :: 0 <= e < globalList.Length ==>
                globalList[e] == if newList[e] != 0 then newList[e] else old(globalList[e])
    {
      for e := 0 to globalList.Length
        invariant Valid() && NonNegative(newList[..])
        invariant forall j :: 0 <= j < e ==> globalList[j] == if newList[j] != 0 then newList[j] else old(globalList[j])
        invariant forall j :: e <= j < globalList.Length ==> globalList[j] == old(globalList[j])
      {
        if newList[e] != 0 {
          assert newList[..][e] == newList[e];
          globalList[e] := newList[e];
        }
      }
    }

    /** The rebalancing problem the manager faces. */
    ghost function Problem(): (r: Input)
      requires Valid()
      reads this, globalList, allList, table, table.Arrays()
      ensures Rebalance.Valid(r)
    {
      Input(allList.Length, Owners(table.Assigns()), globalList[..], RelativeLoads(allList[..]))
    }

    /** manager_calculate_relab: the table becomes the one module Rebalance computes. */
    method CalculateRelab()
      requires Valid()
      modifies this`meanLoad, table.idSrv, table.nVer, table.state
      ensures Valid()
      ensures forall e :: 0 <= e < table.size ==> 0 <= Result(old(Problem())).target[e] < allList.Length
      ensures table.Assigns() == Commit(old(table.Assigns()), Result(old(Problem())).target)
      ensures LegalRebalance(allList.Length, old(table.Assigns()), table.Assigns())
      ensures meanLoad == SumOf(allList[..]) / allList.Length
      ensures forall e :: 0 <= e < table.size && table.Assigns()[e].srv != old(table.Assigns())[e].srv ==>
                allList[old(table.Assigns())[e].srv] > meanLoad > allList[table.Assigns()[e].srv]
    {
      ghost var inp := Problem();
      LoopStarts(inp, Start(inp));
      var target := Targets(inp, Start(inp), Result(inp));
      CommitIsLegal(inp, table.Assigns());
      assert forall e :: 0 <= e < table.size ==> target[e] == target[..][e];
      ghost var was := table.Assigns();
      AllTowardsMean(inp, allList[..], was);
      CommitAll(target);
    }

    /** The owners of the problem are those of the table. */
    lemma OwnersOfTable(inp: Input)
      requires Valid() && inp == Problem()
      ensures |inp.owner| == table.size && forall e :: 0 <= e < table.size ==> table.idSrv[e] == inp.owner[e]
    {}

    /** Everything before the commit loop. */
    method Targets(ghost inp: Input, ghost w0: Work, ghost end: Work) returns (target: array<int>)
      requires Valid() && inp == Problem() && w0 == Start(inp) && LoopsTo(inp, w0, 0, end)
      modifies this`meanLoad
      ensures fresh(target) && target[..] == end.target
      ensures meanLoad == SumOf(allList[..]) / allList.Length
    {
      OwnersOfTable(inp);
      var lists := Prepared(inp, w0);
      assert !table.Owns(lists.target) && !table.Owns(lists.load) && !table.Owns(lists.chosen);
      assert !table.Owns(lists.subsetL) && !table.Owns(lists.subsetS) && !table.Owns(lists.subsetSrv);
      lists.RunAll(inp, w0, table, end);
      target := lists.target;
    }

    /** Everything before the loops: targets, loads and the two server lists. */
    method Prepared(ghost inp: Input, ghost w0: Work) returns (lists: Lists)
      requires Valid() && inp == Problem() && w0 == Start(inp)
      modifies this`meanLoad
      ensures fresh(lists) && lists.Separate() && lists.Hold(inp, w0)
      ensures fresh(lists.target) && fresh(lists.load) && fresh(lists.subsetL) && fresh(lists.subsetS)
              && fresh(lists.chosen) && fresh(lists.subsetSrv)
      ensures lists.subsetSrv.Length == table.size
      ensures meanLoad == SumOf(allList[..]) / allList.Length
    {
      var target := ReadTargets(table);
      assert target[..] == inp.owner;
      var sumAll := SumAll(allList);
      meanLoad := sumAll / allList.Length;
      var subsetL, subsetS, load := new int[allList.Length], new int[allList.Length], new int[allList.Length];
      var sizeL, sizeS := SplitServers(inp, sumAll, load, subsetL, subsetS);
      var chosen, subsetSrv := new int[table.size], new int[table.size];
      lists := new Lists(globalList, load, target, subsetL, subsetS, chosen, subsetSrv, sizeL, sizeS);
      assert lists.subsetSrv[..0] == [];
    }

    /** Loads relative to the mean, and the two server lists, the first one sorted. */
    method SplitServers(ghost inp: Input, sumAll: int, load: array<int>, subsetL: array<int>, subsetS: array<int>)
      returns (sizeL: nat, sizeS: nat)
      requires Valid() && inp == Problem() && sumAll == SumOf(allList[..])
      requires load.Length == subsetL.Length == subsetS.Length == allList.Length
      requires allList != load && allList != subsetL && allList != subsetS
      requires load != subsetL && load != subsetS && subsetL != subsetS
      modifies load, subsetL, subsetS
      ensures load[..] == inp.load0
      ensures sizeL <= subsetL.Length && sizeS <= subsetS.Length
      ensures subsetL[..sizeL] == SortDesc(Overloaded(inp.load0, inp.nb), inp.load0)
      ensures subsetS[..sizeS] == Underloaded(inp.load0, inp.nb)
    {
      // every server has the weight factor 1
      var balanced := (sumAll * 1) / (1 * allList.Length);
      sizeL, sizeS := Split(allList, balanced, load, subsetL, subsetS);
      assert load[..] == inp.load0;
      Sort(subsetL, load, sizeL);
    }

    /** The commit loop. */
    method CommitAll(target: array<int>)
      requires Valid() && target.Length == table.size && target !in table.Arrays()
      requires forall e :: 0 <= e < table.size ==> 0 <= target[e] < allList.Length
      modifies table.idSrv, table.nVer, table.state
      ensures Valid()
      ensures table.Assigns() == Commit(old(table.Assigns()), target[..])
    {
      ghost var was := table.Assigns();
      ghost var done := Commit(was, target[..]);
      for e := 0 to table.size
        invariant Valid()
        invariant forall j :: 0 <= j < e ==> table.Assigns()[j] == done[j]
        invariant forall j :: e <= j < table.size ==> table.Assigns()[j] == was[j]
      {
        var rc, srv, ver, s := table.GetEntry(e);
        if srv != target[e] {
          rc := table.UpdateEntry(e, target[e], ver + 1, 0);
          assert table.Assigns()[e] == Assign(target[e], ver + 1);
        }
      }
    }
  }
}
