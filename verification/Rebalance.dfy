/** The windowed rebalancer as a function of its inputs. */
module Rebalance {
  import opened Sequences
  import opened SortSubset
  import opened Greedy
  import opened Table

  /** `owner` is the server of each entry, `weights` the merged access indices,
      `load0` the load of every server relative to the mean. */
  datatype Input = Input(nb: nat, owner: seq<int>, weights: seq<int>, load0: seq<int>)

  predicate Valid(inp: Input) {
    && |inp.load0| == inp.nb && |inp.weights| == |inp.owner| && NonNegative(inp.weights)
    && forall e :: 0 <= e < |inp.owner| ==> 0 <= inp.owner[e] < inp.nb
  }

  /** The working lists: relative loads, the server every entry goes to, the servers
      still over- and underloaded, and the candidate entries, which are never reset.
      `credited` adds up the weight handed over (history). */
  datatype Work = Work(load: seq<int>, target: seq<int>, over: seq<int>, under: seq<int>, cands: seq<int>,
                       credited: int)

  predicate WorkOk(inp: Input, w: Work) {
    && Valid(inp)
    && |w.load| == inp.nb && |w.target| == |inp.owner|
    && Indices(w.over, w.load) && Indices(w.under, w.load) && Indices(w.cands, inp.weights)
  }

  // ------------------------------------------------------------ initial lists

  /** The load levels the servers reported, relative to the mean: every server has
      the same weight factor 1. */
  function RelativeLoads(all: seq<int>): (r: seq<int>)
    ensures |r| == |all|
  {
    if all == [] then [] else
      var mean := SumOf(all) / |all|;
      seq(|all|, s requires 0 <= s < |all| => all[s] - mean)
  }

  /** The servers below `n` whose load is positive, in order. */
  function Overloaded(load: seq<int>, n: nat): (r: seq<int>)
    requires n <= |load|
    ensures |r| <= n && Indices(r, load)
  {
    if n == 0 then []
    else if load[n - 1] > 0 then Overloaded(load, n - 1) + [n - 1]
    else Overloaded(load, n - 1)
  }

  function Underloaded(load: seq<int>, n: nat): (r: seq<int>)
    requires n <= |load|
    ensures |r| <= n && Indices(r, load)
  {
    if n == 0 then []
    else if load[n - 1] < 0 then Underloaded(load, n - 1) + [n - 1]
    else Underloaded(load, n - 1)
  }

  /** The entries below `n` that belong to server s, in order. */
  function Owned(owner: seq<int>, s: int, n: nat): (r: seq<int>)
    requires n <= |owner|
    ensures |r| <= n && Indices(r, owner)
  {
    if n == 0 then []
    else if owner[n - 1] == s then Owned(owner, s, n - 1) + [n - 1]
    else Owned(owner, s, n - 1)
  }

  /** The three lists hold exactly what they should, each number once. */
  lemma {:induction false} ListsExact(load: seq<int>, owner: seq<int>, s: int, n: nat, m: nat)
    requires n <= |load| && m <= |owner|
    ensures NoDup(Overloaded(load, n)) && forall x :: x in Overloaded(load, n) <==> 0 <= x < n && load[x] > 0
    ensures NoDup(Underloaded(load, n)) && forall x :: x in Underloaded(load, n) <==> 0 <= x < n && load[x] < 0
    ensures NoDup(Owned(owner, s, m)) && forall x :: x in Owned(owner, s, m) <==> 0 <= x < m && owner[x] == s
  {
    if n > 0 {
      ListsExact(load, owner, s, n - 1, m);
    } else if m > 0 {
      ListsExact(load, owner, s, n, m - 1);
    }
  }

  function Start(inp: Input): (w: Work)
    requires Valid(inp)
    ensures WorkOk(inp, w)
  {
    var load := inp.load0;
    Work(load, inp.owner, SortDesc(Overloaded(load, inp.nb), load), Underloaded(load, inp.nb), [], 0)
  }

  // -------------------------------------------------------------- the loops

  /** The chosen entries go from server l to server s, one by one. */
  function Credit(inp: Input, w: Work, set_: seq<int>, l: int, s: int): (r: Work)
    requires WorkOk(inp, w) && Indices(set_, inp.weights) && 0 <= l < inp.nb && 0 <= s < inp.nb
    ensures WorkOk(inp, r) && r.over == w.over && r.under == w.under && r.cands == w.cands
    decreases |set_|
  {
    if set_ == [] then w else Credit(inp, CreditOne(inp, w, set_[0], l, s), set_[1..], l, s)
  }

  function CreditOne(inp: Input, w: Work, e: int, l: int, s: int): (r: Work)
    requires WorkOk(inp, w) && 0 <= e < |inp.weights| && 0 <= l < inp.nb && 0 <= s < inp.nb
    ensures WorkOk(inp, r) && r.over == w.over && r.under == w.under && r.cands == w.cands
  {
    var g := inp.weights[e];
    var load1 := w.load[s := w.load[s] + g];
    w.(target := w.target[e := s], load := load1[l := load1[l] - g], credited := w.credited + g)
  }

  /** Swap with the last element, then shorten. */
  function RemoveAt(list: seq<int>, i: nat): (r: seq<int>)
    requires i < |list|
    ensures |r| == |list| - 1
    ensures forall j :: 0 <= j < |r| && j != i ==> r[j] == list[j]
    ensures i < |r| ==> r[i] == list[|list| - 1]
  {
    list[i := list[|list| - 1]][..|list| - 1]
  }

  function Goal(w: Work, l: int, s: int): int
    requires 0 <= l < |w.load| && 0 <= s < |w.load|
  {
    if Abs(w.load[s]) < w.load[l] then Abs(w.load[s]) else w.load[l]
  }

  /** One overloaded server fills the underloaded server at position `pos`. */
  function Give(inp: Input, w: Work, l: int, pos: nat): (r: Work)
    requires WorkOk(inp, w) && 0 <= l < inp.nb && pos < |w.under|
    ensures WorkOk(inp, r) && r.over == w.over && |w.under| - 1 <= |r.under| <= |w.under|
  {
    var s := w.under[pos];
    var set_ := Choice(w.cands, inp.weights, Goal(w, l, s));
    var w1 := Credit(inp, w.(cands := SortDesc(w.cands, inp.weights)), set_, l, s);
    if w1.load[s] >= 0 then w1.(under := RemoveAt(w1.under, pos)) else w1
  }

  function Drain(inp: Input, w: Work, il: nat, pos: nat): (r: Work)
    requires WorkOk(inp, w) && il < |w.over|
    ensures WorkOk(inp, r) && |r.over| <= |w.over|
    decreases |w.under| - pos
  {
    if pos >= |w.under| then w
    else
      var w1 := Give(inp, w, w.over[il], pos);
      if w1.load[w1.over[il]] <= 0 then w1.(over := RemoveAt(w1.over, il))
      else Drain(inp, w1, il, pos + 1)
  }

  /** What happens before an overloaded server is drained. */
  function Prepare(inp: Input, w: Work, il: nat): (r: Work)
    requires WorkOk(inp, w) && il < |w.over|
    ensures WorkOk(inp, r) && r.over == w.over
  {
    w.(cands := w.cands + Owned(inp.owner, w.over[il], |inp.owner|), under := SortDesc(w.under, w.load))
  }

  function Round(inp: Input, w: Work, il: nat): (r: Work)
    requires WorkOk(inp, w) && il < |w.over|
    ensures WorkOk(inp, r) && |r.over| <= |w.over|
  {
    Drain(inp, Prepare(inp, w, il), il, 0)
  }

  function Loop(inp: Input, w: Work, il: nat): (r: Work)
    requires WorkOk(inp, w)
    ensures WorkOk(inp, r)
    decreases |w.over| - il
  {
    if il >= |w.over| then w else Loop(inp, Round(inp, w, il), il + 1)
  }

  function Result(inp: Input): (w: Work)
    requires Valid(inp)
    ensures WorkOk(inp, w)
  {
    Loop(inp, Start(inp), 0)
  }

  /** The table after the commit loop. */
  function Commit(table: seq<Assign>, target: seq<int>): (r: seq<Assign>)
    requires |target| == |table|
    requires forall e :: 0 <= e < |target| ==> 0 <= target[e]
    ensures |r| == |table|
  {
    seq(|table|, e requires 0 <= e < |table| =>
      if table[e].srv != target[e] then Assign(target[e], table[e].ver + 1) else table[e])
  }

  // ------------------------------------------------------------------ the invariant

  predicate SignsKept(inp: Input, load: seq<int>)
    requires Valid(inp) && |load| == inp.nb
  {
    forall s :: 0 <= s < inp.nb ==>
      if inp.load0[s] > 0 then 0 <= load[s] <= inp.load0[s] else inp.load0[s] <= load[s] <= 0
  }

  /** An entry keeps its server, or leaves an overloaded one for an underloaded one
      and has some weight. */
  predicate TargetOk(inp: Input, target: seq<int>, e: int)
    requires Valid(inp) && |target| == |inp.owner| && 0 <= e < |target|
  {
    || target[e] == inp.owner[e]
    || (0 <= target[e] < inp.nb && inp.load0[target[e]] < 0 && inp.load0[inp.owner[e]] > 0 && inp.weights[e] > 0)
  }

  /** The part of the invariant one credit can touch. */
  predicate LoadsOk(inp: Input, w: Work)
    requires WorkOk(inp, w)
  {
    && SignsKept(inp, w.load)
    && (forall e :: 0 <= e < |w.target| ==> TargetOk(inp, w.target, e))
    && SumOf(w.load) == SumOf(inp.load0)
    && AbsTotal(w.load) + 2 * w.credited == AbsTotal(inp.load0)
  }

  function AbsTotal(xs: seq<int>): int {
    if xs == [] then 0 else AbsTotal(xs[..|xs| - 1]) + Abs(xs[|xs| - 1])
  }

  /** The lists: who is still underloaded, which overloaded servers are untouched,
      and that the candidates belong to the others. */
  predicate ListsOk(inp: Input, w: Work, il: nat)
    requires WorkOk(inp, w)
  {
    && NoDup(w.over) && NoDup(w.under) && NoDup(w.cands)
    && (forall j :: 0 <= j < |w.over| ==> inp.load0[w.over[j]] > 0)
    && (forall j :: il <= j < |w.over| ==> w.load[w.over[j]] == inp.load0[w.over[j]])
    && (forall j :: 0 <= j < |w.under| ==> w.load[w.under[j]] < 0 && inp.load0[w.under[j]] < 0)
    && (forall j :: 0 <= j < |w.cands| ==> inp.load0[inp.owner[w.cands[j]]] > 0)
    && (forall j, x :: 0 <= j < |w.cands| && il <= x < |w.over| ==> inp.owner[w.cands[j]] != w.over[x])
  }

  // ------------------------------------------------------------ lemmas on totals

  lemma TotalUpdate(xs: seq<int>, i: nat, v: int)
    requires i < |xs|
    ensures SumOf(xs[i := v]) == SumOf(xs) - xs[i] + v
    ensures AbsTotal(xs[i := v]) == AbsTotal(xs) - Abs(xs[i]) + Abs(v)
  {
    SumOfUpdate(xs, i, v);
    var n := |xs| - 1;
    if i < n {
      assert xs[i := v][..n] == xs[..n][i := v];
      TotalUpdate(xs[..n], i, v);
    } else {
      assert xs[i := v][..n] == xs[..n];
    }
  }

  /** One credit within the goal keeps signs and totals and moves one entry. */
  lemma CreditOneKeeps(inp: Input, w: Work, e: int, l: int, s: int)
    requires WorkOk(inp, w) && LoadsOk(inp, w)
    requires 0 <= e < |inp.weights| && 0 <= l < inp.nb && 0 <= s < inp.nb
    requires inp.load0[l] > 0 && inp.load0[s] < 0 && inp.load0[inp.owner[e]] > 0
    requires 0 < inp.weights[e] <= w.load[l] && inp.weights[e] <= -w.load[s]
    ensures LoadsOk(inp, CreditOne(inp, w, e, l, s))
  {
    var g := inp.weights[e];
    var load1 := w.load[s := w.load[s] + g];
    TotalUpdate(w.load, s, w.load[s] + g);
    TotalUpdate(load1, l, load1[l] - g);
    var w' := CreditOne(inp, w, e, l, s);
    forall x | 0 <= x < |w'.target|
      ensures TargetOk(inp, w'.target, x)
    {
      assert TargetOk(inp, w.target, x);
    }
  }

  lemma {:induction false} CreditKeeps(inp: Input, w: Work, set_: seq<int>, l: int, s: int)
    requires WorkOk(inp, w) && LoadsOk(inp, w) && Indices(set_, inp.weights)
    requires 0 <= l < inp.nb && 0 <= s < inp.nb && inp.load0[l] > 0 && inp.load0[s] < 0
    requires forall x :: x in set_ ==> inp.weights[x] > 0 && inp.load0[inp.owner[x]] > 0
    requires Sum(set_, inp.weights) <= w.load[l] && Sum(set_, inp.weights) <= -w.load[s]
    ensures LoadsOk(inp, Credit(inp, w, set_, l, s))
    ensures Credit(inp, w, set_, l, s).load[s] == w.load[s] + Sum(set_, inp.weights)
    ensures Credit(inp, w, set_, l, s).load[l] == w.load[l] - Sum(set_, inp.weights)
    ensures forall x :: 0 <= x < inp.nb && x != l && x != s ==> Credit(inp, w, set_, l, s).load[x] == w.load[x]
    decreases |set_|
  {
    if set_ != [] {
      CreditOneKeeps(inp, w, set_[0], l, s);
      CreditKeeps(inp, CreditOne(inp, w, set_[0], l, s), set_[1..], l, s);
    }
  }

  // -------------------------------------------------------------- lemmas on lists

  lemma {:induction false} NoDupCard(list: seq<int>)
    requires NoDup(list)
    ensures |set x | x in list| == |list|
  {
    if list != [] {
      NoDupCard(list[1..]);
      assert list == [list[0]] + list[1..];
      assert list[0] !in list[1..];
      assert (set x | x in list) == {list[0]} + (set x | x in list[1..]);
    }
  }

  lemma SmallNumbers(s: set<int>, n: nat)
    requires forall x :: x in s ==> 0 <= x < n
    ensures |s| <= n
  {
    if n > 0 {
      SmallNumbers(s - {n - 1}, n - 1);
      assert s <= (s - {n - 1}) + {n - 1};
    } else {
      assert forall x :: x !in s;
    }
  }

  /** A list of different numbers below n has at most n elements. */
  lemma NoDupLength(list: seq<int>, n: nat)
    requires NoDup(list) && forall j :: 0 <= j < |list| ==> 0 <= list[j] < n
    ensures |list| <= n
  {
    NoDupCard(list);
    SmallNumbers((set x | x in list), n);
  }

  lemma RemoveAtOk(list: seq<int>, i: nat)
    requires i < |list|
    ensures NoDup(list) ==> NoDup(RemoveAt(list, i)) && list[i] !in RemoveAt(list, i)
    ensures forall j :: 0 <= j < |list| - 1 ==> RemoveAt(list, i)[j] in list
  {}

  lemma InsertNoDup(x: int, list: seq<int>, keys: seq<int>)
    requires 0 <= x < |keys| && Indices(list, keys)
    ensures forall y :: y in Insert(x, list, keys) <==> y == x || y in list
    ensures NoDup(list) && x !in list ==> NoDup(Insert(x, list, keys))
  {
    if list == [] || Abs(keys[list[0]]) <= Abs(keys[x]) {
    } else {
      InsertNoDup(x, list[1..], keys);
      assert list == [list[0]] + list[1..];
      var r := Insert(x, list[1..], keys);
      if NoDup(list) && x !in list {
        assert list[0] !in list[1..];
        assert list[0] !in r;
      }
    }
  }

  lemma SortSame(list: seq<int>, keys: seq<int>)
    requires Indices(list, keys)
    ensures forall y :: y in SortDesc(list, keys) <==> y in list
    ensures NoDup(list) ==> NoDup(SortDesc(list, keys))
  {
    if list != [] {
      SortSame(list[1..], keys);
      assert list == [list[0]] + list[1..];
      InsertNoDup(list[0], SortDesc(list[1..], keys), keys);
    }
  }

  lemma AppendNoDup(a: seq<int>, b: seq<int>)
    requires NoDup(a) && NoDup(b) && forall x :: x in b ==> x !in a
    ensures NoDup(a + b)
  {
    forall i, j | 0 <= i < j < |a + b|
      ensures (a + b)[i] != (a + b)[j]
    {
      if i < |a| <= j {
        assert b[j - |a|] in b;
      }
    }
  }

  // ------------------------------------------------------------- the loops keep it

  predicate Draining(inp: Input, w: Work, il: nat)
    requires WorkOk(inp, w)
  {
    il < |w.over| && w.load[w.over[il]] > 0
  }

  lemma ChoiceOk(inp: Input, w: Work, goal: int)
    requires WorkOk(inp, w) && goal >= 0
    requires forall j :: 0 <= j < |w.cands| ==> inp.load0[inp.owner[w.cands[j]]] > 0
    ensures
      var set_ := Choice(w.cands, inp.weights, goal);
      && Sum(set_, inp.weights) <= goal && |set_| <= |w.cands|
      && forall x :: x in set_ ==> x in w.cands && inp.weights[x] > 0 && inp.load0[inp.owner[x]] > 0
  {
    SortSame(w.cands, inp.weights);
    ChosenFits(SortDesc(w.cands, inp.weights), inp.weights, goal);
  }

  /** The lists stay sound when only the loads of l and s change. */
  lemma ListsAfterGive(inp: Input, w: Work, w1: Work, il: nat, pos: nat)
    requires WorkOk(inp, w) && ListsOk(inp, w, il + 1) && il < |w.over| && pos < |w.under|
    requires WorkOk(inp, w1) && w1.over == w.over && w1.under == w.under
    requires NoDup(w1.cands) && forall y :: y in w1.cands <==> y in w.cands
    requires forall x :: 0 <= x < inp.nb && x != w.over[il] && x != w.under[pos] ==> w1.load[x] == w.load[x]
    ensures
      var w2 := if w1.load[w.under[pos]] >= 0 then w1.(under := RemoveAt(w1.under, pos)) else w1;
      WorkOk(inp, w2) && ListsOk(inp, w2, il + 1)
  {
    RemoveAtOk(w.under, pos);
    var w2 := if w1.load[w.under[pos]] >= 0 then w1.(under := RemoveAt(w1.under, pos)) else w1;
    forall j | 0 <= j < |w2.under|
      ensures w2.load[w2.under[j]] < 0 && inp.load0[w2.under[j]] < 0
    {
      assert w2.under[j] in w.under;
    }
    forall j | 0 <= j < |w2.cands|
      ensures w2.cands[j] in w.cands
    {
      assert w2.cands[j] in w1.cands;
    }
  }

  lemma GiveKeeps(inp: Input, w: Work, il: nat, pos: nat)
    requires WorkOk(inp, w) && LoadsOk(inp, w) && ListsOk(inp, w, il + 1) && Draining(inp, w, il) && pos < |w.under|
    ensures LoadsOk(inp, Give(inp, w, w.over[il], pos))
    ensures ListsOk(inp, Give(inp, w, w.over[il], pos), il + 1)
  {
    var l, s := w.over[il], w.under[pos];
    var goal := Goal(w, l, s);
    var set_ := Choice(w.cands, inp.weights, goal);
    ChoiceOk(inp, w, goal);
    SortSame(w.cands, inp.weights);
    var w0 := w.(cands := SortDesc(w.cands, inp.weights));
    CreditKeeps(inp, w0, set_, l, s);
    ListsAfterGive(inp, w, Credit(inp, w0, set_, l, s), il, pos);
  }

  lemma {:induction false} DrainKeeps(inp: Input, w: Work, il: nat, pos: nat)
    requires WorkOk(inp, w) && LoadsOk(inp, w) && ListsOk(inp, w, il + 1) && Draining(inp, w, il)
    ensures LoadsOk(inp, Drain(inp, w, il, pos)) && ListsOk(inp, Drain(inp, w, il, pos), il + 1)
    decreases |w.under| - pos
  {
    if pos < |w.under| {
      GiveKeeps(inp, w, il, pos);
      var w1 := Give(inp, w, w.over[il], pos);
      if w1.load[w1.over[il]] <= 0 {
        RemoveAtOk(w1.over, il);
        var w2 := w1.(over := RemoveAt(w1.over, il));
        assert forall j :: 0 <= j < |w2.over| ==> w2.over[j] in w1.over;
      } else {
        DrainKeeps(inp, w1, il, pos + 1);
      }
    }
  }

  lemma PrepareKeeps(inp: Input, w: Work, il: nat)
    requires WorkOk(inp, w) && LoadsOk(inp, w) && ListsOk(inp, w, il) && il < |w.over|
    ensures LoadsOk(inp, Prepare(inp, w, il)) && ListsOk(inp, Prepare(inp, w, il), il + 1)
    ensures Draining(inp, Prepare(inp, w, il), il)
  {
    var w1 := Prepare(inp, w, il);
    var mine := Owned(inp.owner, w.over[il], |inp.owner|);
    SortSame(w.under, w.load);
    ListsExact(w.load, inp.owner, w.over[il], inp.nb, |inp.owner|);
    assert forall j :: 0 <= j < |mine| ==> mine[j] in mine;
    AppendNoDup(w.cands, mine);
    forall j | 0 <= j < |w1.under|
      ensures w1.load[w1.under[j]] < 0 && inp.load0[w1.under[j]] < 0
    {
      assert w1.under[j] in w.under;
    }
  }

  lemma RoundKeeps(inp: Input, w: Work, il: nat)
    requires WorkOk(inp, w) && LoadsOk(inp, w) && ListsOk(inp, w, il) && il < |w.over|
    ensures LoadsOk(inp, Round(inp, w, il)) && ListsOk(inp, Round(inp, w, il), il + 1)
  {
    PrepareKeeps(inp, w, il);
    DrainKeeps(inp, Prepare(inp, w, il), il, 0);
  }

  predicate Kept(inp: Input, w: Work, il: nat) {
    WorkOk(inp, w) && LoadsOk(inp, w) && ListsOk(inp, w, il)
  }

  lemma RoundKept(inp: Input, w: Work, il: nat)
    requires WorkOk(inp, w) && il < |w.over|
    ensures Kept(inp, w, il) ==> Kept(inp, Round(inp, w, il), il + 1)
  {
    if Kept(inp, w, il) {
      RoundKeeps(inp, w, il);
    }
  }

  lemma {:induction false} LoopKept(inp: Input, w: Work, il: nat)
    requires WorkOk(inp, w)
    ensures Kept(inp, w, il) ==> LoadsOk(inp, Loop(inp, w, il))
    decreases |w.over| - il
  {
    if il < |w.over| {
      RoundKept(inp, w, il);
      LoopKept(inp, Round(inp, w, il), il + 1);
    }
  }

  lemma StartOk(inp: Input)
    requires Valid(inp)
    ensures LoadsOk(inp, Start(inp)) && ListsOk(inp, Start(inp), 0)
  {
    var load := inp.load0;
    ListsExact(load, inp.owner, 0, inp.nb, 0);
    SortSame(Overloaded(load, inp.nb), load);
    var w := Start(inp);
    assert forall j :: 0 <= j < |w.under| ==> w.under[j] in Underloaded(load, inp.nb);
    forall j | 0 <= j < |w.over|
      ensures inp.load0[w.over[j]] > 0
    {
      assert w.over[j] in Overloaded(load, inp.nb);
    }
  }

  // ------------------------------------------------------------------ main results

  /** Over the whole rebalance the loads keep their sum and never change sign, the
      sum of their magnitudes drops by exactly twice the weight credited, and every
      entry that moves goes from an overloaded server to an underloaded one and has
      some weight. */
  lemma RebalanceIsSound(inp: Input)
    requires Valid(inp)
    ensures
      var w := Result(inp);
      && SumOf(w.load) == SumOf(inp.load0)
      && AbsTotal(w.load) == AbsTotal(inp.load0) - 2 * w.credited
      && (forall s :: 0 <= s < inp.nb && inp.load0[s] > 0 ==> 0 <= w.load[s] <= inp.load0[s])
      && (forall s :: 0 <= s < inp.nb && inp.load0[s] <= 0 ==> inp.load0[s] <= w.load[s] <= 0)
      && (forall e :: 0 <= e < |inp.owner| && w.target[e] != inp.owner[e] ==>
            0 <= w.target[e] < inp.nb && inp.load0[inp.owner[e]] > 0 && inp.load0[w.target[e]] < 0
            && inp.weights[e] > 0)
  {
    StartOk(inp);
    LoopKept(inp, Start(inp), 0);
    var w := Result(inp);
    forall e | 0 <= e < |inp.owner| && w.target[e] != inp.owner[e]
      ensures 0 <= w.target[e] < inp.nb && inp.load0[inp.owner[e]] > 0 && inp.load0[w.target[e]] < 0
              && inp.weights[e] > 0
    {
      assert TargetOk(inp, w.target, e);
    }
  }

  /** In terms of the reported loads: an entry goes only from a server above the mean to
      one below it. */
  lemma MovesTowardsMean(inp: Input, all: seq<int>, e: int)
    requires Valid(inp) && all != [] && inp.load0 == RelativeLoads(all) && 0 <= e < |inp.owner|
    requires Result(inp).target[e] != inp.owner[e]
    ensures 0 <= Result(inp).target[e] < |all|
    ensures all[inp.owner[e]] > SumOf(all) / |all| > all[Result(inp).target[e]]
  {
    RebalanceIsSound(inp);
  }

  /** The new table is a legal rebalance: the version of an entry rises by one
      exactly when its server changes, and nothing else changes. */
  lemma CommitIsLegal(inp: Input, table: seq<Assign>)
    requires Valid(inp) && |table| == |inp.owner|
    requires forall e :: 0 <= e < |table| ==> table[e].srv == inp.owner[e]
    ensures forall e :: 0 <= e < |table| ==> 0 <= Result(inp).target[e] < inp.nb
    ensures LegalRebalance(inp.nb, table, Commit(table, Result(inp).target))
    ensures forall e :: 0 <= e < |table| ==>
              && (Commit(table, Result(inp).target)[e].srv == Result(inp).target[e])
              && (Commit(table, Result(inp).target)[e].ver == table[e].ver + 1
                  <==> Result(inp).target[e] != table[e].srv)
  {
    RebalanceIsSound(inp);
    forall e | 0 <= e < |table|
      ensures 0 <= Result(inp).target[e] < inp.nb
    {
      assert Result(inp).target[e] == inp.owner[e] || 0 <= Result(inp).target[e] < inp.nb;
    }
  }

  lemma AllTowardsMean(inp: Input, all: seq<int>, table: seq<Assign>)
    requires Valid(inp) && all != [] && inp.load0 == RelativeLoads(all) && |table| == |inp.owner|
    requires forall e :: 0 <= e < |table| ==> table[e].srv == inp.owner[e]
    ensures forall e :: 0 <= e < |table| ==> 0 <= Result(inp).target[e] < inp.nb
    ensures
      var now := Commit(table, Result(inp).target);
      forall e :: 0 <= e < |table| && now[e].srv != table[e].srv ==>
        now[e].srv < |all| && all[table[e].srv] > SumOf(all) / |all| > all[now[e].srv]
  {
    CommitIsLegal(inp, table);
    forall e | 0 <= e < |table| && Result(inp).target[e] != inp.owner[e]
      ensures 0 <= Result(inp).target[e] < |all|
      ensures all[inp.owner[e]] > SumOf(all) / |all| > all[Result(inp).target[e]]
    {
      MovesTowardsMean(inp, all, e);
    }
  }
}
