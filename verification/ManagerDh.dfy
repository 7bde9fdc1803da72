/** The DH manager's rebalancing code over its arrays and its table, proved to compute
    the function of module DhRebalance. */
module ManagerDh {
  import opened Table
  import opened Mlt
  import opened Sequences
  import opened SortSubset
  import opened Greedy
  import opened Rebalance
  import opened TrueLoads
  import opened DhRebalance

  /** The loads of the servers relative to the mean. */
  function Loads(t: seq<Assign>, weights: seq<int>, nb: nat): (r: seq<int>)
    requires |t| == |weights| && nb > 0
    ensures |r| == nb
  {
    seq(nb, s => SumOf(ValuesOf(t, weights, s, |t|)) - SumOf(weights) / nb)
  }

  /** The library's qsort with the decreasing comparator. */
  method QSort(list: array<int>, size: nat)
    requires size <= list.Length
    modifies list
    ensures list[..size] == SortValues(old(list[..size]))
  {
    var sorted := SortValues(list[..size]);
    for i := 0 to size
      invariant forall j :: 0 <= j < i ==> list[j] == sorted[j]
    {
      list[i] := sorted[i];
    }
  }

  /** The scan of `rest` from `p` ends like the whole scan. */
  ghost predicate ScanAt(cands: seq<int>, i: nat, goal: int, p: Scanned, whole: Scanned) {
    i <= |cands| && Scan(cands[i..], goal, p) == whole
  }

  lemma ScanStep(cands: seq<int>, i: nat, goal: int, p: Scanned, whole: Scanned)
    requires ScanAt(cands, i, goal, p, whole) && i < |cands|
    ensures if Stops(cands[i], goal, p) then whole == p else ScanAt(cands, i + 1, goal, Look(cands[i], goal, p), whole)
  {
    assert cands[i..][1..] == cands[i + 1..];
  }

  lemma ScanEnd(cands: seq<int>, i: nat, goal: int, p: Scanned, whole: Scanned)
    requires ScanAt(cands, i, goal, p, whole) && i == |cands|
    ensures whole == p
  {
    assert cands[i..] == [];
  }

  /** manager_balance_load: `list` is sorted in place, the picked values are written to
      `subset`. */
  method BalanceLoad(current: int, list: array<int>, size: nat, goal: int, subset: array<int>) returns (n: nat)
    requires list != subset && size <= list.Length && size <= subset.Length
    modifies list, subset
    ensures list[..size] == SortValues(old(list[..size]))
    ensures n <= size && subset[..n] == Pick(current, old(list[..size]), goal)
  {
    ghost var whole := Greedily(current, list[..size], goal);
    QSort(list, size);
    ghost var cands, p := list[..size], Scanned([], current, None);
    var sum, last, i := current, -1, 0;
    n := 0;
    assert cands[0..] == cands;
    while i < size
      invariant 0 <= i <= size && -1 <= last < i && n <= i && (last >= 0 ==> n < i)
      invariant ScanAt(cands, i, goal, p, whole) && list[..size] == cands
      invariant p == Scanned(subset[..n], sum, if last < 0 then None else Some(cands[last]))
    {
      ScanStep(cands, i, goal, p, whole);
      var x := list[i];
      assert x == cands[i];
      if sum + x <= goal {
        if x == 0 {
          break;
        }
        sum := sum + x;
        Append(subset, n, x);
        n := n + 1;
      } else {
        last := i;
      }
      p := Look(x, goal, p);
      i := i + 1;
    }
    if i == size {
      ScanEnd(cands, i, goal, p, whole);
    }
    if last != -1 {
      var x := list[last];
      assert x == cands[last];
      if Abs(sum + x) < Abs(sum) {
        Append(subset, n, x);
        n := n + 1;
      }
    }
  }

  method FindIndex(value: int, list: array<int>) returns (r: int)
    ensures r == FirstIndex(list[..], value)
  {
    for i := 0 to list.Length
      invariant forall j :: 0 <= j < i ==> list[j] != value
    {
      if list[i] == value {
        assert list[..][i] == value;
        return i;
      }
    }
    return -1;
  }

  // ------------------------------------------------------------ who gives to whom

  /** The arrays hold the deal `d`. */
  ghost predicate Holds(load: array<int>, target: array<int>, subsetL: array<int>, sizeL: nat, d: Deal)
    reads load, target, subsetL
  {
    && load != target && load != subsetL && target != subsetL && sizeL <= subsetL.Length
    && DealOk(load[..], d) && target[..] == d.target && subsetL[..sizeL] == d.left
  }

  /** Takes one value off the list: the last value takes its place. */
  method TakeOff(subsetL: array<int>, sizeL: nat, v: int) returns (n: nat)
    requires sizeL <= subsetL.Length
    modifies subsetL
    ensures n <= sizeL && subsetL[..n] == RemoveValue(old(subsetL[..sizeL]), v)
  {
    ghost var list := subsetL[..sizeL];
    n := sizeL;
    for i := 0 to sizeL
      invariant forall j :: 0 <= j < i ==> list[j] != v
      invariant n == sizeL && subsetL[..sizeL] == list
    {
      assert subsetL[i] == list[i];
      if subsetL[i] == v {
        subsetL[i] := subsetL[sizeL - 1];
        n := sizeL - 1;
        assert FirstIndex(list, v) == i;
        assert subsetL[..n] == RemoveAt(list, i);
        return;
      }
    }
  }

  /** One picked load value. */
  method GiveOne(load: array<int>, target: array<int>, subsetL: array<int>, sizeL: nat, v: int, s: int, ghost d: Deal)
    returns (n: nat)
    requires Holds(load, target, subsetL, sizeL, d) && v in d.left
    modifies target, subsetL
    ensures Holds(load, target, subsetL, n, DealOne(load[..], d, v, s))
  {
    OnOffer(load[..], d, v);
    var index := FindIndex(v, load);
    target[index] := s;
    n := TakeOff(subsetL, sizeL, v);
  }

  method GiveAll(load: array<int>, target: array<int>, subsetL: array<int>, sizeL: nat, subsetC: array<int>, sizeC: nat,
                 s: int, ghost d: Deal) returns (n: nat)
    requires Holds(load, target, subsetL, sizeL, d) && subsetC !in {load, target, subsetL} && sizeC <= subsetC.Length
    requires multiset(subsetC[..sizeC]) <= multiset(d.left)
    modifies target, subsetL
    ensures Holds(load, target, subsetL, n, DealAll(load[..], d, subsetC[..sizeC], s))
  {
    ghost var picked, e, whole := subsetC[..sizeC], d, DealAll(load[..], d, subsetC[..sizeC], s);
    n := sizeL;
    var i := 0;
    assert picked[0..] == picked;
    while i < sizeC
      invariant 0 <= i <= sizeC && Holds(load, target, subsetL, n, e)
      invariant multiset(picked[i..]) <= multiset(e.left) && DealAll(load[..], e, picked[i..], s) == whole
    {
      GiveStep(load[..], e, picked, i, s);
      var v := subsetC[i];
      assert v == picked[i];
      n := GiveOne(load, target, subsetL, n, v, s, e);
      e := DealOne(load[..], e, v, s);
      i := i + 1;
    }
    assert picked[sizeC..] == [];
  }

  lemma GiveStep(load: seq<int>, d: Deal, picked: seq<int>, i: nat, s: int)
    requires DealOk(load, d) && i < |picked| && multiset(picked[i..]) <= multiset(d.left)
    ensures picked[i] in d.left
    ensures
      var d1 := DealOne(load, d, picked[i], s);
      && multiset(picked[i + 1..]) <= multiset(d1.left)
      && DealAll(load, d, picked[i..], s) == DealAll(load, d1, picked[i + 1..], s)
  {
    assert picked[i..] == [picked[i]] + picked[i + 1..];
    assert picked[i] in multiset(picked[i..]);
    assert picked[i] in multiset(d.left);
    assert picked[i..][1..] == picked[i + 1..];
  }

  lemma ServeStep(load: seq<int>, d: Deal, unders: seq<int>, i: nat)
    requires DealOk(load, d) && i < |unders| && AllUnder(load, unders)
    ensures AllUnder(load, unders[i..]) && AllUnder(load, unders[i + 1..])
    ensures ServeAll(load, d, unders[i..]) == ServeAll(load, Serve(load, d, unders[i]), unders[i + 1..])
  {
    assert unders[i..][1..] == unders[i + 1..];
  }

  /** The loop over the underloaded servers. */
  method DealLoop(load: array<int>, target: array<int>, subsetL: array<int>, sizeL: nat, unders: array<int>, sizeS: nat,
                  ghost d: Deal)
    requires Holds(load, target, subsetL, sizeL, d) && sizeS <= unders.Length && unders !in {load, target, subsetL}
    requires AllUnder(load[..], unders[..sizeS])
    modifies target, subsetL
    ensures target[..] == ServeAll(load[..], d, unders[..sizeS]).target
  {
    var subsetC := new int[sizeL];
    ghost var list, e, whole := unders[..sizeS], d, ServeAll(load[..], d, unders[..sizeS]);
    var n: nat := sizeL;
    var i := 0;
    assert list[0..] == list;
    while i < sizeS
      invariant 0 <= i <= sizeS && n <= sizeL && Holds(load, target, subsetL, n, e) && unders[..sizeS] == list
      invariant AllUnder(load[..], list[i..]) && ServeAll(load[..], e, list[i..]) == whole
    {
      ServeStep(load[..], e, list, i);
      var s := unders[i];
      assert s == list[i];
      n := ServeOne(load, target, subsetL, n, subsetC, s, e);
      e := Serve(load[..], e, s);
      i := i + 1;
    }
    assert list[sizeS..] == [];
  }

  method ServeOne(load: array<int>, target: array<int>, subsetL: array<int>, sizeL: nat, subsetC: array<int>, s: int,
                  ghost d: Deal) returns (n: nat)
    requires Holds(load, target, subsetL, sizeL, d) && subsetC !in {load, target, subsetL} && sizeL <= subsetC.Length
    requires 0 <= s < load.Length && load[s] < 0
    modifies target, subsetL, subsetC
    ensures n <= sizeL && Holds(load, target, subsetL, n, Serve(load[..], d, s))
  {
    LookupSucceeds(load[..], d, s);
    var sizeC := BalanceLoad(load[s], subsetL, sizeL, 0, subsetC);
    n := GiveAll(load, target, subsetL, sizeL, subsetC, sizeC, s, Deal(d.target, SortValues(d.left)));
    ServeShrinks(load[..], d, s);
  }

  lemma ServeShrinks(load: seq<int>, d: Deal, s: int)
    requires DealOk(load, d) && 0 <= s < |load| && load[s] < 0
    ensures |Serve(load, d, s).left| <= |d.left|
  {
    LookupSucceeds(load, d, s);
    DealShrinks(load, Deal(d.target, SortValues(d.left)), Pick(load[s], d.left, 0), s);
  }

  lemma DealShrinks(load: seq<int>, d: Deal, vs: seq<int>, s: int)
    requires DealOk(load, d) && multiset(vs) <= multiset(d.left)
    ensures |DealAll(load, d, vs, s).left| <= |d.left|
    decreases |vs|
  {
    if vs != [] {
      GiveStep(load, d, vs, 0, s);
      assert vs[0..] == vs;
      DealShrinks(load, DealOne(load, d, vs[0], s), vs[1..], s);
    }
  }

  /** One more entry in the sums. */
  lemma SumStep(t: seq<Assign>, weights: seq<int>, e: nat)
    requires e < |t| == |weights|
    ensures SumOf(weights[..e + 1]) == SumOf(weights[..e]) + weights[e]
    ensures forall s :: SumOf(ValuesOf(t, weights, s, e + 1))
                        == SumOf(ValuesOf(t, weights, s, e)) + if s == t[e].srv then weights[e] else 0
  {
    assert weights[..e + 1] == weights[..e] + [weights[e]];
    SumOfAppend(weights[..e], weights[e]);
    forall s
      ensures SumOf(ValuesOf(t, weights, s, e + 1))
              == SumOf(ValuesOf(t, weights, s, e)) + if s == t[e].srv then weights[e] else 0
    {
      SumOfAppend(ValuesOf(t, weights, s, e), weights[e]);
    }
  }

  /** The loads are the weights of the servers' entries, above or below the mean. */
  lemma {:induction false} ValuesWeigh(t: seq<Assign>, weights: seq<int>, s: int, n: nat)
    requires n <= |t| == |weights|
    ensures SumOf(ValuesOf(t, weights, s, n)) == LoadOf(Owners(t), weights, s, n)
  {
    if n > 0 {
      ValuesWeigh(t, weights, s, n - 1);
      SumStep(t, weights, n - 1);
    }
  }

  /** An entry that moves leaves a server whose entries weigh more than the mean for one
      whose entries weigh less. */
  lemma HeavierToLighter(t: seq<Assign>, weights: seq<int>, nb: nat)
    requires nb > 0 && |t| == |weights| && LoadsOf(t, weights, Loads(t, weights, nb))
    ensures ReceiversOk(Loads(t, weights, nb), Receivers(Loads(t, weights, nb)))
    ensures
      var load := Loads(t, weights, nb);
      var t' := Rewrite(t, weights, load, Receivers(load), nb);
      forall e :: 0 <= e < |t| && t'[e] != t[e] ==>
        && weights[e] > 0
        && LoadOf(Owners(t), weights, t[e].srv, |t|) > SumOf(weights) / nb
        && LoadOf(Owners(t), weights, t'[e].srv, |t|) < SumOf(weights) / nb
  {
    var load := Loads(t, weights, nb);
    DhRebalanceIsLegal(t, weights, load);
    var t' := Rewrite(t, weights, load, Receivers(load), nb);
    forall e | 0 <= e < |t| && t'[e] != t[e]
      ensures weights[e] > 0
      ensures LoadOf(Owners(t), weights, t[e].srv, |t|) > SumOf(weights) / nb
      ensures LoadOf(Owners(t), weights, t'[e].srv, |t|) < SumOf(weights) / nb
    {
      ValuesWeigh(t, weights, t[e].srv, |t|);
      ValuesWeigh(t, weights, t'[e].srv, |t|);
    }
  }

  // ------------------------------------------------------------------ the manager

  class Manager {
    const table: Mlt
    const globalList: array<int>

    ghost predicate Valid(nb: nat)
      reads this, globalList, table, table.Arrays()
    {
      && table.Valid() && globalList !in table.Arrays() && globalList.Length == table.size
      && NonNegative(globalList[..])
      && forall e :: 0 <= e < table.size ==> table.Assigns()[e].srv < nb
    }

    constructor (size: nat, nb: nat)
      requires size > 0 && nb > 0
      ensures Valid(nb) && table.Assigns() == Initial(size, nb)
    {
      table := new Mlt(size, nb);
      globalList := new int[size](_ => 0);
    }

    /** manager_calculate_relab. */
    method CalculateRelab(nb: nat)
      requires nb > 0 && Valid(nb)
      modifies table.idSrv, table.nVer, table.state
      ensures Valid(nb)
      ensures
        var was := old(table.Assigns());
        var load := Loads(was, globalList[..], nb);
        ReceiversOk(load, Receivers(load))
        && table.Assigns() == Rewrite(was, globalList[..], load, Receivers(load), nb)
        && LegalRebalance(nb, was, table.Assigns())
      ensures
        var was, now, weights := old(table.Assigns()), table.Assigns(), globalList[..];
        forall e :: 0 <= e < table.size && now[e] != was[e] ==>
          && weights[e] > 0
          && LoadOf(Owners(was), weights, was[e].srv, table.size) > SumOf(weights) / nb
          && LoadOf(Owners(was), weights, now[e].srv, table.size) < SumOf(weights) / nb
    {
      ghost var was, weights := table.Assigns(), globalList[..];
      var load := AddLoads(nb);
      assert load[..] == Loads(was, weights, nb);
      DhRebalanceIsLegal(was, weights, load[..]);
      var target := FindReceivers(load);
      MoveAll(load, target);
      HeavierToLighter(was, weights, nb);
    }

    /** The loads of the servers, from the table and the merged access indices. */
    method AddLoads(nb: nat) returns (load: array<int>)
      requires nb > 0 && Valid(nb)
      ensures fresh(load) && load.Length == nb
      ensures forall s :: 0 <= s < nb ==> load[s] == Loads(table.Assigns(), globalList[..], nb)[s]
    {
      ghost var t, weights := table.Assigns(), globalList[..];
      load := new int[nb](_ => 0);
      var sumAll := AddAll(load);
      for s := 0 to nb
        invariant forall j :: 0 <= j < s ==> load[j] == Loads(t, weights, nb)[j]
        invariant forall j :: s <= j < nb ==> load[j] == SumOf(ValuesOf(t, weights, j, |t|))
      {
        // every server has the weight factor 1
        var balanced := (sumAll * 1) / (1 * nb);
        load[s] := load[s] - balanced;
      }
    }

    /** The weight of each server's entries, and of all entries. */
    method AddAll(all: array<int>) returns (sumAll: int)
      requires Valid(all.Length) && all != globalList && all !in table.Arrays()
      requires forall s :: 0 <= s < all.Length ==> all[s] == 0
      modifies all
      ensures sumAll == SumOf(globalList[..])
      ensures forall s :: 0 <= s < all.Length ==>
                all[s] == SumOf(ValuesOf(table.Assigns(), globalList[..], s, table.size))
    {
      ghost var t, weights := table.Assigns(), globalList[..];
      sumAll := 0;
      for e := 0 to table.size
        invariant table.Valid() && table.Assigns() == t && globalList[..] == weights
        invariant sumAll == SumOf(weights[..e])
        invariant forall s :: 0 <= s < all.Length ==> all[s] == SumOf(ValuesOf(t, weights, s, e))
      {
        var rc, srv, ver, st := table.GetEntry(e);
        SumStep(t, weights, e);
        all[srv] := all[srv] + globalList[e];
        sumAll := sumAll + globalList[e];
      }
      assert weights[..table.size] == weights;
    }

    /** The receiver of every server. */
    method FindReceivers(load: array<int>) returns (target: array<int>)
      requires load.Length > 0
      ensures fresh(target) && target.Length == load.Length && target[..] == Receivers(load[..])
    {
      var nb := load.Length;
      ghost var ls := load[..];
      var subsetL, subsetS := new int[nb], new int[nb];
      var sizeL, sizeS := 0, 0;
      for s := 0 to nb
        invariant sizeL <= s && subsetL[..sizeL] == Positives(ls, s)
        invariant sizeS <= s && subsetS[..sizeS] == Underloaded(ls, s)
        invariant load[..] == ls
      {
        assert load[s] == ls[s];
        if load[s] > 0 {
          Append(subsetL, sizeL, load[s]);
          sizeL := sizeL + 1;
        } else if load[s] < 0 {
          Append(subsetS, sizeS, s);
          sizeS := sizeS + 1;
        }
      }
      target := new int[nb](i => i);
      assert target[..] == Self(nb);
      UnderloadedUnder(ls, nb);
      ghost var d := Deal(Self(nb), Positives(ls, nb));
      DealLoop(load, target, subsetL, sizeL, subsetS, sizeS, d);
    }

    /** The loop over the servers that give. */
    method MoveAll(load: array<int>, target: array<int>)
      requires Valid(load.Length) && load !in table.Arrays() && target !in table.Arrays()
      requires ReceiversOk(load[..], target[..])
      modifies table.idSrv, table.nVer, table.state
      ensures table.Valid()
      ensures table.Assigns() == Rewrite(old(table.Assigns()), globalList[..], load[..], target[..], load.Length)
    {
      ghost var was, weights := table.Assigns(), globalList[..];
      for srv := 0 to load.Length
        invariant table.Valid()
        invariant table.Assigns() == Rewrite(was, weights, load[..], target[..], srv)
      {
        assert ReceiverOk(load[..], target[..], srv);
        if load[srv] > 0 && target[srv] != srv {
          MoveOf(srv, load[srv], target[srv]);
        }
      }
    }

    /** The access indices of the entries of one server. */
    method Collect(srv: nat) returns (subsetSrv: array<int>, sizeSrv: nat)
      requires table.Valid() && globalList.Length == table.size
      ensures fresh(subsetSrv) && sizeSrv <= subsetSrv.Length
      ensures subsetSrv[..sizeSrv] == ValuesOf(table.Assigns(), globalList[..], srv, table.size)
    {
      subsetSrv := new int[table.size];
      sizeSrv := 0;
      for e := 0 to table.size
        invariant sizeSrv <= e && subsetSrv[..sizeSrv] == ValuesOf(table.Assigns(), globalList[..], srv, e)
      {
        var rc, s, ver, st := table.GetEntry(e);
        if s == srv {
          Append(subsetSrv, sizeSrv, globalList[e]);
          sizeSrv := sizeSrv + 1;
        }
      }
    }

    /** What one server gives. */
    method MoveOf(srv: nat, goal: int, dest: nat)
      requires table.Valid() && globalList !in table.Arrays() && globalList.Length == table.size && dest != srv
      modifies table.idSrv, table.nVer, table.state
      ensures table.Valid()
      ensures
        var was, weights := old(table.Assigns()), globalList[..];
        table.Assigns() == MoveFrom(was, weights, srv, dest, Pick(0, ValuesOf(was, weights, srv, |was|), goal))
    {
      ghost var was, weights := table.Assigns(), globalList[..];
      var subsetSrv, sizeSrv := Collect(srv);
      var subsetSai := new int[sizeSrv];
      var sizeSai := BalanceLoad(0, subsetSrv, sizeSrv, goal, subsetSai);
      ghost var picked := subsetSai[..sizeSai];
      assert table.Assigns() == MoveFrom(was, weights, srv, dest, picked[..0]);
      for i := 0 to sizeSai
        invariant table.Valid() && subsetSai[..sizeSai] == picked
        invariant table.Assigns() == MoveFrom(was, weights, srv, dest, picked[..i])
      {
        assert subsetSai[i] == picked[i] && picked[..i + 1] == picked[..i] + [picked[i]];
        MoveValue(srv, dest, subsetSai[i], was, picked[..i]);
      }
      assert picked[..sizeSai] == picked;
    }

    /** All entries of the server with one access index. */
    method MoveValue(srv: nat, dest: nat, value: int, ghost was: seq<Assign>, ghost done: seq<int>)
      requires table.Valid() && globalList !in table.Arrays() && globalList.Length == table.size == |was| && dest != srv
      requires table.Assigns() == MoveFrom(was, globalList[..], srv, dest, done)
      modifies table.idSrv, table.nVer, table.state
      ensures table.Valid() && table.Assigns() == MoveFrom(was, globalList[..], srv, dest, done + [value])
    {
      ghost var weights := globalList[..];
      ghost var before, after := table.Assigns(), MoveFrom(was, weights, srv, dest, done + [value]);
      for e := 0 to table.size
        invariant table.Valid()
        invariant forall j :: 0 <= j < e ==> table.Assigns()[j] == after[j]
        invariant forall j :: e <= j < table.size ==> table.Assigns()[j] == before[j]
      {
        if globalList[e] == value {
          var rc, s, ver, st := table.GetEntry(e);
          if s == srv {
            rc := table.UpdateEntry(e, dest, ver + 1, 0);
          }
        }
      }
    }
  }
}
