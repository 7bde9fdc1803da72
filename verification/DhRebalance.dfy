/** The value-based rebalancer of the DH manager as a function of its inputs: loads
    and access indices are looked up by value, and a receiver may be overshot. */
module DhRebalance {
  import opened Sequences
  import opened SortSubset
  import opened Greedy
  import opened Table
  import opened Rebalance

  // ------------------------------------------------------------ qsort and the choice

  predicate Falling(list: seq<int>) {
    forall i, j :: 0 <= i < j < |list| ==> list[j] <= list[i]
  }

  function InsertValue(x: int, list: seq<int>): (r: seq<int>)
    ensures |r| == |list| + 1
  {
    if list == [] || list[0] <= x then [x] + list else [list[0]] + InsertValue(x, list[1..])
  }

  /** The values in decreasing order. */
  function SortValues(list: seq<int>): (r: seq<int>)
    ensures |r| == |list|
  {
    if list == [] then [] else InsertValue(list[0], SortValues(list[1..]))
  }

  lemma {:induction false} InsertValueBag(x: int, list: seq<int>)
    ensures multiset(InsertValue(x, list)) == multiset(list) + multiset{x}
  {
    if list != [] && list[0] > x {
      InsertValueBag(x, list[1..]);
      assert list == [list[0]] + list[1..];
    }
  }

  lemma {:induction false} InsertValueSorts(x: int, list: seq<int>, bound: int)
    requires Falling(list) && x <= bound && (list == [] || list[0] <= bound)
    ensures Falling(InsertValue(x, list))
    ensures InsertValue(x, list) != [] && InsertValue(x, list)[0] <= bound
  {
    if list != [] && list[0] > x {
      var rest := InsertValue(x, list[1..]);
      InsertValueSorts(x, list[1..], list[0]);
      forall j | 0 <= j < |rest|
        ensures rest[j] <= list[0]
      {
        assert rest[j] <= rest[0];
      }
    }
  }

  lemma {:induction false} SortValuesSorts(list: seq<int>)
    ensures multiset(SortValues(list)) == multiset(list) && Falling(SortValues(list))
  {
    if list != [] {
      SortValuesSorts(list[1..]);
      var rest := SortValues(list[1..]);
      InsertValueBag(list[0], rest);
      InsertValueSorts(list[0], rest, if rest == [] || rest[0] <= list[0] then list[0] else rest[0]);
      assert list == [list[0]] + list[1..];
    }
  }

  datatype Last = None | Some(value: int)

  /** The values taken by the forward pass, their sum with the start, and the value
      that was rejected last. */
  datatype Scanned = Scanned(taken: seq<int>, sum: int, last: Last)

  /** One turn of the pass, for a value that does not stop it. */
  function Look(x: int, goal: int, p: Scanned): Scanned {
    if p.sum + x > goal then p.(last := Some(x)) else Scanned(p.taken + [x], p.sum + x, p.last)
  }

  predicate Stops(x: int, goal: int, p: Scanned) {
    p.sum + x <= goal && x == 0
  }

  function Scan(list: seq<int>, goal: int, p: Scanned): Scanned
    decreases |list|
  {
    if list == [] || Stops(list[0], goal, p) then p else Scan(list[1..], goal, Look(list[0], goal, p))
  }

  /** The last rejected value is added when it brings the sum nearer to zero. */
  function Overshoot(p: Scanned): seq<int> {
    if p.last.Some? && Abs(p.sum + p.last.value) < Abs(p.sum) then p.taken + [p.last.value] else p.taken
  }

  /** The greedy part of manager_balance_load. */
  function Greedily(current: int, list: seq<int>, goal: int): Scanned {
    Scan(SortValues(list), goal, Scanned([], current, None))
  }

  /** The values manager_balance_load picks. */
  function Pick(current: int, list: seq<int>, goal: int): (r: seq<int>) {
    Overshoot(Greedily(current, list, goal))
  }

  // -------------------------------------------------------- properties of the choice

  /** What the pass has done when `rest` is still to be scanned: `all` are the values
      on offer and `out` the ones rejected so far. */
  ghost predicate ScanInv(all: multiset<int>, out: multiset<int>, current: int, goal: int, rest: seq<int>, p: Scanned) {
    && Falling(rest) && all == multiset(p.taken) + out + multiset(rest)
    && current <= p.sum <= goal
    && (forall i :: 0 <= i < |rest| ==> rest[i] >= 0) && (forall i :: 0 <= i < |p.taken| ==> p.taken[i] > 0)
    && LastIsLeast(out, goal, p)
    && (p.last.Some? ==> forall i :: 0 <= i < |rest| ==> rest[i] <= p.last.value)
  }

  /** The value rejected last is the least of the rejected ones, and none of them fits. */
  ghost predicate LastIsLeast(out: multiset<int>, goal: int, p: Scanned) {
    && (p.last.Some? ==> p.last.value in out)
    && forall x :: x in out ==> p.last.Some? && p.last.value <= x && p.sum + x > goal
  }

  lemma ScanReject(all: multiset<int>, out: multiset<int>, current: int, goal: int, rest: seq<int>, p: Scanned)
    requires ScanInv(all, out, current, goal, rest, p) && rest != [] && p.sum + rest[0] > goal
    ensures ScanInv(all, out + multiset{rest[0]}, current, goal, rest[1..], Look(rest[0], goal, p))
  {
    assert rest == [rest[0]] + rest[1..];
  }

  lemma ScanTake(all: multiset<int>, out: multiset<int>, current: int, goal: int, rest: seq<int>, p: Scanned)
    requires ScanInv(all, out, current, goal, rest, p) && rest != [] && p.sum + rest[0] <= goal && rest[0] != 0
    ensures ScanInv(all, out, current, goal, rest[1..], Look(rest[0], goal, p))
  {
    assert rest == [rest[0]] + rest[1..];
  }

  /** The finished pass: apart from `zeros` zeros, what it left out is `out`. */
  ghost predicate ScanDone(all: multiset<int>, out: multiset<int>, current: int, goal: int, p: Scanned) {
    && multiset(p.taken) + out <= all && (forall x :: x in all - multiset(p.taken) - out ==> x == 0)
    && current <= p.sum <= goal
    && (forall i :: 0 <= i < |p.taken| ==> p.taken[i] > 0)
    && LastIsLeast(out, goal, p)
  }

  lemma ScanStops(all: multiset<int>, out: multiset<int>, current: int, goal: int, rest: seq<int>, p: Scanned)
    requires ScanInv(all, out, current, goal, rest, p) && (rest == [] || rest[0] == 0)
    ensures ScanDone(all, out, current, goal, p)
  {
    forall x | x in all - multiset(p.taken) - out
      ensures x == 0
    {
      assert x in multiset(rest);
      assert x in rest;
    }
  }

  lemma {:induction false} ScanIsGreedy(
    all: multiset<int>, out: multiset<int>, current: int, goal: int, rest: seq<int>, p: Scanned)
    returns (left: multiset<int>)
    requires ScanInv(all, out, current, goal, rest, p)
    ensures ScanDone(all, left, current, goal, Scan(rest, goal, p))
    decreases |rest|
  {
    if rest == [] || Stops(rest[0], goal, p) {
      ScanStops(all, out, current, goal, rest, p);
      left := out;
    } else if p.sum + rest[0] > goal {
      ScanReject(all, out, current, goal, rest, p);
      left := ScanIsGreedy(all, out + multiset{rest[0]}, current, goal, rest[1..], Look(rest[0], goal, p));
    } else {
      ScanTake(all, out, current, goal, rest, p);
      left := ScanIsGreedy(all, out, current, goal, rest[1..], Look(rest[0], goal, p));
    }
  }

  /** The sum is that of the taken values. */
  lemma {:induction false} ScanSum(rest: seq<int>, goal: int, p: Scanned)
    ensures Scan(rest, goal, p).sum - SumOf(Scan(rest, goal, p).taken) == p.sum - SumOf(p.taken)
    decreases |rest|
  {
    if rest != [] && !Stops(rest[0], goal, p) {
      SumOfAppend(p.taken, rest[0]);
      ScanSum(rest[1..], goal, Look(rest[0], goal, p));
    }
  }

  lemma GreedilyDone(current: int, list: seq<int>, goal: int) returns (left: multiset<int>)
    requires current <= goal && forall x :: x in list ==> x >= 0
    ensures ScanDone(multiset(list), left, current, goal, Greedily(current, list, goal))
    ensures Greedily(current, list, goal).sum == current + SumOf(Greedily(current, list, goal).taken)
  {
    var p := Scanned([], current, None);
    var sorted := SortValues(list);
    SortValuesSorts(list);
    forall i | 0 <= i < |sorted|
      ensures sorted[i] >= 0
    {
      assert sorted[i] in multiset(sorted);
      assert sorted[i] in list;
    }
    ScanSum(sorted, goal, p);
    left := ScanIsGreedy(multiset(list), multiset{}, current, goal, sorted, p);
  }

  /** Filling a server that lacks `-current` from positive loads: the picked loads are
      some of those on offer and never leave the server further from the mean than it
      was. The greedy part stays below the mean and cannot be extended, and no single
      left out load would have come nearer to the mean than the result does. */
  lemma FillIsBest(current: int, list: seq<int>, g: Scanned, r: seq<int>)
    requires current < 0 && forall x :: x in list ==> x > 0
    requires g == Greedily(current, list, 0) && r == Pick(current, list, 0)
    ensures r == g.taken || (g.last.Some? && r == g.taken + [g.last.value])
    ensures multiset(r) <= multiset(list)
    ensures current <= g.sum <= 0 && Abs(current + SumOf(r)) <= Abs(g.sum)
    ensures forall x :: x in multiset(list) - multiset(g.taken) ==>
              g.sum + x > 0 && Abs(current + SumOf(r)) <= Abs(g.sum + x)
  {
    var all := multiset(list);
    var left := GreedilyDone(current, list, 0);
    assert 0 !in list;
    NothingLost(all, left, g.taken);
    assert r == Overshoot(g);
    OvershootIsBest(all, left, current, g, r);
  }

  lemma OvershootBag(all: multiset<int>, left: multiset<int>, taken: seq<int>, x: int)
    requires multiset(taken) + left <= all && x in left
    ensures multiset(taken + [x]) <= all
  {
    assert multiset(taken + [x]) == multiset(taken) + multiset{x};
    assert multiset{x} <= left;
  }

  lemma OvershootIsBest(all: multiset<int>, left: multiset<int>, current: int, g: Scanned, r: seq<int>)
    requires ScanDone(all, left, current, 0, g) && g.sum == current + SumOf(g.taken) && r == Overshoot(g)
    ensures multiset(r) <= all
    ensures current <= g.sum <= 0 && Abs(current + SumOf(r)) <= Abs(g.sum)
    ensures forall x :: x in left ==> g.sum + x > 0 && Abs(current + SumOf(r)) <= Abs(g.sum + x)
  {
    if r != g.taken {
      SumOfAppend(g.taken, g.last.value);
      OvershootBag(all, left, g.taken, g.last.value);
    }
  }

  /** Without zeros on offer, everything that was not taken was rejected. */
  lemma NothingLost(all: multiset<int>, left: multiset<int>, taken: seq<int>)
    requires multiset(taken) + left <= all && forall x :: x in all - multiset(taken) - left ==> x == 0
    requires 0 !in all
    ensures all - multiset(taken) == left
  {
    forall x
      ensures (all - multiset(taken))[x] == left[x]
    {
      assert (all - multiset(taken) - left)[x] == 0 || x == 0;
    }
  }

  /** Picking access indices that make up a load: they are positive, some of those on
      offer, and together at most the goal; the overshoot rule never applies. */
  lemma PickFits(list: seq<int>, goal: int)
    requires goal >= 0 && forall x :: x in list ==> x >= 0
    ensures
      var r := Pick(0, list, goal);
      && multiset(r) <= multiset(list) && SumOf(r) <= goal
      && (forall x :: x in r ==> x > 0)
      && (forall x :: x in multiset(list) - multiset(r) && x != 0 ==> SumOf(r) + x > goal)
  {
    var left := GreedilyDone(0, list, goal);
    var g := Greedily(0, list, goal);
    if g.last.Some? {
      assert g.last.value in multiset(list);
    }
    forall x | x in multiset(list) - multiset(g.taken) && x != 0
      ensures x in left
    {
      assert x !in multiset(list) - multiset(g.taken) - left;
    }
  }

  // ------------------------------------------------------------ who gives to whom

  /** find_index: the first position that holds v, or -1. */
  function FirstIndex(list: seq<int>, v: int): (r: int)
    ensures -1 <= r < |list| && (r == -1 <==> v !in list)
    ensures r >= 0 ==> list[r] == v && forall j :: 0 <= j < r ==> list[j] != v
  {
    if list == [] then -1
    else if list[0] == v then 0
    else
      assert list == [list[0]] + list[1..];
      var k := FirstIndex(list[1..], v);
      if k < 0 then -1 else k + 1
  }

  /** The values of the positive loads below n. */
  function Positives(load: seq<int>, n: nat): (r: seq<int>)
    requires n <= |load|
    ensures |r| <= n
  {
    if n == 0 then []
    else if load[n - 1] > 0 then Positives(load, n - 1) + [load[n - 1]]
    else Positives(load, n - 1)
  }

  lemma {:induction false} PositivesIn(load: seq<int>, n: nat)
    requires n <= |load|
    ensures forall v :: v in Positives(load, n) ==> v > 0 && v in load
  {
    if n > 0 {
      PositivesIn(load, n - 1);
    }
  }

  /** The receiver of each server, and the load values still on offer. */
  datatype Deal = Deal(target: seq<int>, left: seq<int>)

  predicate DealOk(load: seq<int>, d: Deal) {
    |d.target| == |load| && multiset(d.left) <= multiset(Positives(load, |load|))
  }

  function RemoveValue(list: seq<int>, v: int): (r: seq<int>) {
    if v in list then RemoveAt(list, FirstIndex(list, v)) else list
  }

  lemma RemoveValueBag(list: seq<int>, v: int)
    requires v in list
    ensures multiset(list) == multiset(RemoveValue(list, v)) + multiset{v}
  {
    var i, n := FirstIndex(list, v), |list| - 1;
    assert list == list[..n] + [list[n]];
    if i < n {
      assert RemoveAt(list, i) == list[..n][i := list[n]];
      assert list[..n] == list[..i] + [v] + list[i + 1..n];
      assert list[..n][i := list[n]] == list[..i] + [list[n]] + list[i + 1..n];
    } else {
      assert RemoveAt(list, i) == list[..n];
    }
  }

  /** A value on offer is a positive load, so the lookup of its server succeeds. */
  lemma OnOffer(load: seq<int>, d: Deal, v: int)
    requires DealOk(load, d) && v in d.left
    ensures v in load && v > 0
  {
    PositivesIn(load, |load|);
    assert v in multiset(d.left);
    assert v in Positives(load, |load|);
  }

  /** One picked load value: the first server with that load gets receiver s. */
  function DealOne(load: seq<int>, d: Deal, v: int, s: int): (r: Deal)
    requires DealOk(load, d) && v in d.left
    ensures DealOk(load, r) && multiset(d.left) == multiset(r.left) + multiset{v}
  {
    OnOffer(load, d, v);
    RemoveValueBag(d.left, v);
    Deal(d.target[FirstIndex(load, v) := s], RemoveValue(d.left, v))
  }

  function DealAll(load: seq<int>, d: Deal, vs: seq<int>, s: int): (r: Deal)
    requires DealOk(load, d) && multiset(vs) <= multiset(d.left)
    ensures DealOk(load, r)
    decreases |vs|
  {
    if vs == [] then d
    else
      assert vs == [vs[0]] + vs[1..];
      assert vs[0] in multiset(d.left);
      DealAll(load, DealOne(load, d, vs[0], s), vs[1..], s)
  }

  /** The values one underloaded server takes are on offer, and looking up the server
      of each of them succeeds and finds an overloaded one. */
  lemma LookupSucceeds(load: seq<int>, d: Deal, s: int)
    requires DealOk(load, d) && 0 <= s < |load| && load[s] < 0
    ensures multiset(Pick(load[s], d.left, 0)) <= multiset(d.left) == multiset(SortValues(d.left))
    ensures DealOk(load, Deal(d.target, SortValues(d.left)))
    ensures forall v :: v in Pick(load[s], d.left, 0) ==> FirstIndex(load, v) >= 0 && load[FirstIndex(load, v)] > 0
  {
    forall x | x in d.left
      ensures x > 0 && x in load
    {
      OnOffer(load, d, x);
    }
    var picked := Pick(load[s], d.left, 0);
    FillIsBest(load[s], d.left, Greedily(load[s], d.left, 0), picked);
    SortValuesSorts(d.left);
    forall v | v in picked
      ensures FirstIndex(load, v) >= 0 && load[FirstIndex(load, v)] > 0
    {
      assert v in multiset(picked);
      assert v in d.left;
    }
  }

  function Serve(load: seq<int>, d: Deal, s: int): (r: Deal)
    requires DealOk(load, d) && 0 <= s < |load| && load[s] < 0
    ensures DealOk(load, r)
  {
    LookupSucceeds(load, d, s);
    DealAll(load, Deal(d.target, SortValues(d.left)), Pick(load[s], d.left, 0), s)
  }

  predicate AllUnder(load: seq<int>, unders: seq<int>) {
    forall i :: 0 <= i < |unders| ==> 0 <= unders[i] < |load| && load[unders[i]] < 0
  }

  function ServeAll(load: seq<int>, d: Deal, unders: seq<int>): (r: Deal)
    requires DealOk(load, d) && AllUnder(load, unders)
    ensures DealOk(load, r)
    decreases |unders|
  {
    if unders == [] then d else ServeAll(load, Serve(load, d, unders[0]), unders[1..])
  }

  function Self(n: nat): (r: seq<int>)
    ensures |r| == n && forall i :: 0 <= i < n ==> r[i] == i
  {
    seq(n, i => i)
  }

  lemma {:induction false} UnderloadedUnder(load: seq<int>, n: nat)
    requires n <= |load|
    ensures AllUnder(load, Underloaded(load, n))
  {
    if n > 0 {
      UnderloadedUnder(load, n - 1);
    }
  }

  /** Nobody gives yet, and all positive loads are on offer. */
  function FirstDeal(load: seq<int>): (d: Deal)
    ensures DealOk(load, d)
  {
    Deal(Self(|load|), Positives(load, |load|))
  }

  /** After all underloaded servers have picked. */
  function FinalDeal(load: seq<int>): (d: Deal)
    ensures DealOk(load, d)
  {
    UnderloadedUnder(load, |load|);
    ServeAll(load, FirstDeal(load), Underloaded(load, |load|))
  }

  /** The receiver of every server. */
  function Receivers(load: seq<int>): (r: seq<int>)
    ensures |r| == |load|
  {
    FinalDeal(load).target
  }

  /** A server that gives is overloaded, the first one with its load, and its receiver
      is underloaded. */
  predicate ReceiverOk(load: seq<int>, target: seq<int>, j: int)
    requires |target| == |load| && 0 <= j < |load|
  {
    || target[j] == j
    || (load[j] > 0 && FirstIndex(load, load[j]) == j && 0 <= target[j] < |load| && load[target[j]] < 0)
  }

  predicate ReceiversOk(load: seq<int>, target: seq<int>) {
    |target| == |load| && forall j :: 0 <= j < |load| ==> ReceiverOk(load, target, j)
  }

  lemma {:induction false} DealAllOk(load: seq<int>, d: Deal, vs: seq<int>, s: int)
    requires DealOk(load, d) && multiset(vs) <= multiset(d.left)
    requires ReceiversOk(load, d.target) && 0 <= s < |load| && load[s] < 0
    ensures ReceiversOk(load, DealAll(load, d, vs, s).target)
    decreases |vs|
  {
    if vs != [] {
      assert vs == [vs[0]] + vs[1..];
      assert vs[0] in multiset(d.left);
      OnOffer(load, d, vs[0]);
      var d1 := DealOne(load, d, vs[0], s);
      forall j | 0 <= j < |load|
        ensures ReceiverOk(load, d1.target, j)
      {
        assert ReceiverOk(load, d.target, j);
      }
      DealAllOk(load, d1, vs[1..], s);
    }
  }

  lemma {:induction false} ServeAllOk(load: seq<int>, d: Deal, unders: seq<int>)
    requires DealOk(load, d) && AllUnder(load, unders) && ReceiversOk(load, d.target)
    ensures ReceiversOk(load, ServeAll(load, d, unders).target)
    decreases |unders|
  {
    if unders != [] {
      LookupSucceeds(load, d, unders[0]);
      DealAllOk(load, Deal(d.target, SortValues(d.left)), Pick(load[unders[0]], d.left, 0), unders[0]);
      ServeAllOk(load, Serve(load, d, unders[0]), unders[1..]);
    }
  }

  /** Only overloaded servers give, only underloaded ones receive, and of the servers
      with the same load only the first one gives anything. */
  lemma ReceiversAreOk(load: seq<int>)
    ensures ReceiversOk(load, Receivers(load))
  {
    UnderloadedUnder(load, |load|);
    ServeAllOk(load, Deal(Self(|load|), Positives(load, |load|)), Underloaded(load, |load|));
  }

  // ------------------------------------------------------------ rewriting the table

  /** The access indices of the entries below n that server s owns. */
  function ValuesOf(t: seq<Assign>, weights: seq<int>, s: int, n: nat): (r: seq<int>)
    requires n <= |t| == |weights|
    ensures |r| <= n
  {
    if n == 0 then []
    else if t[n - 1].srv == s then ValuesOf(t, weights, s, n - 1) + [weights[n - 1]]
    else ValuesOf(t, weights, s, n - 1)
  }

  predicate Gives(load: seq<int>, target: seq<int>, s: int)
    requires |target| == |load| && 0 <= s < |load|
  {
    load[s] > 0 && target[s] != s
  }

  /** The access indices picked to make up the load of server s. */
  function Given(t: seq<Assign>, weights: seq<int>, load: seq<int>, s: int): (r: seq<int>)
    requires |t| == |weights| && 0 <= s < |load|
  {
    Pick(0, ValuesOf(t, weights, s, |t|), load[s])
  }

  /** Every entry of server s whose index is one of `values` goes to `dest`. */
  function MoveFrom(t: seq<Assign>, weights: seq<int>, s: int, dest: nat, values: seq<int>): (r: seq<Assign>)
    requires |t| == |weights|
    ensures |r| == |t|
  {
    seq(|t|, e requires 0 <= e < |t| =>
      if t[e].srv == s && weights[e] in values then Assign(dest, t[e].ver + 1) else t[e])
  }

  /** The table after the servers below n have given their entries, one server after
      the other, each reading the table the ones before it left. */
  function Rewrite(t: seq<Assign>, weights: seq<int>, load: seq<int>, target: seq<int>, n: nat): (r: seq<Assign>)
    requires |t| == |weights| && n <= |load| && ReceiversOk(load, target)
    ensures |r| == |t|
  {
    if n == 0 then t
    else
      var u := Rewrite(t, weights, load, target, n - 1);
      assert ReceiverOk(load, target, n - 1);
      if !Gives(load, target, n - 1) then u
      else MoveFrom(u, weights, n - 1, target[n - 1], Given(u, weights, load, n - 1))
  }

  /** The line of entry e when all servers read the table the rebalance started from. */
  function Final(t: seq<Assign>, weights: seq<int>, load: seq<int>, target: seq<int>, n: nat, e: int): Assign
    requires |t| == |weights| && n <= |load| && ReceiversOk(load, target) && 0 <= e < |t|
  {
    assert t[e].srv < n ==> ReceiverOk(load, target, t[e].srv);
    if t[e].srv < n && Gives(load, target, t[e].srv) && weights[e] in Given(t, weights, load, t[e].srv)
    then Assign(target[t[e].srv], t[e].ver + 1)
    else t[e]
  }

  lemma {:induction false} SameValues(t: seq<Assign>, u: seq<Assign>, weights: seq<int>, s: int, n: nat)
    requires n <= |t| == |u| == |weights|
    requires forall e :: 0 <= e < n ==> (t[e].srv == s <==> u[e].srv == s)
    ensures ValuesOf(t, weights, s, n) == ValuesOf(u, weights, s, n)
  {
    if n > 0 {
      SameValues(t, u, weights, s, n - 1);
    }
  }

  /** Although each server reads the table that is being rewritten, the outcome is the
      same as if all had read the table the rebalance started from: an entry moves at
      most once. */
  lemma {:induction false} RewriteIsParallel(
    t: seq<Assign>, weights: seq<int>, load: seq<int>, target: seq<int>, n: nat)
    requires |t| == |weights| && n <= |load| && ReceiversOk(load, target)
    ensures forall e :: 0 <= e < |t| ==>
              Rewrite(t, weights, load, target, n)[e] == Final(t, weights, load, target, n, e)
  {
    if n > 0 {
      var u := Rewrite(t, weights, load, target, n - 1);
      RewriteIsParallel(t, weights, load, target, n - 1);
      if Gives(load, target, n - 1) {
        forall e | 0 <= e < |t|
          ensures t[e].srv == n - 1 <==> u[e].srv == n - 1
        {
          assert u[e] == Final(t, weights, load, target, n - 1, e);
          assert t[e].srv < n - 1 ==> ReceiverOk(load, target, t[e].srv);
        }
        SameValues(t, u, weights, n - 1, |t|);
      }
      forall e | 0 <= e < |t|
        ensures Rewrite(t, weights, load, target, n)[e] == Final(t, weights, load, target, n, e)
      {
        assert u[e] == Final(t, weights, load, target, n - 1, e);
        assert t[e].srv < n - 1 ==> ReceiverOk(load, target, t[e].srv);
      }
    }
  }

  // ------------------------------------------------------------------ main results

  /** The loads the manager adds up: the weight of each server's entries, relative to
      the mean. */
  predicate LoadsOf(t: seq<Assign>, weights: seq<int>, load: seq<int>) {
    |t| == |weights| && NonNegative(weights) && forall e :: 0 <= e < |t| ==> t[e].srv < |load|
  }

  lemma {:induction false} ValuesIn(t: seq<Assign>, weights: seq<int>, s: int, n: nat)
    requires n <= |t| == |weights|
    ensures forall v :: v in ValuesOf(t, weights, s, n) <==> exists e :: 0 <= e < n && t[e].srv == s && weights[e] == v
  {
    if n > 0 {
      ValuesIn(t, weights, s, n - 1);
    }
  }

  /** Over one rebalance every entry moves at most once, from an overloaded server to
      an underloaded one, its version rises by one exactly when it moves, and an entry
      without accesses stays. */
  lemma DhRebalanceIsLegal(t: seq<Assign>, weights: seq<int>, load: seq<int>)
    requires LoadsOf(t, weights, load)
    ensures ReceiversOk(load, Receivers(load))
    ensures
      var t' := Rewrite(t, weights, load, Receivers(load), |load|);
      && LegalRebalance(|load|, t, t')
      && forall e :: 0 <= e < |t| && t'[e] != t[e] ==>
           load[t[e].srv] > 0 && t'[e].srv < |load| && load[t'[e].srv] < 0 && weights[e] > 0
  {
    ReceiversAreOk(load);
    var target := Receivers(load);
    RewriteIsParallel(t, weights, load, target, |load|);
    var t' := Rewrite(t, weights, load, target, |load|);
    forall e | 0 <= e < |t| && t'[e] != t[e]
      ensures load[t[e].srv] > 0 && t'[e].srv < |load| && load[t'[e].srv] < 0 && weights[e] > 0
      ensures t'[e].ver == t[e].ver + 1
    {
      var s := t[e].srv;
      assert t'[e] == Final(t, weights, load, target, |load|, e);
      assert ReceiverOk(load, target, s);
      ValuesIn(t, weights, s, |t|);
      PickFits(ValuesOf(t, weights, s, |t|), load[s]);
    }
  }

  // ---------------------------------------------------- how much a server really gives

  /** The access indices of the entries below n that leave server s. */
  function Leaving(t: seq<Assign>, t': seq<Assign>, weights: seq<int>, s: int, n: nat): seq<int>
    requires n <= |t| == |t'| == |weights|
  {
    if n == 0 then []
    else if t[n - 1].srv == s && t'[n - 1].srv != s then Leaving(t, t', weights, s, n - 1) + [weights[n - 1]]
    else Leaving(t, t', weights, s, n - 1)
  }

  lemma {:induction false} LeavingCount(
    t: seq<Assign>, t': seq<Assign>, weights: seq<int>, s: int, n: nat, values: seq<int>, v: int)
    requires n <= |t| == |t'| == |weights|
    requires forall e :: 0 <= e < n && t[e].srv == s ==> (t'[e].srv != s <==> weights[e] in values)
    ensures multiset(Leaving(t, t', weights, s, n))[v]
            == if v in values then multiset(ValuesOf(t, weights, s, n))[v] else 0
  {
    if n > 0 {
      LeavingCount(t, t', weights, s, n - 1, values, v);
    }
  }

  /** The list without one occurrence of x. */
  lemma TakeOut(a: seq<int>, x: int) returns (rest: seq<int>)
    requires x in a
    ensures multiset(a) == multiset(rest) + multiset{x} && SumOf(a) == SumOf(rest) + x
  {
    var j :| 0 <= j < |a| && a[j] == x;
    assert a == a[..j] + [x] + a[j + 1..];
    SumOfSplit(a[..j], x, a[j + 1..]);
    rest := a[..j] + a[j + 1..];
  }

  lemma CancelBags(x: int, a: multiset<int>, b: multiset<int>)
    ensures a + multiset{x} <= b + multiset{x} ==> a <= b
    ensures a + multiset{x} == b + multiset{x} <==> a == b
  {
    forall y
      ensures (a + multiset{x})[y] <= (b + multiset{x})[y] <==> a[y] <= b[y]
    {}
    if a + multiset{x} == b + multiset{x} {
      forall y
        ensures a[y] == b[y]
      {
        assert (a + multiset{x})[y] == (b + multiset{x})[y];
      }
    }
  }

  lemma {:induction false} BagSums(a: seq<int>, b: seq<int>)
    requires multiset(a) <= multiset(b) && forall i :: 0 <= i < |b| ==> b[i] > 0
    ensures SumOf(a) <= SumOf(b)
    ensures SumOf(a) == SumOf(b) <==> multiset(a) == multiset(b)
    decreases |b|
  {
    if b == [] {
      assert |multiset(a)| == 0;
    } else {
      var x, init := b[|b| - 1], b[..|b| - 1];
      assert multiset(b) == multiset(init) + multiset{x} by {
        assert b == init + [x];
      }
      if x in a {
        var rest := TakeOut(a, x);
        CancelBags(x, multiset(rest), multiset(init));
        BagSums(rest, init);
      } else {
        BagSkip(x, multiset(a), multiset(init));
        BagSums(a, init);
        assert multiset(a)[x] == 0 && multiset(b)[x] > 0;
      }
    }
  }

  /** A giver gives away at least what was picked, and exactly that if and only if it
      has no other entry with the same index as a picked one: entries are found by
      value, so all entries with that index leave. */
  lemma GivesExactlyIff(t: seq<Assign>, weights: seq<int>, load: seq<int>, s: int)
    requires LoadsOf(t, weights, load) && 0 <= s < |load|
    requires Gives(load, Receivers(load), s)
    ensures ReceiversOk(load, Receivers(load))
    ensures
      var t' := Rewrite(t, weights, load, Receivers(load), |load|);
      var given := Given(t, weights, load, s);
      var gone := Leaving(t, t', weights, s, |t|);
      && SumOf(given) <= load[s] && SumOf(given) <= SumOf(gone)
      && (SumOf(gone) == SumOf(given) <==>
          forall v :: v in given ==> multiset(ValuesOf(t, weights, s, |t|))[v] == multiset(given)[v])
  {
    ReceiversAreOk(load);
    var target := Receivers(load);
    RewriteIsParallel(t, weights, load, target, |load|);
    var t' := Rewrite(t, weights, load, target, |load|);
    var vals := ValuesOf(t, weights, s, |t|);
    var given := Given(t, weights, load, s);
    var gone := Leaving(t, t', weights, s, |t|);
    ValuesIn(t, weights, s, |t|);
    PickFits(vals, load[s]);
    forall e | 0 <= e < |t| && t[e].srv == s
      ensures t'[e].srv != s <==> weights[e] in given
    {
      assert t'[e] == Final(t, weights, load, target, |load|, e);
      assert ReceiverOk(load, target, s);
    }
    forall v
      ensures multiset(gone)[v] == if v in given then multiset(vals)[v] else 0
    {
      LeavingCount(t, t', weights, s, |t|, given, v);
    }
    GoneIsGiven(vals, given, gone);
  }

  /** An entry that stays has an index that was not picked. */
  lemma StayNotGiven(t: seq<Assign>, weights: seq<int>, load: seq<int>, s: int, e: int)
    requires LoadsOf(t, weights, load) && 0 <= s < |load| && ReceiversOk(load, Receivers(load))
    requires Gives(load, Receivers(load), s) && 0 <= e < |t| && t[e].srv == s
    requires Rewrite(t, weights, load, Receivers(load), |load|)[e].srv == s
    ensures weights[e] !in Given(t, weights, load, s)
  {
    RewriteIsParallel(t, weights, load, Receivers(load), |load|);
    assert ReceiverOk(load, Receivers(load), s);
  }

  lemma TooHeavy(t: seq<Assign>, weights: seq<int>, load: seq<int>, s: int, e: int)
    requires LoadsOf(t, weights, load) && 0 <= s < |load| && load[s] > 0 && 0 <= e < |t| && t[e].srv == s
    requires weights[e] > 0 && weights[e] !in Given(t, weights, load, s)
    ensures SumOf(Given(t, weights, load, s)) + weights[e] > load[s]
  {
    var vals, given := ValuesOf(t, weights, s, |t|), Given(t, weights, load, s);
    ValuesIn(t, weights, s, |t|);
    PickFits(vals, load[s]);
    assert weights[e] in vals;
    assert weights[e] in multiset(vals) && weights[e] !in multiset(given);
    assert weights[e] in multiset(vals) - multiset(given);
  }

  /** A giver keeps no entry of some weight that it could have given as well. */
  lemma GivesEnough(t: seq<Assign>, weights: seq<int>, load: seq<int>, s: int, e: int)
    requires LoadsOf(t, weights, load) && 0 <= s < |load|
    requires Gives(load, Receivers(load), s) && 0 <= e < |t| && t[e].srv == s && weights[e] > 0
    ensures ReceiversOk(load, Receivers(load))
    ensures
      var t' := Rewrite(t, weights, load, Receivers(load), |load|);
      t'[e].srv == s ==> SumOf(Leaving(t, t', weights, s, |t|)) + weights[e] > load[s]
  {
    ReceiversAreOk(load);
    if Rewrite(t, weights, load, Receivers(load), |load|)[e].srv == s {
      StayNotGiven(t, weights, load, s, e);
      TooHeavy(t, weights, load, s, e);
      GivesExactlyIff(t, weights, load, s);
    }
  }

  lemma GoneIsGiven(vals: seq<int>, given: seq<int>, gone: seq<int>)
    requires multiset(given) <= multiset(vals) && forall v :: v in given ==> v > 0
    requires forall v :: multiset(gone)[v] == if v in given then multiset(vals)[v] else 0
    ensures SumOf(given) <= SumOf(gone)
    ensures SumOf(gone) == SumOf(given) <==> forall v :: v in given ==> multiset(vals)[v] == multiset(given)[v]
  {
    forall v
      ensures multiset(given)[v] <= multiset(gone)[v]
    {
      assert v in given <==> multiset(given)[v] > 0;
    }
    forall i | 0 <= i < |gone|
      ensures gone[i] > 0
    {
      assert multiset(gone)[gone[i]] > 0;
    }
    BagSums(given, gone);
    if forall v :: v in given ==> multiset(vals)[v] == multiset(given)[v] {
      forall v
        ensures multiset(given)[v] == multiset(gone)[v]
      {
        assert v in given <==> multiset(given)[v] > 0;
      }
      assert multiset(given) == multiset(gone);
    }
  }

  /** Two entries of weight 2 on the same server, which should give away one of them:
      both go, and the receiver ends as overloaded as the giver was. */
  lemma BothMove(t: seq<Assign>, weights: seq<int>, load: seq<int>)
    requires t == [Assign(0, 0), Assign(0, 0)] && weights == [2, 2] && load == [2, -2]
    ensures ReceiversOk(load, Receivers(load)) && Given(t, weights, load, 0) == [2]
    ensures Rewrite(t, weights, load, Receivers(load), 2) == [Assign(1, 1), Assign(1, 1)]
  {
    ReceiversAreOk(load);
    OneReceiver(load);
    OneIsPicked(t, weights);
    var r := Rewrite(t, weights, load, Receivers(load), 2);
    RewriteIsParallel(t, weights, load, Receivers(load), 2);
    assert r[0] == Final(t, weights, load, Receivers(load), 2, 0);
    assert r[1] == Final(t, weights, load, Receivers(load), 2, 1);
  }

  lemma OneReceiver(load: seq<int>)
    requires load == [2, -2]
    ensures Receivers(load) == [1, 1]
  {
    assert Positives(load, 1) == [2] && Underloaded(load, 1) == [];
    var d := Deal(Self(2), Positives(load, 2));
    OneLoadIsPicked(d.left);
    UnderloadedUnder(load, 2);
    var one := Serve(load, d, 1);
    ServedOnce(load, d, one);
    assert Underloaded(load, 2) == [1];
    assert [1][1..] == [];
    assert ServeAll(load, d, [1]) == ServeAll(load, one, [1][1..]) == one;
  }

  lemma OneLoadIsPicked(left: seq<int>)
    requires left == [2]
    ensures Pick(-2, left, 0) == [2]
  {
    var p := Scanned([], -2, None);
    assert SortValues([2]) == [2] && Scan([2], 0, p) == Look(2, 0, p) == Scanned([2], 0, None);
  }

  lemma ServedOnce(load: seq<int>, d: Deal, one: Deal)
    requires load == [2, -2] && DealOk(load, d) && d.target == [0, 1] && d.left == [2] && Pick(-2, d.left, 0) == [2]
    requires one == Serve(load, d, 1)
    ensures one.target == [1, 1]
  {
    LookupSucceeds(load, d, 1);
    var d1 := Deal(d.target, SortValues(d.left));
    assert FirstIndex(load, 2) == 0;
    assert DealAll(load, d1, [2], 1) == DealAll(load, DealOne(load, d1, 2, 1), [2][1..], 1);
  }

  lemma OneIsPicked(t: seq<Assign>, weights: seq<int>)
    requires t == [Assign(0, 0), Assign(0, 0)] && weights == [2, 2]
    ensures Pick(0, ValuesOf(t, weights, 0, 2), 2) == [2]
  {
    assert ValuesOf(t, weights, 0, 1) == [2] && SortValues([2, 2]) == [2, 2];
    var q := Scanned([], 0, None);
    assert Scan([2, 2], 2, q) == Scan([2], 2, Scanned([2], 2, None)) == Scanned([2], 2, Some(2));
  }
}
