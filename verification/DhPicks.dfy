/** What becomes of the load values that the DH rebalancer's receivers pick. */
module DhPicks {
  import opened Sequences
  import opened SortSubset
  import opened Rebalance
  import opened DhRebalance

  // ------------------------------------------------------------ the picks, in order

  /** The picks so far, followed by the values `vs` picked by server s. */
  function Record(log: seq<(int, int)>, vs: seq<int>, s: int): seq<(int, int)>
    decreases |vs|
  {
    if vs == [] then log else Record(log + [(vs[0], s)], vs[1..], s)
  }

  function Values(log: seq<(int, int)>): (r: seq<int>)
    ensures |r| == |log| && forall i :: 0 <= i < |r| ==> r[i] == log[i].0
  {
    seq(|log|, i requires 0 <= i < |log| => log[i].0)
  }

  /** The values the underloaded servers pick, each with the server that picks it,
      behind the picks so far. */
  function Picks(load: seq<int>, log: seq<(int, int)>, d: Deal, unders: seq<int>): seq<(int, int)>
    requires DealOk(load, d) && AllUnder(load, unders)
    decreases |unders|
  {
    if unders == [] then log
    else
      var s := unders[0];
      Picks(load, Record(log, Pick(load[s], d.left, 0), s), Serve(load, d, s), unders[1..])
  }

  function AllPicks(load: seq<int>): seq<(int, int)> {
    UnderloadedUnder(load, |load|);
    Picks(load, [], FirstDeal(load), Underloaded(load, |load|))
  }

  /** The receiver of server j when each pick goes to the first server with its load and
      the last one counts. */
  function LastReceiver(load: seq<int>, log: seq<(int, int)>, j: int): int
    decreases |log|
  {
    if log == [] then j
    else
      var n := |log| - 1;
      if FirstIndex(load, log[n].0) == j then log[n].1 else LastReceiver(load, log[..n], j)
  }

  /** The deal is what the picks so far lead to. */
  ghost predicate LedTo(load: seq<int>, log: seq<(int, int)>, d: Deal) {
    && DealOk(load, d)
    && multiset(d.left) + multiset(Values(log)) == multiset(Positives(load, |load|))
    && (forall j :: 0 <= j < |load| ==> d.target[j] == LastReceiver(load, log, j))
    && (forall i :: 0 <= i < |log| ==> PickOk(load, log[i]))
  }

  /** A pick is the load of an overloaded server, by an underloaded one. */
  predicate PickOk(load: seq<int>, p: (int, int)) {
    p.0 > 0 && p.0 in load && 0 <= p.1 < |load| && load[p.1] < 0
  }

  lemma LastReceiverMore(load: seq<int>, log: seq<(int, int)>, p: (int, int), j: int)
    ensures LastReceiver(load, log + [p], j) == if FirstIndex(load, p.0) == j then p.1 else LastReceiver(load, log, j)
  {
    assert (log + [p])[..|log|] == log;
  }

  lemma DealOneLog(load: seq<int>, log: seq<(int, int)>, d: Deal, v: int, s: int)
    requires LedTo(load, log, d) && v in d.left && 0 <= s < |load| && load[s] < 0
    ensures LedTo(load, log + [(v, s)], DealOne(load, d, v, s))
  {
    OnOffer(load, d, v);
    assert Values(log + [(v, s)]) == Values(log) + [v];
    forall j | 0 <= j < |load|
      ensures DealOne(load, d, v, s).target[j] == LastReceiver(load, log + [(v, s)], j)
    {
      LastReceiverMore(load, log, (v, s), j);
    }
  }

  lemma {:induction false} DealAllLog(load: seq<int>, log: seq<(int, int)>, d: Deal, vs: seq<int>, s: int)
    requires LedTo(load, log, d) && multiset(vs) <= multiset(d.left) && 0 <= s < |load| && load[s] < 0
    ensures LedTo(load, Record(log, vs, s), DealAll(load, d, vs, s))
    decreases |vs|
  {
    if vs != [] {
      assert vs == [vs[0]] + vs[1..];
      assert vs[0] in multiset(d.left);
      DealOneLog(load, log, d, vs[0], s);
      DealAllLog(load, log + [(vs[0], s)], DealOne(load, d, vs[0], s), vs[1..], s);
    }
  }

  lemma ServeLog(load: seq<int>, log: seq<(int, int)>, d: Deal, s: int)
    requires LedTo(load, log, d) && 0 <= s < |load| && load[s] < 0
    ensures LedTo(load, Record(log, Pick(load[s], d.left, 0), s), Serve(load, d, s))
  {
    LookupSucceeds(load, d, s);
    DealAllLog(load, log, Deal(d.target, SortValues(d.left)), Pick(load[s], d.left, 0), s);
  }

  lemma {:induction false} ServeAllLog(load: seq<int>, log: seq<(int, int)>, d: Deal, unders: seq<int>)
    requires LedTo(load, log, d) && AllUnder(load, unders)
    ensures LedTo(load, Picks(load, log, d, unders), ServeAll(load, d, unders))
    decreases |unders|
  {
    if unders != [] {
      var s := unders[0];
      ServeLog(load, log, d, s);
      ServeAllLog(load, Record(log, Pick(load[s], d.left, 0), s), Serve(load, d, s), unders[1..]);
    }
  }

  /** Every server's receiver is the last one that picked its load, if it is the first
      server with that load; and every value is either still on offer or was picked. */
  lemma LastPickCounts(load: seq<int>)
    ensures LedTo(load, AllPicks(load), FinalDeal(load))
  {
    UnderloadedUnder(load, |load|);
    assert LedTo(load, [], FirstDeal(load));
    ServeAllLog(load, [], FirstDeal(load), Underloaded(load, |load|));
  }

  // ------------------------------------------------------------ who gives

  /** The picks that concern server j. */
  predicate PickedFrom(load: seq<int>, log: seq<(int, int)>, j: int) {
    exists i :: 0 <= i < |log| && FirstIndex(load, log[i].0) == j
  }

  lemma {:induction false} LastReceiverIs(load: seq<int>, log: seq<(int, int)>, j: int)
    requires 0 <= j < |load| && forall i :: 0 <= i < |log| ==> PickOk(load, log[i])
    ensures LastReceiver(load, log, j) != j <==> PickedFrom(load, log, j)
    ensures LastReceiver(load, log, j) != j ==>
              exists i :: 0 <= i < |log| && FirstIndex(load, log[i].0) == j && log[i].1 == LastReceiver(load, log, j)
    decreases |log|
  {
    if log != [] {
      var n := |log| - 1;
      assert PickOk(load, log[n]);
      LastReceiverIs(load, log[..n], j);
      if FirstIndex(load, log[n].0) != j && PickedFrom(load, log, j) {
        var i :| 0 <= i < |log| && FirstIndex(load, log[i].0) == j;
        assert log[..n][i] == log[i];
      }
    }
  }

  /** A server gives exactly when it is overloaded, the first server with its load, and
      that load value was taken off the offer. */
  lemma GivesIff(load: seq<int>, j: int)
    requires 0 <= j < |load|
    ensures Receivers(load)[j] != j <==>
              load[j] > 0 && FirstIndex(load, load[j]) == j
              && multiset(FinalDeal(load).left)[load[j]] < multiset(Positives(load, |load|))[load[j]]
  {
    var log, d, v := AllPicks(load), FinalDeal(load), load[j];
    LastPickCounts(load);
    LastReceiverIs(load, log, j);
    var vals := Values(log);
    assert multiset(d.left)[v] + multiset(vals)[v] == multiset(Positives(load, |load|))[v];
    if PickedFrom(load, log, j) {
      var i :| 0 <= i < |log| && FirstIndex(load, log[i].0) == j;
      assert PickOk(load, log[i]) && vals[i] == v && v in multiset(vals);
    } else if v in vals {
      var i :| 0 <= i < |vals| && vals[i] == v;
      assert PickOk(load, log[i]) && FirstIndex(load, log[i].0) != j;
    }
  }

  // ------------------------------------------------------------ what is given

  /** The loads the servers below n give, each with its receiver. */
  function Gifts(load: seq<int>, target: seq<int>, n: nat): (r: seq<(int, int)>)
    requires n <= |load| == |target|
    ensures |r| <= n
  {
    if n == 0 then []
    else if target[n - 1] != n - 1 then Gifts(load, target, n - 1) + [(load[n - 1], target[n - 1])]
    else Gifts(load, target, n - 1)
  }

  lemma {:induction false} GiftsExact(load: seq<int>, target: seq<int>, n: nat, p: (int, int))
    requires n <= |load| && ReceiversOk(load, target)
    ensures p in Gifts(load, target, n) <==>
              0 <= FirstIndex(load, p.0) < n && target[FirstIndex(load, p.0)] != FirstIndex(load, p.0)
              && target[FirstIndex(load, p.0)] == p.1
    ensures multiset(Gifts(load, target, n))[p] <= 1
  {
    if n > 0 {
      GiftsExact(load, target, n - 1, p);
      assert ReceiverOk(load, target, n - 1);
    }
  }

  /** No load value is picked twice. */
  predicate PickedOnce(log: seq<(int, int)>) {
    forall i, j :: 0 <= i < j < |log| ==> log[i].0 != log[j].0
  }

  lemma {:induction false} OnceCount(log: seq<(int, int)>, p: (int, int))
    requires PickedOnce(log)
    ensures multiset(log)[p] == if p in log then 1 else 0
  {
    if log != [] {
      assert log == [log[0]] + log[1..];
      OnceCount(log[1..], p);
      assert log[0] !in log[1..];
    }
  }

  /** When no value is picked twice, each pick sets the receiver for good. */
  lemma PickStays(load: seq<int>, log: seq<(int, int)>, i: nat)
    requires i < |log| && PickedOnce(log) && forall k :: 0 <= k < |log| ==> PickOk(load, log[k])
    ensures 0 <= FirstIndex(load, log[i].0) < |load|
    ensures LastReceiver(load, log, FirstIndex(load, log[i].0)) == log[i].1
  {
    var j := FirstIndex(load, log[i].0);
    assert PickOk(load, log[i]);
    LastReceiverIs(load, log, j);
    assert PickedFrom(load, log, j);
    var k :| 0 <= k < |log| && FirstIndex(load, log[k].0) == j && log[k].1 == LastReceiver(load, log, j);
    assert PickOk(load, log[k]) && log[k].0 == load[j] == log[i].0;
  }

  lemma GiftIsPick(load: seq<int>, log: seq<(int, int)>, p: (int, int))
    requires PickedOnce(log) && forall i :: 0 <= i < |log| ==> PickOk(load, log[i])
    ensures p in log <==> var j := FirstIndex(load, p.0);
                          0 <= j < |load| && LastReceiver(load, log, j) != j && LastReceiver(load, log, j) == p.1
  {
    var j := FirstIndex(load, p.0);
    if p in log {
      var i :| 0 <= i < |log| && log[i] == p;
      PickStays(load, log, i);
      assert PickOk(load, log[i]);
    }
    if 0 <= j < |load| && LastReceiver(load, log, j) != j && LastReceiver(load, log, j) == p.1 {
      LastReceiverIs(load, log, j);
      var k :| 0 <= k < |log| && FirstIndex(load, log[k].0) == j && log[k].1 == LastReceiver(load, log, j);
      assert PickOk(load, log[k]) && log[k].0 == load[j] == p.0;
    }
  }

  /** Two picks of one value cannot both be given: only one server with that load gives. */
  lemma TwiceIsLost(load: seq<int>, log: seq<(int, int)>, target: seq<int>, i: nat, k: nat)
    requires ReceiversOk(load, target) && i < k < |log| && log[i].0 == log[k].0
    ensures multiset(Gifts(load, target, |load|)) != multiset(log)
  {
    var gifts := multiset(Gifts(load, target, |load|));
    GiftsExact(load, target, |load|, log[i]);
    GiftsExact(load, target, |load|, log[k]);
    if log[i] == log[k] {
      TwiceCounts(log, i, k);
      assert gifts[log[i]] < multiset(log)[log[i]];
    } else {
      assert gifts[log[i]] == 0 || gifts[log[k]] == 0;
      assert multiset(log)[log[i]] > 0 && multiset(log)[log[k]] > 0;
    }
  }

  lemma GivenIff(load: seq<int>, log: seq<(int, int)>, target: seq<int>, gifts: seq<(int, int)>)
    requires ReceiversOk(load, target) && gifts == Gifts(load, target, |load|)
    requires forall j :: 0 <= j < |load| ==> target[j] == LastReceiver(load, log, j)
    requires forall i :: 0 <= i < |log| ==> PickOk(load, log[i])
    ensures multiset(gifts) == multiset(log) <==> PickedOnce(log)
  {
    if PickedOnce(log) {
      forall p
        ensures multiset(gifts)[p] == multiset(log)[p]
      {
        GiftsExact(load, target, |load|, p);
        OnceCount(log, p);
        GiftIsPick(load, log, p);
      }
    } else {
      var i, k :| 0 <= i < k < |log| && log[i].0 == log[k].0;
      TwiceIsLost(load, log, target, i, k);
    }
  }

  /** The loads that are given, with their receivers, are the loads that were picked,
      with the servers that picked them, exactly when no load value is picked twice. */
  lemma PicksGivenIff(load: seq<int>)
    ensures multiset(Gifts(load, Receivers(load), |load|)) == multiset(AllPicks(load)) <==> PickedOnce(AllPicks(load))
  {
    LastPickCounts(load);
    ReceiversAreOk(load);
    GivenIff(load, AllPicks(load), Receivers(load), Gifts(load, Receivers(load), |load|));
  }

  lemma DifferentPickedOnce(log: seq<(int, int)>, left: multiset<int>, pos: seq<int>)
    requires left + multiset(Values(log)) == multiset(pos) && NoDup(pos)
    ensures PickedOnce(log)
  {
    if !PickedOnce(log) {
      var i, k :| 0 <= i < k < |log| && log[i].0 == log[k].0;
      var v := Values(log)[i];
      TwiceCounts(Values(log), i, k);
      NoDupOnce(pos, v);
    }
  }

  /** In particular everything picked is given when no two overloaded servers have the
      same load. */
  lemma DifferentLoadsAreGiven(load: seq<int>)
    requires NoDup(Positives(load, |load|))
    ensures multiset(Gifts(load, Receivers(load), |load|)) == multiset(AllPicks(load))
  {
    LastPickCounts(load);
    DifferentPickedOnce(AllPicks(load), multiset(FinalDeal(load).left), Positives(load, |load|));
    PicksGivenIff(load);
  }

  // ------------------------------------------------------------ what a receiver gets

  /** What server j has picked, all together. */
  function Got(log: seq<(int, int)>, j: int): int
    decreases |log|
  {
    if log == [] then 0
    else
      var n := |log| - 1;
      Got(log[..n], j) + if log[n].1 == j then log[n].0 else 0
  }

  lemma GotMore(log: seq<(int, int)>, p: (int, int), j: int)
    ensures Got(log + [p], j) == Got(log, j) + if p.1 == j then p.0 else 0
  {
    assert (log + [p])[..|log|] == log;
  }

  lemma {:induction false} RecordGot(log: seq<(int, int)>, vs: seq<int>, s: int, j: int)
    ensures Got(Record(log, vs, s), j) == Got(log, j) + if j == s then SumOf(vs) else 0
    ensures multiset(Values(Record(log, vs, s))) == multiset(Values(log)) + multiset(vs)
    decreases |vs|
  {
    if vs != [] {
      var more := log + [(vs[0], s)];
      GotMore(log, (vs[0], s), j);
      RecordGot(more, vs[1..], s, j);
      assert vs == [vs[0]] + vs[1..];
      SumOfConcat([vs[0]], vs[1..]);
      assert Values(more) == Values(log) + [vs[0]];
    }
  }

  /** Server j is no further from the mean than before, and no single load that is still
      on offer would bring it nearer. */
  ghost predicate Content(load: seq<int>, log: seq<(int, int)>, left: multiset<int>, j: int)
    requires 0 <= j < |load|
  {
    var now := load[j] + Got(log, j);
    Abs(now) <= Abs(load[j]) && forall x :: x in left ==> Abs(now) <= Abs(now + x)
  }

  /** The servers that have had their turn are content, the others have nothing yet. */
  ghost predicate ContentSoFar(load: seq<int>, log: seq<(int, int)>, left: multiset<int>, unders: seq<int>) {
    && (forall j :: 0 <= j < |load| && load[j] < 0 && j !in unders ==> Content(load, log, left, j))
    && (forall j :: j in unders ==> Got(log, j) == 0)
  }

  lemma NotTaken(all: multiset<int>, left: multiset<int>, g: Scanned, r: seq<int>, x: int)
    requires left + multiset(r) == all && x in left
    requires r == g.taken || (g.last.Some? && r == g.taken + [g.last.value])
    ensures x in all - multiset(g.taken)
  {
    assert multiset(g.taken) <= multiset(r);
    assert all[x] == left[x] + multiset(r)[x];
  }

  lemma LastNotTaken(all: multiset<int>, g: Scanned, r: seq<int>)
    requires multiset(r) <= all && g.last.Some? && r == g.taken + [g.last.value]
    ensures g.last.value in all - multiset(g.taken)
  {
    assert multiset(r) == multiset(g.taken) + multiset{g.last.value};
  }

  lemma NoBetter(all: multiset<int>, left: multiset<int>, current: int, g: Scanned, r: seq<int>, x: int)
    requires r == g.taken || (g.last.Some? && r == g.taken + [g.last.value])
    requires left + multiset(r) == all && x in left && x > 0 && g.sum == current + SumOf(g.taken)
    requires forall y :: y in all - multiset(g.taken) ==> g.sum + y > 0 && Abs(current + SumOf(r)) <= Abs(g.sum + y)
    ensures Abs(current + SumOf(r)) <= Abs(current + SumOf(r) + x)
  {
    NotTaken(all, left, g, r, x);
    if r != g.taken {
      SumOfAppend(g.taken, g.last.value);
      LastNotTaken(all, g, r);
    }
  }

  /** One pick of a server that lacks `-current` from the loads on offer. */
  lemma PickContents(current: int, list: seq<int>, left: multiset<int>)
    requires current < 0 && forall x :: x in list ==> x > 0
    requires left + multiset(Pick(current, list, 0)) == multiset(list)
    ensures Abs(current + SumOf(Pick(current, list, 0))) <= Abs(current)
    ensures forall x :: x in left ==>
              Abs(current + SumOf(Pick(current, list, 0))) <= Abs(current + SumOf(Pick(current, list, 0)) + x)
  {
    var g, r := Greedily(current, list, 0), Pick(current, list, 0);
    FillIsBest(current, list, g, r);
    var rest := GreedilyDone(current, list, 0);
    forall x | x in left
      ensures Abs(current + SumOf(r)) <= Abs(current + SumOf(r) + x)
    {
      assert x in multiset(list) && x in list;
      NoBetter(multiset(list), left, current, g, r, x);
    }
  }

  /** What one server picks leaves the offer. */
  lemma ServeBag(load: seq<int>, log: seq<(int, int)>, d: Deal, s: int)
    requires LedTo(load, log, d) && 0 <= s < |load| && load[s] < 0
    ensures multiset(Serve(load, d, s).left) + multiset(Pick(load[s], d.left, 0)) == multiset(d.left)
    ensures forall x :: x in d.left ==> x > 0
  {
    var r := Pick(load[s], d.left, 0);
    ServeLog(load, log, d, s);
    RecordGot(log, r, s, s);
    LessOnOffer(multiset(d.left), multiset(Serve(load, d, s).left), multiset(Values(log)), multiset(r));
    forall x | x in d.left
      ensures x > 0
    {
      OnOffer(load, d, x);
    }
  }

  /** One underloaded server picks as well as it can. */
  lemma ServeContents(load: seq<int>, log: seq<(int, int)>, d: Deal, s: int)
    requires LedTo(load, log, d) && 0 <= s < |load| && load[s] < 0
    ensures BestPick(load[s], SumOf(Pick(load[s], d.left, 0)), multiset(d.left), multiset(Serve(load, d, s).left))
  {
    ServeBag(load, log, d, s);
    PickContents(load[s], d.left, multiset(Serve(load, d, s).left));
  }

  ghost predicate BestPick(current: int, got: int, before: multiset<int>, left: multiset<int>) {
    && left <= before && Abs(current + got) <= Abs(current)
    && forall x :: x in left ==> Abs(current + got) <= Abs(current + got + x)
  }

  lemma OneMoreContent(load: seq<int>, log: seq<(int, int)>, before: multiset<int>, unders: seq<int>, r: seq<int>,
                       left: multiset<int>)
    requires AllUnder(load, unders) && NoDup(unders) && unders != [] && ContentSoFar(load, log, before, unders)
    requires BestPick(load[unders[0]], SumOf(r), before, left)
    ensures ContentSoFar(load, Record(log, r, unders[0]), left, unders[1..])
  {
    var s, log' := unders[0], Record(log, r, unders[0]);
    assert unders == [s] + unders[1..] && s !in unders[1..];
    forall j
      ensures Got(log', j) == Got(log, j) + if j == s then SumOf(r) else 0
    {
      RecordGot(log, r, s, j);
    }
    forall j | 0 <= j < |load| && load[j] < 0 && j !in unders[1..]
      ensures Content(load, log', left, j)
    {
      if j != s {
        assert Content(load, log, before, j);
      }
    }
  }

  lemma LessOnOffer(before: multiset<int>, after: multiset<int>, picked: multiset<int>, r: multiset<int>)
    requires after + (picked + r) == before + picked
    ensures after + r == before
  {
    assert after + r == (after + (picked + r)) - picked;
    assert before == (before + picked) - picked;
  }

  lemma {:induction false} PicksContent(load: seq<int>, log: seq<(int, int)>, d: Deal, unders: seq<int>)
    requires LedTo(load, log, d) && AllUnder(load, unders) && NoDup(unders)
    ensures ContentSoFar(load, log, multiset(d.left), unders) ==>
              ContentSoFar(load, Picks(load, log, d, unders), multiset(ServeAll(load, d, unders).left), [])
    decreases |unders|
  {
    if unders != [] && ContentSoFar(load, log, multiset(d.left), unders) {
      var s := unders[0];
      ServeContents(load, log, d, s);
      OneMoreContent(load, log, multiset(d.left), unders, Pick(load[s], d.left, 0), multiset(Serve(load, d, s).left));
      ServeLog(load, log, d, s);
      PicksContent(load, Record(log, Pick(load[s], d.left, 0), s), Serve(load, d, s), unders[1..]);
    }
  }

  /** In the end every underloaded server is at most as far from the mean as before, in
      terms of what it has picked, and no single load that nobody picked would bring it
      nearer. */
  lemma ReceiversAreContent(load: seq<int>, s: int)
    requires 0 <= s < |load| && load[s] < 0
    ensures Content(load, AllPicks(load), multiset(FinalDeal(load).left), s)
  {
    var unders := Underloaded(load, |load|);
    UnderloadedUnder(load, |load|);
    ListsExact(load, [], 0, |load|, 0);
    assert LedTo(load, [], FirstDeal(load));
    PicksContent(load, [], FirstDeal(load), unders);
  }

  // ------------------------------------------------------------ a pick that is lost

  lemma FillPair(list: seq<int>)
    requires list == [2, 2] || list == [2]
    ensures Pick(-2, list, 0) == [2] && SortValues(list) == list
  {
    assert SortValues([2]) == [2];
    var p, q := Scanned([], -2, None), Scanned([2], 0, None);
    assert Look(2, 0, p) == q && Look(2, 0, q) == Scanned([2], 0, Some(2));
    if list == [2, 2] {
      assert list[1..] == [2] && [2][1..] == [];
      assert Scan(list, 0, p) == Scan([2], 0, q) == Scanned([2], 0, Some(2));
    } else {
      assert list[1..] == [];
      assert Scan(list, 0, p) == q;
    }
  }

  /** A receiver that picks one value. */
  lemma ServeOne(load: seq<int>, d: Deal, s: int, picked: seq<int>, v: int)
    requires DealOk(load, d) && 0 <= s < |load| && load[s] < 0
    requires picked == [v] == Pick(load[s], d.left, 0) && SortValues(d.left) == d.left
    ensures v in d.left && Serve(load, d, s) == DealOne(load, d, v, s)
  {
    LookupSucceeds(load, d, s);
    assert v in multiset(picked) && picked[1..] == [];
    assert Deal(d.target, SortValues(d.left)) == d;
    assert DealAll(load, d, picked, s) == DealAll(load, DealOne(load, d, v, s), picked[1..], s);
  }

  /** One of the two receivers is served. */
  lemma ServePair(load: seq<int>, d: Deal, s: int)
    requires load == [2, 2, -2, -2] && DealOk(load, d) && (d.left == [2, 2] || d.left == [2]) && 2 <= s < 4
    ensures Serve(load, d, s).target == d.target[0 := s] && Serve(load, d, s).left == d.left[1..]
    ensures Pick(load[s], d.left, 0) == [2]
  {
    FillPair(d.left);
    ServeOne(load, d, s, [2], 2);
    assert FirstIndex(load, 2) == 0 && FirstIndex(d.left, 2) == 0;
  }

  lemma PairLists(load: seq<int>)
    requires load == [2, 2, -2, -2]
    ensures Positives(load, 4) == [2, 2] && Underloaded(load, 4) == [2, 3]
  {
    assert Positives(load, 1) == [2] && Positives(load, 2) == [2, 2] && Positives(load, 3) == [2, 2];
    assert Underloaded(load, 1) == [] && Underloaded(load, 2) == [] && Underloaded(load, 3) == [2];
  }

  /** Two servers with the same load and two that lack as much: both receivers pick a
      load of 2, both picks are looked up as server 0, and the second overwrites the
      first. Server 1 gives nothing and server 2 receives nothing. */
  lemma PickIsLost(load: seq<int>)
    requires load == [2, 2, -2, -2]
    ensures Receivers(load) == [3, 1, 2, 3] && FinalDeal(load).left == []
    ensures AllPicks(load) == [(2, 2), (2, 3)]
  {
    PairLists(load);
    UnderloadedUnder(load, 4);
    var d0 := FirstDeal(load);
    ServePair(load, d0, 2);
    var d1 := Serve(load, d0, 2);
    ServePair(load, d1, 3);
    var d2 := Serve(load, d1, 3);
    TwoServed(load, [], Underloaded(load, 4), d0, d1, d2, 2, 2);
    assert [] + [(2, 2)] + [(2, 3)] == [(2, 2), (2, 3)];
  }

  /** Two receivers that pick one value each. */
  lemma TwoServed(load: seq<int>, log: seq<(int, int)>, unders: seq<int>, d0: Deal, d1: Deal, d2: Deal, v: int, u: int)
    requires DealOk(load, d0) && AllUnder(load, unders) && |unders| == 2
    requires d1 == Serve(load, d0, unders[0]) && d2 == Serve(load, d1, unders[1])
    requires Pick(load[unders[0]], d0.left, 0) == [v] && Pick(load[unders[1]], d1.left, 0) == [u]
    ensures ServeAll(load, d0, unders) == d2
    ensures Picks(load, log, d0, unders) == log + [(v, unders[0])] + [(u, unders[1])]
  {
    PicksMore(load, log, d0, unders);
    RecordOne(log, v, unders[0]);
    OneServed(load, log + [(v, unders[0])], unders[1..], d1, d2, u);
  }

  lemma OneServed(load: seq<int>, log: seq<(int, int)>, unders: seq<int>, d1: Deal, d2: Deal, u: int)
    requires DealOk(load, d1) && AllUnder(load, unders) && |unders| == 1
    requires d2 == Serve(load, d1, unders[0]) && Pick(load[unders[0]], d1.left, 0) == [u]
    ensures ServeAll(load, d1, unders) == d2
    ensures Picks(load, log, d1, unders) == log + [(u, unders[0])]
  {
    PicksMore(load, log, d1, unders);
    RecordOne(log, u, unders[0]);
    assert unders[1..] == [];
  }

  lemma RecordOne(log: seq<(int, int)>, v: int, s: int)
    ensures Record(log, [v], s) == log + [(v, s)]
  {
    assert [v][1..] == [];
  }

  lemma PicksMore(load: seq<int>, log: seq<(int, int)>, d: Deal, unders: seq<int>)
    requires DealOk(load, d) && AllUnder(load, unders) && unders != []
    ensures
      var s := unders[0];
      var d1 := Serve(load, d, s);
      && AllUnder(load, unders[1..])
      && ServeAll(load, d, unders) == ServeAll(load, d1, unders[1..])
      && Picks(load, log, d, unders) == Picks(load, Record(log, Pick(load[s], d.left, 0), s), d1, unders[1..])
  {}
}
