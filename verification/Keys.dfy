/** Where the keys are: in exactly one list or packet each, through every transfer. */
module Keys {
  import opened Table
  import opened Protocol
  import opened Rounds
  import opened RoundSteps
  import opened Versions
  import Packing

  /** Server s is the place of entry i: its settled owner, its old owner until the
      entry is packed, or its new owner once the packet has been read. */
  predicate MayHold(k: Constants, st: State, s: nat, i: nat)
    requires Shape(k, st) && s < k.nb && i < k.n && TablesOk(k, st.mgr)
  {
    var sv := st.servers[s];
    if !Changed(st.mgr, i) then s == st.mgr.table[i].srv
    else
      || (s == st.mgr.prev[i].srv && (HasTable(sv) || (sv.listener.Moving? && i in sv.listener.pending)))
      || (s == st.mgr.table[i].srv && !NotSent(st.servers[st.mgr.prev[i].srv], i))
  }

  /** The keys of one entry: no repetition, each hashed to the entry, each one that
      a packet can carry. */
  predicate EntryKeys(k: Constants, i: nat, keys: seq<Key>) {
    && Packing.Distinct(keys) && Packing.AllClean(keys)
    && forall x :: 0 <= x < |keys| ==> k.index(keys[x]) == i
  }

  /** The lists of a server are sound, and its store is exactly their union. */
  ghost predicate ServerKeys(k: Constants, sv: Server)
    requires WellFormed(k) && ServerShape(k, sv)
  {
    && !sv.failed
    && (forall i :: 0 <= i < k.n ==> EntryKeys(k, i, sv.lists[i]))
    && (forall key :: key in sv.store <==> key in sv.lists[k.index(key)])
    && (sv.wire.Packet? ==> EntryKeys(k, sv.wire.entry, Packing.Unpack(sv.wire.names)))
  }

  predicate Placed(k: Constants, st: State, s: nat)
    requires Shape(k, st) && s < k.nb && TablesOk(k, st.mgr)
  {
    forall i :: 0 <= i < k.n && st.servers[s].lists[i] != [] ==> MayHold(k, st, s, i)
  }

  ghost predicate KeyInv(k: Constants, st: State)
    requires WellFormed(k) && Shape(k, st) && TablesOk(k, st.mgr)
  {
    forall s :: 0 <= s < k.nb ==> ServerKeys(k, st.servers[s]) && Placed(k, st, s)
  }

  /** The whole invariant. */
  ghost predicate Inv(k: Constants, st: State)
    requires WellFormed(k)
  {
    RoundInv(k, st) && VersionInv(k, st) && KeyInv(k, st)
  }

  lemma InitInv(k: Constants, clients: nat)
    requires WellFormed(k)
    ensures Inv(k, Init(k, clients))
  {
    InitRounds(k, clients);
    InitVersions(k, clients);
  }

  // --------------------------------------------------------- one place per entry

  /** Two different servers are never both the place of an entry, and neither is
      while its packet is under way. */
  lemma OnePlace(k: Constants, st: State, i: nat, s: nat, s': nat)
    requires RoundInv(k, st) && i < k.n && s < k.nb && s' < k.nb && MayHold(k, st, s, i)
    ensures MayHold(k, st, s', i) ==> s == s'
    ensures st.servers[s'].wire.Packet? ==> st.servers[s'].wire.entry != i
  {
    assert EntryMove(k, st, i);
    assert ServerMove(s, st.servers[s]) && ServerMove(s', st.servers[s']);
    assert ServerRound(st.mgr, s, st.servers[s]) && ServerRound(st.mgr, s', st.servers[s']);
  }

  lemma AcceptorHolds(k: Constants, st: State, s: nat, i: nat)
    requires RoundInv(k, st) && s < k.nb && i < k.n && Accepts(k, st, s, i)
    ensures MayHold(k, st, s, i)
  {
    assert ServerRound(st.mgr, s, st.servers[s]);
    assert EntryMove(k, st, i);
  }

  lemma OnePacket(k: Constants, st: State, s: nat, s': nat)
    requires RoundInv(k, st) && s < k.nb && s' < k.nb
    requires st.servers[s].wire.Packet? && st.servers[s'].wire.Packet?
    requires st.servers[s].wire.entry == st.servers[s'].wire.entry
    ensures s == s'
  {
    assert EntryMove(k, st, st.servers[s].wire.entry);
  }

  // ------------------------------------------------------------- key list lemmas

  lemma WithoutEntry(k: Constants, i: nat, l: seq<Key>, key: Key)
    requires EntryKeys(k, i, l)
    ensures EntryKeys(k, i, Packing.Without(l, key))
    ensures forall x :: x in Packing.Without(l, key) <==> x in l && x != key
  {
    Packing.WithoutKeeps(l, key);
    var w := Packing.Without(l, key);
    forall x | 0 <= x < |w|
      ensures Packing.Clean(w[x]) && k.index(w[x]) == i
    {
      assert w[x] in w;
      assert w[x] in l;
    }
  }

  lemma ReverseDistinct(l: seq<Key>)
    requires Packing.Distinct(l)
    ensures Packing.Distinct(Packing.Reverse(l))
  {
    if l != [] {
      ReverseDistinct(l[1..]);
      assert l[0] !in l[1..];
      Packing.ReverseSame(l[1..], l[0]);
    }
  }

  lemma ReverseEntry(k: Constants, i: nat, l: seq<Key>)
    requires EntryKeys(k, i, l)
    ensures EntryKeys(k, i, Packing.Reverse(l))
  {
    ReverseDistinct(l);
    var r := Packing.Reverse(l);
    forall x | 0 <= x < |r|
      ensures Packing.Clean(r[x]) && k.index(r[x]) == i
    {
      Packing.ReverseSame(l, r[x]);
      assert r[x] in l;
    }
  }

  // --------------------------------------------------------- steps of one server

  lemma HandleKeys(k: Constants, sv: Server, req: Request)
    requires WellFormed(k) && ServerShape(k, sv) && ServerKeys(k, sv)
    requires req.index == k.index(req.key) && Packing.Clean(req.key)
    ensures ServerKeys(k, Handle(k, sv, req).sv)
    ensures forall i :: 0 <= i < k.n && i != req.index ==> Handle(k, sv, req).sv.lists[i] == sv.lists[i]
    ensures Handle(k, sv, req).reply.WaitRetry? || Handle(k, sv, req).reply.UpdateRetry?
            ==> Handle(k, sv, req).sv == sv
    ensures SameMove(sv, Handle(k, sv, req).sv)
  {
    var sv' := Handle(k, sv, req).sv;
    if sv' != sv && req.op.Delete? {
      WithoutEntry(k, req.index, sv.lists[req.index], req.key);
    }
  }

  lemma SendKeys(k: Constants, sv: Server, i: nat)
    requires WellFormed(k) && ServerShape(k, sv) && ServerKeys(k, sv)
    requires sv.listener.Moving? && i in sv.listener.pending
    ensures ServerKeys(k, SendServer(k, sv, i))
    ensures SendServer(k, sv, i).wire.Packet? && SendServer(k, sv, i).wire.entry == i
    ensures Packing.Unpack(SendServer(k, sv, i).wire.names) == sv.lists[i]
    ensures SendServer(k, sv, i).lists == sv.lists[i := []]
  {
    var keys := sv.lists[i];
    assert EntryKeys(k, i, keys);
    forall key | key in keys
      ensures key in sv.store
    {
      assert k.index(key) == i;
    }
    Packing.RoundTrip(keys);
    var sv' := SendServer(k, sv, i);
    forall key
      ensures key in sv'.store <==> key in sv'.lists[k.index(key)]
    {
      assert key in sv.store <==> key in sv.lists[k.index(key)];
      assert key in keys ==> k.index(key) == i;
    }
  }

  lemma ReceiveKeys(k: Constants, sv: Server, i: nat, names: string)
    requires WellFormed(k) && ServerShape(k, sv) && ServerKeys(k, sv) && i < k.n
    requires sv.listener.Moving? && sv.listener.expected > 0
    requires sv.lists[i] == [] && EntryKeys(k, i, Packing.Unpack(names))
    ensures ServerKeys(k, ReceiveServer(k, sv, i, names))
    ensures ReceiveServer(k, sv, i, names).lists == sv.lists[i := Packing.Reverse(Packing.Unpack(names))]
  {
    var keys := Packing.Unpack(names);
    forall key | key in keys
      ensures key !in sv.store
    {
      assert k.index(key) == i;
    }
    ReverseEntry(k, i, keys);
    var sv' := ReceiveServer(k, sv, i, names);
    assert sv'.lists[i] == Packing.Reverse(keys);
    forall key
      ensures key in sv'.store <==> key in sv'.lists[k.index(key)]
    {
      Packing.ReverseSame(keys, key);
      assert key in sv.store <==> key in sv.lists[k.index(key)];
      assert key in keys ==> k.index(key) == i;
    }
  }

  // ------------------------------------------------------------------- preservation

  /** Steps that change neither lists, stores, wires nor transfers. */
  lemma FrameKeys(k: Constants, st: State, st': State)
    requires WellFormed(k) && RoundInv(k, st) && RoundInv(k, st') && KeyInv(k, st)
    requires st'.mgr.table == st.mgr.table && st'.mgr.prev == st.mgr.prev
    requires forall s :: 0 <= s < k.nb ==>
               && SameMove(st.servers[s], st'.servers[s])
               && st'.servers[s].lists == st.servers[s].lists && st'.servers[s].store == st.servers[s].store
               && st'.servers[s].failed == st.servers[s].failed
    ensures KeyInv(k, st')
  {
    forall s | 0 <= s < k.nb
      ensures ServerKeys(k, st'.servers[s]) && Placed(k, st', s)
    {
      assert ServerKeys(k, st.servers[s]) && Placed(k, st, s);
      forall i | 0 <= i < k.n && st'.servers[s].lists[i] != []
        ensures MayHold(k, st', s, i)
      {
        assert MayHold(k, st, s, i);
        assert st.mgr.prev[i].srv < k.nb;
      }
    }
  }

  /** A step that leaves the transfers alone leaves the places alone. */
  lemma SamePlace(k: Constants, st: State, st': State, s: nat, i: nat)
    requires RoundInv(k, st) && Shape(k, st') && s < k.nb && i < k.n
    requires st'.mgr.table == st.mgr.table && st'.mgr.prev == st.mgr.prev
    requires forall t :: 0 <= t < k.nb ==> SameMove(st.servers[t], st'.servers[t])
    ensures TablesOk(k, st'.mgr) && MayHold(k, st, s, i) == MayHold(k, st', s, i)
  {
    assert st.mgr.prev[i].srv < k.nb;
  }

  /** A server that changes the list of one entry it is the place of. */
  lemma ListChanged(k: Constants, st: State, st': State, to: nat, e: nat)
    requires WellFormed(k) && RoundInv(k, st) && KeyInv(k, st) && Shape(k, st')
    requires st'.mgr == st.mgr && to < k.nb && e < k.n && MayHold(k, st, to, e)
    requires st'.servers == st.servers[to := st'.servers[to]] && SameMove(st.servers[to], st'.servers[to])
    requires ServerKeys(k, st'.servers[to])
    requires forall i :: 0 <= i < k.n && i != e ==> st'.servers[to].lists[i] == st.servers[to].lists[i]
    ensures KeyInv(k, st')
  {
    forall s | 0 <= s < k.nb
      ensures ServerKeys(k, st'.servers[s]) && Placed(k, st', s)
    {
      assert ServerKeys(k, st.servers[s]) && Placed(k, st, s);
      forall i | 0 <= i < k.n && st'.servers[s].lists[i] != []
        ensures MayHold(k, st', s, i)
      {
        SamePlace(k, st, st', s, i);
      }
    }
  }

  lemma ServedState(k: Constants, st: State, c: nat)
    requires WellFormed(k) && Shape(k, st) && Enabled(k, st, Serve(c))
    ensures
      var st' := Next(k, st, Serve(c));
      var to := st.clients[c].call.to;
      var out := Handle(k, st.servers[to], st.clients[c].call.req);
      && st'.mgr == st.mgr && st'.owners == st.owners
      && st'.servers == st.servers[to := out.sv]
      && st'.clients[c].call == Answered(out.reply)
  {}

  lemma ServeKeys(k: Constants, st: State, c: nat)
    requires WellFormed(k) && Inv(k, st) && Enabled(k, st, Serve(c))
    ensures Shape(k, Next(k, st, Serve(c))) && TablesOk(k, Next(k, st, Serve(c)).mgr)
    ensures KeyInv(k, Next(k, st, Serve(c)))
  {
    var st' := Next(k, st, Serve(c));
    var to, req := st.clients[c].call.to, st.clients[c].call.req;
    assert ServerKeys(k, st.servers[to]);
    NextShape(k, st, Serve(c));
    ServedState(k, st, c);
    HandleKeys(k, st.servers[to], req);
    var reply := Handle(k, st.servers[to], req).reply;
    if reply.Done? || reply.Aborted? {
      PerformerIsOwner(k, st, c);
      AcceptorHolds(k, st, to, req.index);
      ListChanged(k, st, st', to, req.index);
    } else {
      assert st'.servers == st.servers;
      assert KeyInv(k, st');
    }
  }

  lemma ApplyKeys(k: Constants, st: State, s: nat)
    requires WellFormed(k) && Inv(k, st) && Enabled(k, st, Apply(s))
    requires RoundInv(k, Next(k, st, Apply(s)))
    ensures KeyInv(k, Next(k, st, Apply(s)))
  {
    var st' := Next(k, st, Apply(s));
    ApplyIsMove(k, st.mgr, s, st.servers[s]) by { assert ServerRound(st.mgr, s, st.servers[s]); }
    forall t | 0 <= t < k.nb
      ensures ServerKeys(k, st'.servers[t]) && Placed(k, st', t)
    {
      assert ServerKeys(k, st.servers[t]) && Placed(k, st, t);
      forall i | 0 <= i < k.n && st'.servers[t].lists[i] != []
        ensures MayHold(k, st', t, i)
      {
        assert MayHold(k, st, t, i);
        assert EntryMove(k, st, i);
        assert st.mgr.prev[i].srv < k.nb;
      }
    }
  }

  lemma SendPlace(k: Constants, st: State, st': State, s: nat, i: nat, t: nat, j: nat)
    requires Shape(k, st) && Shape(k, st') && TablesOk(k, st.mgr) && st'.mgr == st.mgr && s < k.nb
    requires st'.servers == st.servers[s := st'.servers[s]] && Packed(st.servers[s], st'.servers[s], i)
    requires t < k.nb && j < k.n && EntryMove(k, st', j) && MayHold(k, st, t, j) && (t != s || j != i)
    ensures MayHold(k, st', t, j)
  {
    assert st.mgr.prev[j].srv < k.nb;
  }

  lemma SendEntryKeys(k: Constants, st: State, s: nat, i: nat)
    requires WellFormed(k) && Inv(k, st) && Enabled(k, st, SendEntry(s, i))
    requires RoundInv(k, Next(k, st, SendEntry(s, i)))
    ensures KeyInv(k, Next(k, st, SendEntry(s, i)))
  {
    var st' := Next(k, st, SendEntry(s, i));
    assert ServerKeys(k, st.servers[s]);
    SendKeys(k, st.servers[s], i);
    assert Packed(st.servers[s], st'.servers[s], i);
    forall t | 0 <= t < k.nb
      ensures ServerKeys(k, st'.servers[t]) && Placed(k, st', t)
    {
      assert ServerKeys(k, st.servers[t]) && Placed(k, st, t);
      forall j | 0 <= j < k.n && st'.servers[t].lists[j] != []
        ensures MayHold(k, st', t, j)
      {
        assert MayHold(k, st, t, j);
        SendPlace(k, st, st', s, i, t, j);
      }
    }
  }

  lemma ReceiveNotFailed(k: Constants, st: State, s: nat, b: nat)
    requires WellFormed(k) && Inv(k, st) && Enabled(k, st, ReceiveEntry(s, b))
    ensures
      var w := st.servers[s].wire;
      && s != b && w.entry < k.n && st.servers[b].lists[w.entry] == []
      && ServerKeys(k, ReceiveServer(k, st.servers[b], w.entry, w.names))
      && ReceiveServer(k, st.servers[b], w.entry, w.names).lists
         == st.servers[b].lists[w.entry := Packing.Reverse(Packing.Unpack(w.names))]
  {
    var w := st.servers[s].wire;
    PacketIsExpected(k, st, s);
    assert ServerKeys(k, st.servers[s]) && ServerKeys(k, st.servers[b]) && Placed(k, st, b);
    if st.servers[b].lists[w.entry] != [] {
      OnePlace(k, st, w.entry, b, s);
      assert false;
    }
    ReceiveKeys(k, st.servers[b], w.entry, w.names);
  }

  /** Reading a packet makes its reader the place of the entry and moves no other. */
  lemma ReceivedPlace(k: Constants, st: State, st': State, s: nat, b: nat, t: nat, j: nat)
    requires WellFormed(k) && RoundInv(k, st) && Shape(k, st') && TablesOk(k, st'.mgr) && s < k.nb && b < k.nb && s != b
    requires st'.mgr == st.mgr && st'.servers == st.servers[b := st'.servers[b]][s := st'.servers[s]]
    requires st.servers[s].wire.Packet? && st.servers[s].wire.to == b && st'.servers[s] == st.servers[s].(wire := Acked)
    requires HasTable(st'.servers[b]) == HasTable(st.servers[b]) && st'.servers[b].wire == st.servers[b].wire
    requires st.servers[b].listener.Moving? && st'.servers[b].listener.Moving?
    requires st'.servers[b].listener.pending == st.servers[b].listener.pending
    requires t < k.nb && j < k.n
    requires MayHold(k, st, t, j) || (t == b && j == st.servers[s].wire.entry)
    ensures MayHold(k, st', t, j)
  {
    PacketIsExpected(k, st, s);
    assert EntryMove(k, st, j);
    assert ServerRound(st.mgr, s, st.servers[s]) && ServerMove(s, st.servers[s]);
    assert st.mgr.prev[j].srv < k.nb;
  }

  lemma ReceiveEntryKeys(k: Constants, st: State, s: nat, b: nat)
    requires WellFormed(k) && Inv(k, st) && Enabled(k, st, ReceiveEntry(s, b))
    requires RoundInv(k, Next(k, st, ReceiveEntry(s, b)))
    ensures KeyInv(k, Next(k, st, ReceiveEntry(s, b)))
  {
    var st' := Next(k, st, ReceiveEntry(s, b));
    ReceiveNotFailed(k, st, s, b);
    forall t | 0 <= t < k.nb
      ensures ServerKeys(k, st'.servers[t]) && Placed(k, st', t)
    {
      assert ServerKeys(k, st.servers[t]) && Placed(k, st, t);
      forall j | 0 <= j < k.n && st'.servers[t].lists[j] != []
        ensures MayHold(k, st', t, j)
      {
        ReceivedPlace(k, st, st', s, b, t, j);
      }
    }
  }

  /** An acknowledged wire falls silent, or a server with nothing left to do is done. */
  lemma QuietPlace(k: Constants, st: State, st': State, s: nat, t: nat, j: nat)
    requires Shape(k, st) && Shape(k, st') && TablesOk(k, st.mgr) && st'.mgr == st.mgr && s < k.nb
    requires st'.servers == st.servers[s := st'.servers[s]]
    requires || (st.servers[s].wire.Acked? && st'.servers[s] == st.servers[s].(wire := Quiet))
             || (st.servers[s].listener == Moving({}, 0) && st'.servers[s] == st.servers[s].(listener := Idle))
    requires t < k.nb && j < k.n && MayHold(k, st, t, j)
    ensures MayHold(k, st', t, j)
  {
    assert st.mgr.prev[j].srv < k.nb;
  }

  lemma QuietKeys(k: Constants, st: State, step: Step)
    requires WellFormed(k) && Inv(k, st) && Enabled(k, st, step) && (step.TakeAck? || step.Finish?)
    requires RoundInv(k, Next(k, st, step))
    ensures KeyInv(k, Next(k, st, step))
  {
    var st' := Next(k, st, step);
    forall t | 0 <= t < k.nb
      ensures ServerKeys(k, st'.servers[t]) && Placed(k, st', t)
    {
      assert ServerKeys(k, st.servers[t]) && Placed(k, st, t);
      forall j | 0 <= j < k.n && st'.servers[t].lists[j] != []
        ensures MayHold(k, st', t, j)
      {
        QuietPlace(k, st, st', step.s, t, j);
      }
    }
  }

  lemma BroadcastKeys(k: Constants, st: State, rows: seq<Assign>)
    requires WellFormed(k) && Inv(k, st) && Enabled(k, st, Broadcast(rows))
    requires RoundInv(k, Next(k, st, Broadcast(rows)))
    ensures KeyInv(k, Next(k, st, Broadcast(rows)))
  {
    var st' := Next(k, st, Broadcast(rows));
    BroadcastOnlyWhenSettled(k, st);
    forall t | 0 <= t < k.nb
      ensures ServerKeys(k, st'.servers[t]) && Placed(k, st', t)
    {
      assert ServerKeys(k, st.servers[t]) && Placed(k, st, t);
      forall j | 0 <= j < k.n && st'.servers[t].lists[j] != []
        ensures MayHold(k, st', t, j)
      {
        assert MayHold(k, st, t, j);
        assert t == st.mgr.table[j].srv;
        assert HasTable(st'.servers[t]);
      }
    }
  }

  /** Every step of every process keeps the whole invariant. */
  lemma NextInv(k: Constants, st: State, step: Step)
    requires WellFormed(k) && Inv(k, st) && Enabled(k, st, step)
    ensures Inv(k, Next(k, st, step))
  {
    var st' := Next(k, st, step);
    if step.ReceiveEntry? {
      ReceiveNotFailed(k, st, step.s, step.b);
    }
    NextRounds(k, st, step);
    NextVersions(k, st, step);
    match step
    case Serve(c) => ServeKeys(k, st, c);
    case Apply(s) => ApplyKeys(k, st, s);
    case SendEntry(s, i) => SendEntryKeys(k, st, s, i);
    case ReceiveEntry(s, b) => ReceiveEntryKeys(k, st, s, b);
    case TakeAck(_) => QuietKeys(k, st, step);
    case Finish(_) => QuietKeys(k, st, step);
    case Broadcast(rows) => BroadcastKeys(k, st, rows);
    case _ => PlainKeys(k, st, step);
  }

  lemma PlainKeys(k: Constants, st: State, step: Step)
    requires WellFormed(k) && Inv(k, st) && Enabled(k, st, step)
    requires RoundInv(k, Next(k, st, step))
    requires step.ClientSend? || step.ClientReceive? || step.ServerSignal? || step.TakeAsk? || step.AnswerAsk?
          || step.ManagerSignal? || step.TakeHelp? || step.Decide? || step.AskAll? || step.Collect? || step.Mark?
    ensures KeyInv(k, Next(k, st, step))
  {
    var st' := Next(k, st, step);
    PlainSteps(k, st, step);
    FrameKeys(k, st, st');
  }
}
