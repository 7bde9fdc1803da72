/** Every step keeps the round invariant. */
module RoundSteps {
  import opened Table
  import opened Protocol
  import opened Rounds

  // ------------------------------------------------- steps that move no entry

  predicate SameMove(sv: Server, sv': Server) {
    && sv'.table == sv.table && sv'.wire == sv.wire && HasTable(sv') == HasTable(sv)
    && (sv'.listener == sv.listener || (!sv.listener.Moving? && !sv'.listener.Moving?))
  }

  lemma FrameMoves(k: Constants, st: State, st': State)
    requires Shape(k, st) && Shape(k, st') && Moves(k, st)
    requires st'.mgr.table == st.mgr.table && st'.mgr.prev == st.mgr.prev
    requires forall s :: 0 <= s < k.nb ==> SameMove(st.servers[s], st'.servers[s])
    ensures Moves(k, st')
  {
    forall s | 0 <= s < k.nb
      ensures ServerMove(s, st'.servers[s])
    {
      assert SameMove(st.servers[s], st'.servers[s]) && ServerMove(s, st.servers[s]);
    }
    forall i | 0 <= i < k.n
      ensures EntryMove(k, st', i)
    {
      assert EntryMove(k, st, i);
      assert TablesOk(k, st.mgr);
    }
  }

  /** The steps of a server that answers the manager, seen by that server alone. */
  lemma AnswerSteps(m: Manager, s: nat, sv: Server, help: bool)
    requires ServerRound(m, s, sv)
    ensures ServerRound(m, s, sv.(eaclEpoch := sv.eaclEpoch + 1,
                                  outbox := if help then sv.outbox + [Help(sv.eaclEpoch + 1)] else sv.outbox))
    ensures sv.listener.Idle? && sv.inbox != [] && sv.inbox[0].Ask? ==>
              && sv.inbox == [Ask(LastAsk(m))]
              && ServerRound(m, s, sv.(inbox := sv.inbox[1..],
                                       listener := if sv.inbox[0].epoch < sv.eaclEpoch then Idle
                                                   else Waiting(sv.inbox[0].epoch)))
    ensures sv.listener.Waiting? ==>
              ServerRound(m, s, sv.(listener := Idle, outbox := sv.outbox + [Eacl(s, sv.eaclEpoch)]))
  {
    EaclsAppend(sv.outbox, Help(sv.eaclEpoch + 1));
    EaclsAppend(sv.outbox, Eacl(s, sv.eaclEpoch));
  }

  /** The manager reads one message of a server's outbox. */
  lemma ReadOutbox(m: Manager, m': Manager, s: nat, sv: Server)
    requires ServerRound(m, s, sv) && sv.outbox != []
    requires m'.table == m.table && m'.prev == m.prev && m'.asks == m.asks
    requires m'.phase.Collecting? == m.phase.Collecting?
    requires m'.counted == m.counted + if m.phase.Collecting? && sv.outbox[0].Eacl? then {s} else {}
    ensures ServerRound(m', s, sv.(outbox := sv.outbox[1..]))
    ensures m.phase.Collecting? && sv.outbox[0].Eacl? ==> s !in m.counted
  {}

  /** A server that a step of the manager does not touch. */
  lemma OtherServer(m: Manager, m': Manager, s: nat, sv: Server)
    requires ServerRound(m, s, sv)
    requires m'.table == m.table && m'.prev == m.prev && m'.asks == m.asks
    requires m'.phase.Collecting? == m.phase.Collecting?
    requires m.phase.Collecting? ==> (s in m'.counted <==> s in m.counted)
    ensures ServerRound(m', s, sv)
  {}

  /** A step of the manager that reads at most one message of server s. */
  lemma ReadRounds(k: Constants, st: State, st': State, s: nat)
    requires RoundInv(k, st) && Shape(k, st') && CountedOk(k, st'.mgr) && s < k.nb
    requires st'.mgr.table == st.mgr.table && st'.mgr.prev == st.mgr.prev && st'.mgr.asks == st.mgr.asks
    requires st'.mgr.phase.Collecting? == st.mgr.phase.Collecting?
    requires
      || (st'.servers == st.servers && (st.mgr.phase.Collecting? ==> st'.mgr.counted == st.mgr.counted))
      || (st.servers[s].outbox != []
          && st'.servers == st.servers[s := st.servers[s].(outbox := st.servers[s].outbox[1..])]
          && st'.mgr.counted == st.mgr.counted
                                + if st.mgr.phase.Collecting? && st.servers[s].outbox[0].Eacl? then {s} else {})
    ensures RoundInv(k, st')
  {
    forall t | 0 <= t < k.nb
      ensures ServerRound(st'.mgr, t, st'.servers[t])
    {
      assert ServerRound(st.mgr, t, st.servers[t]);
      if t == s && st'.servers != st.servers {
        ReadOutbox(st.mgr, st'.mgr, s, st.servers[s]);
      } else {
        OtherServer(st.mgr, st'.mgr, t, st.servers[t]);
      }
    }
    FrameMoves(k, st, st');
  }

  lemma ManagerRounds(k: Constants, st: State, step: Step)
    requires WellFormed(k) && RoundInv(k, st) && Enabled(k, st, step)
    requires step.ManagerSignal? || step.TakeHelp? || step.Decide? || step.Mark?
    ensures RoundInv(k, Next(k, st, step))
  {
    NextShape(k, st, step);
    ReadRounds(k, st, Next(k, st, step), if step.TakeHelp? then step.s else 0);
  }

  lemma CollectRounds(k: Constants, st: State, s: nat)
    requires WellFormed(k) && RoundInv(k, st) && Enabled(k, st, Collect(s))
    ensures RoundInv(k, Next(k, st, Collect(s)))
  {
    var st' := Next(k, st, Collect(s));
    NextShape(k, st, Collect(s));
    if st.servers[s].outbox[0].Eacl? {
      assert ServerRound(st.mgr, s, st.servers[s]);
      assert Eacls(st.servers[s].outbox) > 0;
    }
    ReadRounds(k, st, st', s);
  }

  lemma AskAllRounds(k: Constants, st: State)
    requires WellFormed(k) && RoundInv(k, st) && Enabled(k, st, AskAll)
    ensures RoundInv(k, Next(k, st, AskAll))
  {
    var st' := Next(k, st, AskAll);
    NextShape(k, st, AskAll);
    assert LastAsk(st'.mgr) == st.mgr.epoch;
    forall s | 0 <= s < k.nb
      ensures ServerRound(st'.mgr, s, st'.servers[s]) && SameMove(st.servers[s], st'.servers[s])
    {
      var sv, sv' := st.servers[s], st'.servers[s];
      assert ServerRound(st.mgr, s, sv);
      assert sv'.inbox == sv.inbox + [Ask(st.mgr.epoch)];
      assert HasTable(sv) ==> sv.inbox == [sv.inbox[0]] + Asks(sv);
      assert Asks(sv') == [Ask(st.mgr.epoch)];
    }
    FrameMoves(k, st, st');
  }

  /** A step that changes no more of a server than its lists and its store. */
  lemma AlikeRounds(k: Constants, st: State, st': State)
    requires RoundInv(k, st) && Shape(k, st') && st'.mgr == st.mgr
    requires forall s :: 0 <= s < k.nb ==>
               st'.servers[s] == st.servers[s].(lists := st'.servers[s].lists, store := st'.servers[s].store)
    ensures RoundInv(k, st')
  {
    forall s | 0 <= s < k.nb
      ensures ServerRound(st'.mgr, s, st'.servers[s]) && SameMove(st.servers[s], st'.servers[s])
    {
      assert ServerRound(st.mgr, s, st.servers[s]);
    }
    FrameMoves(k, st, st');
  }

  lemma ClientRounds(k: Constants, st: State, step: Step)
    requires WellFormed(k) && RoundInv(k, st) && Enabled(k, st, step)
    requires step.ClientSend? || step.Serve? || step.ClientReceive?
    ensures RoundInv(k, Next(k, st, step))
  {
    var st' := Next(k, st, step);
    NextShape(k, st, step);
    if step.Serve? {
      HandleMove(k, st.servers[st.clients[step.c].call.to], st.clients[step.c].call.req);
    }
    AlikeRounds(k, st, st');
  }

  lemma AnswerRounds(k: Constants, st: State, step: Step)
    requires WellFormed(k) && RoundInv(k, st) && Enabled(k, st, step)
    requires step.ServerSignal? || step.TakeAsk? || step.AnswerAsk?
    ensures RoundInv(k, Next(k, st, step))
  {
    var st' := Next(k, st, step);
    NextShape(k, st, step);
    AnswerSteps(st.mgr, step.s, st.servers[step.s], step.ServerSignal? && step.help);
    FrameMoves(k, st, st');
  }

  // --------------------------------------------------------- steps of a transfer

  /** For servers that share the old table, what a must send to b is what b must
      receive from a. */
  lemma SendListIsReceiveList(k: Constants, m: Manager, a: nat, b: nat, ta: seq<Row>, tb: seq<Row>, i: nat)
    requires TablesOk(k, m) && RowsAre(ta, m.prev) && RowsAre(tb, m.prev)
    ensures (i in Outgoing(a, ta, m.table) && m.table[i].srv == b)
            <==> (i in Incoming(b, tb, m.table) && m.prev[i].srv == a)
  {}

  lemma ApplyIsMove(k: Constants, m: Manager, s: nat, sv: Server)
    requires TablesOk(k, m) && ServerShape(k, sv) && HasTable(sv) && ServerRound(m, s, sv)
    ensures
      var sv' := ApplyServer(k, s, sv);
      && ServerRound(m, s, sv') && ServerMove(s, sv') && !HasTable(sv')
      && forall i :: 0 <= i < k.n ==>
           (sv'.table[i].busy <==> Changed(m, i) && (s == m.prev[i].srv || s == m.table[i].srv))
  {
    var sv' := ApplyServer(k, s, sv);
    assert sv'.inbox == Asks(sv);
    assert Leaving(s, sv'.table) == Outgoing(s, sv.table, m.table);
    assert Arriving(s, sv'.table) == Incoming(s, sv.table, m.table);
  }

  lemma ApplyRounds(k: Constants, st: State, s: nat)
    requires WellFormed(k) && RoundInv(k, st) && Enabled(k, st, Apply(s))
    ensures RoundInv(k, Next(k, st, Apply(s)))
  {
    var st' := Next(k, st, Apply(s));
    NextShape(k, st, Apply(s));
    ApplyIsMove(k, st.mgr, s, st.servers[s]);
    forall i | 0 <= i < k.n
      ensures EntryMove(k, st', i)
    {
      assert EntryMove(k, st, i);
      assert st.mgr.prev[i].srv < k.nb && st.mgr.table[i].srv < k.nb;
      assert ServerRound(st.mgr, st.mgr.prev[i].srv, st.servers[st.mgr.prev[i].srv]);
    }
  }

  /** Packing an entry: only its state flag, the pending set and the wire change. */
  lemma SendIsMove(k: Constants, m: Manager, s: nat, sv: Server, i: nat)
    requires ServerShape(k, sv) && ServerRound(m, s, sv) && ServerMove(s, sv)
    requires sv.listener.Moving? && i in sv.listener.pending
    ensures ServerRound(m, s, SendServer(k, sv, i)) && ServerMove(s, SendServer(k, sv, i))
    ensures sv.table[i].busy && sv.table[i].srv != s && !HasTable(sv)
  {
    var sv' := SendServer(k, sv, i);
    if !sv'.failed || sv.failed {
      assert Leaving(s, sv'.table) == Leaving(s, sv.table) - {i}
             || sv' == sv.(failed := true);
      assert Arriving(s, sv'.table) == Arriving(s, sv.table);
    }
  }

  /** What packing entry i does to a server, as far as transfers are concerned. */
  predicate Packed(sv: Server, sv': Server, i: nat) {
    && i < |sv.table| && sv.listener.Moving? && i in sv.listener.pending
    && sv'.table == sv.table[i := sv.table[i].(busy := false)]
    && sv'.listener == Moving(sv.listener.pending - {i}, sv.listener.expected)
    && sv'.wire.Packet? && sv'.wire.entry == i && sv'.wire.to == sv.table[i].srv
    && HasTable(sv') == HasTable(sv)
  }

  lemma PackedEntry(k: Constants, st: State, st': State, s: nat, i: nat, j: nat)
    requires RoundInv(k, st) && Shape(k, st') && s < k.nb && j < k.n && TablesOk(k, st'.mgr)
    requires st'.mgr == st.mgr && st'.servers == st.servers[s := st'.servers[s]]
    requires Packed(st.servers[s], st'.servers[s], i) && st.servers[s].wire.Quiet?
    requires i < k.n && st.servers[s].table[i].busy && st.servers[s].table[i].srv != s && !HasTable(st.servers[s])
    ensures EntryMove(k, st', j)
  {
    assert EntryMove(k, st, j);
    assert TablesOk(k, st.mgr);
    assert ServerRound(st.mgr, s, st.servers[s]);
    assert SameOwners(st.servers[s].table, st.mgr.table);
    assert st.mgr.prev[j].srv < k.nb && st.mgr.table[j].srv < k.nb;
  }

  lemma SendRounds(k: Constants, st: State, s: nat, i: nat)
    requires WellFormed(k) && RoundInv(k, st) && Enabled(k, st, SendEntry(s, i))
    ensures RoundInv(k, Next(k, st, SendEntry(s, i)))
  {
    var st' := Next(k, st, SendEntry(s, i));
    NextShape(k, st, SendEntry(s, i));
    assert ServerRound(st.mgr, s, st.servers[s]) && ServerMove(s, st.servers[s]);
    SendIsMove(k, st.mgr, s, st.servers[s], i);
    assert TablesOk(k, st'.mgr);
    if st'.servers[s] == st.servers[s].(failed := true) {
      FrameMoves(k, st, st');
    } else {
      assert Packed(st.servers[s], st'.servers[s], i);
      forall j | 0 <= j < k.n
        ensures EntryMove(k, st', j)
      {
        PackedEntry(k, st, st', s, i, j);
      }
    }
  }

  /** The packet under way is one its receiver still expects. */
  lemma PacketIsExpected(k: Constants, st: State, s: nat)
    requires WellFormed(k) && RoundInv(k, st)
    requires s < k.nb && st.servers[s].wire.Packet?
    ensures
      var w := st.servers[s].wire;
      && w.to < k.nb && w.to != s && w.entry < k.n
      && w.to == st.mgr.table[w.entry].srv && s == st.mgr.prev[w.entry].srv
      && (HasTable(st.servers[w.to]) ||
          (st.servers[w.to].listener.Moving? && st.servers[w.to].listener.expected > 0
           && w.entry in Arriving(w.to, st.servers[w.to].table)))
  {
    var w := st.servers[s].wire;
    assert EntryMove(k, st, w.entry);
    assert ServerRound(st.mgr, w.to, st.servers[w.to]);
    if !HasTable(st.servers[w.to]) {
      assert w.entry in Arriving(w.to, st.servers[w.to].table);
      assert ServerMove(w.to, st.servers[w.to]);
    }
  }

  lemma ReceiveIsMove(k: Constants, m: Manager, b: nat, sv: Server, i: nat, names: string)
    requires ServerShape(k, sv) && ServerRound(m, b, sv) && ServerMove(b, sv)
    requires !HasTable(sv) && sv.listener.Moving? && sv.listener.expected > 0
    requires i in Arriving(b, sv.table)
    ensures ServerRound(m, b, ReceiveServer(k, sv, i, names)) && ServerMove(b, ReceiveServer(k, sv, i, names))
  {
    var sv' := ReceiveServer(k, sv, i, names);
    if sv' != sv.(failed := true) {
      assert Leaving(b, sv'.table) == Leaving(b, sv.table);
      assert Arriving(b, sv'.table) == Arriving(b, sv.table) - {i};
    }
  }

  lemma ReceivedEntry(k: Constants, st: State, st': State, s: nat, b: nat, j: nat)
    requires Shape(k, st) && Shape(k, st') && s < k.nb && b < k.nb && s != b && j < k.n
    requires TablesOk(k, st.mgr) && EntryMove(k, st, j)
    requires ServerRound(st.mgr, s, st.servers[s]) && ServerMove(s, st.servers[s])
    requires st'.mgr == st.mgr && st'.servers == st.servers[b := st'.servers[b]][s := st'.servers[s]]
    requires st.servers[s].wire.Packet? && st'.servers[s] == st.servers[s].(wire := Acked)
    requires !HasTable(st.servers[b]) && !HasTable(st'.servers[b])
    requires
      var i := st.servers[s].wire.entry;
      && i < k.n && b == st.mgr.table[i].srv && s == st.mgr.prev[i].srv
      && st.servers[b].listener.Moving? && st'.servers[b].listener.Moving?
      && st'.servers[b].listener.pending == st.servers[b].listener.pending
      && st'.servers[b].table == st.servers[b].table[i := st.servers[b].table[i].(busy := false)]
      && st'.servers[b].wire == st.servers[b].wire
    ensures EntryMove(k, st', j)
  {
    assert st.mgr.prev[j].srv < k.nb && st.mgr.table[j].srv < k.nb;
  }

  /** What reading a packet changes. */
  lemma ReceivedState(k: Constants, st: State, s: nat, b: nat)
    requires WellFormed(k) && Shape(k, st) && Enabled(k, st, ReceiveEntry(s, b)) && s != b
    ensures
      var st' := Next(k, st, ReceiveEntry(s, b));
      var w := st.servers[s].wire;
      && Shape(k, st') && st'.mgr == st.mgr
      && st'.servers == st.servers[b := st'.servers[b]][s := st.servers[s].(wire := Acked)]
      && st'.servers[b] == ReceiveServer(k, st.servers[b], w.entry, w.names)
  {
    NextShape(k, st, ReceiveEntry(s, b));
  }

  lemma PacketRead(k: Constants, st: State, st': State, s: nat, b: nat)
    requires WellFormed(k) && RoundInv(k, st) && Shape(k, st') && Enabled(k, st, ReceiveEntry(s, b)) && s != b
    requires st'.mgr == st.mgr && st'.servers == st.servers[b := st'.servers[b]][s := st.servers[s].(wire := Acked)]
    requires st'.servers[b] == ReceiveServer(k, st.servers[b], st.servers[s].wire.entry, st.servers[s].wire.names)
    requires !st'.servers[b].failed
    ensures RoundInv(k, st')
  {
    var w := st.servers[s].wire;
    PacketIsExpected(k, st, s);
    assert ServerRound(st.mgr, b, st.servers[b]) && ServerMove(b, st.servers[b]);
    assert ServerRound(st.mgr, s, st.servers[s]) && ServerMove(s, st.servers[s]);
    ReceiveIsMove(k, st.mgr, b, st.servers[b], w.entry, w.names);
    assert TablesOk(k, st'.mgr);
    forall j | 0 <= j < k.n
      ensures EntryMove(k, st', j)
    {
      assert EntryMove(k, st, j);
      ReceivedEntry(k, st, st', s, b, j);
    }
  }

  lemma ReceiveRounds(k: Constants, st: State, s: nat, b: nat)
    requires WellFormed(k) && RoundInv(k, st) && Enabled(k, st, ReceiveEntry(s, b))
    requires !Next(k, st, ReceiveEntry(s, b)).servers[b].failed
    ensures RoundInv(k, Next(k, st, ReceiveEntry(s, b)))
  {
    PacketIsExpected(k, st, s);
    ReceivedState(k, st, s, b);
    PacketRead(k, st, Next(k, st, ReceiveEntry(s, b)), s, b);
  }

  lemma QuietRounds(k: Constants, st: State, s: nat)
    requires WellFormed(k) && RoundInv(k, st) && Enabled(k, st, TakeAck(s))
    ensures RoundInv(k, Next(k, st, TakeAck(s)))
  {
    var st' := Next(k, st, TakeAck(s));
    NextShape(k, st, TakeAck(s));
    forall i | 0 <= i < k.n
      ensures EntryMove(k, st', i)
    {
      assert EntryMove(k, st, i);
      assert st.mgr.prev[i].srv < k.nb && st.mgr.table[i].srv < k.nb;
    }
  }

  /** When both to-do lists are done, no entry of the server is in transfer. */
  lemma FinishIsSettled(k: Constants, m: Manager, s: nat, sv: Server)
    requires ServerRound(m, s, sv) && ServerMove(s, sv) && sv.listener == Moving({}, 0)
    ensures RowsAre(sv.table, m.table)
  {
    forall i | 0 <= i < |sv.table|
      ensures !sv.table[i].busy
    {
      assert i !in Leaving(s, sv.table) && i !in Arriving(s, sv.table);
    }
  }

  lemma FinishRounds(k: Constants, st: State, s: nat)
    requires WellFormed(k) && RoundInv(k, st) && Enabled(k, st, Finish(s))
    ensures RoundInv(k, Next(k, st, Finish(s)))
  {
    var st' := Next(k, st, Finish(s));
    NextShape(k, st, Finish(s));
    assert ServerRound(st.mgr, s, st.servers[s]) && ServerMove(s, st.servers[s]);
    FinishIsSettled(k, st.mgr, s, st.servers[s]);
    forall i | 0 <= i < k.n
      ensures EntryMove(k, st', i)
    {
      assert EntryMove(k, st, i);
      assert st.mgr.prev[i].srv < k.nb && st.mgr.table[i].srv < k.nb;
    }
  }

  lemma BroadcastRounds(k: Constants, st: State, rows: seq<Assign>)
    requires WellFormed(k) && RoundInv(k, st) && Enabled(k, st, Broadcast(rows))
    ensures RoundInv(k, Next(k, st, Broadcast(rows)))
  {
    var st' := Next(k, st, Broadcast(rows));
    NextShape(k, st, Broadcast(rows));
    BroadcastOnlyWhenSettled(k, st);
    forall s | 0 <= s < k.nb
      ensures ServerRound(st'.mgr, s, st'.servers[s])
    {
      assert st'.servers[s].inbox == [NewTable(rows)];
      assert Asks(st'.servers[s]) == [];
    }
    assert TablesOk(k, st'.mgr);
    forall i | 0 <= i < k.n
      ensures EntryMove(k, st', i)
    {
      assert HasTable(st'.servers[st'.mgr.prev[i].srv]);
    }
  }

  /** The round invariant is kept by every step that does not run into a failed
      storage operation (which `Keys` shows never happens). */
  lemma NextRounds(k: Constants, st: State, step: Step)
    requires WellFormed(k) && RoundInv(k, st) && Enabled(k, st, step)
    requires step.ReceiveEntry? ==> !Next(k, st, step).servers[step.b].failed
    ensures RoundInv(k, Next(k, st, step))
  {
    match step
    case ClientSend(_, _, _) => ClientRounds(k, st, step);
    case Serve(_) => ClientRounds(k, st, step);
    case ClientReceive(_) => ClientRounds(k, st, step);
    case ServerSignal(_, _) => AnswerRounds(k, st, step);
    case TakeAsk(_) => AnswerRounds(k, st, step);
    case AnswerAsk(_) => AnswerRounds(k, st, step);
    case Apply(s) => ApplyRounds(k, st, s);
    case SendEntry(s, i) => SendRounds(k, st, s, i);
    case ReceiveEntry(s, b) => ReceiveRounds(k, st, s, b);
    case TakeAck(s) => QuietRounds(k, st, s);
    case Finish(s) => FinishRounds(k, st, s);
    case AskAll => AskAllRounds(k, st);
    case Broadcast(rows) => BroadcastRounds(k, st, rows);
    case Collect(s) => CollectRounds(k, st, s);
    case _ => ManagerRounds(k, st, step);
  }

  /** Steps outside transfers and broadcasts leave every server's transfers alone. */
  lemma PlainSteps(k: Constants, st: State, step: Step)
    requires WellFormed(k) && RoundInv(k, st) && Enabled(k, st, step) && !step.Broadcast?
    requires !step.Apply? && !step.SendEntry? && !step.ReceiveEntry? && !step.TakeAck? && !step.Finish?
    ensures |Next(k, st, step).servers| == k.nb
    ensures forall s :: 0 <= s < k.nb ==> SameMove(st.servers[s], Next(k, st, step).servers[s])
  {
    var st' := Next(k, st, step);
    forall s | 0 <= s < k.nb
      ensures SameMove(st.servers[s], st'.servers[s])
    {
      assert ServerRound(st.mgr, s, st.servers[s]);
      match step
      case Serve(c) => HandleMove(k, st.servers[st.clients[c].call.to], st.clients[c].call.req);
      case _ =>
    }
  }

  lemma HandleMove(k: Constants, sv: Server, req: Request)
    requires ServerShape(k, sv) && req.index < k.n
    ensures SameMove(sv, Handle(k, sv, req).sv)
    ensures Handle(k, sv, req).sv == sv.(lists := Handle(k, sv, req).sv.lists, store := Handle(k, sv, req).sv.store)
  {}
}
