/** Rebalancing rounds never overlap: what every step keeps about the manager's
    loop, the servers' inboxes and the entries on the move. */
module Rounds {
  import opened Table
  import opened Protocol

  // ------------------------------------------------------------- one server

  /** The answers to the manager that a server has posted and nobody has read. */
  function Eacls(outbox: seq<ToManager>): nat {
    if outbox == [] then 0 else (if outbox[0].Eacl? then 1 else 0) + Eacls(outbox[1..])
  }

  /** What the inbox holds behind an unread table. */
  function Asks(sv: Server): seq<FromManager> {
    if HasTable(sv) then sv.inbox[1..] else sv.inbox
  }

  /** The server still has to answer the current question, or its answer is unread. */
  predicate Owes(sv: Server) {
    Asks(sv) != [] || sv.listener.Waiting? || Eacls(sv.outbox) > 0
  }

  /** Nothing left to do for the last broadcast table. */
  predicate Settled(m: Manager, sv: Server) {
    && !HasTable(sv) && !sv.listener.Moving? && sv.wire.Quiet?
    && RowsAre(sv.table, m.table)
  }

  predicate SameOwners(t: seq<Row>, a: seq<Assign>) {
    && |t| == |a|
    && forall i :: 0 <= i < |a| ==> t[i].srv == a[i].srv && t[i].ver == a[i].ver
  }

  predicate ServerRound(m: Manager, s: nat, sv: Server) {
    && (HasTable(sv) ==>
          sv.inbox[0].rows == m.table && sv.listener.Idle? && sv.wire.Quiet? && RowsAre(sv.table, m.prev))
    && (!HasTable(sv) && sv.listener.Moving? ==> SameOwners(sv.table, m.table))
    && (!HasTable(sv) && !sv.listener.Moving? ==> sv.wire.Quiet? && RowsAre(sv.table, m.table))
    && ServerAnswer(m, s, sv)
  }

  /** At most one question and one answer are under way, and only for a server the
      manager has not counted yet. */
  predicate ServerAnswer(m: Manager, s: nat, sv: Server) {
    && (Asks(sv) == [] || Asks(sv) == [Ask(LastAsk(m))])
    && (Owes(sv) ==> m.phase.Collecting? && s !in m.counted)
    && Eacls(sv.outbox) <= 1
    && (Asks(sv) != [] ==> !sv.listener.Waiting? && Eacls(sv.outbox) == 0)
    && (sv.listener.Waiting? ==> sv.inbox == [] && sv.listener.needed == LastAsk(m) && Eacls(sv.outbox) == 0)
    && (Eacls(sv.outbox) == 1 ==> sv.listener.Idle? && sv.inbox == [])
    && (m.phase.Collecting? && s in m.counted ==> sv.listener.Idle? && sv.inbox == [])
  }

  predicate Rounds(k: Constants, st: State)
    requires Shape(k, st)
  {
    && (forall s :: 0 <= s < k.nb ==> ServerRound(st.mgr, s, st.servers[s]))
    && CountedOk(k, st.mgr)
  }

  predicate CountedOk(k: Constants, m: Manager) {
    && (m.phase.Collecting? ==>
          m.asks != [] && m.phase.received == |m.counted| && forall s :: s in m.counted ==> s < k.nb)
  }

  // ---------------------------------------------------------- entries on the move

  /** The entries a server still has to pack, and those it still has to receive. */
  function Leaving(s: nat, t: seq<Row>): set<nat> {
    set i: nat | 0 <= i < |t| && t[i].busy && t[i].srv != s
  }

  function Arriving(s: nat, t: seq<Row>): set<nat> {
    set i: nat | 0 <= i < |t| && t[i].busy && t[i].srv == s
  }

  /** The to-do lists of a moving server are exactly its entries in transfer. */
  predicate ServerMove(s: nat, sv: Server) {
    sv.listener.Moving? ==>
      && sv.listener.pending == Leaving(s, sv.table)
      && sv.listener.expected == |Arriving(s, sv.table)|
  }

  predicate Changed(m: Manager, i: nat)
    requires i < |m.table| == |m.prev|
  {
    m.prev[i].ver != m.table[i].ver
  }

  /** Server `sv` still holds the keys of entry i, or its packet is under way. */
  predicate NotSent(sv: Server, i: nat) {
    || HasTable(sv)
    || (sv.listener.Moving? && i in sv.listener.pending)
    || (sv.wire.Packet? && sv.wire.entry == i)
  }

  predicate TablesOk(k: Constants, m: Manager) {
    && |m.table| == |m.prev| == k.n
    && (forall i :: 0 <= i < k.n ==> m.prev[i].srv < k.nb)
    && LegalRebalance(k.nb, m.prev, m.table)
  }

  /** An entry is in transfer only on its old and new owner; the new owner has it
      exactly when the old one has packed it and the packet has been read. */
  predicate EntryMove(k: Constants, st: State, i: nat)
    requires Shape(k, st) && i < k.n && TablesOk(k, st.mgr)
  {
    && (forall s :: 0 <= s < k.nb && !HasTable(st.servers[s]) && st.servers[s].table[i].busy ==>
          Changed(st.mgr, i) && st.servers[s].listener.Moving?
          && (s == st.mgr.prev[i].srv || s == st.mgr.table[i].srv))
    && (Changed(st.mgr, i) ==>
          var b := st.servers[st.mgr.table[i].srv];
          NotSent(st.servers[st.mgr.prev[i].srv], i) <==> HasTable(b) || b.table[i].busy)
    && (forall s :: 0 <= s < k.nb && st.servers[s].wire.Packet? && st.servers[s].wire.entry == i ==>
          Changed(st.mgr, i) && s == st.mgr.prev[i].srv && st.servers[s].wire.to == st.mgr.table[i].srv
          && !st.servers[s].table[i].busy)
  }

  predicate Moves(k: Constants, st: State)
    requires Shape(k, st)
  {
    && TablesOk(k, st.mgr)
    && (forall s :: 0 <= s < k.nb ==> ServerMove(s, st.servers[s]))
    && (forall i :: 0 <= i < k.n ==> EntryMove(k, st, i))
  }

  predicate RoundInv(k: Constants, st: State) {
    Shape(k, st) && Rounds(k, st) && Moves(k, st)
  }

  // ------------------------------------------------------------- small lemmas

  lemma EaclsAppend(out: seq<ToManager>, msg: ToManager)
    ensures Eacls(out + [msg]) == Eacls(out) + if msg.Eacl? then 1 else 0
  {
    if out != [] {
      assert (out + [msg])[1..] == out[1..] + [msg];
      EaclsAppend(out[1..], msg);
    }
  }

  /** A set of `n` numbers below `n` is all of them: counting answers is enough. */
  lemma {:induction false} AllCounted(counted: set<nat>, n: nat)
    requires forall s :: s in counted ==> s < n
    ensures |counted| <= n
    ensures |counted| == n <==> forall s :: 0 <= s < n ==> s in counted
  {
    if n > 0 {
      var rest := counted - {n - 1};
      AllCounted(rest, n - 1);
      if n - 1 in counted {
        assert counted == rest + {n - 1};
      } else {
        assert counted == rest;
      }
    }
  }

  lemma InitRounds(k: Constants, clients: nat)
    requires WellFormed(k)
    ensures RoundInv(k, Init(k, clients))
  {
    InitShape(k, clients);
  }

  // ------------------------------------------------------------ the ask and answer steps

  /** When the manager may broadcast, every server has finished the previous round. */
  lemma BroadcastOnlyWhenSettled(k: Constants, st: State)
    requires RoundInv(k, st)
    requires st.mgr.phase == Collecting(k.nb)
    ensures forall s :: 0 <= s < k.nb ==> Settled(st.mgr, st.servers[s]) && st.servers[s].inbox == []
                                          && st.servers[s].listener.Idle?
    ensures forall s :: 0 <= s < k.nb ==> Eacls(st.servers[s].outbox) == 0
  {
    AllCounted(st.mgr.counted, k.nb);
    forall s | 0 <= s < k.nb
      ensures Settled(st.mgr, st.servers[s]) && st.servers[s].inbox == []
              && st.servers[s].listener.Idle? && Eacls(st.servers[s].outbox) == 0
    {
      assert s in st.mgr.counted;
      assert ServerRound(st.mgr, s, st.servers[s]);
    }
  }
}
