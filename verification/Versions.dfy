/** A version number determines its owner: every (server, version) pair that any
    process or message holds for an entry is one the manager assigned. */
module Versions {
  import opened Table
  import opened Protocol
  import opened Rounds

  /** The manager gave entry i to `srv` when it raised the entry to version `ver`. */
  predicate Assigned(st: State, i: nat, srv: nat, ver: nat) {
    i < |st.owners| && ver < |st.owners[i]| && st.owners[i][ver] == srv
  }

  predicate ManagerVersions(k: Constants, st: State)
    requires Shape(k, st)
  {
    forall i :: 0 <= i < k.n ==>
      && |st.owners[i]| == st.mgr.table[i].ver + 1
      && (forall v :: 0 <= v < |st.owners[i]| ==> st.owners[i][v] < k.nb)
      && Assigned(st, i, st.mgr.table[i].srv, st.mgr.table[i].ver)
      && Assigned(st, i, st.mgr.prev[i].srv, st.mgr.prev[i].ver)
  }

  predicate ClientVersions(k: Constants, st: State, cl: Client)
    requires ClientShape(k, cl)
  {
    && (forall i :: 0 <= i < k.n ==> Assigned(st, i, cl.table[i].srv, cl.table[i].ver))
    && (cl.call.Sent? ==> Assigned(st, cl.call.req.index, cl.call.to, cl.call.req.ver))
    && (cl.call.Answered? && cl.call.reply.UpdateRetry? ==>
          Assigned(st, cl.call.reply.index, cl.call.reply.srv, cl.call.reply.ver))
  }

  predicate VersionInv(k: Constants, st: State)
    requires Shape(k, st)
  {
    && ManagerVersions(k, st)
    && forall c :: 0 <= c < |st.clients| ==> ClientVersions(k, st, st.clients[c])
  }

  lemma InitVersions(k: Constants, clients: nat)
    requires WellFormed(k)
    ensures Shape(k, Init(k, clients)) && VersionInv(k, Init(k, clients))
  {
    InitShape(k, clients);
  }

  /** Every line of every server's table is one the manager assigned. */
  lemma ServerLineAssigned(k: Constants, st: State, s: nat, i: nat)
    requires RoundInv(k, st) && VersionInv(k, st) && s < k.nb && i < k.n
    ensures Assigned(st, i, st.servers[s].table[i].srv, st.servers[s].table[i].ver)
  {
    assert ServerRound(st.mgr, s, st.servers[s]);
  }

  lemma ClientsGrow(k: Constants, st: State, st': State, cl: Client)
    requires Shape(k, st) && Shape(k, st') && ClientShape(k, cl) && ClientVersions(k, st, cl)
    requires forall i :: 0 <= i < k.n ==> st.owners[i] <= st'.owners[i]
    ensures ClientVersions(k, st', cl)
  {}

  lemma BroadcastVersions(k: Constants, st: State, rows: seq<Assign>)
    requires WellFormed(k) && RoundInv(k, st) && VersionInv(k, st) && Enabled(k, st, Broadcast(rows))
    ensures Shape(k, Next(k, st, Broadcast(rows))) && ManagerVersions(k, Next(k, st, Broadcast(rows)))
    ensures forall i :: 0 <= i < k.n ==> st.owners[i] <= Next(k, st, Broadcast(rows)).owners[i]
  {
    var st' := Next(k, st, Broadcast(rows));
    NextShape(k, st, Broadcast(rows));
    forall i | 0 <= i < k.n
      ensures |st'.owners[i]| == st'.mgr.table[i].ver + 1 && st.owners[i] <= st'.owners[i]
      ensures forall v :: 0 <= v < |st'.owners[i]| ==> st'.owners[i][v] < k.nb
      ensures Assigned(st', i, st'.mgr.table[i].srv, st'.mgr.table[i].ver)
      ensures Assigned(st', i, st'.mgr.prev[i].srv, st'.mgr.prev[i].ver)
    {
      assert |st.owners[i]| == st.mgr.table[i].ver + 1;
      assert rows[i] == st.mgr.table[i] || rows[i].ver == st.mgr.table[i].ver + 1;
    }
  }

  /** What a step does to one client. */
  lemma NextClient(k: Constants, st: State, step: Step, c: nat)
    requires WellFormed(k) && RoundInv(k, st) && VersionInv(k, st) && Enabled(k, st, step) && !step.Broadcast?
    requires Shape(k, Next(k, st, step)) && c < |st.clients|
    ensures |Next(k, st, step).clients| == |st.clients|
    ensures ClientVersions(k, Next(k, st, step), Next(k, st, step).clients[c])
  {
    assert ClientVersions(k, st, st.clients[c]);
    if step.Serve? && step.c == c {
      ServerLineAssigned(k, st, st.clients[c].call.to, st.clients[c].call.req.index);
    }
  }

  lemma NextVersions(k: Constants, st: State, step: Step)
    requires WellFormed(k) && RoundInv(k, st) && VersionInv(k, st) && Enabled(k, st, step)
    ensures Shape(k, Next(k, st, step)) && VersionInv(k, Next(k, st, step))
  {
    var st' := Next(k, st, step);
    NextShape(k, st, step);
    if step.Broadcast? {
      BroadcastVersions(k, st, step.rows);
      forall c | 0 <= c < |st.clients|
        ensures ClientVersions(k, st', st.clients[c])
      {
        ClientsGrow(k, st, st', st.clients[c]);
      }
    } else {
      assert st'.owners == st.owners && st'.mgr.table == st.mgr.table && st'.mgr.prev == st.mgr.prev;
      forall c | 0 <= c < |st.clients|
        ensures ClientVersions(k, st', st'.clients[c])
      {
        NextClient(k, st, step, c);
      }
    }
  }

  /** Every server a client's cached table names exists, so a client can always send. */
  lemma ClientTargets(k: Constants, st: State, c: nat, i: nat)
    requires Shape(k, st) && VersionInv(k, st) && c < |st.clients| && i < k.n
    ensures st.clients[c].table[i].srv < k.nb
  {
    assert ClientVersions(k, st, st.clients[c]);
    assert Assigned(st, i, st.clients[c].table[i].srv, st.clients[c].table[i].ver);
  }

  // ---------------------------------------------------------------- who may accept

  /** Server s would perform a request for entry i that carries its own version. */
  predicate Accepts(k: Constants, st: State, s: nat, i: nat)
    requires Shape(k, st) && s < k.nb && i < k.n
  {
    !st.servers[s].table[i].busy && st.servers[s].table[i].srv == s
  }

  /** A server that performs a client's request, having checked only the version
      number and the state flag, is the owner of the entry at that version. */
  lemma PerformerIsOwner(k: Constants, st: State, c: nat)
    requires WellFormed(k) && RoundInv(k, st) && VersionInv(k, st) && Enabled(k, st, Serve(c))
    requires Next(k, st, Serve(c)).clients[c].call.reply.Done?
          || Next(k, st, Serve(c)).clients[c].call.reply.Aborted?
    ensures Accepts(k, st, st.clients[c].call.to, st.clients[c].call.req.index)
    ensures Assigned(st, st.clients[c].call.req.index, st.clients[c].call.to, st.clients[c].call.req.ver)
  {
    var cl := st.clients[c];
    assert ClientVersions(k, st, cl);
    ServerLineAssigned(k, st, cl.call.to, cl.call.req.index);
  }

  /** At most one server would perform a request for a given entry. */
  lemma SingleAcceptor(k: Constants, st: State, i: nat, s: nat, s': nat)
    requires RoundInv(k, st) && i < k.n && s < k.nb && s' < k.nb
    requires Accepts(k, st, s, i) && Accepts(k, st, s', i)
    ensures s == s'
  {
    assert ServerRound(st.mgr, s, st.servers[s]) && ServerRound(st.mgr, s', st.servers[s']);
    assert EntryMove(k, st, i);
    var a, b := st.mgr.prev[i].srv, st.mgr.table[i].srv;
    assert ServerRound(st.mgr, a, st.servers[a]) && ServerRound(st.mgr, b, st.servers[b]);
  }
}
