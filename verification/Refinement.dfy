/** The whole store behaves as one set of keys: the main results about runs. */
module Refinement {
  import opened Protocol
  import opened Versions
  import opened Keys
  import Packing

  // --------------------------------------------------------------- one set of keys

  /** The keys a server answers for: those stored, and those of its packet. */
  function Held(sv: Server): set<Key> {
    sv.store + (if sv.wire.Packet? then set key | key in Packing.Unpack(sv.wire.names) else {})
  }

  /** All keys of the system: in some server's store or in some packet. */
  function Live(st: State): set<Key> {
    set s: nat, key | 0 <= s < |st.servers| && key in Held(st.servers[s]) :: key
  }

  datatype Place = Store(s: nat) | InPacket(s: nat)

  predicate IsAt(k: Constants, st: State, key: Key, p: Place)
    requires Shape(k, st)
  {
    && p.s < k.nb
    && match p
       case Store(s) => key in st.servers[s].store
       case InPacket(s) => st.servers[s].wire.Packet? && key in Packing.Unpack(st.servers[s].wire.names)
  }

  /** The set a client believes it talks to. */
  function Perform(live: set<Key>, op: Op, key: Key): (set<Key>, Reply) {
    match op
    case Create => if key in live then (live, Aborted) else (live + {key}, Done)
    case Delete => if key in live then (live - {key}, Done) else (live, Aborted)
    case Read => (live, if key in live then Done else Aborted)
    case Update => (live, if key in live then Done else Aborted)
  }

  lemma StoreHasPlace(k: Constants, st: State, s: nat, key: Key)
    requires WellFormed(k) && Inv(k, st) && s < k.nb && key in st.servers[s].store
    ensures MayHold(k, st, s, k.index(key))
    ensures key in st.servers[s].lists[k.index(key)]
  {
    assert ServerKeys(k, st.servers[s]) && Placed(k, st, s);
  }

  lemma PacketHasEntry(k: Constants, st: State, s: nat, key: Key)
    requires WellFormed(k) && Inv(k, st) && s < k.nb && IsAt(k, st, key, InPacket(s))
    ensures st.servers[s].wire.entry == k.index(key)
  {
    assert ServerKeys(k, st.servers[s]);
  }

  /** Each key is in exactly one place: one server's store or one packet. */
  lemma ExactlyOnePlace(k: Constants, st: State, key: Key)
    requires WellFormed(k) && Inv(k, st)
    ensures key in Live(st) <==> exists p :: IsAt(k, st, key, p)
    ensures forall p, q :: IsAt(k, st, key, p) && IsAt(k, st, key, q) ==> p == q
  {
    if key in Live(st) {
      var s: nat :| s < k.nb && key in Held(st.servers[s]);
      assert IsAt(k, st, key, Store(s)) || IsAt(k, st, key, InPacket(s));
    }
    forall p | IsAt(k, st, key, p)
      ensures key in Live(st)
    {
      assert key in Held(st.servers[p.s]);
    }
    forall p, q | IsAt(k, st, key, p) && IsAt(k, st, key, q)
      ensures p == q
    {
      SamePlaces(k, st, key, p, q);
    }
  }

  lemma SamePlaces(k: Constants, st: State, key: Key, p: Place, q: Place)
    requires WellFormed(k) && Inv(k, st) && IsAt(k, st, key, p) && IsAt(k, st, key, q)
    ensures p == q
  {
    if p.Store? {
      StoreHasPlace(k, st, p.s, key);
      OnePlace(k, st, k.index(key), p.s, q.s);
    }
    if q.Store? {
      StoreHasPlace(k, st, q.s, key);
      OnePlace(k, st, k.index(key), q.s, p.s);
    }
    if p.InPacket? { PacketHasEntry(k, st, p.s, key); }
    if q.InPacket? { PacketHasEntry(k, st, q.s, key); }
    if p.InPacket? && q.InPacket? { OnePacket(k, st, p.s, q.s); }
  }

  // ------------------------------------------------------------------ the refinement

  /** The step is one of the abstract set: either it performs a client's request and
      replies as the set would, or it changes no key at all. */
  predicate RefinesSet(k: Constants, st: State, step: Step)
    requires Shape(k, st) && Enabled(k, st, step) && Shape(k, Next(k, st, step))
  {
    var st' := Next(k, st, step);
    if step.Serve? && (st'.clients[step.c].call.reply.Done? || st'.clients[step.c].call.reply.Aborted?) then
      var req := st.clients[step.c].call.req;
      (Live(st'), st'.clients[step.c].call.reply) == Perform(Live(st), req.op, req.key)
    else Live(st') == Live(st)
  }

  /** The place of an entry knows all keys of that entry. */
  lemma OwnerKnows(k: Constants, st: State, s: nat, key: Key)
    requires WellFormed(k) && Inv(k, st) && s < k.nb && MayHold(k, st, s, k.index(key))
    ensures key in Live(st) <==> key in st.servers[s].store
  {
    assert key in st.servers[s].store ==> key in Held(st.servers[s]);
    if key in Live(st) {
      ExactlyOnePlace(k, st, key);
      var p :| IsAt(k, st, key, p);
      if p.Store? {
        StoreHasPlace(k, st, p.s, key);
        OnePlace(k, st, k.index(key), s, p.s);
      } else {
        PacketHasEntry(k, st, p.s, key);
        OnePlace(k, st, k.index(key), s, p.s);
      }
    }
  }

  lemma LiveFrame(st: State, st': State)
    requires |st'.servers| == |st.servers|
    requires forall s :: 0 <= s < |st.servers| ==> Held(st'.servers[s]) == Held(st.servers[s])
    ensures Live(st') == Live(st)
  {
    forall key
      ensures key in Live(st') <==> key in Live(st)
    {
      if key in Live(st') {
        var s: nat :| s < |st.servers| && key in Held(st'.servers[s]);
        assert key in Held(st.servers[s]);
      }
    }
  }

  /** Beside the place of its entry, a key is nowhere. */
  lemma KeyElsewhere(k: Constants, st: State, to: nat, key: Key)
    requires WellFormed(k) && Inv(k, st) && to < k.nb && MayHold(k, st, to, k.index(key))
    ensures forall s :: 0 <= s < k.nb && s != to ==> key !in Held(st.servers[s])
    ensures !IsAt(k, st, key, InPacket(to))
  {
    OnePlace(k, st, k.index(key), to, to);
    if IsAt(k, st, key, InPacket(to)) {
      PacketHasEntry(k, st, to, key);
    }
    forall s | 0 <= s < k.nb && key in Held(st.servers[s])
      ensures s == to && key in st.servers[s].store
    {
      if key in st.servers[s].store {
        StoreHasPlace(k, st, s, key);
      } else {
        PacketHasEntry(k, st, s, key);
      }
      OnePlace(k, st, k.index(key), to, s);
    }
  }

  /** One server changed what it answers for by `key`, which no other server has. */
  lemma LiveOneKey(st: State, st': State, to: nat, key: Key, present: bool)
    requires |st'.servers| == |st.servers| && to < |st.servers|
    requires forall s :: 0 <= s < |st.servers| && s != to ==>
               st'.servers[s] == st.servers[s] && key !in Held(st.servers[s])
    requires Held(st'.servers[to]) == if present then Held(st.servers[to]) + {key} else Held(st.servers[to]) - {key}
    ensures Live(st') == if present then Live(st) + {key} else Live(st) - {key}
  {
    forall x
      ensures x in Live(st') <==> if x == key then present else x in Live(st)
    {
      if x == key {
        assert key in Held(st'.servers[to]) <==> present;
      } else {
        assert forall s :: 0 <= s < |st.servers| ==> (x in Held(st'.servers[s]) <==> x in Held(st.servers[s]));
      }
    }
  }

  /** The place of an entry gains or loses a key of that entry. */
  lemma LiveUpdate(k: Constants, st: State, st': State, to: nat, key: Key, present: bool)
    requires WellFormed(k) && Inv(k, st) && to < k.nb && MayHold(k, st, to, k.index(key))
    requires |st'.servers| == k.nb
    requires forall s :: 0 <= s < k.nb && s != to ==> st'.servers[s] == st.servers[s]
    requires st'.servers[to].wire == st.servers[to].wire
    requires st'.servers[to].store == if present then st.servers[to].store + {key} else st.servers[to].store - {key}
    ensures Live(st') == if present then Live(st) + {key} else Live(st) - {key}
  {
    KeyElsewhere(k, st, to, key);
    LiveOneKey(st, st', to, key, present);
  }

  /** A performed request does to the live keys what it does to a set. */
  lemma PerformedLive(k: Constants, st: State, st': State, to: nat, req: Request)
    requires WellFormed(k) && Inv(k, st) && to < k.nb && req.index == k.index(req.key)
    requires MayHold(k, st, to, req.index)
    requires st'.servers == st.servers[to := Handle(k, st.servers[to], req).sv]
    requires Handle(k, st.servers[to], req).reply.Done? || Handle(k, st.servers[to], req).reply.Aborted?
    ensures (Live(st'), Handle(k, st.servers[to], req).reply) == Perform(Live(st), req.op, req.key)
  {
    OwnerKnows(k, st, to, req.key);
    if req.key in st.servers[to].store {
      StoreHasPlace(k, st, to, req.key);
    }
    if Handle(k, st.servers[to], req).sv == st.servers[to] {
      LiveFrame(st, st');
    } else {
      LiveUpdate(k, st, st', to, req.key, req.op.Create?);
    }
  }

  lemma ServeRefines(k: Constants, st: State, c: nat)
    requires WellFormed(k) && Inv(k, st) && Enabled(k, st, Serve(c)) && Shape(k, Next(k, st, Serve(c)))
    ensures RefinesSet(k, st, Serve(c))
  {
    var st' := Next(k, st, Serve(c));
    var to, req := st.clients[c].call.to, st.clients[c].call.req;
    var out := Handle(k, st.servers[to], req);
    ServedState(k, st, c);
    if out.reply.Done? || out.reply.Aborted? {
      PerformerIsOwner(k, st, c);
      AcceptorHolds(k, st, to, req.index);
      PerformedLive(k, st, st', to, req);
    } else {
      LiveFrame(st, st');
    }
  }

  lemma SendRefines(k: Constants, st: State, s: nat, i: nat)
    requires WellFormed(k) && Inv(k, st) && Enabled(k, st, SendEntry(s, i))
    ensures Live(Next(k, st, SendEntry(s, i))) == Live(st)
  {
    var st' := Next(k, st, SendEntry(s, i));
    assert ServerKeys(k, st.servers[s]);
    SendKeys(k, st.servers[s], i);
    forall key | key in st.servers[s].lists[i]
      ensures key in st.servers[s].store
    {
      assert k.index(key) == i;
    }
    LiveFrame(st, st');
  }

  /** Keys that server b takes over from server s. */
  lemma LiveHandedOver(st: State, st': State, s: nat, b: nat, moved: set<Key>)
    requires |st'.servers| == |st.servers| && s < |st.servers| && b < |st.servers| && s != b
    requires forall t :: 0 <= t < |st.servers| && t != s && t != b ==> st'.servers[t] == st.servers[t]
    requires Held(st'.servers[b]) == Held(st.servers[b]) + moved
    requires Held(st'.servers[s]) + moved == Held(st.servers[s])
    ensures Live(st') == Live(st)
  {
    forall key
      ensures key in Live(st') <==> key in Live(st)
    {
      if key in moved {
        assert key in Held(st'.servers[b]) && key in Held(st.servers[s]);
      } else {
        assert forall t :: 0 <= t < |st.servers| ==> (key in Held(st'.servers[t]) <==> key in Held(st.servers[t]));
      }
    }
  }

  lemma ReceiveRefines(k: Constants, st: State, s: nat, b: nat)
    requires WellFormed(k) && Inv(k, st) && Enabled(k, st, ReceiveEntry(s, b))
    ensures Live(Next(k, st, ReceiveEntry(s, b))) == Live(st)
  {
    var st' := Next(k, st, ReceiveEntry(s, b));
    var w := st.servers[s].wire;
    ReceiveNotFailed(k, st, s, b);
    assert st'.servers[b] == ReceiveServer(k, st.servers[b], w.entry, w.names);
    assert st'.servers[s] == st.servers[s].(wire := Acked);
    LiveHandedOver(st, st', s, b, set key | key in Packing.Unpack(w.names));
  }

  lemma OtherRefines(k: Constants, st: State, step: Step)
    requires WellFormed(k) && Shape(k, st) && Enabled(k, st, step)
    requires !step.Serve? && !step.SendEntry? && !step.ReceiveEntry?
    ensures Live(Next(k, st, step)) == Live(st)
  {
    NextShape(k, st, step);
    LiveFrame(st, Next(k, st, step));
  }

  /** Every step of the store is a step of one set of keys. */
  lemma StepRefinesSet(k: Constants, st: State, step: Step)
    requires WellFormed(k) && Inv(k, st) && Enabled(k, st, step)
    ensures Shape(k, Next(k, st, step)) && RefinesSet(k, st, step)
  {
    NextShape(k, st, step);
    match step
    case Serve(c) => ServeRefines(k, st, c);
    case SendEntry(s, i) => SendRefines(k, st, s, i);
    case ReceiveEntry(s, b) => ReceiveRefines(k, st, s, b);
    case _ => OtherRefines(k, st, step);
  }

  // ---------------------------------------------------------------------- runs

  lemma {:induction false} RunInv(k: Constants, clients: nat, run: seq<State>)
    requires WellFormed(k) && IsRun(k, clients, run)
    ensures forall j :: 0 <= j < |run| ==> Inv(k, run[j])
  {
    if |run| == 1 {
      InitInv(k, clients);
    } else {
      var n := |run| - 1;
      var prefix := run[..n];
      assert IsRun(k, clients, prefix) by {
        assert forall j :: 0 <= j < n - 1 ==> Follows(k, prefix[j], prefix[j + 1]) by {
          assert forall j :: 0 <= j < n - 1 ==> Follows(k, run[j], run[j + 1]);
        }
      }
      RunInv(k, clients, prefix);
      assert Inv(k, prefix[n - 1]);
      assert Follows(k, run[n - 1], run[n]);
      var step :| Enabled(k, run[n - 1], step) && run[n] == Next(k, run[n - 1], step);
      NextInv(k, run[n - 1], step);
      forall j | 0 <= j < |run|
        ensures Inv(k, run[j])
      {
        assert j < n ==> run[j] == prefix[j];
      }
    }
  }

  /** In every state of every run: at most one server would perform a request for an
      entry; every key is in exactly one place; each store is the union of its
      server's key lists; and no storage operation of a transfer ever failed. */
  lemma RunSafety(k: Constants, clients: nat, run: seq<State>, j: nat, key: Key)
    requires WellFormed(k) && IsRun(k, clients, run) && j < |run|
    ensures Shape(k, run[j])
    ensures forall i, s, s' :: 0 <= i < k.n && 0 <= s < k.nb && 0 <= s' < k.nb
                               && Accepts(k, run[j], s, i) && Accepts(k, run[j], s', i)
                  ==> s == s'
    ensures key in Live(run[j]) <==> exists p :: IsAt(k, run[j], key, p)
    ensures forall p, q :: IsAt(k, run[j], key, p) && IsAt(k, run[j], key, q) ==> p == q
    ensures forall s :: 0 <= s < k.nb ==>
              && !run[j].servers[s].failed
              && (key in run[j].servers[s].store <==> exists i :: 0 <= i < k.n && key in run[j].servers[s].lists[i])
  {
    RunInv(k, clients, run);
    var st := run[j];
    assert Inv(k, st);
    forall i, s, s' | 0 <= i < k.n && 0 <= s < k.nb && 0 <= s' < k.nb && Accepts(k, st, s, i) && Accepts(k, st, s', i)
      ensures s == s'
    {
      SingleAcceptor(k, st, i, s, s');
    }
    ExactlyOnePlace(k, st, key);
    forall s | 0 <= s < k.nb
      ensures !st.servers[s].failed
      ensures key in st.servers[s].store <==> exists i :: 0 <= i < k.n && key in st.servers[s].lists[i]
    {
      assert ServerKeys(k, st.servers[s]);
      assert k.index(key) < k.n;
      forall i | 0 <= i < k.n && key in st.servers[s].lists[i]
        ensures key in st.servers[s].store
      {
        assert EntryKeys(k, i, st.servers[s].lists[i]);
      }
    }
  }

  /** Every step of every run is a step of one set of keys that starts empty. */
  lemma RunRefinesSet(k: Constants, clients: nat, run: seq<State>)
    requires WellFormed(k) && IsRun(k, clients, run)
    ensures Live(run[0]) == {}
    ensures forall j, step :: 0 <= j < |run| - 1 && Shape(k, run[j]) && Enabled(k, run[j], step)
                              && run[j + 1] == Next(k, run[j], step)
              ==> Shape(k, run[j + 1]) && RefinesSet(k, run[j], step)
  {
    RunInv(k, clients, run);
    forall j, step | 0 <= j < |run| - 1 && Shape(k, run[j]) && Enabled(k, run[j], step)
                     && run[j + 1] == Next(k, run[j], step)
      ensures Shape(k, run[j + 1]) && RefinesSet(k, run[j], step)
    {
      StepRefinesSet(k, run[j], step);
    }
  }
}
