/** The store as a step system: one manager, its servers, and their clients,
    joined by reliable first-in first-out channels. */
module Protocol {
  import opened Table
  import Packing

  type Key = string

  /** The fixed parameters: how many servers, how many entries, and the hash that
      sends a key to its entry. */
  datatype Constants = Constants(nb: nat, n: nat, index: Key -> nat)

  ghost predicate WellFormed(k: Constants) {
    k.nb > 0 && k.n > 0 && forall key :: k.index(key) < k.n
  }

  datatype FromManager = Ask(epoch: nat) | NewTable(rows: seq<Assign>)

  /** `stamp` is the epoch the access list was computed at; it is not on the wire,
      it lets a statement talk about it. */
  datatype ToManager = Help(epoch: nat) | Eacl(from: nat, stamp: nat)

  /** What a server's listener thread is doing. While it is `Moving`, its sender
      thread still has `pending` to pack and its receiver thread still expects
      `expected` packets. */
  datatype Listener = Idle | Waiting(needed: nat) | Moving(pending: set<nat>, expected: nat)

  /** A sender's request-reply socket: nothing, one packet, or its acknowledgement. */
  datatype Wire = Quiet | Packet(entry: nat, to: nat, names: string) | Acked

  datatype Op = Create | Read | Update | Delete
  datatype Request = Request(op: Op, key: Key, index: nat, ver: nat)
  datatype Reply = Done | Aborted | WaitRetry | UpdateRetry(index: nat, srv: nat, ver: nat)
  datatype Call = NoCall | Sent(to: nat, req: Request) | Answered(reply: Reply)
  datatype Client = Client(table: seq<Assign>, call: Call)

  datatype Server = Server(
    table: seq<Row>,
    lists: seq<seq<Key>>,
    store: set<Key>,
    eaclEpoch: nat,
    listener: Listener,
    wire: Wire,
    inbox: seq<FromManager>,
    outbox: seq<ToManager>,
    failed: bool)

  /** Where the manager's loop stands. */
  datatype Phase = Ready | GotHelp(epoch: nat) | Asking | Collecting(received: nat) | Marking

  /** `prev`, `asks` and `counted` are history: the table before the last broadcast,
      the epochs asked so far, and whose answers were counted for the last one. */
  datatype Manager = Manager(
    table: seq<Assign>,
    epoch: nat,
    processed: bool,
    phase: Phase,
    prev: seq<Assign>,
    asks: seq<nat>,
    counted: set<nat>)

  /** `owners[i][v]` is the server the manager gave entry i to at version v (history). */
  datatype State = State(mgr: Manager, servers: seq<Server>, clients: seq<Client>, owners: seq<seq<nat>>)

  datatype Step =
    | ClientSend(c: nat, op: Op, key: Key)
    | Serve(c: nat)
    | ClientReceive(c: nat)
    | ServerSignal(s: nat, help: bool)
    | TakeAsk(s: nat)
    | AnswerAsk(s: nat)
    | Apply(s: nat)
    | SendEntry(s: nat, i: nat)
    | ReceiveEntry(s: nat, b: nat)
    | TakeAck(s: nat)
    | Finish(s: nat)
    | ManagerSignal
    | TakeHelp(s: nat)
    | Decide
    | AskAll
    | Collect(s: nat)
    | Broadcast(rows: seq<Assign>)
    | Mark

  function LastAsk(m: Manager): nat {
    if m.asks == [] then 0 else m.asks[|m.asks| - 1]
  }

  predicate HasTable(sv: Server) {
    sv.inbox != [] && sv.inbox[0].NewTable?
  }

  // ------------------------------------------------------------ initial state

  function InitServer(k: Constants): Server
    requires k.nb > 0
  {
    Server(Rows(Initial(k.n, k.nb)), seq(k.n, _ => []), {}, 0, Idle, Quiet, [], [], false)
  }

  function Init(k: Constants, clients: nat): State
    requires k.nb > 0
  {
    var t := Initial(k.n, k.nb);
    State(
      Manager(t, 0, false, Ready, t, [], {}),
      seq(k.nb, _ => InitServer(k)),
      seq(clients, _ => Client(t, NoCall)),
      seq(k.n, i requires 0 <= i < k.n => [t[i].srv]))
  }

  // ------------------------------------------------------------- shape of states

  /** The sizes the initial state fixes and every step keeps. */
  predicate Shape(k: Constants, st: State) {
    && |st.servers| == k.nb
    && |st.owners| == k.n
    && |st.mgr.table| == k.n && |st.mgr.prev| == k.n
    && (forall s :: 0 <= s < k.nb ==> ServerShape(k, st.servers[s]))
    && (forall c :: 0 <= c < |st.clients| ==> ClientShape(k, st.clients[c]))
  }

  predicate ServerShape(k: Constants, sv: Server) {
    && |sv.table| == k.n && |sv.lists| == k.n
    && (forall j :: 0 <= j < |sv.inbox| ==> sv.inbox[j].NewTable? ==> |sv.inbox[j].rows| == k.n)
    && (sv.wire.Packet? ==> sv.wire.entry < k.n)
    && (sv.listener.Moving? ==> forall i :: i in sv.listener.pending ==> i < k.n)
  }

  predicate ClientShape(k: Constants, cl: Client) {
    && |cl.table| == k.n
    && (cl.call.Sent? ==> cl.call.to < k.nb && cl.call.req.index == k.index(cl.call.req.key) < k.n
                          && Packing.Clean(cl.call.req.key))
    && (cl.call.Answered? && cl.call.reply.UpdateRetry? ==> cl.call.reply.index < k.n)
  }

  // ------------------------------------------------------------ server actions

  datatype Outcome = Outcome(sv: Server, reply: Reply)

  /** One request on its server: the version check, the storage operation, and the
      update of the entry's key list. */
  function Handle(k: Constants, sv: Server, req: Request): Outcome
    requires ServerShape(k, sv) && req.index < k.n
  {
    var row := sv.table[req.index];
    if row.busy then Outcome(sv, WaitRetry)
    else if req.ver != row.ver then Outcome(sv, UpdateRetry(req.index, row.srv, row.ver))
    else match req.op
      case Create =>
        if req.key in sv.store then Outcome(sv, Aborted)
        else
          var l := [req.key] + sv.lists[req.index];
          Outcome(sv.(store := sv.store + {req.key}, lists := sv.lists[req.index := l]), Done)
      case Delete =>
        if req.key !in sv.store then Outcome(sv, Aborted)
        else
          var l := sv.lists[req.index];
          if req.key !in l then Outcome(sv.(store := sv.store - {req.key}), Aborted)
          else
            var l' := Packing.Without(l, req.key);
            Outcome(sv.(store := sv.store - {req.key}, lists := sv.lists[req.index := l']), Done)
      case Read => Outcome(sv, if req.key in sv.store then Done else Aborted)
      case Update => Outcome(sv, if req.key in sv.store then Done else Aborted)
  }

  /** The listener applies the table at the head of its inbox and starts moving. */
  function ApplyServer(k: Constants, s: nat, sv: Server): Server
    requires ServerShape(k, sv) && HasTable(sv)
  {
    var rows := sv.inbox[0].rows;
    sv.(table := ApplyTable(s, sv.table, rows),
        inbox := sv.inbox[1..],
        listener := Moving(Outgoing(s, sv.table, rows), |Incoming(s, sv.table, rows)|))
  }

  /** The sender packs one entry: every key is popped, deleted from the store and
      written to the packet; then the entry leaves the transfer state. */
  function SendServer(k: Constants, sv: Server, i: nat): Server
    requires ServerShape(k, sv) && sv.listener.Moving? && i in sv.listener.pending
  {
    var keys := sv.lists[i];
    if exists key :: key in keys && key !in sv.store then sv.(failed := true)
    else
      sv.(lists := sv.lists[i := []],
          store := sv.store - (set key | key in keys),
          table := sv.table[i := sv.table[i].(busy := false)],
          listener := sv.listener.(pending := sv.listener.pending - {i}),
          wire := Packet(i, sv.table[i].srv, Packing.Pack(keys)))
  }

  /** The receiver unpacks one packet: every key is put at the head of the entry's
      list and into the store; then the entry leaves the transfer state. */
  function ReceiveServer(k: Constants, sv: Server, i: nat, names: string): Server
    requires ServerShape(k, sv) && sv.listener.Moving? && sv.listener.expected > 0 && i < k.n
  {
    var keys := Packing.Unpack(names);
    if (exists key :: key in keys && key in sv.store) || !Packing.Distinct(keys) then sv.(failed := true)
    else
      sv.(lists := sv.lists[i := Packing.Reverse(keys) + sv.lists[i]],
          store := sv.store + (set key | key in keys),
          table := sv.table[i := sv.table[i].(busy := false)],
          listener := sv.listener.(expected := sv.listener.expected - 1))
  }

  // ----------------------------------------------------------------- the steps

  predicate Enabled(k: Constants, st: State, step: Step)
    requires Shape(k, st)
  {
    match step
    case ClientSend(c, op, key) =>
      && c < |st.clients| && st.clients[c].call.NoCall?
      && Packing.Clean(key) && k.index(key) < k.n && st.clients[c].table[k.index(key)].srv < k.nb
    case Serve(c) => c < |st.clients| && st.clients[c].call.Sent?
    case ClientReceive(c) => c < |st.clients| && st.clients[c].call.Answered?
    case ServerSignal(s, help) => s < k.nb
    case TakeAsk(s) =>
      s < k.nb && st.servers[s].listener.Idle? && st.servers[s].inbox != [] && st.servers[s].inbox[0].Ask?
    case AnswerAsk(s) =>
      s < k.nb && st.servers[s].listener.Waiting? && st.servers[s].eaclEpoch >= st.servers[s].listener.needed
    case Apply(s) => s < k.nb && st.servers[s].listener.Idle? && HasTable(st.servers[s])
    case SendEntry(s, i) =>
      && s < k.nb && st.servers[s].listener.Moving? && i in st.servers[s].listener.pending
      && st.servers[s].wire.Quiet?
    case ReceiveEntry(s, b) =>
      && s < k.nb && b < k.nb && st.servers[s].wire.Packet? && st.servers[s].wire.to == b
      && st.servers[b].listener.Moving? && st.servers[b].listener.expected > 0
    case TakeAck(s) => s < k.nb && st.servers[s].wire.Acked?
    case Finish(s) =>
      s < k.nb && st.servers[s].listener == Moving({}, 0) && st.servers[s].wire.Quiet?
    case ManagerSignal => true
    case TakeHelp(s) => st.mgr.phase.Ready? && s < k.nb && st.servers[s].outbox != []
    case Decide => st.mgr.phase.GotHelp? && st.mgr.epoch >= st.mgr.phase.epoch
    case AskAll => st.mgr.phase.Asking?
    case Collect(s) =>
      st.mgr.phase.Collecting? && st.mgr.phase.received < k.nb && s < k.nb && st.servers[s].outbox != []
    case Broadcast(rows) =>
      st.mgr.phase == Collecting(k.nb) && LegalRebalance(k.nb, st.mgr.table, rows)
    case Mark => st.mgr.phase.Marking?
  }

  function WithServer(st: State, s: nat, sv: Server): State
    requires s < |st.servers|
  {
    st.(servers := st.servers[s := sv])
  }

  function WithClient(st: State, c: nat, cl: Client): State
    requires c < |st.clients|
  {
    st.(clients := st.clients[c := cl])
  }

  function Deliver(svs: seq<Server>, msg: FromManager): (r: seq<Server>)
    ensures |r| == |svs|
  {
    seq(|svs|, s requires 0 <= s < |svs| => svs[s].(inbox := svs[s].inbox + [msg]))
  }

  function Next(k: Constants, st: State, step: Step): State
    requires Shape(k, st) && Enabled(k, st, step)
  {
    match step
    case ClientSend(c, op, key) =>
      var cl := st.clients[c];
      var i := k.index(key);
      WithClient(st, c, cl.(call := Sent(cl.table[i].srv, Request(op, key, i, cl.table[i].ver))))
    case Serve(c) =>
      var cl := st.clients[c];
      var out := Handle(k, st.servers[cl.call.to], cl.call.req);
      WithServer(WithClient(st, c, cl.(call := Answered(out.reply))), cl.call.to, out.sv)
    case ClientReceive(c) =>
      var cl := st.clients[c];
      var t :=
        match cl.call.reply
        case UpdateRetry(i, srv, ver) => cl.table[i := Assign(srv, ver)]
        case _ => cl.table;
      WithClient(st, c, Client(t, NoCall))
    case ServerSignal(s, help) =>
      var sv := st.servers[s];
      var e := sv.eaclEpoch + 1;
      WithServer(st, s, sv.(eaclEpoch := e, outbox := if help then sv.outbox + [Help(e)] else sv.outbox))
    case TakeAsk(s) =>
      var sv := st.servers[s];
      var e := sv.inbox[0].epoch;
      WithServer(st, s, sv.(inbox := sv.inbox[1..], listener := if e < sv.eaclEpoch then Idle else Waiting(e)))
    case AnswerAsk(s) =>
      var sv := st.servers[s];
      WithServer(st, s, sv.(listener := Idle, outbox := sv.outbox + [Eacl(s, sv.eaclEpoch)]))
    case Apply(s) => WithServer(st, s, ApplyServer(k, s, st.servers[s]))
    case SendEntry(s, i) => WithServer(st, s, SendServer(k, st.servers[s], i))
    case ReceiveEntry(s, b) =>
      var w := st.servers[s].wire;
      var st1 := WithServer(st, b, ReceiveServer(k, st.servers[b], w.entry, w.names));
      WithServer(st1, s, st1.servers[s].(wire := Acked))
    case TakeAck(s) => WithServer(st, s, st.servers[s].(wire := Quiet))
    case Finish(s) => WithServer(st, s, st.servers[s].(listener := Idle))
    case ManagerSignal => st.(mgr := st.mgr.(epoch := st.mgr.epoch + 1, processed := false))
    case TakeHelp(s) =>
      var msg := st.servers[s].outbox[0];
      var phase := if msg.Help? && msg.epoch >= st.mgr.epoch then GotHelp(msg.epoch) else Ready;
      WithServer(st.(mgr := st.mgr.(phase := phase)), s, st.servers[s].(outbox := st.servers[s].outbox[1..]))
    case Decide => st.(mgr := st.mgr.(phase := if st.mgr.processed then Ready else Asking))
    case AskAll =>
      st.(mgr := st.mgr.(phase := Collecting(0), asks := st.mgr.asks + [st.mgr.epoch], counted := {}),
          servers := Deliver(st.servers, Ask(st.mgr.epoch)))
    case Collect(s) =>
      var m := if st.servers[s].outbox[0].Eacl?
               then st.mgr.(phase := Collecting(st.mgr.phase.received + 1), counted := st.mgr.counted + {s})
               else st.mgr;
      WithServer(st.(mgr := m), s, st.servers[s].(outbox := st.servers[s].outbox[1..]))
    case Broadcast(rows) =>
      st.(mgr := st.mgr.(phase := Marking, table := rows, prev := st.mgr.table),
          servers := Deliver(st.servers, NewTable(rows)),
          owners := seq(|st.owners|, i requires 0 <= i < |st.owners| =>
                      if i < |rows| && rows[i] != st.mgr.table[i] then st.owners[i] + [rows[i].srv] else st.owners[i]))
    case Mark => st.(mgr := st.mgr.(phase := Ready, processed := true))
  }

  // --------------------------------------------------------------------- runs

  lemma InitShape(k: Constants, clients: nat)
    requires WellFormed(k)
    ensures Shape(k, Init(k, clients))
  {}

  lemma HandleShape(k: Constants, sv: Server, req: Request)
    requires ServerShape(k, sv) && req.index < k.n
    ensures ServerShape(k, Handle(k, sv, req).sv)
    ensures Handle(k, sv, req).reply.UpdateRetry? ==> Handle(k, sv, req).reply.index < k.n
  {}

  lemma MoveShape(k: Constants, s: nat, sv: Server)
    requires ServerShape(k, sv)
    ensures HasTable(sv) ==> ServerShape(k, ApplyServer(k, s, sv))
    ensures sv.listener.Moving? ==> forall i :: i in sv.listener.pending ==> ServerShape(k, SendServer(k, sv, i))
  {
    if HasTable(sv) {
      var sv' := ApplyServer(k, s, sv);
      assert forall j :: 0 <= j < |sv'.inbox| ==> sv'.inbox[j] == sv.inbox[j + 1];
    }
  }

  lemma ReceiveShape(k: Constants, sv: Server, i: nat, names: string)
    requires ServerShape(k, sv) && sv.listener.Moving? && sv.listener.expected > 0 && i < k.n
    ensures ServerShape(k, ReceiveServer(k, sv, i, names))
  {}

  lemma DeliverShape(k: Constants, svs: seq<Server>, msg: FromManager)
    requires forall s :: 0 <= s < |svs| ==> ServerShape(k, svs[s])
    requires msg.NewTable? ==> |msg.rows| == k.n
    ensures forall s :: 0 <= s < |svs| ==> ServerShape(k, Deliver(svs, msg)[s])
  {}

  lemma NextShape(k: Constants, st: State, step: Step)
    requires WellFormed(k) && Shape(k, st) && Enabled(k, st, step)
    ensures Shape(k, Next(k, st, step))
  {
    match step
    case ClientSend(c, op, key) =>
    case Serve(c) => HandleShape(k, st.servers[st.clients[c].call.to], st.clients[c].call.req);
    case Apply(s) => MoveShape(k, s, st.servers[s]);
    case SendEntry(s, i) => MoveShape(k, s, st.servers[s]);
    case ReceiveEntry(s, b) =>
      ReceiveShape(k, st.servers[b], st.servers[s].wire.entry, st.servers[s].wire.names);
    case AskAll => DeliverShape(k, st.servers, Ask(st.mgr.epoch));
    case Broadcast(rows) => DeliverShape(k, st.servers, NewTable(rows));
    case _ =>
  }

  /** A run from the initial state: every state follows from the one before. */
  ghost predicate IsRun(k: Constants, clients: nat, run: seq<State>)
    requires WellFormed(k)
  {
    && run != []
    && run[0] == Init(k, clients)
    && forall j :: 0 <= j < |run| - 1 ==> Follows(k, run[j], run[j + 1])
  }

  ghost predicate Follows(k: Constants, st: State, next: State) {
    Shape(k, st) && exists step :: Enabled(k, st, step) && next == Next(k, st, step)
  }
}
