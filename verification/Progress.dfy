/** A round of transfers always ends; a round of questions may not. */
module Progress {
  import opened Table
  import opened Protocol
  import opened Rounds
  import opened RoundSteps
  import opened Keys
  import Refinement

  // --------------------------------------------------------- a measure of the work left

  function WireWork(w: Wire): nat {
    match w case Packet(_, _, _) => 2 case Acked => 1 case Quiet => 0
  }

  /** The transfer steps server `sv` still has before it. */
  function MoveWork(k: Constants, sv: Server): nat {
    if HasTable(sv) then 3 * k.n + 2
    else if sv.listener.Moving? then 1 + 3 * |sv.listener.pending| + WireWork(sv.wire)
    else 0
  }

  /** The steps until the answer of `sv` to a question about `epoch` has been read. */
  function AnswerWork(epoch: nat, sv: Server): nat {
    var gap := if sv.eaclEpoch < epoch then epoch - sv.eaclEpoch else 0;
    |sv.outbox| + if Asks(sv) != [] then 4 + gap else if sv.listener.Waiting? then 3 + gap else 0
  }

  function TotalMove(k: Constants, svs: seq<Server>): nat {
    if svs == [] then 0 else MoveWork(k, svs[0]) + TotalMove(k, svs[1..])
  }

  function TotalAnswer(epoch: nat, svs: seq<Server>): nat {
    if svs == [] then 0 else AnswerWork(epoch, svs[0]) + TotalAnswer(epoch, svs[1..])
  }

  lemma MoveUpdate(k: Constants, svs: seq<Server>, s: nat, sv: Server)
    requires s < |svs|
    ensures TotalMove(k, svs[s := sv]) == TotalMove(k, svs) - MoveWork(k, svs[s]) + MoveWork(k, sv)
  {
    if s > 0 {
      assert svs[s := sv][1..] == svs[1..][s - 1 := sv];
      MoveUpdate(k, svs[1..], s - 1, sv);
    }
  }

  lemma AnswerUpdate(epoch: nat, svs: seq<Server>, s: nat, sv: Server)
    requires s < |svs|
    ensures TotalAnswer(epoch, svs[s := sv])
            == TotalAnswer(epoch, svs) - AnswerWork(epoch, svs[s]) + AnswerWork(epoch, sv)
  {
    if s > 0 {
      assert svs[s := sv][1..] == svs[1..][s - 1 := sv];
      AnswerUpdate(epoch, svs[1..], s - 1, sv);
    }
  }

  lemma MoveSame(k: Constants, svs: seq<Server>, svs': seq<Server>)
    requires |svs| == |svs'|
    requires forall s :: 0 <= s < |svs| ==> MoveWork(k, svs'[s]) == MoveWork(k, svs[s])
    ensures TotalMove(k, svs') == TotalMove(k, svs)
  {
    if svs != [] {
      MoveSame(k, svs[1..], svs'[1..]);
    }
  }

  lemma SmallSet(s: set<nat>, n: nat)
    requires forall i :: i in s ==> i < n
    ensures |s| <= n
  {
    AllCounted(s, n);
  }

  // ------------------------------------------------------------ transfers terminate

  predicate IsMove(step: Step) {
    step.Apply? || step.SendEntry? || step.ReceiveEntry? || step.TakeAck? || step.Finish?
  }

  lemma ApplyWork(k: Constants, m: Manager, s: nat, sv: Server)
    requires TablesOk(k, m) && ServerShape(k, sv) && HasTable(sv) && ServerRound(m, s, sv)
    ensures MoveWork(k, ApplyServer(k, s, sv)) < MoveWork(k, sv)
  {
    ApplyIsMove(k, m, s, sv);
    SmallSet(Outgoing(s, sv.table, sv.inbox[0].rows), k.n);
  }

  lemma SendWork(k: Constants, m: Manager, s: nat, sv: Server, i: nat)
    requires WellFormed(k) && ServerShape(k, sv) && ServerKeys(k, sv) && ServerRound(m, s, sv)
    requires sv.listener.Moving? && i in sv.listener.pending && sv.wire.Quiet?
    ensures MoveWork(k, SendServer(k, sv, i)) < MoveWork(k, sv)
  {
    SendKeys(k, sv, i);
    var sv' := SendServer(k, sv, i);
    assert sv'.listener.pending == sv.listener.pending - {i};
  }

  lemma ReceiveDecreases(k: Constants, st: State, s: nat, b: nat)
    requires WellFormed(k) && Inv(k, st) && Enabled(k, st, ReceiveEntry(s, b))
    ensures TotalMove(k, Next(k, st, ReceiveEntry(s, b)).servers) < TotalMove(k, st.servers)
  {
    ReceiveNotFailed(k, st, s, b);
    PacketIsExpected(k, st, s);
    ReceivedState(k, st, s, b);
    assert ServerRound(st.mgr, s, st.servers[s]) && ServerRound(st.mgr, b, st.servers[b]);
    PacketTaken(k, st.servers, s, b, Next(k, st, ReceiveEntry(s, b)).servers[b]);
  }

  lemma PacketTaken(k: Constants, svs: seq<Server>, s: nat, b: nat, svb: Server)
    requires s < |svs| && b < |svs| && s != b && MoveWork(k, svb) == MoveWork(k, svs[b])
    requires svs[s].wire.Packet? && svs[s].listener.Moving? && !HasTable(svs[s])
    ensures TotalMove(k, svs[b := svb][s := svs[s].(wire := Acked)]) < TotalMove(k, svs)
  {
    MoveUpdate(k, svs, b, svb);
    MoveUpdate(k, svs[b := svb], s, svs[s].(wire := Acked));
  }

  lemma QuietDecreases(k: Constants, st: State, step: Step)
    requires WellFormed(k) && RoundInv(k, st) && Enabled(k, st, step) && (step.TakeAck? || step.Finish?)
    ensures TotalMove(k, Next(k, st, step).servers) < TotalMove(k, st.servers)
  {
    var s := step.s;
    assert ServerRound(st.mgr, s, st.servers[s]);
    MoveUpdate(k, st.servers, s, Next(k, st, step).servers[s]);
  }

  lemma ApplyDecreases(k: Constants, st: State, s: nat)
    requires WellFormed(k) && RoundInv(k, st) && Enabled(k, st, Apply(s))
    ensures TotalMove(k, Next(k, st, Apply(s)).servers) < TotalMove(k, st.servers)
  {
    assert ServerRound(st.mgr, s, st.servers[s]);
    ApplyWork(k, st.mgr, s, st.servers[s]);
    MoveUpdate(k, st.servers, s, ApplyServer(k, s, st.servers[s]));
  }

  lemma SendDecreases(k: Constants, st: State, s: nat, i: nat)
    requires WellFormed(k) && Inv(k, st) && Enabled(k, st, SendEntry(s, i))
    ensures TotalMove(k, Next(k, st, SendEntry(s, i)).servers) < TotalMove(k, st.servers)
  {
    assert ServerRound(st.mgr, s, st.servers[s]) && ServerKeys(k, st.servers[s]);
    SendWork(k, st.mgr, s, st.servers[s], i);
    MoveUpdate(k, st.servers, s, SendServer(k, st.servers[s], i));
  }

  lemma OtherSame(k: Constants, st: State, step: Step)
    requires WellFormed(k) && Inv(k, st) && Enabled(k, st, step) && !step.Broadcast? && !IsMove(step)
    ensures TotalMove(k, Next(k, st, step).servers) == TotalMove(k, st.servers)
  {
    PlainSteps(k, st, step);
    MoveSame(k, st.servers, Next(k, st, step).servers);
  }

  /** Every transfer step brings the end of the round nearer, and only a new
      broadcast moves it away. */
  lemma MoveDecreases(k: Constants, st: State, step: Step)
    requires WellFormed(k) && Inv(k, st) && Enabled(k, st, step) && !step.Broadcast?
    ensures IsMove(step) ==> TotalMove(k, Next(k, st, step).servers) < TotalMove(k, st.servers)
    ensures !IsMove(step) ==> TotalMove(k, Next(k, st, step).servers) == TotalMove(k, st.servers)
  {
    match step
    case Apply(s) => ApplyDecreases(k, st, s);
    case SendEntry(s, i) => SendDecreases(k, st, s, i);
    case ReceiveEntry(s, b) => ReceiveDecreases(k, st, s, b);
    case TakeAck(s) => QuietDecreases(k, st, step);
    case Finish(s) => QuietDecreases(k, st, step);
    case _ => OtherSame(k, st, step);
  }

  /** As long as some server has not finished the round, some transfer step can be
      taken: the packets wait for nobody who waits for them. */
  lemma MoveEnabled(k: Constants, st: State, s: nat) returns (step: Step)
    requires WellFormed(k) && Inv(k, st) && s < k.nb && !Settled(st.mgr, st.servers[s])
    ensures IsMove(step) && Enabled(k, st, step)
  {
    assert ServerRound(st.mgr, s, st.servers[s]);
    if t: nat :| t < k.nb && HasTable(st.servers[t]) {
      assert ServerRound(st.mgr, t, st.servers[t]);
      step := Apply(t);
    } else if t: nat :| t < k.nb && st.servers[t].wire.Packet? {
      PacketIsExpected(k, st, t);
      step := ReceiveEntry(t, st.servers[t].wire.to);
    } else if t: nat :| t < k.nb && st.servers[t].wire.Acked? {
      step := TakeAck(t);
    } else if t: nat, i: nat :| t < k.nb && st.servers[t].listener.Moving? && i in st.servers[t].listener.pending {
      step := SendEntry(t, i);
    } else {
      NothingArrives(k, st, s);
      step := Finish(s);
    }
  }

  /** With no table unread, no packet on a wire and nothing left to pack, no server
      expects anything. */
  lemma NothingArrives(k: Constants, st: State, s: nat)
    requires WellFormed(k) && Inv(k, st) && s < k.nb && st.servers[s].listener.Moving?
    requires forall t :: 0 <= t < k.nb ==> !HasTable(st.servers[t]) && st.servers[t].wire.Quiet?
    requires forall t, i :: 0 <= t < k.nb && st.servers[t].listener.Moving? ==> i !in st.servers[t].listener.pending
    ensures st.servers[s].listener == Moving({}, 0)
  {
    var sv := st.servers[s];
    assert ServerMove(s, sv) && ServerRound(st.mgr, s, sv);
    assert sv.listener.pending == {};
    forall i | 0 <= i < k.n
      ensures i !in Arriving(s, sv.table)
    {
      assert EntryMove(k, st, i);
      assert st.mgr.prev[i].srv < k.nb;
    }
    assert Arriving(s, sv.table) == {};
  }

  /** No transfer step is possible exactly when every server has finished the round:
      its table is the broadcast one and every state flag is 0. */
  lemma QuietIffSettled(k: Constants, st: State)
    requires WellFormed(k) && Inv(k, st)
    ensures (forall step :: IsMove(step) ==> !Enabled(k, st, step))
            <==> (forall s :: 0 <= s < k.nb ==> Settled(st.mgr, st.servers[s]))
  {
    if s: nat :| s < k.nb && !Settled(st.mgr, st.servers[s]) {
      var step := MoveEnabled(k, st, s);
    }
  }

  /** Consecutive states of a run, starting anywhere. */
  ghost predicate IsPath(k: Constants, path: seq<State>) {
    path != [] && forall j :: 0 <= j < |path| - 1 ==> Follows(k, path[j], path[j + 1])
  }

  /** Two paths that meet make one. */
  lemma PathConcat(k: Constants, a: seq<State>, b: seq<State>) returns (p: seq<State>)
    requires IsPath(k, a) && IsPath(k, b) && a[|a| - 1] == b[0]
    ensures IsPath(k, p) && p[0] == a[0] && p[|p| - 1] == b[|b| - 1] && |p| == |a| + |b| - 1
  {
    p := a + b[1..];
    forall j | 0 <= j < |p| - 1
      ensures Follows(k, p[j], p[j + 1])
    {
      if j < |a| - 1 {
        assert Follows(k, a[j], a[j + 1]);
      } else {
        assert Follows(k, b[j - |a| + 1], b[j - |a| + 2]);
      }
    }
  }

  lemma PathCons(k: Constants, st: State, step: Step, path: seq<State>)
    requires Shape(k, st) && Enabled(k, st, step) && IsPath(k, path) && path[0] == Next(k, st, step)
    ensures IsPath(k, [st] + path)
  {
    var p := [st] + path;
    forall j | 0 <= j < |p| - 1
      ensures Follows(k, p[j], p[j + 1])
    {
      if j > 0 {
        assert p[j] == path[j - 1] && p[j + 1] == path[j];
      } else {
        assert p[1] == Next(k, st, step);
      }
    }
  }

  /** A transfer step changes no client, no key of the store and nothing of the manager. */
  lemma MoveSteady(k: Constants, st: State, step: Step)
    requires WellFormed(k) && Inv(k, st) && Enabled(k, st, step) && IsMove(step)
    ensures
      var st' := Next(k, st, step);
      st'.mgr == st.mgr && st'.clients == st.clients && Refinement.Live(st') == Refinement.Live(st)
  {
    Refinement.StepRefinesSet(k, st, step);
  }

  /** From any state of a round the servers alone can finish it, in at most as many
      steps as the measure says, and without a client or a key noticing. */
  lemma RoundEnds(k: Constants, st: State) returns (path: seq<State>, last: State)
    requires WellFormed(k) && Inv(k, st)
    ensures IsPath(k, path) && path[0] == st && path[|path| - 1] == last
    ensures |path| <= TotalMove(k, st.servers) + 1
    ensures Inv(k, last) && last.mgr == st.mgr
    ensures last.clients == st.clients && Refinement.Live(last) == Refinement.Live(st)
    ensures forall s :: 0 <= s < k.nb ==> Settled(st.mgr, last.servers[s])
    decreases TotalMove(k, st.servers)
  {
    if s: nat :| s < k.nb && !Settled(st.mgr, st.servers[s]) {
      var step := MoveEnabled(k, st, s);
      MoveDecreases(k, st, step);
      MoveSteady(k, st, step);
      NextInv(k, st, step);
      var rest: seq<State>;
      rest, last := RoundEnds(k, Next(k, st, step));
      PathCons(k, st, step, rest);
      path := [st] + rest;
    } else {
      path, last := [st], st;
    }
  }

  // ------------------------------------------------------------ questions may not end

  /** A server that threw the question away, or has it in its inbox and will. */
  predicate Silent(m: Manager, s: nat, sv: Server) {
    || (s !in m.counted && !Owes(sv))
    || (Asks(sv) != [] && LastAsk(m) < sv.eaclEpoch)
  }

  /** The manager waits for an answer that never comes. */
  predicate Doomed(k: Constants, st: State)
    requires |st.servers| == k.nb
  {
    st.mgr.phase.Collecting? && exists s: nat :: s < k.nb && Silent(st.mgr, s, st.servers[s])
  }

  lemma SilentNotCounted(k: Constants, st: State, s: nat)
    requires WellFormed(k) && Inv(k, st) && s < k.nb && st.mgr.phase.Collecting?
    requires Silent(st.mgr, s, st.servers[s])
    ensures s !in st.mgr.counted && st.mgr.phase.received < k.nb
  {
    assert ServerRound(st.mgr, s, st.servers[s]);
    AllCounted(st.mgr.counted, k.nb);
  }

  /** A server whose epoch has passed the one asked drops the question, and from then
      on no step of any process lets the manager broadcast again. */
  lemma DoomedForever(k: Constants, st: State, step: Step)
    requires WellFormed(k) && Inv(k, st) && Doomed(k, st) && Enabled(k, st, step)
    ensures !step.Broadcast? && |Next(k, st, step).servers| == k.nb && Doomed(k, Next(k, st, step))
  {
    var s: nat :| s < k.nb && Silent(st.mgr, s, st.servers[s]);
    SilentNotCounted(k, st, s);
    var st' := Next(k, st, step);
    NextShape(k, st, step);
    assert ServerRound(st.mgr, s, st.servers[s]);
    StaysSilent(k, st, step, s);
  }

  /** Transfers and client requests leave questions and answers alone. */
  predicate SameAnswer(sv: Server, sv': Server) {
    && Asks(sv') == Asks(sv) && sv'.outbox == sv.outbox && sv'.eaclEpoch == sv.eaclEpoch
    && sv'.listener.Waiting? == sv.listener.Waiting?
  }

  lemma TransferAnswers(k: Constants, sv: Server, i: nat, names: string)
    requires ServerShape(k, sv) && sv.listener.Moving? && i < k.n
    ensures i in sv.listener.pending ==> SameAnswer(sv, SendServer(k, sv, i))
    ensures sv.listener.expected > 0 ==> SameAnswer(sv, ReceiveServer(k, sv, i, names))
  {}

  lemma MoveAnswers(k: Constants, st: State, step: Step, s: nat)
    requires WellFormed(k) && RoundInv(k, st) && Enabled(k, st, step) && IsMove(step) && s < k.nb
    ensures Next(k, st, step).mgr == st.mgr
    ensures |Next(k, st, step).servers| == k.nb && SameAnswer(st.servers[s], Next(k, st, step).servers[s])
  {
    match step
    case Apply(t) => ApplyAnswers(k, st, t, s);
    case SendEntry(t, i) => SendAnswers(k, st, t, i, s);
    case ReceiveEntry(t, b) => ReceiveAnswers(k, st, t, b, s);
    case _ => QuietAnswers(k, st, step, s);
  }

  lemma SendAnswers(k: Constants, st: State, t: nat, i: nat, s: nat)
    requires WellFormed(k) && RoundInv(k, st) && Enabled(k, st, SendEntry(t, i)) && s < k.nb
    ensures SameAnswer(st.servers[s], Next(k, st, SendEntry(t, i)).servers[s])
  {
    TransferAnswers(k, st.servers[t], i, "");
  }

  lemma ReceiveAnswers(k: Constants, st: State, t: nat, b: nat, s: nat)
    requires WellFormed(k) && RoundInv(k, st) && Enabled(k, st, ReceiveEntry(t, b)) && s < k.nb
    ensures SameAnswer(st.servers[s], Next(k, st, ReceiveEntry(t, b)).servers[s])
  {
    PacketIsExpected(k, st, t);
    ReceivedState(k, st, t, b);
    TransferAnswers(k, st.servers[b], st.servers[t].wire.entry, st.servers[t].wire.names);
  }

  lemma QuietAnswers(k: Constants, st: State, step: Step, s: nat)
    requires WellFormed(k) && RoundInv(k, st) && Enabled(k, st, step) && s < k.nb && (step.TakeAck? || step.Finish?)
    ensures Next(k, st, step).mgr == st.mgr
    ensures |Next(k, st, step).servers| == k.nb && SameAnswer(st.servers[s], Next(k, st, step).servers[s])
  {
    assert ServerRound(st.mgr, s, st.servers[s]);
  }

  lemma ApplyAnswers(k: Constants, st: State, t: nat, s: nat)
    requires WellFormed(k) && RoundInv(k, st) && Enabled(k, st, Apply(t)) && s < k.nb
    ensures SameAnswer(st.servers[s], Next(k, st, Apply(t)).servers[s])
  {
    assert ServerRound(st.mgr, t, st.servers[t]);
    ApplyIsMove(k, st.mgr, t, st.servers[t]);
  }

  lemma ClientAnswers(k: Constants, st: State, step: Step, s: nat)
    requires WellFormed(k) && RoundInv(k, st) && Enabled(k, st, step) && s < k.nb
    requires step.ClientSend? || step.ClientReceive? || step.Serve?
    ensures Next(k, st, step).mgr == st.mgr
    ensures |Next(k, st, step).servers| == k.nb && SameAnswer(st.servers[s], Next(k, st, step).servers[s])
  {
    match step
    case Serve(c) =>
      ServedState(k, st, c);
      HandleMove(k, st.servers[st.clients[c].call.to], st.clients[c].call.req);
    case _ =>
  }

  lemma StaysSilent(k: Constants, st: State, step: Step, s: nat)
    requires WellFormed(k) && Inv(k, st) && Enabled(k, st, step) && s < k.nb
    requires st.mgr.phase.Collecting? && st.mgr.phase.received < k.nb && Silent(st.mgr, s, st.servers[s])
    ensures Next(k, st, step).mgr.phase.Collecting?
    ensures |Next(k, st, step).servers| == k.nb && Silent(Next(k, st, step).mgr, s, Next(k, st, step).servers[s])
  {
    if IsMove(step) {
      MoveAnswers(k, st, step, s);
    } else if step.ClientSend? || step.ClientReceive? || step.Serve? {
      ClientAnswers(k, st, step, s);
    } else {
      ManagerSilent(k, st, step, s);
    }
  }

  lemma ServerSilent(k: Constants, st: State, step: Step, s: nat)
    requires WellFormed(k) && Inv(k, st) && Enabled(k, st, step) && s < k.nb
    requires step.ServerSignal? || step.TakeAsk? || step.AnswerAsk?
    requires st.mgr.phase.Collecting? && Silent(st.mgr, s, st.servers[s])
    ensures Next(k, st, step).mgr.phase.Collecting?
    ensures |Next(k, st, step).servers| == k.nb && Silent(Next(k, st, step).mgr, s, Next(k, st, step).servers[s])
  {
    assert ServerRound(st.mgr, s, st.servers[s]);
    match step
    case ServerSignal(t, help) => EaclsAppend(st.servers[t].outbox, Help(st.servers[t].eaclEpoch + 1));
    case AnswerAsk(t) => EaclsAppend(st.servers[t].outbox, Eacl(t, st.servers[t].eaclEpoch));
    case _ =>
  }

  lemma ManagerSilent(k: Constants, st: State, step: Step, s: nat)
    requires WellFormed(k) && Inv(k, st) && Enabled(k, st, step) && s < k.nb
    requires !IsMove(step) && !step.ClientSend? && !step.ClientReceive? && !step.Serve?
    requires st.mgr.phase.Collecting? && st.mgr.phase.received < k.nb && Silent(st.mgr, s, st.servers[s])
    ensures Next(k, st, step).mgr.phase.Collecting?
    ensures |Next(k, st, step).servers| == k.nb && Silent(Next(k, st, step).mgr, s, Next(k, st, step).servers[s])
  {
    if step.ServerSignal? || step.TakeAsk? || step.AnswerAsk? {
      ServerSilent(k, st, step, s);
    } else {
      assert ServerRound(st.mgr, s, st.servers[s]);
    }
  }

  // --------------------------------------------------- and otherwise they can always end

  /** One more step towards the last answer, when nobody is silent. */
  lemma AnswerStep(k: Constants, st: State) returns (step: Step)
    requires WellFormed(k) && Inv(k, st)
    requires st.mgr.phase.Collecting? && st.mgr.phase.received < k.nb && !Doomed(k, st)
    ensures Enabled(k, st, step)
    ensures IsMove(step) || IsAnswerStep(k, st, step)
  {
    AllCounted(st.mgr.counted, k.nb);
    var s: nat :| s < k.nb && s !in st.mgr.counted;
    var sv := st.servers[s];
    assert ServerRound(st.mgr, s, sv);
    assert !Silent(st.mgr, s, sv);
    if !Settled(st.mgr, sv) {
      step := MoveEnabled(k, st, s);
    } else if Asks(sv) != [] {
      step := TakeAsk(s);
    } else if sv.listener.Waiting? {
      step := if sv.eaclEpoch < sv.listener.needed then ServerSignal(s, false) else AnswerAsk(s);
    } else {
      step := Collect(s);
    }
  }

  predicate IsAnswerStep(k: Constants, st: State, step: Step)
    requires Shape(k, st)
  {
    && Enabled(k, st, step)
    && match step
       case ServerSignal(s, help) =>
         !help && st.servers[s].listener.Waiting? && st.servers[s].eaclEpoch < st.servers[s].listener.needed
       case TakeAsk(s) => st.servers[s].eaclEpoch <= LastAsk(st.mgr)
       case AnswerAsk(_) => true
       case Collect(s) => Eacls(st.servers[s].outbox) > 0
       case _ => false
  }

  /** An answer step keeps its server's answer coming and shortens the work left. */
  lemma AnswerStepServer(k: Constants, st: State, step: Step)
    requires WellFormed(k) && RoundInv(k, st) && st.mgr.phase.Collecting? && IsAnswerStep(k, st, step)
    requires !Silent(st.mgr, step.s, st.servers[step.s])
    ensures
      var st' := Next(k, st, step);
      && st'.mgr.phase.Collecting? && st'.mgr.asks == st.mgr.asks && st'.mgr.epoch == st.mgr.epoch
      && st.mgr.counted <= st'.mgr.counted && st'.mgr.counted <= st.mgr.counted + {step.s}
      && |st'.servers| == k.nb && st'.servers == st.servers[step.s := st'.servers[step.s]]
      && !Silent(st'.mgr, step.s, st'.servers[step.s])
      && AnswerWork(LastAsk(st.mgr), st'.servers[step.s]) < AnswerWork(LastAsk(st.mgr), st.servers[step.s])
  {
    var sv := st.servers[step.s];
    assert ServerRound(st.mgr, step.s, sv);
    EaclsAppend(sv.outbox, Eacl(step.s, sv.eaclEpoch));
    match step
    case ServerSignal(s, help) =>
    case TakeAsk(s) => assert sv.inbox == Asks(sv);
    case AnswerAsk(s) =>
    case Collect(s) =>
  }

  lemma AnswerSame(epoch: nat, svs: seq<Server>, svs': seq<Server>)
    requires |svs| == |svs'|
    requires forall s :: 0 <= s < |svs| ==> SameAnswer(svs[s], svs'[s])
    ensures TotalAnswer(epoch, svs') == TotalAnswer(epoch, svs)
  {
    if svs != [] {
      AnswerSame(epoch, svs[1..], svs'[1..]);
    }
  }

  predicate LessWork(k: Constants, st: State, st': State) {
    TotalMove(k, st'.servers) + TotalAnswer(LastAsk(st.mgr), st'.servers)
    < TotalMove(k, st.servers) + TotalAnswer(LastAsk(st.mgr), st.servers)
  }

  lemma SameAnswersSameDoom(k: Constants, st: State, st': State)
    requires |st.servers| == |st'.servers| == k.nb && st'.mgr == st.mgr
    requires forall s :: 0 <= s < k.nb ==> SameAnswer(st.servers[s], st'.servers[s])
    ensures Doomed(k, st') == Doomed(k, st)
    ensures TotalAnswer(LastAsk(st.mgr), st'.servers) == TotalAnswer(LastAsk(st.mgr), st.servers)
  {
    AnswerSame(LastAsk(st.mgr), st.servers, st'.servers);
    assert forall s :: 0 <= s < k.nb ==> Silent(st.mgr, s, st.servers[s]) == Silent(st.mgr, s, st'.servers[s]);
  }

  lemma ProgressByMove(k: Constants, st: State, step: Step)
    requires WellFormed(k) && Inv(k, st) && st.mgr.phase.Collecting? && !Doomed(k, st)
    requires Enabled(k, st, step) && IsMove(step)
    ensures
      var st' := Next(k, st, step);
      && st'.mgr == st.mgr && |st'.servers| == k.nb && !Doomed(k, st') && LessWork(k, st, st')
  {
    var st' := Next(k, st, step);
    MoveDecreases(k, st, step);
    forall s | 0 <= s < k.nb
      ensures st'.mgr == st.mgr && |st'.servers| == k.nb && SameAnswer(st.servers[s], st'.servers[s])
    {
      MoveAnswers(k, st, step, s);
    }
    MoveAnswers(k, st, step, 0);
    SameAnswersSameDoom(k, st, st');
  }

  lemma ProgressByAnswer(k: Constants, st: State, step: Step)
    requires WellFormed(k) && Inv(k, st) && st.mgr.phase.Collecting? && !Doomed(k, st)
    requires IsAnswerStep(k, st, step)
    ensures
      var st' := Next(k, st, step);
      && st'.mgr.phase.Collecting? && st'.mgr.asks == st.mgr.asks && st'.mgr.epoch == st.mgr.epoch
      && |st'.servers| == k.nb && !Doomed(k, st') && LessWork(k, st, st')
  {
    var st' := Next(k, st, step);
    assert !Silent(st.mgr, step.s, st.servers[step.s]);
    MoveDecreases(k, st, step);
    AnswerStepServer(k, st, step);
    AnswerUpdate(LastAsk(st.mgr), st.servers, step.s, st'.servers[step.s]);
    forall s | 0 <= s < k.nb
      ensures !Silent(st'.mgr, s, st'.servers[s])
    {
      assert !Silent(st.mgr, s, st.servers[s]);
    }
  }

  lemma AnswersCanEnd(k: Constants, st: State) returns (path: seq<State>)
    requires WellFormed(k) && Inv(k, st) && st.mgr.phase.Collecting? && !Doomed(k, st)
    ensures LeadsToAllAnswers(k, st, path) && Inv(k, path[|path| - 1])
    ensures path[|path| - 1].mgr.asks == st.mgr.asks && path[|path| - 1].mgr.epoch == st.mgr.epoch
    decreases TotalMove(k, st.servers) + TotalAnswer(LastAsk(st.mgr), st.servers)
  {
    AllCounted(st.mgr.counted, k.nb);
    if st.mgr.phase.received < k.nb {
      var step := AnswerStep(k, st);
      NextInv(k, st, step);
      if IsMove(step) {
        ProgressByMove(k, st, step);
      } else {
        ProgressByAnswer(k, st, step);
      }
      var rest := AnswersCanEnd(k, Next(k, st, step));
      PathCons(k, st, step, rest);
      path := [st] + rest;
    } else {
      path := [st];
    }
  }

  lemma DoomedFollows(k: Constants, st: State, next: State)
    requires WellFormed(k) && Inv(k, st) && Doomed(k, st) && Follows(k, st, next)
    ensures Inv(k, next) && Doomed(k, next)
  {
    var step :| Enabled(k, st, step) && next == Next(k, st, step);
    DoomedForever(k, st, step);
    NextInv(k, st, step);
  }

  lemma {:induction false} DoomedPath(k: Constants, path: seq<State>, j: nat)
    requires WellFormed(k) && IsPath(k, path) && j < |path|
    requires Inv(k, path[0]) && Doomed(k, path[0])
    ensures Inv(k, path[j]) && Doomed(k, path[j])
  {
    if j > 0 {
      DoomedPath(k, path, j - 1);
      DoomedFollows(k, path[j - 1], path[j]);
    }
  }

  /** The path ends with all answers in, so that the manager may broadcast. */
  ghost predicate LeadsToAllAnswers(k: Constants, st: State, path: seq<State>) {
    IsPath(k, path) && path[0] == st && path[|path| - 1].mgr.phase == Collecting(k.nb)
  }

  /** The manager can still get all its answers exactly when no server has thrown the
      question away or holds it unread with a newer epoch. */
  lemma QuestionEndsIff(k: Constants, st: State)
    requires WellFormed(k) && Inv(k, st) && st.mgr.phase.Collecting?
    ensures !Doomed(k, st) <==> exists path: seq<State> :: LeadsToAllAnswers(k, st, path)
  {
    if !Doomed(k, st) {
      var path := AnswersCanEnd(k, st);
    } else {
      forall path: seq<State> | LeadsToAllAnswers(k, st, path)
        ensures false
      {
        var last := |path| - 1;
        DoomedPath(k, path, last);
        var s: nat :| s < k.nb && Silent(path[last].mgr, s, path[last].servers[s]);
        SilentNotCounted(k, path[last], s);
      }
    }
  }

  // ------------------------------------------------- a run in which a question never ends

  lemma Stepped(k: Constants, st: State, step: Step)
    requires WellFormed(k) && Inv(k, st) && Enabled(k, st, step)
    ensures Inv(k, Next(k, st, step)) && Follows(k, st, Next(k, st, step))
  {
    NextInv(k, st, step);
  }

  /** The manager, idle at an epoch nobody was asked for, reads a request for help. */
  lemma HelpTaken(k: Constants, st: State) returns (mid: State, last: State)
    requires WellFormed(k) && Inv(k, st) && st.mgr.phase.Ready? && !st.mgr.processed
    requires st.servers[0].outbox == [Help(st.mgr.epoch)]
    ensures Follows(k, st, mid) && Follows(k, mid, last) && Inv(k, last) && last.mgr.phase.Asking?
    ensures last.mgr.epoch == st.mgr.epoch
    ensures last.servers == st.servers[0 := st.servers[0].(outbox := [])]
  {
    Stepped(k, st, TakeHelp(0));
    mid := Next(k, st, TakeHelp(0));
    assert mid.mgr.phase == GotHelp(st.mgr.epoch) && mid.servers[0] == st.servers[0].(outbox := []);
    Stepped(k, mid, Decide);
    last := Next(k, mid, Decide);
  }

  /** Server 0 and the manager reach epoch 1, and the server asks for help. */
  lemma HelpAsked(k: Constants) returns (mid: State, last: State)
    requires WellFormed(k)
    ensures Follows(k, Init(k, 0), mid) && Follows(k, mid, last) && Inv(k, last)
    ensures last.mgr.phase.Ready? && !last.mgr.processed && last.mgr.epoch == 1
    ensures last.servers[0].outbox == [Help(1)] && last.servers[0].inbox == [] && last.servers[0].eaclEpoch == 1
    ensures forall s :: 0 <= s < k.nb ==> last.servers[s].eaclEpoch <= 1
  {
    InitInv(k, 0);
    Stepped(k, Init(k, 0), ServerSignal(0, true));
    mid := Next(k, Init(k, 0), ServerSignal(0, true));
    Stepped(k, mid, ManagerSignal);
    last := Next(k, mid, ManagerSignal);
  }

  /** The manager asks everyone; nobody is past its epoch. */
  lemma EveryoneAsked(k: Constants, st: State) returns (last: State)
    requires WellFormed(k) && Inv(k, st) && st.mgr.phase.Asking? && st.mgr.epoch == 1
    requires forall s :: 0 <= s < k.nb ==> st.servers[s].eaclEpoch <= 1
    requires st.servers[0].inbox == [] && st.servers[0].eaclEpoch == 1
    ensures Follows(k, st, last) && Inv(k, last)
    ensures last.mgr.phase.Collecting? && LastAsk(last.mgr) == 1 && last.mgr.epoch == 1
    ensures last.servers[0].inbox == [Ask(1)] && last.servers[0].eaclEpoch == 1
    ensures forall s :: 0 <= s < k.nb ==> !Silent(last.mgr, s, last.servers[s])
  {
    Stepped(k, st, AskAll);
    last := Next(k, st, AskAll);
    forall s | 0 <= s < k.nb
      ensures !Silent(last.mgr, s, last.servers[s])
    {
      assert st.servers[s].eaclEpoch <= 1;
      assert last.servers[s].inbox == st.servers[s].inbox + [Ask(1)];
      assert Asks(last.servers[s]) != [];
    }
  }

  lemma TwoSteps(k: Constants, a: State, b: State, c: State) returns (path: seq<State>)
    requires Follows(k, a, b) && Follows(k, b, c)
    ensures IsPath(k, path) && path[0] == a && path[|path| - 1] == c && |path| == 3
  {
    path := [a, b, c];
  }

  /** A server asks for help at epoch 1 and the manager, at epoch 1 too, asks everyone. */
  lemma HelpLeadsToAsk(k: Constants) returns (run: seq<State>, last: State)
    requires WellFormed(k)
    ensures IsPath(k, run) && run[0] == Init(k, 0) && run[|run| - 1] == last && Inv(k, last)
    ensures last.mgr.phase.Collecting? && LastAsk(last.mgr) == 1
    ensures last.servers[0].inbox == [Ask(1)] && last.servers[0].eaclEpoch == 1
    ensures last.mgr.epoch == 1 && !Doomed(k, last)
  {
    var st1, st2 := HelpAsked(k);
    var st3, st4 := HelpTaken(k, st2);
    last := EveryoneAsked(k, st4);
    var run1 := TwoSteps(k, Init(k, 0), st1, st2);
    var run2 := TwoSteps(k, st2, st3, st4);
    run := PathConcat(k, run1, run2);
    run := PathConcat(k, run, [st4, last]);
  }

  /** A second epoch signal before the server reads the question: a reachable state
      from which the manager never broadcasts. */
  lemma QuestionMayNeverEnd(k: Constants) returns (run: seq<State>, last: State)
    requires WellFormed(k)
    ensures IsPath(k, run) && run[0] == Init(k, 0) && run[|run| - 1] == last
    ensures Inv(k, last) && Doomed(k, last)
  {
    var run0, st := HelpLeadsToAsk(k);
    var step := ServerSignal(0, false);
    Stepped(k, st, step);
    last := Next(k, st, step);
    run := PathConcat(k, run0, [st, last]);
    assert Silent(last.mgr, 0, last.servers[0]);
  }
}
