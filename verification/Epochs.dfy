/** Epochs: what the manager's questions and the servers' answers are about, for
    every interleaving of the epoch signals. */
module Epochs {
  import opened Protocol
  import opened Rounds
  import opened Keys
  import opened Progress

  predicate Increasing(xs: seq<nat>) {
    forall i, j :: 0 <= i < j < |xs| ==> xs[i] < xs[j]
  }

  /** The current epoch has not been asked about. */
  predicate Fresh(m: Manager) {
    m.asks != [] ==> LastAsk(m) < m.epoch
  }

  predicate ManagerEpochs(m: Manager) {
    && Increasing(m.asks)
    && (m.asks != [] ==> LastAsk(m) <= m.epoch)
    && (m.phase.Asking? ==> Fresh(m))
    && ((m.phase.Ready? || m.phase.GotHelp?) && !m.processed ==> Fresh(m))
  }

  /** Every unread answer is the server's own and was computed at the epoch asked or
      a later one. */
  predicate ServerEpochs(m: Manager, s: nat, sv: Server) {
    forall j :: 0 <= j < |sv.outbox| && sv.outbox[j].Eacl? ==>
      sv.outbox[j].from == s && LastAsk(m) <= sv.outbox[j].stamp
  }

  predicate EpochInv(k: Constants, st: State)
    requires Shape(k, st)
  {
    && ManagerEpochs(st.mgr)
    && forall s :: 0 <= s < k.nb ==> ServerEpochs(st.mgr, s, st.servers[s])
  }

  lemma NoEacl(out: seq<ToManager>)
    requires Eacls(out) == 0
    ensures forall j :: 0 <= j < |out| ==> !out[j].Eacl?
  {
    if out != [] {
      NoEacl(out[1..]);
      assert forall j :: 1 <= j < |out| ==> out[j] == out[1..][j - 1];
    }
  }

  lemma InitEpochs(k: Constants, clients: nat)
    requires WellFormed(k)
    ensures Shape(k, Init(k, clients)) && EpochInv(k, Init(k, clients))
  {
    InitShape(k, clients);
  }

  lemma NextManagerEpochs(k: Constants, st: State, step: Step)
    requires Shape(k, st) && Enabled(k, st, step) && ManagerEpochs(st.mgr)
    ensures ManagerEpochs(Next(k, st, step).mgr)
  {}

  /** The outbox after a step: the old one, its tail, or the old one and one message. */
  lemma NextOutbox(k: Constants, st: State, step: Step, s: nat)
    requires WellFormed(k) && Inv(k, st) && Enabled(k, st, step) && s < k.nb
    ensures |Next(k, st, step).servers| == k.nb
    ensures
      var sv, sv' := st.servers[s], Next(k, st, step).servers[s];
      || sv'.outbox == sv.outbox
      || (sv.outbox != [] && sv'.outbox == sv.outbox[1..])
      || (step.ServerSignal? && exists e :: sv'.outbox == sv.outbox + [Help(e)])
      || (step == AnswerAsk(s) && sv'.outbox == sv.outbox + [Eacl(s, sv.eaclEpoch)])
  {
    if IsMove(step) {
      MoveAnswers(k, st, step, s);
    } else if step.ClientSend? || step.ClientReceive? || step.Serve? {
      ClientAnswers(k, st, step, s);
    } else {
      ManagerOutbox(k, st, step, s);
    }
  }

  lemma ManagerOutbox(k: Constants, st: State, step: Step, s: nat)
    requires Shape(k, st) && Enabled(k, st, step) && s < k.nb
    requires !IsMove(step) && !step.ClientSend? && !step.ClientReceive? && !step.Serve?
    ensures |Next(k, st, step).servers| == k.nb
    ensures
      var sv, sv' := st.servers[s], Next(k, st, step).servers[s];
      || sv'.outbox == sv.outbox
      || (sv.outbox != [] && sv'.outbox == sv.outbox[1..])
      || (step.ServerSignal? && exists e :: sv'.outbox == sv.outbox + [Help(e)])
      || (step == AnswerAsk(s) && sv'.outbox == sv.outbox + [Eacl(s, sv.eaclEpoch)])
  {
    if step.ServerSignal? && step.s == s && step.help {
      assert Next(k, st, step).servers[s].outbox == st.servers[s].outbox + [Help(st.servers[s].eaclEpoch + 1)];
    }
  }

  lemma NextEpochs(k: Constants, st: State, step: Step)
    requires WellFormed(k) && Inv(k, st) && EpochInv(k, st) && Enabled(k, st, step)
    ensures Shape(k, Next(k, st, step)) && EpochInv(k, Next(k, st, step))
  {
    var st' := Next(k, st, step);
    NextShape(k, st, step);
    NextManagerEpochs(k, st, step);
    forall s | 0 <= s < k.nb
      ensures ServerEpochs(st'.mgr, s, st'.servers[s])
    {
      assert ServerRound(st.mgr, s, st.servers[s]) && ServerEpochs(st.mgr, s, st.servers[s]);
      NextOutbox(k, st, step, s);
      if step.AskAll? {
        NoEacl(st.servers[s].outbox);
      } else {
        assert LastAsk(st'.mgr) == LastAsk(st.mgr);
      }
    }
  }

  // ------------------------------------------------------------------ what it means

  /** An answer the manager merges comes from a server it had not heard since it
      asked, and was computed at the epoch asked or later. */
  lemma MergedAnswerIsCurrent(k: Constants, st: State, s: nat)
    requires WellFormed(k) && Inv(k, st) && EpochInv(k, st) && Enabled(k, st, Collect(s))
    requires st.servers[s].outbox[0].Eacl?
    ensures st.servers[s].outbox[0].from == s && LastAsk(st.mgr) <= st.servers[s].outbox[0].stamp
    ensures s !in st.mgr.counted
  {
    assert ServerRound(st.mgr, s, st.servers[s]) && ServerEpochs(st.mgr, s, st.servers[s]);
  }

  /** The epochs asked along any run are strictly increasing, whenever signals come. */
  lemma {:induction false} RunEpochs(k: Constants, clients: nat, run: seq<State>)
    requires WellFormed(k) && IsRun(k, clients, run)
    ensures Inv(k, run[|run| - 1]) && EpochInv(k, run[|run| - 1])
    ensures Increasing(run[|run| - 1].mgr.asks)
  {
    if |run| == 1 {
      InitInv(k, clients);
      InitEpochs(k, clients);
    } else {
      var n := |run| - 1;
      var prefix := run[..n];
      assert IsRun(k, clients, prefix) by {
        forall j | 0 <= j < n - 1
          ensures Follows(k, prefix[j], prefix[j + 1])
        {
          assert Follows(k, run[j], run[j + 1]);
        }
      }
      RunEpochs(k, clients, prefix);
      assert Follows(k, run[n - 1], run[n]);
      var step :| Enabled(k, run[n - 1], step) && run[n] == Next(k, run[n - 1], step);
      NextInv(k, run[n - 1], step);
      NextEpochs(k, run[n - 1], step);
    }
  }

  // --------------------------------------------------------- a signal during a round

  /** Done with its epoch and not woken by a signal, the manager asks nothing. */
  predicate Resting(m: Manager) {
    m.processed && (m.phase.Ready? || m.phase.GotHelp?)
  }

  lemma RestingFollows(k: Constants, st: State, next: State)
    requires Follows(k, st, next)
    ensures st.mgr.epoch <= next.mgr.epoch
    ensures Resting(st.mgr) && next.mgr.epoch == st.mgr.epoch ==> Resting(next.mgr) && next.mgr.asks == st.mgr.asks
  {}

  /** Until the next signal a resting manager asks nothing, whoever asks for help. */
  lemma {:induction false} RestingUntilSignal(k: Constants, path: seq<State>, j: nat)
    requires IsPath(k, path) && j < |path| && Resting(path[0].mgr)
    ensures path[0].mgr.epoch <= path[j].mgr.epoch
    ensures path[j].mgr.epoch == path[0].mgr.epoch ==>
              Resting(path[j].mgr) && path[j].mgr.asks == path[0].mgr.asks
  {
    if j > 0 {
      RestingUntilSignal(k, path, j - 1);
      assert Follows(k, path[j - 1], path[j]);
      RestingFollows(k, path[j - 1], path[j]);
    }
  }

  // ------------------------------------------------------------ a request for help

  /** A request for help at epoch e is about something the manager has not dealt with. */
  predicate Open(m: Manager, e: nat) {
    e > m.epoch || (e == m.epoch && !m.processed)
  }

  /** The manager waits with a request from the future until its own epoch has come. */
  lemma {:induction false} WaitForEpoch(k: Constants, st: State, e: nat) returns (path: seq<State>, last: State)
    requires WellFormed(k) && Inv(k, st) && st.mgr.phase == GotHelp(e) && Open(st.mgr, e)
    ensures IsPath(k, path) && path[0] == st && path[|path| - 1] == last && Inv(k, last)
    ensures last == st.(mgr := st.mgr.(epoch := e, processed := false))
    decreases e - st.mgr.epoch
  {
    if st.mgr.epoch == e {
      path, last := [st], st;
    } else {
      Stepped(k, st, ManagerSignal);
      var next := Next(k, st, ManagerSignal);
      if next.mgr.epoch == e {
        path, last := [st, next], next;
      } else {
        path, last := WaitForEpoch(k, next, e);
        path := PathConcat(k, [st, next], path);
      }
    }
  }

  /** A request for help that the manager reads leads, without anybody else's help, to
      a question about its epoch to every server, if the epoch is still open. */
  lemma HelpIsHeard(k: Constants, st: State, s: nat, e: nat) returns (path: seq<State>, last: State)
    requires WellFormed(k) && Inv(k, st) && Enabled(k, st, TakeHelp(s))
    requires st.servers[s].outbox[0] == Help(e) && Open(st.mgr, e)
    ensures IsPath(k, path) && path[0] == st && path[|path| - 1] == last && Inv(k, last)
    ensures last.mgr.phase == Collecting(0) && last.mgr.asks == st.mgr.asks + [e]
    ensures forall t :: 0 <= t < k.nb ==> last.servers[t].inbox == st.servers[t].inbox + [Ask(e)]
  {
    Stepped(k, st, TakeHelp(s));
    var st1 := Next(k, st, TakeHelp(s));
    var path1, st2 := WaitForEpoch(k, st1, e);
    path := PathConcat(k, [st, st1], path1);
    var path2;
    path2, last := DecideAndAsk(k, st2);
    path := PathConcat(k, path, path2);
    assert forall t :: 0 <= t < k.nb ==> st1.servers[t].inbox == st.servers[t].inbox;
  }

  lemma DecideAndAsk(k: Constants, st: State) returns (path: seq<State>, last: State)
    requires WellFormed(k) && Inv(k, st) && !st.mgr.processed
    requires st.mgr.phase.GotHelp? && st.mgr.phase.epoch == st.mgr.epoch
    ensures IsPath(k, path) && path[0] == st && path[|path| - 1] == last && Inv(k, last)
    ensures last.mgr.phase == Collecting(0) && last.mgr.asks == st.mgr.asks + [st.mgr.epoch]
    ensures forall t :: 0 <= t < k.nb ==> last.servers[t].inbox == st.servers[t].inbox + [Ask(st.mgr.epoch)]
  {
    Stepped(k, st, Decide);
    var mid := Next(k, st, Decide);
    Stepped(k, mid, AskAll);
    last := Next(k, mid, AskAll);
    path := TwoSteps(k, st, mid, last);
  }

  /** And if it is not open: a request of an older epoch leaves the manager as it was,
      and one of an epoch already dealt with leaves it at rest until the next signal. */
  lemma HelpIsIgnored(k: Constants, st: State, s: nat, e: nat, path: seq<State>, j: nat)
    requires Shape(k, st) && Enabled(k, st, TakeHelp(s)) && st.servers[s].outbox[0] == Help(e) && !Open(st.mgr, e)
    requires IsPath(k, path) && path[0] == Next(k, st, TakeHelp(s)) && j < |path|
    ensures e < st.mgr.epoch ==> path[0].mgr == st.mgr
    ensures e == st.mgr.epoch && path[j].mgr.epoch == e ==> path[j].mgr.asks == st.mgr.asks
  {
    if e == st.mgr.epoch {
      RestingUntilSignal(k, path, j);
    }
  }

  /** The manager has asked about epoch e, or is still going to when help is wanted. */
  predicate Heard(m: Manager, e: nat) {
    m.epoch == e && (LastAsk(m) == e || (!m.processed && (m.phase.Ready? || m.phase.GotHelp? || m.phase.Asking?)))
  }

  /** The manager is in a round about an older epoch, or has marked epoch e as done
      without asking about it. */
  predicate Missed(m: Manager, e: nat) {
    && m.epoch == e && LastAsk(m) != e
    && (m.phase.Collecting? || m.phase.Marking? || (m.processed && (m.phase.Ready? || m.phase.GotHelp?)))
  }

  lemma HearingFollows(k: Constants, st: State, next: State, e: nat)
    requires Follows(k, st, next) && next.mgr.epoch == e
    ensures Heard(st.mgr, e) ==> Heard(next.mgr, e)
    ensures Missed(st.mgr, e) ==> Missed(next.mgr, e)
  {}

  lemma StepRises(k: Constants, path: seq<State>, j: nat)
    requires IsPath(k, path) && j + 1 < |path|
    ensures path[j].mgr.epoch <= path[j + 1].mgr.epoch
  {
    RestingFollows(k, path[j], path[j + 1]);
  }

  lemma {:induction false} EpochsRise(k: Constants, path: seq<State>, i: nat, j: nat)
    requires IsPath(k, path) && i <= j < |path|
    ensures path[i].mgr.epoch <= path[j].mgr.epoch
  {
    if i < j {
      EpochsRise(k, path, i, j - 1);
      StepRises(k, path, j - 1);
    }
  }

  lemma {:induction false} HearingPath(k: Constants, path: seq<State>, j: nat)
    requires IsPath(k, path) && j < |path| && path[|path| - 1].mgr.epoch == path[0].mgr.epoch
    ensures Heard(path[0].mgr, path[0].mgr.epoch) ==> Heard(path[j].mgr, path[0].mgr.epoch)
    ensures Missed(path[0].mgr, path[0].mgr.epoch) ==> Missed(path[j].mgr, path[0].mgr.epoch)
  {
    if j > 0 {
      HearingPath(k, path, j - 1);
      EpochsRise(k, path, 0, j);
      EpochsRise(k, path, j, |path| - 1);
      assert Follows(k, path[j - 1], path[j]);
      HearingFollows(k, path[j - 1], path[j], path[0].mgr.epoch);
    }
  }

  /** When the manager is next done with its epoch, it has asked about a signalled
      epoch exactly if the signal did not come while it was collecting answers or
      publishing the table of an older epoch. */
  lemma SignalHeardIff(k: Constants, st: State, path: seq<State>)
    requires WellFormed(k) && Inv(k, st) && EpochInv(k, st)
    requires IsPath(k, path) && path[0] == Next(k, st, ManagerSignal)
    requires path[|path| - 1].mgr.epoch == path[0].mgr.epoch && path[|path| - 1].mgr.processed
    ensures LastAsk(path[|path| - 1].mgr) == path[0].mgr.epoch
            <==> !(st.mgr.phase.Collecting? || st.mgr.phase.Marking?)
  {
    HearingPath(k, path, |path| - 1);
  }

  /** From a question that can be answered, the manager can reach the end of the round. */
  lemma AnsweredAndMarked(k: Constants, st: State) returns (path: seq<State>, last: State)
    requires WellFormed(k) && Inv(k, st) && st.mgr.phase.Collecting? && !Doomed(k, st)
    ensures IsPath(k, path) && path[0] == st && path[|path| - 1] == last
    ensures Resting(last.mgr) && last.mgr.asks == st.mgr.asks && last.mgr.epoch == st.mgr.epoch
  {
    path := AnswersCanEnd(k, st);
    var st2 := path[|path| - 1];
    Stepped(k, st2, Broadcast(st2.mgr.table));
    var st3 := Next(k, st2, Broadcast(st2.mgr.table));
    Stepped(k, st3, Mark);
    last := Next(k, st3, Mark);
    path := PathConcat(k, path, [st2, st3, last]);
  }

  /** A signal that comes during a round is marked as processed together with that
      round: the manager can come to rest at an epoch nobody was asked about. */
  lemma SignalMayBeLost(k: Constants) returns (run: seq<State>, last: State)
    requires WellFormed(k)
    ensures IsPath(k, run) && run[0] == Init(k, 0) && run[|run| - 1] == last
    ensures Resting(last.mgr) && LastAsk(last.mgr) < last.mgr.epoch
  {
    var run0, st := HelpLeadsToAsk(k);
    Stepped(k, st, ManagerSignal);
    var st1 := Next(k, st, ManagerSignal);
    assert !Doomed(k, st1) by {
      assert forall s :: 0 <= s < k.nb ==> Silent(st1.mgr, s, st1.servers[s]) == Silent(st.mgr, s, st.servers[s]);
    }
    var path;
    path, last := AnsweredAndMarked(k, st1);
    run := PathConcat(k, run0, [st, st1]);
    run := PathConcat(k, run, path);
  }
}
