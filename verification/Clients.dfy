/** What becomes of a client's request: which answer it gets, what the client learns
    from it, and that every wish can be granted. */
module Clients {
  import opened Table
  import opened Protocol
  import opened Rounds
  import opened Versions
  import opened Keys
  import opened Progress
  import opened Refinement

  /** The line the called server has for the entry of client c's request. */
  function CalledLine(k: Constants, st: State, c: nat): Row
    requires Shape(k, st) && c < |st.clients| && st.clients[c].call.Sent?
  {
    st.servers[st.clients[c].call.to].table[st.clients[c].call.req.index]
  }

  /** Client c has read a reply: only its own table and call differ from `st`, and the
      table only in line i. */
  predicate HasRead(st: State, st': State, c: nat, i: nat, line: Assign)
    requires c < |st.clients| && i < |st.clients[c].table|
  {
    && st'.servers == st.servers && st'.mgr == st.mgr
    && st'.clients == st.clients[c := Client(st.clients[c].table[i := line], NoCall)]
  }

  /** Served and read, a request with the right version is performed; one that comes
      during a transfer is to be repeated and changes nothing; and from any other the
      client learns the line of the server it asked, and nothing else changes. */
  lemma ClientLearns(k: Constants, st: State, c: nat)
    requires WellFormed(k) && Shape(k, st) && Enabled(k, st, Serve(c))
    ensures
      var i, line := st.clients[c].call.req.index, CalledLine(k, st, c);
      var mid := Next(k, st, Serve(c));
      && Shape(k, mid) && Enabled(k, mid, ClientReceive(c))
      && (line.busy ==>
            && mid.clients[c].call.reply.WaitRetry?
            && HasRead(st, Next(k, mid, ClientReceive(c)), c, i, st.clients[c].table[i]))
      && (!line.busy && line.ver != st.clients[c].call.req.ver ==>
            && mid.clients[c].call.reply.UpdateRetry?
            && HasRead(st, Next(k, mid, ClientReceive(c)), c, i, Assign(line.srv, line.ver)))
      && (!line.busy && line.ver == st.clients[c].call.req.ver ==>
            mid.clients[c].call.reply.Done? || mid.clients[c].call.reply.Aborted?)
  {
    NextShape(k, st, Serve(c));
    ServedState(k, st, c);
    var cl, mid := st.clients[c], Next(k, st, Serve(c));
    assert mid.clients == st.clients[c := mid.clients[c]];
    assert st.servers[cl.call.to := st.servers[cl.call.to]] == st.servers;
    assert cl.table[cl.call.req.index := cl.table[cl.call.req.index]] == cl.table;
  }

  predicate AllSettled(k: Constants, st: State)
    requires |st.servers| == k.nb
  {
    forall s :: 0 <= s < k.nb ==> Settled(st.mgr, st.servers[s])
  }

  /** Client c has sent a request for `op` on `key` and nothing else has changed, but
      perhaps its cached table. */
  ghost predicate Pending(k: Constants, from: State, st: State, c: nat, op: Op, key: Key)
    requires WellFormed(k)
  {
    && Inv(k, st) && AllSettled(k, st) && Live(st) == Live(from) && Enabled(k, st, Serve(c))
    && st.clients[c].call.req.op == op && st.clients[c].call.req.key == key
  }

  lemma Send(k: Constants, from: State, st: State, c: nat, op: Op, key: Key) returns (next: State)
    requires WellFormed(k) && Inv(k, st) && AllSettled(k, st) && Live(st) == Live(from)
    requires c < |st.clients| && st.clients[c].call.NoCall? && Packing.Clean(key)
    ensures Follows(k, st, next) && Pending(k, from, next, c, op, key) && next.mgr == st.mgr
    ensures
      var line := st.clients[c].table[k.index(key)];
      next.clients[c].call.to == line.srv && next.clients[c].call.req.ver == line.ver
  {
    ClientTargets(k, st, c, k.index(key));
    var step := ClientSend(c, op, key);
    Stepped(k, st, step);
    StepRefinesSet(k, st, step);
    next := Next(k, st, step);
  }

  /** An out of date request, served and read. */
  lemma Learn(k: Constants, from: State, st: State, c: nat, op: Op, key: Key) returns (path: seq<State>, last: State)
    requires WellFormed(k) && Pending(k, from, st, c, op, key)
    requires CalledLine(k, st, c).ver != st.clients[c].call.req.ver
    ensures IsPath(k, path) && path[0] == st && path[|path| - 1] == last && |path| == 3 && last.mgr == st.mgr
    ensures Inv(k, last) && AllSettled(k, last) && Live(last) == Live(from)
    ensures c < |last.clients| && last.clients[c].call.NoCall?
    ensures last.clients[c].table[k.index(key)] == st.mgr.table[k.index(key)]
  {
    assert Settled(st.mgr, st.servers[st.clients[c].call.to]);
    ClientLearns(k, st, c);
    Stepped(k, st, Serve(c));
    var mid := Next(k, st, Serve(c));
    StepRefinesSet(k, st, Serve(c));
    Stepped(k, mid, ClientReceive(c));
    StepRefinesSet(k, mid, ClientReceive(c));
    last := Next(k, mid, ClientReceive(c));
    path := TwoSteps(k, st, mid, last);
  }

  /** The request has been performed, and answered as a set of keys would. */
  ghost predicate Granted(k: Constants, st: State, last: State, c: nat, op: Op, key: Key) {
    && c < |last.clients| && last.clients[c].call.Answered?
    && (Live(last), last.clients[c].call.reply) == Perform(Live(st), op, key)
  }

  lemma Served(k: Constants, from: State, st: State, c: nat, op: Op, key: Key) returns (last: State)
    requires WellFormed(k) && Pending(k, from, st, c, op, key)
    requires CalledLine(k, st, c).ver == st.clients[c].call.req.ver
    ensures Follows(k, st, last) && Inv(k, last) && last.mgr == st.mgr && Granted(k, from, last, c, op, key)
  {
    assert Settled(st.mgr, st.servers[st.clients[c].call.to]);
    ClientLearns(k, st, c);
    Stepped(k, st, Serve(c));
    StepRefinesSet(k, st, Serve(c));
    last := Next(k, st, Serve(c));
  }

  /** The second request goes to the owner. */
  lemma Again(k: Constants, from: State, st: State, c: nat, op: Op, key: Key) returns (path: seq<State>, last: State)
    requires WellFormed(k) && Inv(k, st) && AllSettled(k, st) && Live(st) == Live(from)
    requires c < |st.clients| && st.clients[c].call.NoCall? && Packing.Clean(key)
    requires st.clients[c].table[k.index(key)] == st.mgr.table[k.index(key)]
    ensures IsPath(k, path) && path[0] == st && path[|path| - 1] == last && |path| == 3
    ensures Inv(k, last) && Granted(k, from, last, c, op, key)
  {
    var mid := Send(k, from, st, c, op, key);
    assert Settled(mid.mgr, mid.servers[mid.clients[c].call.to]);
    last := Served(k, from, mid, c, op, key);
    path := TwoSteps(k, st, mid, last);
  }

  /** An out of date request, and the second one. */
  lemma AskTwice(k: Constants, from: State, st: State, c: nat, op: Op, key: Key) returns (path: seq<State>, last: State)
    requires WellFormed(k) && Pending(k, from, st, c, op, key) && Packing.Clean(key)
    requires CalledLine(k, st, c).ver != st.clients[c].call.req.ver
    ensures IsPath(k, path) && path[0] == st && path[|path| - 1] == last && |path| == 5
    ensures Inv(k, last) && Granted(k, from, last, c, op, key)
  {
    var path1, mid := Learn(k, from, st, c, op, key);
    var path2;
    path2, last := Again(k, from, mid, c, op, key);
    path := PathConcat(k, path1, path2);
  }

  /** When all servers are settled, a client that knows an old owner asks at most twice. */
  lemma SettledWish(k: Constants, st: State, c: nat, op: Op, key: Key) returns (path: seq<State>, last: State)
    requires WellFormed(k) && Inv(k, st) && AllSettled(k, st)
    requires c < |st.clients| && st.clients[c].call.NoCall? && Packing.Clean(key)
    ensures IsPath(k, path) && path[0] == st && path[|path| - 1] == last && |path| <= 6
    ensures Inv(k, last) && Granted(k, st, last, c, op, key)
  {
    var mid := Send(k, st, st, c, op, key);
    var rest: seq<State>;
    if CalledLine(k, mid, c).ver == mid.clients[c].call.req.ver {
      last := Served(k, st, mid, c, op, key);
      rest := [mid, last];
    } else {
      rest, last := AskTwice(k, st, mid, c, op, key);
    }
    path := PathConcat(k, [st, mid], rest);
  }

  /** In every state, whatever transfers are under way and however old the client's
      table is, the wish of an idle client can be granted: the servers finish the round
      and the client asks at most twice. */
  lemma WishGranted(k: Constants, st: State, c: nat, op: Op, key: Key) returns (path: seq<State>, last: State)
    requires WellFormed(k) && Inv(k, st)
    requires c < |st.clients| && st.clients[c].call.NoCall? && Packing.Clean(key)
    ensures IsPath(k, path) && path[0] == st && path[|path| - 1] == last
    ensures |path| <= TotalMove(k, st.servers) + 6
    ensures Inv(k, last) && Granted(k, st, last, c, op, key)
  {
    var path1, mid := RoundEnds(k, st);
    var path2;
    path2, last := SettledWish(k, mid, c, op, key);
    path := PathConcat(k, path1, path2);
  }
}
