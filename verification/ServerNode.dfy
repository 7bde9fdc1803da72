/** The server's code for one client request, and the listener's loop that applies a
    new table and starts the sender, over the server's own arrays and lists. */
module ServerNode {
  import opened Table
  import opened Mlt
  import opened Packing
  import opened EntryList
  import opened Eacl
  import opened LoadArgsSort
  import opened Sequences
  import Sender
  import P = Protocol

  /** The entries below n that are moving, in order, each with a server. */
  function Moving(moving: set<nat>, srv: seq<int>, n: nat): (r: seq<(int, int)>)
    requires n <= |srv|
    ensures |r| <= n
  {
    if n == 0 then []
    else if n - 1 in moving then Moving(moving, srv, n - 1) + [(srv[n - 1], n - 1)]
    else Moving(moving, srv, n - 1)
  }

  predicate Rising(list: seq<(int, int)>, n: int) {
    && (forall k :: 0 <= k < |list| ==> 0 <= list[k].1 < n)
    && forall j, k :: 0 <= j < k < |list| ==> list[j].1 < list[k].1
  }

  lemma {:induction false} MovingRises(moving: set<nat>, srv: seq<int>, n: nat)
    requires n <= |srv|
    ensures Rising(Moving(moving, srv, n), n)
  {
    if n > 0 {
      MovingRises(moving, srv, n - 1);
    }
  }

  lemma {:induction false} MovingListed(moving: set<nat>, srv: seq<int>, n: nat, k: nat)
    requires n <= |srv| && k < |Moving(moving, srv, n)|
    ensures Listed(moving, srv, Moving(moving, srv, n)[k])
  {
    if k < |Moving(moving, srv, n - 1)| {
      MovingListed(moving, srv, n - 1, k);
    }
  }

  lemma {:induction false} MovingComplete(moving: set<nat>, srv: seq<int>, n: nat, i: nat)
    requires i < n <= |srv| && i in moving
    ensures (srv[i], i) in Moving(moving, srv, n)
  {
    if i < n - 1 {
      MovingComplete(moving, srv, n - 1, i);
    } else {
      var list := Moving(moving, srv, n);
      assert list[|list| - 1] == (srv[i], i);
    }
  }

  /** The list holds exactly the moving entries, each once, each with its server. */
  lemma MovingExact(moving: set<nat>, srv: seq<int>, n: nat)
    requires n <= |srv|
    ensures Rising(Moving(moving, srv, n), n)
    ensures forall k :: 0 <= k < |Moving(moving, srv, n)| ==> Listed(moving, srv, Moving(moving, srv, n)[k])
    ensures forall i: nat :: i < n && i in moving ==> (srv[i], i) in Moving(moving, srv, n)
  {
    MovingRises(moving, srv, n);
    var list := Moving(moving, srv, n);
    forall k | 0 <= k < |list|
      ensures Listed(moving, srv, list[k])
    {
      MovingListed(moving, srv, n, k);
    }
    forall i: nat | i < n && i in moving
      ensures (srv[i], i) in list
    {
      MovingComplete(moving, srv, n, i);
    }
  }

  predicate Listed(moving: set<nat>, srv: seq<int>, line: (int, int)) {
    0 <= line.1 < |srv| && line.1 in moving && line.0 == srv[line.1]
  }

  /** As many lines as moving entries: the packets the receiver waits for. */
  lemma {:induction false} MovingCount(moving: set<nat>, srv: seq<int>, n: nat)
    requires n <= |srv|
    ensures |Moving(moving, srv, n)| == |set i | i in moving && i < n|
  {
    if n == 0 {
      assert (set i | i in moving && i < 0) == {};
    } else {
      MovingCount(moving, srv, n - 1);
      var before, after := (set i | i in moving && i < n - 1), (set i | i in moving && i < n);
      assert after == if n - 1 in moving then before + {n - 1} else before;
    }
  }

  function OldOwners(was: seq<Row>): (r: seq<int>)
    ensures |r| == |was|
  {
    seq(|was|, i requires 0 <= i < |was| => was[i].srv)
  }

  /** What server `me` must send, to whom, and what it must receive, from whom. */
  function SendList(me: nat, was: seq<Row>, now: seq<Assign>, n: nat): (r: seq<(int, int)>)
    requires n <= |was| == |now|
    ensures |r| <= n
  {
    Moving(Outgoing(me, was, now), Owners(now), n)
  }

  function ReceiveList(me: nat, was: seq<Row>, now: seq<Assign>, n: nat): (r: seq<(int, int)>)
    requires n <= |was| == |now|
    ensures |r| <= n
  {
    Moving(Incoming(me, was, now), OldOwners(was), n)
  }

  /** The sender's list has one line for each outgoing entry, with its new owner, and
      the receiver waits for exactly as many packets as entries come in. */
  lemma ListsExact(me: nat, was: seq<Row>, now: seq<Assign>)
    requires |was| == |now|
    ensures
      var list := SendList(me, was, now, |was|);
      && Rising(list, |was|)
      && (forall i :: i in Outgoing(me, was, now) ==> (now[i].srv as int, i as int) in list)
      && (forall k :: 0 <= k < |list| ==> Listed(Outgoing(me, was, now), Owners(now), list[k]))
    ensures |ReceiveList(me, was, now, |was|)| == |Incoming(me, was, now)|
  {
    var n := |was|;
    MovingExact(Outgoing(me, was, now), Owners(now), n);
    MovingCount(Incoming(me, was, now), OldOwners(was), n);
    assert (set i | i in Incoming(me, was, now) && i < n) == Incoming(me, was, now);
    forall i | i in Outgoing(me, was, now)
      ensures (now[i].srv as int, i as int) in SendList(me, was, now, n)
    {
      MovingComplete(Outgoing(me, was, now), Owners(now), n, i);
    }
  }

  ghost predicate NotIn(table: Mlt, a: LoadArgs) {
    !table.Owns(a.servers) && !table.Owns(a.entries)
  }

  /** The arrays of the update loop do not overlap. */
  ghost predicate Apart(table: Mlt, temp: Mlt, a: LoadArgs, b: LoadArgs) {
    && a != b && table.Arrays() !! temp.Arrays()
    && a.servers != b.servers && a.servers != b.entries && a.entries != b.servers && a.entries != b.entries
    && NotIn(table, a) && NotIn(table, b) && NotIn(temp, a) && NotIn(temp, b)
  }

  /** Overwriting a line of the table leaves the lists alone. */
  method UpdateLine(table: Mlt, i: nat, srv: nat, ver: nat, s: nat, ghost a: LoadArgs, ghost b: LoadArgs)
    requires table.Valid() && i < table.size && s <= 1 && a.Valid() && b.Valid()
    requires NotIn(table, a) && NotIn(table, b)
    modifies table.idSrv, table.nVer, table.state
    ensures table.Valid() && table.Rows() == old(table.Rows())[i := Row(srv, ver, s == 1)]
    ensures a.Valid() && b.Valid()
  {
    var rc := table.UpdateEntry(i, srv, ver, s);
  }

  /** The table update of one entry. */
  method ApplyEntry(me: nat, table: Mlt, temp: Mlt, i: nat, toSend: LoadArgs, toReceive: LoadArgs)
    requires table.Valid() && temp.Valid() && table.size == temp.size && i < table.size
    requires Apart(table, temp, toSend, toReceive) && toSend.Valid() && toReceive.Valid()
    requires toSend.size < toSend.servers.Length && toReceive.size < toReceive.servers.Length
    modifies table.idSrv, table.nVer, table.state, toSend, toSend.servers, toSend.entries
    modifies toReceive, toReceive.servers, toReceive.entries
    ensures table.Valid() && toSend.Valid() && toReceive.Valid()
    ensures table.Rows() == old(table.Rows())[i := ApplyRow(me, old(table.Rows())[i], temp.Assigns()[i])]
    ensures
      var was, now := old(table.Rows())[i], temp.Assigns()[i];
      && toSend.lines == (if was.ver != now.ver && was.srv == me
                            then old(toSend.lines) + [(now.srv, i)] else old(toSend.lines))
      && toReceive.lines == (if was.ver != now.ver && was.srv != me && now.srv == me
                               then old(toReceive.lines) + [(was.srv, i)] else old(toReceive.lines))
  {
    var rc, oldSrv, oldVer, oldState := table.GetEntry(i);
    var newSrv, newVer: nat, newState;
    rc, newSrv, newVer, newState := temp.GetEntry(i);
    ghost var was, now := table.Rows(), temp.Assigns()[i];
    assert was[i].srv == oldSrv && was[i].ver == oldVer && now == Assign(newSrv, newVer);
    if oldVer != newVer {
      if oldSrv == me {
        toSend.Add(newSrv, i);
        UpdateLine(table, i, newSrv, newVer, 1, toSend, toReceive);
      } else if newSrv == me {
        toReceive.Add(oldSrv, i);
        UpdateLine(table, i, newSrv, newVer, 1, toSend, toReceive);
      } else {
        UpdateLine(table, i, newSrv, newVer, 0, toSend, toReceive);
      }
    }
  }

  /** One more entry in the two lists. */
  lemma ListsStep(me: nat, was: seq<Row>, now: seq<Assign>, i: nat)
    requires i < |was| == |now|
    ensures SendList(me, was, now, i + 1) ==
              if was[i].ver != now[i].ver && was[i].srv == me
              then SendList(me, was, now, i) + [(now[i].srv, i)] else SendList(me, was, now, i)
    ensures ReceiveList(me, was, now, i + 1) ==
              if was[i].ver != now[i].ver && was[i].srv != me && now[i].srv == me
              then ReceiveList(me, was, now, i) + [(was[i].srv, i)] else ReceiveList(me, was, now, i)
  {}

  /** The first i lines are new, the others old. */
  ghost predicate RowsAt(rows: seq<Row>, all: seq<Row>, was: seq<Row>, i: nat) {
    && |rows| == |all| == |was|
    && (forall j :: 0 <= j < i && j < |rows| ==> rows[j] == all[j])
    && forall j :: i <= j < |rows| ==> rows[j] == was[j]
  }

  lemma RowsStep(rows: seq<Row>, rows': seq<Row>, all: seq<Row>, was: seq<Row>, i: nat)
    requires i < |was| && RowsAt(rows, all, was, i) && rows' == rows[i := all[i]]
    ensures RowsAt(rows', all, was, i + 1)
  {}

  /** The listener's loop over a new table: afterwards the server's table is the one
      module Table prescribes, and the two lists for the sender and the receiver are
      exactly the outgoing and the incoming entries. */
  method ApplyTable(me: nat, table: Mlt, temp: Mlt) returns (toSend: LoadArgs, toReceive: LoadArgs)
    requires table.Valid() && temp.Valid() && table.size == temp.size && table.Arrays() !! temp.Arrays()
    modifies table.idSrv, table.nVer, table.state
    ensures table.Valid() && toSend.Valid() && toReceive.Valid()
    ensures fresh(toSend) && fresh(toSend.servers) && fresh(toSend.entries)
    ensures table.Rows() == Table.ApplyTable(me, old(table.Rows()), old(temp.Assigns()))
    ensures toSend.lines == SendList(me, old(table.Rows()), old(temp.Assigns()), table.size)
    ensures toReceive.lines == ReceiveList(me, old(table.Rows()), old(temp.Assigns()), table.size)
  {
    ghost var was, now := table.Rows(), temp.Assigns();
    ghost var all := Table.ApplyTable(me, was, now);
    toSend := new LoadArgs(table.size);
    toReceive := new LoadArgs(table.size);
    assert Apart(table, temp, toSend, toReceive);
    for i := 0 to table.size
      invariant table.Valid() && toSend.Valid() && toReceive.Valid()
      invariant RowsAt(table.Rows(), all, was, i)
      invariant toSend.lines == SendList(me, was, now, i)
      invariant toReceive.lines == ReceiveList(me, was, now, i)
    {
      ghost var rows := table.Rows();
      ListsStep(me, was, now, i);
      ApplyEntry(me, table, temp, i, toSend, toReceive);
      RowsStep(rows, table.Rows(), all, was, i);
    }
    assert table.Rows() == all;
  }

  /** The packets are for outgoing entries, at most one for each, and each goes to the
      address of the entry's new owner. */
  ghost predicate ToNewOwners(log: seq<Sender.Sent>, out: set<nat>, now: seq<Assign>, hosts: seq<string>) {
    && (forall k :: 0 <= k < |log| ==> ToNewOwner(log[k], out, now, hosts))
    && forall j, k :: 0 <= j < k < |log| ==> log[j].entry != log[k].entry
  }

  ghost predicate ToNewOwner(p: Sender.Sent, out: set<nat>, now: seq<Assign>, hosts: seq<string>) {
    && 0 <= p.entry < |now| && p.entry in out
    && p.line == now[p.entry].srv < |hosts| && p.address == hosts[p.line]
  }

  /** No line of a rising list stands there twice. */
  lemma RisingOnce(list: seq<(int, int)>, n: int, x: (int, int))
    requires Rising(list, n)
    ensures multiset(list)[x] <= 1
  {
    if x in list {
      var m :| 0 <= m < |list| && list[m] == x;
      assert list == list[..m] + [x] + list[m + 1..];
      assert x !in list[..m] && x !in list[m + 1..];
    }
  }

  /** A log that carries lines of the sender's list, each at most once. */
  lemma LogToNewOwners(log: seq<Sender.Sent>, me: nat, was: seq<Row>, now: seq<Assign>, hosts: seq<string>)
    requires |was| == |now| && multiset(Sender.Carried(log)) <= multiset(SendList(me, was, now, |was|))
    requires forall k :: 0 <= k < |log| ==> 0 <= log[k].line < |hosts| && log[k].address == hosts[log[k].line]
    ensures ToNewOwners(log, Outgoing(me, was, now), now, hosts)
  {
    var list, carried := SendList(me, was, now, |was|), Sender.Carried(log);
    ListsExact(me, was, now);
    forall k | 0 <= k < |log|
      ensures ToNewOwner(log[k], Outgoing(me, was, now), now, hosts)
    {
      assert carried[k] in multiset(carried) && carried[k] in multiset(list);
      var m :| 0 <= m < |list| && list[m] == carried[k];
      assert Listed(Outgoing(me, was, now), Owners(now), list[m]);
    }
    forall j, k | 0 <= j < k < |log|
      ensures log[j].entry != log[k].entry
    {
      assert ToNewOwner(log[j], Outgoing(me, was, now), now, hosts);
      if log[j].entry == log[k].entry {
        TwiceCounts(carried, j, k);
        RisingOnce(list, |was|, carried[k]);
      }
    }
  }

  /** A log that carries the whole list has a packet for every outgoing entry. */
  lemma LogComplete(log: seq<Sender.Sent>, me: nat, was: seq<Row>, now: seq<Assign>, i: nat)
    requires |was| == |now| && multiset(Sender.Carried(log)) == multiset(SendList(me, was, now, |was|))
    requires i in Outgoing(me, was, now)
    ensures exists k :: 0 <= k < |log| && log[k].entry == i
  {
    ListsExact(me, was, now);
    var line := (now[i].srv as int, i as int);
    assert line in multiset(SendList(me, was, now, |was|)) && line in multiset(Sender.Carried(log));
    var k :| 0 <= k < |log| && Sender.Carried(log)[k] == line;
  }

  /** The hosts file has a line for every server on the list exactly when it has one for
      every new owner of an outgoing entry. */
  lemma HostsKnown(me: nat, was: seq<Row>, now: seq<Assign>, hosts: nat)
    requires |was| == |now|
    ensures Sender.Within(SendList(me, was, now, |was|), hosts)
            <==> forall i :: i in Outgoing(me, was, now) ==> now[i].srv < hosts
  {
    var list := SendList(me, was, now, |was|);
    ListsExact(me, was, now);
    if Sender.Within(list, hosts) {
      forall i | i in Outgoing(me, was, now)
        ensures now[i].srv < hosts
      {
        var k :| 0 <= k < |list| && list[k] == (now[i].srv as int, i as int);
      }
    } else {
      var k :| 0 <= k < |list| && !(0 <= list[k].0 < hosts);
      assert Listed(Outgoing(me, was, now), Owners(now), list[k]);
    }
  }

  /** The listener on a new table, and the sender thread it starts: exactly when the
      hosts file has a line for every new owner, there is one packet for every entry
      this server loses, sent to the entry's new owner. Up to a failure, too, nothing
      else is sent. */
  method ApplyAndSend(me: nat, table: Mlt, temp: Mlt, hosts: seq<string>)
    returns (ok: bool, log: seq<Sender.Sent>)
    requires table.Valid() && temp.Valid() && table.size == temp.size && table.Arrays() !! temp.Arrays()
    modifies table.idSrv, table.nVer, table.state
    ensures table.Valid()
    ensures
      var was, now := old(table.Rows()), old(temp.Assigns());
      var out := Outgoing(me, was, now);
      && table.Rows() == Table.ApplyTable(me, was, now)
      && ToNewOwners(log, out, now, hosts)
      && (ok <==> forall i :: i in out ==> now[i].srv < |hosts|)
      && (ok ==> forall i :: i in out ==> exists k :: 0 <= k < |log| && log[k].entry == i)
  {
    ghost var was, now := table.Rows(), temp.Assigns();
    var toSend, toReceive := ApplyTable(me, table, temp);
    ghost var list := toSend.lines;
    ListsExact(me, was, now);
    var connections;
    ok, log, connections := Sender.SendAll(toSend, hosts);
    LogToNewOwners(log, me, was, now, hosts);
    HostsKnown(me, was, now, |hosts|);
    if ok {
      forall i | i in Outgoing(me, was, now)
        ensures exists k :: 0 <= k < |log| && log[k].entry == i
      {
        LogComplete(log, me, was, now, i);
      }
    }
  }

  // ------------------------------------------------------------ one client request

  /** What the version check answers: the request is accepted, the entry is being
      moved, the request is out of date, or there is no such entry. */
  datatype Check = Accepted | Already | Again(srv: nat, ver: nat) | Failed

  class Server {
    const table: Mlt
    const access: Eacl
    const lists: seq<EntryList>
    var store: set<string>

    /** The lists are sound and do not share elements. */
    ghost predicate ListsOk()
      reads lists, set i, o | 0 <= i < |lists| && o in lists[i].repr :: o
    {
      && (forall i :: 0 <= i < |lists| ==> lists[i].Valid())
      && forall i, j :: 0 <= i < j < |lists| ==> lists[i].repr !! lists[j].repr
    }

    ghost function Keys(): (r: seq<seq<string>>)
      reads lists
      ensures |r| == |lists| && forall i :: 0 <= i < |lists| ==> r[i] == lists[i].Names()
    {
      seq(|lists|, i requires 0 <= i < |lists| reads lists => lists[i].Names())
    }

    constructor (table: Mlt, access: Eacl, lists: seq<EntryList>, store: set<string>)
      ensures this.table == table && this.access == access && this.lists == lists && this.store == store
    {
      this.table, this.access, this.lists, this.store := table, access, lists, store;
    }

    /** distribution_post_receive of the server: an accepted request counts as one
        access of its entry, a refused one changes nothing. */
    method PostReceive(index: int, ver: nat) returns (r: Check)
      requires table.Valid() && access.Valid() && access.size == table.size
      requires access.accessCount !in table.Arrays()
      modifies access.accessCount
      ensures access.Valid()
      ensures 0 <= index < table.size ==>
                r == if table.Rows()[index].busy then Already
                     else if table.Rows()[index].ver != ver then Again(table.Rows()[index].srv, table.Rows()[index].ver)
                     else Accepted
      ensures !(0 <= index < table.size) ==> r == Failed
      ensures forall i :: 0 <= i < access.size ==>
                access.At(i) == if r.Accepted? && i == index then Apply(old(access.At(i)), Access)
                                else old(access.At(i))
    {
      var rc, srv, v, s := table.GetEntry(index);
      if !rc.Ok? {
        return Failed;
      }
      if s != 0 {
        return Already;
      }
      if ver != v {
        return Again(srv, v);
      }
      var rc' := access.IncrAccess(index);
      return Accepted;
    }

    /** The key enters the list of its entry. */
    method InsertKey(key: string, index: nat)
      requires ListsOk() && index < |lists|
      modifies lists[index].repr
      ensures ListsOk() && OthersSame(old(Keys()), index)
      ensures lists[index].Names() == [key] + old(lists[index].Names())
    {
      var elem := new MdEntry(index, key);
      lists[index].Insert(elem);
    }

    /** The key leaves the list of its entry. */
    method RemoveKey(key: string, index: nat) returns (found: bool)
      requires ListsOk() && index < |lists|
      modifies lists[index].repr
      ensures ListsOk() && OthersSame(old(Keys()), index)
      ensures lists[index].Names() == Without(old(lists[index].Names()), key)
      ensures found <==> key in old(lists[index].Names())
    {
      var elem := lists[index].SearchMdName(key);
      found := elem != null;
    }

    /** Only the list of entry `index` may differ from `was`. */
    ghost predicate OthersSame(was: seq<seq<string>>, index: nat)
      reads lists
    {
      |was| == |lists| && forall i :: 0 <= i < |lists| && i != index ==> lists[i].Names() == was[i]
    }

    /** distribution_pre_send: a created key enters the list of its entry, a deleted one
        leaves it; the only failure is a deleted key that is not in the list. */
    method PreSend(op: P.Op, key: string, index: nat) returns (ok: bool)
      requires ListsOk() && index < |lists|
      modifies lists[index].repr
      ensures ListsOk() && OthersSame(old(Keys()), index)
      ensures op.Create? ==> ok && lists[index].Names() == [key] + old(lists[index].Names())
      ensures op.Delete? ==> (ok <==> key in old(lists[index].Names()))
                             && lists[index].Names() == Without(old(lists[index].Names()), key)
      ensures op.Read? || op.Update? ==> ok && lists[index].Names() == old(lists[index].Names())
    {
      ok := true;
      match op
      case Create => InsertKey(key, index);
      case Delete => ok := RemoveKey(key, index);
      case _ =>
    }

    /** The storage operation of an accepted request. */
    method Process(op: P.Op, key: string) returns (ok: bool)
      modifies this`store
      ensures ok <==> (key in old(store) <==> !op.Create?)
      ensures store == if !ok then old(store) else if op.Create? then old(store) + {key}
                       else if op.Delete? then old(store) - {key} else old(store)
    {
      match op
      case Create =>
        ok := key !in store;
        if ok {
          store := store + {key};
        }
      case Delete =>
        ok := key in store;
        if ok {
          store := store - {key};
        }
      case _ =>
        ok := key in store;
    }

    /** What happens to an accepted request. */
    method Perform(op: P.Op, key: string, index: nat) returns (ok: bool)
      requires ListsOk() && index < |lists| && this !in lists[index].repr
      modifies this`store, lists[index].repr
      ensures ListsOk() && OthersSame(old(Keys()), index)
      ensures
        var l, s := old(lists[index].Names()), old(store);
        if op.Create? && key !in s then ok && store == s + {key} && lists[index].Names() == [key] + l
        else if op.Delete? && key in s then
          store == s - {key} && (ok <==> key in l) && lists[index].Names() == Without(l, key)
        else (ok <==> key in s && !op.Create?) && store == s && lists[index].Names() == l
    {
      ok := Process(op, key);
      if ok {
        ok := PreSend(op, key, index);
      }
    }

    /** The arrays and lists of a server, and the protocol's state of the same server. */
    ghost predicate Mirrors(k: P.Constants, sv: P.Server)
      requires table.Valid()
      reads this, table, table.idSrv, table.nVer, table.state, lists
    {
      && P.ServerShape(k, sv) && k.n == table.size == |lists| && !sv.failed
      && sv.table == table.Rows() && sv.lists == Keys() && sv.store == store
    }

    /** The counters, the table and the lists do not overlap. */
    ghost predicate Apart()
      reads lists
    {
      && access.Footprint() !! table.Arrays() && this !in access.Footprint()
      && forall i :: 0 <= i < |lists| ==> lists[i].repr !! (access.Footprint() + table.Arrays() + {this})
    }

    /** One turn of the server's request loop: version check, storage, key list, reply.
        It does what the protocol's Handle does to the same table, lists and storage. */
    method Serve(op: P.Op, key: string, index: nat, ver: nat, ghost k: P.Constants, ghost sv: P.Server)
      returns (reply: P.Reply)
      requires table.Valid() && access.Valid() && access.size == table.size == |lists| && ListsOk()
      requires Apart() && index < |lists|
      requires Mirrors(k, sv)
      modifies this`store, access.accessCount, lists[index].repr
      ensures ListsOk()
      ensures
        var out := P.Handle(k, sv, P.Request(op, key, index, ver));
        reply == out.reply && sv.table == out.sv.table && Keys() == out.sv.lists && store == out.sv.store
      ensures forall i :: 0 <= i < access.size ==>
                access.At(i) == if i == index && (reply.Done? || reply.Aborted?) then Apply(old(access.At(i)), Access)
                                else old(access.At(i))
    {
      var check := PostReceive(index, ver);
      assert ListsOk() && Keys() == sv.lists;
      match check
      case Failed => reply := P.Aborted;
      case Already => reply := P.WaitRetry;
      case Again(srv, v) => reply := P.UpdateRetry(index, srv, v);
      case Accepted =>
        ghost var counts := Counts();
        var ok := Perform(op, key, index);
        assert forall i :: 0 <= i < access.size ==> access.At(i) == counts[i];
        reply := if ok then P.Done else P.Aborted;
        Performed(k, sv, P.Request(op, key, index, ver), ok, Keys(), store);
    }

    /** The counts of all entries. */
    ghost function Counts(): (r: seq<Entry>)
      requires access.Valid()
      reads access.Footprint()
      ensures |r| == access.size && forall i :: 0 <= i < access.size ==> r[i] == access.At(i)
    {
      seq(access.size, i requires 0 <= i < access.size && access.Valid() reads access.Footprint() => access.At(i))
    }

    /** Only the counts and the index of entry `index` have been cleared. */
    ghost predicate Forgotten(index: nat, counts: seq<Entry>, sai: seq<nat>)
      reads access.Footprint()
    {
      && access.Valid() && |counts| == |sai| == access.size
      && forall i :: 0 <= i < access.size ==>
           && access.At(i) == (if i == index then Entry([], 0) else counts[i])
           && access.sai[i] == (if i == index then 0 else sai[i])
    }

    /** After a transfer the entry is free again and its counters start anew; the lists
        and the storage are left alone. */
    method Release(index: nat, ghost keys: seq<seq<string>>)
      requires table.Valid() && access.Valid() && access.size == table.size && index < table.size
      requires access.Footprint() !! table.Arrays() && this !in access.Footprint()
      requires keys == Keys() && forall i :: 0 <= i < |lists| ==> lists[i] !in access.Footprint()
      modifies table.state, access.accessCount, access.sai
      modifies access.oldAccesses[index], access.oldAccesses[index].values
      ensures table.Valid() && access.Valid()
      ensures table.Rows() == old(table.Rows())[index := old(table.Rows())[index].(busy := false)]
      ensures Forgotten(index, old(Counts()), old(access.sai[..]))
      ensures Keys() == keys && store == old(store)
    {
      var rc := table.UpdateState(index, 0);
      var rc' := access.ResetAllEntry(index);
      assert forall i :: 0 <= i < |lists| ==> lists[i].Names() == keys[i];
    }

    /** The keys of one entry are popped, deleted and packed. */
    method Unload(index: nat) returns (ok: bool, text: string)
      requires ListsOk() && index < |lists| && Distinct(lists[index].Names())
      modifies this`store, lists[index]
      ensures OthersSame(old(Keys()), index)
      ensures ok <==> KeySet(old(lists[index].Names())) <= old(store)
      ensures ok ==> lists[index].Names() == [] && text == Pack(old(lists[index].Names()))
                     && store == old(store) - KeySet(old(lists[index].Names()))
    {
      var length, capacity;
      ok, text, length, store, capacity := PackList(lists[index], store);
    }

    /** The keys of one packet enter the list and the storage. */
    method Load(index: nat, text: string) returns (ok: bool)
      requires ListsOk() && index < |lists|
      modifies this`store, lists[index]
      ensures OthersSame(old(Keys()), index)
      ensures !ok <==> Refused(Unpack(text), old(store))
      ensures ok ==> lists[index].Names() == Reverse(Unpack(text)) + old(lists[index].Names())
                     && store == old(store) + KeySet(Unpack(text))
    {
      ok, store := UnpackText(lists[index], index, text, store);
    }

    /** The sender's work on one entry: the keys are popped, deleted and packed, then the
        entry is released. It does what the protocol's SendServer does. */
    method SendEntry(index: nat, ghost k: P.Constants, ghost sv: P.Server) returns (ok: bool, text: string)
      requires table.Valid() && access.Valid() && access.size == table.size && ListsOk() && Apart()
      requires index < |lists| && Distinct(lists[index].Names()) && Mirrors(k, sv)
      requires sv.listener.Moving? && index in sv.listener.pending
      modifies this`store, lists[index], table.state, access.accessCount, access.sai
      modifies access.oldAccesses[index], access.oldAccesses[index].values
      ensures
        var out := P.SendServer(k, sv, index);
        && (ok <==> !out.failed)
        && (ok ==> table.Valid() && table.Rows() == out.table && Keys() == out.lists && store == out.store
                   && out.wire == P.Packet(index, sv.table[index].srv, text))
      ensures ok ==> Forgotten(index, old(Counts()), old(access.sai[..]))
    {
      Outside();
      ok, text := Unload(index);
      ghost var now := Keys();
      Sent(k, sv, index, sv.lists[index], now, ok, text, store);
      if ok {
        Release(index, now);
      }
    }

    /** The receiver's work on one packet: the keys enter the list and the storage, then
        the entry is released. It does what the protocol's ReceiveServer does. */
    method ReceiveEntry(index: nat, text: string, ghost k: P.Constants, ghost sv: P.Server) returns (ok: bool)
      requires table.Valid() && access.Valid() && access.size == table.size && ListsOk() && Apart()
      requires index < |lists| && Mirrors(k, sv)
      requires sv.listener.Moving? && sv.listener.expected > 0
      modifies this`store, lists[index], table.state, access.accessCount, access.sai
      modifies access.oldAccesses[index], access.oldAccesses[index].values
      ensures
        var out := P.ReceiveServer(k, sv, index, text);
        && (ok <==> !out.failed)
        && (ok ==> table.Valid() && table.Rows() == out.table && Keys() == out.lists && store == out.store)
      ensures ok ==> Forgotten(index, old(Counts()), old(access.sai[..]))
    {
      Outside();
      ok := Load(index, text);
      ghost var now := Keys();
      Received(k, sv, index, text, now, ok, store);
      if ok {
        Release(index, now);
      }
    }

    /** No list object is part of the counters or of the table. */
    lemma Outside()
      requires ListsOk() && Apart()
      ensures forall i :: 0 <= i < |lists| ==>
                lists[i] !in access.Footprint() && lists[i] !in table.Arrays()
    {
      forall i | 0 <= i < |lists|
        ensures lists[i] !in access.Footprint() && lists[i] !in table.Arrays()
      {
        assert lists[i].Valid();
      }
    }
  }

  /** A packed entry in terms of the protocol's SendServer. */
  lemma Sent(k: P.Constants, sv: P.Server, i: nat, names: seq<string>, lists: seq<seq<string>>, ok: bool, text: string,
             store: set<string>)
    requires P.ServerShape(k, sv) && sv.listener.Moving? && i in sv.listener.pending && !sv.failed
    requires |lists| == k.n && names == sv.lists[i]
    requires forall j :: 0 <= j < k.n && j != i ==> lists[j] == sv.lists[j]
    requires ok <==> KeySet(names) <= sv.store
    requires ok ==> lists[i] == [] && text == Pack(names) && store == sv.store - KeySet(names)
    ensures
      var out := P.SendServer(k, sv, i);
      && (ok <==> !out.failed)
      && (ok ==> out.table == sv.table[i := sv.table[i].(busy := false)] && out.lists == lists && out.store == store
                 && out.wire == P.Packet(i, sv.table[i].srv, text))
  {
    if ok {
      assert forall key :: key in names ==> key in KeySet(names);
      assert lists == sv.lists[i := []];
    } else {
      assert exists key :: key in names && key !in sv.store;
    }
  }

  /** An unpacked entry in terms of the protocol's ReceiveServer. */
  lemma Received(k: P.Constants, sv: P.Server, i: nat, text: string, lists: seq<seq<string>>, ok: bool,
                 store: set<string>)
    requires P.ServerShape(k, sv) && sv.listener.Moving? && sv.listener.expected > 0 && i < k.n && !sv.failed
    requires |lists| == k.n && forall j :: 0 <= j < k.n && j != i ==> lists[j] == sv.lists[j]
    requires !ok <==> Refused(Unpack(text), sv.store)
    requires ok ==> lists[i] == Reverse(Unpack(text)) + sv.lists[i] && store == sv.store + KeySet(Unpack(text))
    ensures
      var out := P.ReceiveServer(k, sv, i, text);
      && (ok <==> !out.failed)
      && (ok ==> out.table == sv.table[i := sv.table[i].(busy := false)] && out.lists == lists && out.store == store)
  {
    var keys := Unpack(text);
    if ok {
      assert forall key :: key in keys ==> key in KeySet(keys);
      assert lists == sv.lists[i := Reverse(keys) + sv.lists[i]];
    } else if Distinct(keys) {
      var key :| key in KeySet(keys) && key in sv.store;
      assert key in keys;
    }
  }

  /** An accepted request in terms of the protocol's Handle. */
  lemma Performed(k: P.Constants, sv: P.Server, req: P.Request, ok: bool, lists: seq<seq<string>>, store: set<string>)
    requires P.ServerShape(k, sv) && req.index < k.n && |lists| == k.n
    requires !sv.table[req.index].busy && sv.table[req.index].ver == req.ver
    requires forall i :: 0 <= i < k.n && i != req.index ==> lists[i] == sv.lists[i]
    requires
      var l, s := sv.lists[req.index], sv.store;
      if req.op.Create? && req.key !in s then ok && store == s + {req.key} && lists[req.index] == [req.key] + l
      else if req.op.Delete? && req.key in s then
        store == s - {req.key} && (ok <==> req.key in l) && lists[req.index] == Without(l, req.key)
      else (ok <==> req.key in s && !req.op.Create?) && store == s && lists[req.index] == l
    ensures
      var out := P.Handle(k, sv, req);
      && out.reply == (if ok then P.Done else P.Aborted)
      && out.sv.table == sv.table && out.sv.lists == lists && out.sv.store == store
  {
    var out := P.Handle(k, sv, req);
    if req.op.Delete? && req.key in sv.store && req.key !in sv.lists[req.index] {
      WithoutAbsent(sv.lists[req.index], req.key);
    }
    assert forall i :: 0 <= i < k.n ==> out.sv.lists[i] == lists[i];
  }
}
