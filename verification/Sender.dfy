/** The sender thread: one forward pass over the lines of the hosts file for a list of
    entries and the servers they go to. */
module Sender {
  import opened LoadArgsSort

  /** A packet: the line of the hosts file, the address read there, and the entry. */
  datatype Sent = Sent(line: int, address: string, entry: int)

  /** The destinations never go back and are all lines of the hosts file. */
  ghost predicate Forward(servers: seq<int>, hosts: nat) {
    && (forall k :: 0 <= k < |servers| ==> 0 <= servers[k] < hosts)
    && forall j, k :: 0 <= j < k < |servers| ==> servers[j] <= servers[k]
  }

  /** The packets for the first lines of the list, each to its own server. */
  ghost predicate PacketsFor(log: seq<Sent>, servers: seq<int>, entries: seq<int>, hosts: seq<string>) {
    && |log| <= |servers| == |entries|
    && forall k :: 0 <= k < |log| ==>
         0 <= servers[k] < |hosts| && log[k] == Sent(servers[k], hosts[servers[k]], entries[k])
  }

  /** The destinations without repeating the one before. */
  function Stops(servers: seq<int>): (r: seq<int>) {
    if servers == [] then []
    else
      var n := |servers| - 1;
      if n > 0 && servers[n - 1] == servers[n] then Stops(servers[..n]) else Stops(servers[..n]) + [servers[n]]
  }

  /** On a list that never goes back, each destination is a stop exactly once. */
  lemma {:induction false} StopsExact(servers: seq<int>, hosts: nat)
    requires Forward(servers, hosts)
    ensures forall j, k :: 0 <= j < k < |Stops(servers)| ==> Stops(servers)[j] < Stops(servers)[k]
    ensures forall c :: c in Stops(servers) <==> c in servers
    ensures servers != [] ==> Stops(servers) != [] && Stops(servers)[|Stops(servers)| - 1] == servers[|servers| - 1]
  {
    if servers != [] {
      var n := |servers| - 1;
      var init := servers[..n];
      StopsExact(init, hosts);
      forall c
        ensures c in servers <==> c in init || c == servers[n]
      {
        assert servers == init + [servers[n]];
      }
      StopsStep(servers, Stops(init));
    }
  }

  lemma StopsStep(servers: seq<int>, r: seq<int>)
    requires servers != [] && r == Stops(servers[..|servers| - 1])
    requires |servers| > 1 ==> r != [] && r[|r| - 1] == servers[|servers| - 2] <= servers[|servers| - 1]
    requires forall j, k :: 0 <= j < k < |r| ==> r[j] < r[k]
    ensures forall j, k :: 0 <= j < k < |Stops(servers)| ==> Stops(servers)[j] < Stops(servers)[k]
    ensures Stops(servers) != [] && Stops(servers)[|Stops(servers)| - 1] == servers[|servers| - 1]
    ensures forall c :: c in Stops(servers) <==> c in r || c == servers[|servers| - 1]
  {
    var n := |servers| - 1;
    if n > 0 && servers[n - 1] != servers[n] {
      assert forall j :: 0 <= j < |r| ==> r[j] <= r[|r| - 1];
    }
  }

  /** Reads on until the line of server `target` is in the buffer. */
  method Seek(hosts: seq<string>, from: int, target: nat) returns (ok: bool, line: int)
    requires -1 <= from < |hosts|
    ensures ok <==> from <= target < |hosts|
    ensures ok ==> line == target
  {
    line := from;
    while line != target
      invariant from <= line < |hosts| && (from <= target ==> line <= target)
      decreases |hosts| - line
    {
      if line + 1 >= |hosts| {
        return false, line;
      }
      line := line + 1;
    }
    ok := true;
  }

  /** The destinations and the entries of the list, as sequences. */
  ghost predicate Shows(list: LoadArgs, servers: seq<int>, entries: seq<int>)
    requires list.Valid()
    reads list, list.servers, list.entries
  {
    && |servers| == |entries| == list.size
    && forall k :: 0 <= k < list.size ==> list.servers[k] == servers[k] && list.entries[k] == entries[k]
  }

  /** The pass has sent the first idx entries, and has a connection for the destinations
      of the first upTo. */
  ghost predicate SentTo(servers: seq<int>, entries: seq<int>, hosts: seq<string>, idx: int, log: seq<Sent>,
                         connections: seq<int>, upTo: int)
  {
    && 0 <= idx == |log| && idx <= upTo <= |servers|
    && PacketsFor(log, servers, entries, hosts) && Forward(servers[..idx], |hosts|)
    && connections == Stops(servers[..upTo])
  }

  /** One more packet to the server in the buffer. */
  lemma SendStep(servers: seq<int>, entries: seq<int>, hosts: seq<string>, idx: nat, log: seq<Sent>,
                 connections: seq<int>, line: int)
    requires idx < |servers| && servers[idx] == line && 0 <= line < |hosts|
    requires SentTo(servers, entries, hosts, idx, log, connections, idx + 1) && (idx == 0 || servers[idx - 1] <= line)
    ensures SentTo(servers, entries, hosts, idx + 1, log + [Sent(line, hosts[line], entries[idx])], connections,
                   idx + 1)
  {
    ForwardMore(servers, idx, |hosts|);
    PacketsMore(log, servers, entries, hosts, idx);
  }

  /** A further entry for the same server needs no new connection. */
  lemma SameStop(servers: seq<int>, idx: nat)
    requires 0 < idx < |servers| && servers[idx - 1] == servers[idx]
    ensures Stops(servers[..idx + 1]) == Stops(servers[..idx])
  {
    assert servers[..idx + 1][..idx] == servers[..idx];
  }

  /** An entry for a new server does. */
  lemma NewStop(servers: seq<int>, idx: nat)
    requires idx < |servers| && (idx > 0 ==> servers[idx - 1] != servers[idx])
    ensures Stops(servers[..idx + 1]) == Stops(servers[..idx]) + [servers[idx]]
  {
    assert servers[..idx + 1][..idx] == servers[..idx];
  }

  /** The inner loop: all entries for the server in the buffer, over one connection. */
  method SendGroup(list: LoadArgs, ghost servers: seq<int>, ghost entries: seq<int>, hosts: seq<string>, line: int,
                   idx0: int, log0: seq<Sent>, ghost connections: seq<int>)
    returns (idx: int, log: seq<Sent>)
    requires list.Valid() && Shows(list, servers, entries)
    requires 0 <= idx0 < list.size && servers[idx0] == line && 0 <= line < |hosts|
    requires SentTo(servers, entries, hosts, idx0, log0, connections, idx0 + 1)
    requires idx0 == 0 || servers[idx0 - 1] <= line
    ensures idx0 < idx && SentTo(servers, entries, hosts, idx, log, connections, idx)
    ensures servers[idx - 1] == line && (idx < list.size ==> servers[idx] != line)
  {
    log, idx := log0, idx0;
    while true
      invariant idx0 <= idx < list.size && servers[idx] == line
      invariant SentTo(servers, entries, hosts, idx, log, connections, idx + 1)
      invariant idx == 0 || servers[idx - 1] <= line
      decreases list.size - idx
    {
      SendStep(servers, entries, hosts, idx, log, connections, line);
      log := log + [Sent(line, hosts[line], list.entries[idx])];
      idx := idx + 1;
      if !(idx < list.size && list.servers[idx] == line) {
        return;
      }
      SameStop(servers, idx);
    }
  }

  /** The loops of thread_load_sender over an arbitrary list of destinations: the pass
      gets as far as the destinations go forward. */
  method ForwardPass(list: LoadArgs, ghost servers: seq<int>, ghost entries: seq<int>, hosts: seq<string>)
    returns (ok: bool, log: seq<Sent>, connections: seq<int>)
    requires list.Valid() && Shows(list, servers, entries) && forall k :: 0 <= k < |servers| ==> servers[k] >= 0
    ensures SentTo(servers, entries, hosts, |log|, log, connections, |log|)
    ensures ok <==> |log| == |servers|
    ensures !ok ==> !Forward(servers[..|log| + 1], |hosts|)
    ensures ok <==> Forward(servers, |hosts|)
  {
    log, connections := [], [];
    var line, idx := -1, 0;
    while idx < list.size
      invariant SentTo(servers, entries, hosts, idx, log, connections, idx) && -1 <= line < |hosts|
      invariant line == if idx == 0 then -1 else servers[idx - 1]
      invariant 0 < idx < |servers| ==> servers[idx] != line
    {
      ghost var before := line;
      ok, line := Seek(hosts, line, list.servers[idx]);
      if !ok {
        NotForward(servers, idx, before, |hosts|);
        return;
      }
      NewStop(servers, idx);
      connections := connections + [line];
      idx, log := SendGroup(list, servers, entries, hosts, line, idx, log, connections);
    }
    ok := true;
    assert servers[..idx] == servers;
  }

  lemma ForwardMore(all: seq<int>, idx: nat, hosts: nat)
    requires idx < |all| && Forward(all[..idx], hosts) && 0 <= all[idx] < hosts
    requires idx == 0 || all[idx - 1] <= all[idx]
    ensures Forward(all[..idx + 1], hosts)
  {
    forall j | 0 <= j < idx
      ensures all[j] <= all[idx]
    {
      assert all[..idx][j] == all[j] && all[..idx][idx - 1] == all[idx - 1];
    }
    assert forall k :: 0 <= k < idx ==> all[..idx][k] == all[k];
  }

  lemma PacketsMore(log: seq<Sent>, servers: seq<int>, entries: seq<int>, hosts: seq<string>, idx: nat)
    requires PacketsFor(log, servers, entries, hosts) && |log| == idx < |servers| && 0 <= servers[idx] < |hosts|
    ensures PacketsFor(log + [Sent(servers[idx], hosts[servers[idx]], entries[idx])], servers, entries, hosts)
  {}

  lemma NotForward(all: seq<int>, idx: nat, line: int, hosts: nat)
    requires idx < |all| && all[idx] >= 0 && line == (if idx == 0 then -1 else all[idx - 1])
    requires !(line <= all[idx] < hosts)
    ensures !Forward(all[..idx + 1], hosts) && !Forward(all, hosts)
  {
    var s := all[..idx + 1];
    assert s[idx] == all[idx] && (idx > 0 ==> s[idx - 1] == all[idx - 1]);
  }

  /** What the packets carry. */
  function Carried(log: seq<Sent>): (r: seq<(int, int)>)
    ensures |r| == |log|
  {
    seq(|log|, k requires 0 <= k < |log| => (log[k].line, log[k].entry))
  }

  ghost predicate Within(lines: seq<(int, int)>, hosts: int) {
    forall k :: 0 <= k < |lines| ==> 0 <= lines[k].0 < hosts
  }

  /** thread_load_sender: after sorting, the pass succeeds exactly when the hosts file
      has a line for every destination, and then every entry is sent exactly once, to
      its own server, over one connection for each destination. */
  method SendAll(list: LoadArgs, hosts: seq<string>) returns (ok: bool, log: seq<Sent>, connections: seq<int>)
    requires list.Valid() && forall k :: 0 <= k < list.size ==> list.servers[k] >= 0
    modifies list`lines, list.servers, list.entries
    ensures ok <==> Within(old(list.lines), |hosts|)
    ensures multiset(Carried(log)) <= multiset(old(list.lines))
    ensures ok ==> multiset(Carried(log)) == multiset(old(list.lines))
    ensures forall k :: 0 <= k < |log| ==> 0 <= log[k].line < |hosts| && log[k].address == hosts[log[k].line]
    ensures forall j, k :: 0 <= j < k < |connections| ==> connections[j] < connections[k]
    ensures forall c :: c in connections <==> exists k :: 0 <= k < |log| && log[k].line == c
  {
    ghost var before := list.lines;
    list.Sort(0, list.size - 1);
    ghost var after := list.lines;
    SameBounds(before, after, Highest(before));
    ghost var servers, entries := list.servers[..list.size], list.entries[..list.size];
    assert forall k :: 0 <= k < list.size ==> servers[k] == after[k].0;
    ok, log, connections := ForwardPass(list, servers, entries, hosts);
    SortedForward(before, after, servers, |hosts|);
    StopsOfLog(servers[..|log|], log, |hosts|);
    LogCarries(servers, entries, after, log, hosts);
  }

  /** The log of a pass carries the lines it has got through. */
  lemma LogCarries(servers: seq<int>, entries: seq<int>, lines: seq<(int, int)>, log: seq<Sent>, hosts: seq<string>)
    requires PacketsFor(log, servers, entries, hosts) && |lines| == |servers|
    requires forall k :: 0 <= k < |lines| ==> lines[k] == (servers[k], entries[k])
    ensures multiset(Carried(log)) <= multiset(lines)
    ensures |log| == |lines| ==> multiset(Carried(log)) == multiset(lines)
  {
    assert Carried(log) == lines[..|log|] && lines == lines[..|log|] + lines[|log|..];
    assert |log| == |lines| ==> Carried(log) == lines;
  }

  lemma StopsOfLog(servers: seq<int>, log: seq<Sent>, hosts: nat)
    requires Forward(servers, hosts) && |servers| == |log| && forall k :: 0 <= k < |log| ==> log[k].line == servers[k]
    ensures forall j, k :: 0 <= j < k < |Stops(servers)| ==> Stops(servers)[j] < Stops(servers)[k]
    ensures forall c :: c in Stops(servers) <==> exists k :: 0 <= k < |log| && log[k].line == c
  {
    StopsExact(servers, hosts);
  }

  /** The destinations are the same before and after the sort. */
  lemma SameBounds(before: seq<(int, int)>, after: seq<(int, int)>, hosts: int)
    requires multiset(before) == multiset(after) && Within(before, hosts)
    ensures Within(after, hosts)
  {
    forall k | 0 <= k < |after|
      ensures 0 <= after[k].0 < hosts
    {
      assert after[k] in multiset(before);
      var j :| 0 <= j < |before| && before[j] == after[k];
    }
  }

  function Highest(lines: seq<(int, int)>): (r: int)
    ensures forall k :: 0 <= k < |lines| ==> lines[k].0 < r
  {
    if lines == [] then 0
    else
      var r := Highest(lines[1..]);
      assert lines == [lines[0]] + lines[1..];
      if lines[0].0 < r then r else lines[0].0 + 1
  }

  /** A sorted list of server numbers goes forward exactly when the hosts file has a
      line for each server that was on the list. */
  lemma SortedForward(before: seq<(int, int)>, after: seq<(int, int)>, servers: seq<int>, hosts: nat)
    requires multiset(before) == multiset(after) && |servers| == |after|
    requires forall k :: 0 <= k < |servers| ==> servers[k] == after[k].0
    requires SortedBetween(after, 0, |after|)
    ensures Forward(servers, hosts) <==> Within(before, hosts)
  {
    if Within(before, hosts) {
      SameBounds(before, after, hosts);
    }
    if Forward(servers, hosts) {
      SameBounds(after, before, hosts);
    }
  }
}
