/** The metadata lookup table as a value: which server owns each entry, at which
    version, and what a server does with its own copy when the manager broadcasts
    a new one. */
module Table {
  import opened Division

  /** One line of the table that travels between processes: id_srv and n_ver. */
  datatype Assign = Assign(srv: nat, ver: nat)

  /** One line of a server's own table; `busy` is the state flag being 1. */
  datatype Row = Row(srv: nat, ver: nat, busy: bool)

  /** The table every process starts from: entry i belongs to server i % nb. */
  function Initial(n: nat, nb: nat): (t: seq<Assign>)
    requires nb > 0
    ensures |t| == n && forall i :: 0 <= i < n ==> t[i].srv < nb && t[i].ver == 0
  {
    seq(n, i requires 0 <= i < n => Assign(i % nb, 0))
  }

  /** The server of every entry of a table. */
  function Owners(t: seq<Assign>): (r: seq<int>)
    ensures |r| == |t| && forall e :: 0 <= e < |t| ==> r[e] == t[e].srv
  {
    seq(|t|, e requires 0 <= e < |t| => t[e].srv)
  }

  /** How many of the entries below m belong to server s. */
  function CountOf(t: seq<Assign>, s: nat, m: nat): nat
    requires m <= |t|
  {
    if m == 0 then 0 else CountOf(t, s, m - 1) + if t[m - 1].srv == s then 1 else 0
  }

  /** Of the first q * nb + r entries, the first r servers have q + 1 each and the
      others q. */
  lemma {:induction false} InitialCount(n: nat, nb: nat, s: nat, q: nat, r: nat)
    requires s < nb && r < nb && q * nb + r <= n
    ensures CountOf(Initial(n, nb), s, q * nb + r) == q + if s < r then 1 else 0
    decreases q, r
  {
    if r > 0 {
      InitialCount(n, nb, s, q, r - 1);
      ModIs(q, nb, r - 1);
    } else if q > 0 {
      assert q * nb == (q - 1) * nb + (nb - 1) + 1;
      InitialCount(n, nb, s, q - 1, nb - 1);
      ModIs(q - 1, nb, nb - 1);
    }
  }

  /** The entries are spread evenly at the start: no server has more than one entry
      more than another, and every server has its share. */
  lemma InitialIsEven(n: nat, nb: nat, s: nat, s': nat)
    requires s < nb && s' < nb
    ensures n / nb <= CountOf(Initial(n, nb), s, n) <= n / nb + 1
    ensures CountOf(Initial(n, nb), s, n) <= CountOf(Initial(n, nb), s', n) + 1
  {
    var q, r := n / nb, n % nb;
    assert n == q * nb + r;
    InitialCount(n, nb, s, q, r);
    InitialCount(n, nb, s', q, r);
  }

  /** `t` holds exactly the assignments of `a`, with no entry in transfer. */
  predicate RowsAre(t: seq<Row>, a: seq<Assign>) {
    && |t| == |a|
    && forall i :: 0 <= i < |a| ==> t[i] == Row(a[i].srv, a[i].ver, false)
  }

  function Rows(a: seq<Assign>): (t: seq<Row>)
    ensures RowsAre(t, a)
  {
    seq(|a|, i requires 0 <= i < |a| => Row(a[i].srv, a[i].ver, false))
  }

  /** What one rebalance may do: an entry keeps its line, or goes to another
      server with its version raised by one. */
  predicate LegalRebalance(nb: nat, old_: seq<Assign>, new_: seq<Assign>) {
    && |old_| == |new_|
    && forall i :: 0 <= i < |old_| ==>
         || new_[i] == old_[i]
         || (new_[i].ver == old_[i].ver + 1 && new_[i].srv != old_[i].srv && new_[i].srv < nb)
  }

  /** The line server `me` keeps for an entry after a broadcast. */
  function ApplyRow(me: nat, old_: Row, new_: Assign): Row {
    if old_.ver == new_.ver then old_
    else Row(new_.srv, new_.ver, old_.srv == me || new_.srv == me)
  }

  function ApplyTable(me: nat, old_: seq<Row>, new_: seq<Assign>): (t: seq<Row>)
    requires |old_| == |new_|
    ensures |t| == |old_|
  {
    seq(|old_|, i requires 0 <= i < |old_| => ApplyRow(me, old_[i], new_[i]))
  }

  /** The entries server `me` must send after a broadcast. */
  function Outgoing(me: nat, old_: seq<Row>, new_: seq<Assign>): set<nat>
    requires |old_| == |new_|
  {
    set i: nat | 0 <= i < |old_| && old_[i].ver != new_[i].ver && old_[i].srv == me
  }

  /** The entries server `me` must receive after a broadcast. */
  function Incoming(me: nat, old_: seq<Row>, new_: seq<Assign>): set<nat>
    requires |old_| == |new_|
  {
    set i: nat | 0 <= i < |old_| && old_[i].ver != new_[i].ver && old_[i].srv != me && new_[i].srv == me
  }
}
