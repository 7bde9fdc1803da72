/** The client's cached table: which server a key is sent to, and what a reply changes. */
module ClientNode {
  import opened Table
  import opened Mlt
  import opened Murmur3
  import P = Protocol

  class Client {
    const table: Mlt

    constructor (table: Mlt)
      ensures this.table == table
    {
      this.table := table;
    }

    /** distribution_assign_srv_by_key: the request goes to the server the cached table
        names for the key's entry, with that entry and its cached version. */
    method AssignSrvByKey(key: seq<Byte>) returns (index: nat, srv: nat, ver: nat)
      requires table.Valid() && table.size > 0
      ensures index == Hash(key, 1) as int % table.size < table.size
      ensures Assign(srv, ver) == table.Assigns()[index]
    {
      var h := MurmurHash3(key, 1);
      index := h as int % table.size;
      var rc, s, v, state := table.GetEntry(index);
      srv, ver := s, v;
    }

    /** distribution_post_receive of the client: only a reply that carries an assignment
        changes the cached table, and only the line it names, as in the protocol's
        client step. A reply of a busy server carries no version flag and is refused; one
        of a server that accepted the request carries it, whatever became of the request. */
    method PostReceive(reply: P.Reply) returns (ok: bool)
      requires table.Valid() && (reply.UpdateRetry? ==> reply.index < table.size)
      modifies table.idSrv, table.nVer, table.state
      ensures table.Valid() && (ok <==> !reply.WaitRetry?)
      ensures table.Assigns() ==
                if reply.UpdateRetry? then old(table.Assigns())[reply.index := Assign(reply.srv, reply.ver)]
                else old(table.Assigns())
    {
      ok := true;
      match reply
      case WaitRetry => ok := false;
      case UpdateRetry(index, srv, ver) =>
        var rc := table.UpdateEntry(index, srv, ver, 0);
        ok := rc.Ok?;
      case _ =>
    }
  }
}
