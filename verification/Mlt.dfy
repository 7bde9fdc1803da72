/** The metadata lookup table in memory: three arrays filled and overwritten in place. */
module Mlt {
  import opened Table

  /** The error codes of the table operations. */
  datatype Rc = Ok | EInval | EOverflow

  class Mlt {
    const size: nat
    const idSrv: array<nat>
    const nVer: array<nat>
    const state: array<nat>

    ghost predicate Valid()
      reads this, idSrv, nVer, state
    {
      && idSrv.Length == nVer.Length == state.Length == size
      && idSrv != nVer && idSrv != state && nVer != state
      && forall i :: 0 <= i < size ==> state[i] <= 1
    }

    ghost function Arrays(): set<object> {
      {idSrv, nVer, state}
    }

    /** One of the arrays. */
    ghost predicate Owns(a: object) {
      a == idSrv || a == nVer || a == state
    }

    /** The lines of the table. */
    ghost function Rows(): (r: seq<Row>)
      requires Valid()
      reads this, idSrv, nVer, state
      ensures |r| == size
    {
      seq(size, i requires 0 <= i < size reads this, idSrv, nVer, state requires Valid() =>
        Row(idSrv[i], nVer[i], state[i] == 1))
    }

    /** The part of the table the manager sends. */
    ghost function Assigns(): (r: seq<Assign>)
      requires Valid()
      reads this, idSrv, nVer, state
      ensures |r| == size
    {
      seq(size, i requires 0 <= i < size reads this, idSrv, nVer, state requires Valid() =>
        Assign(idSrv[i], nVer[i]))
    }

    /** mlt_init with valid arguments. */
    constructor (size: nat, nb: nat)
      requires size > 0 && nb > 0
      ensures Valid() && fresh(Arrays()) && this.size == size
      ensures Rows() == Table.Rows(Initial(size, nb)) && Assigns() == Initial(size, nb)
    {
      this.size := size;
      idSrv := new nat[size];
      nVer := new nat[size];
      state := new nat[size];
      new;
      for i := 0 to size
        invariant forall j :: 0 <= j < i ==> idSrv[j] == j % nb && nVer[j] == 0 && state[j] == 0
      {
        idSrv[i] := i % nb;
        nVer[i] := 0;
        state[i] := 0;
      }
    }

    /** mlt_init: sizes that are not positive are refused. */
    static method Create(size: int, nb: int) returns (rc: Rc, table: Mlt?)
      ensures rc == if size <= 0 || nb <= 0 then EInval else Ok
      ensures rc.Ok? <==> table != null
      ensures table != null ==> fresh(table) && fresh(table.Arrays()) && table.Valid() && table.size == size
      ensures table != null ==> table.Rows() == Table.Rows(Initial(size, nb))
    {
      if size <= 0 || nb <= 0 {
        return EInval, null;
      }
      table := new Mlt(size, nb);
      rc := Ok;
    }

    /** mlt_update_state. There is no check of the upper bound. */
    method UpdateState(i: int, s: int) returns (rc: Rc)
      requires Valid() && i < size
      modifies state
      ensures Valid()
      ensures rc == if i < 0 || (s != 0 && s != 1) then EInval else Ok
      ensures Rows() == if rc.Ok? then old(Rows())[i := old(Rows())[i].(busy := s == 1)] else old(Rows())
    {
      if i < 0 || (s != 0 && s != 1) {
        return EInval;
      }
      state[i] := s;
      rc := Ok;
    }

    /** mlt_update_entry. */
    method UpdateEntry(i: int, srv: int, ver: nat, s: int) returns (rc: Rc)
      requires Valid()
      modifies idSrv, nVer, state
      ensures Valid()
      ensures rc == if i < 0 || srv < 0 || (s != 0 && s != 1) then EInval else if i >= size then EOverflow else Ok
      ensures Rows() == if rc.Ok? then old(Rows())[i := Row(srv, ver, s == 1)] else old(Rows())
      ensures Assigns() == if rc.Ok? then old(Assigns())[i := Assign(srv, ver)] else old(Assigns())
    {
      if i < 0 || srv < 0 || (s != 0 && s != 1) {
        return EInval;
      }
      if i >= size {
        return EOverflow;
      }
      idSrv[i] := srv;
      nVer[i] := ver;
      state[i] := s;
      rc := Ok;
    }

    /** mlt_get_entry. */
    method GetEntry(i: int) returns (rc: Rc, srv: nat, ver: nat, s: nat)
      requires Valid()
      ensures rc == if i < 0 then EInval else if i >= size then EOverflow else Ok
      ensures rc.Ok? ==> Rows()[i] == Row(srv, ver, s == 1) && s <= 1 && Assigns()[i] == Assign(srv, ver)
    {
      srv, ver, s := 0, 0, 0;
      if i < 0 {
        return EInval, srv, ver, s;
      }
      if i >= size {
        return EOverflow, srv, ver, s;
      }
      return Ok, idSrv[i], nVer[i], state[i];
    }
  }
}
