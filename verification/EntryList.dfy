/** The linked list of the keys of one entry, and the loops that turn such a list into
    the text of a packet and back. */
module EntryList {
  import opened Packing

  class MdEntry {
    const entry: int
    const mdName: string
    var next: MdEntry?

    /** md_entry_init. */
    constructor (entry: int, name: string)
      ensures this.entry == entry && mdName == name && next == null
    {
      this.entry, mdName, next := entry, name, null;
    }
  }

  ghost function NamesOf(nodes: seq<MdEntry>): (r: seq<string>)
    ensures |r| == |nodes| && forall i :: 0 <= i < |nodes| ==> r[i] == nodes[i].mdName
  {
    seq(|nodes|, i requires 0 <= i < |nodes| => nodes[i].mdName)
  }

  lemma NamesJoin(a: seq<MdEntry>, b: seq<MdEntry>)
    ensures NamesOf(a + b) == NamesOf(a) + NamesOf(b)
  {}

  lemma NamesFirst(elem: MdEntry, rest: seq<MdEntry>)
    ensures NamesOf([elem] + rest) == [elem.mdName] + NamesOf(rest)
  {
    NamesJoin([elem], rest);
    assert NamesOf([elem]) == [elem.mdName];
  }

  lemma NamesCut(nodes: seq<MdEntry>, i: nat)
    requires i < |nodes|
    ensures NamesOf(nodes[..i] + nodes[i + 1..]) == NamesOf(nodes)[..i] + NamesOf(nodes)[i + 1..]
  {
    NamesJoin(nodes[..i], nodes[i + 1..]);
    assert NamesOf(nodes[..i]) == NamesOf(nodes)[..i];
    assert NamesOf(nodes[i + 1..]) == NamesOf(nodes)[i + 1..];
  }

  lemma {:induction false} WithoutAt(names: seq<string>, name: string, i: nat)
    requires i < |names| && names[i] == name && name !in names[..i]
    ensures Without(names, name) == names[..i] + names[i + 1..]
  {
    if i > 0 {
      assert names[..i][0] == names[0];
      assert names[1..][..i - 1] == names[..i][1..];
      WithoutAt(names[1..], name, i - 1);
      assert names[1..][i..] == names[i + 1..];
    }
  }

  lemma WithoutAbsent(names: seq<string>, name: string)
    requires name !in names
    ensures Without(names, name) == names
  {
    if names != [] {
      assert names == [names[0]] + names[1..];
      WithoutAbsent(names[1..], name);
    }
  }

  class EntryList {
    var head: MdEntry?
    ghost var nodes: seq<MdEntry>
    ghost var repr: set<object>

    ghost predicate Valid()
      reads this, repr
    {
      && this in repr && (forall i :: 0 <= i < |nodes| ==> nodes[i] in repr)
      && (forall i, j :: 0 <= i < j < |nodes| ==> nodes[i] != nodes[j])
      && head == (if nodes == [] then null else nodes[0])
      && (forall i :: 0 <= i < |nodes| - 1 ==> nodes[i].next == nodes[i + 1])
      && (nodes != [] ==> nodes[|nodes| - 1].next == null)
    }

    ghost function Names(): (r: seq<string>)
      reads this
    {
      NamesOf(nodes)
    }

    constructor ()
      ensures Valid() && Names() == [] && repr == {this}
    {
      head, nodes, repr := null, [], {this};
    }

    /** md_entry_insert: the new element becomes the first one. */
    method Insert(elem: MdEntry)
      requires Valid() && elem !in repr
      modifies this, elem
      ensures Valid() && nodes == [elem] + old(nodes) && repr == old(repr) + {elem}
      ensures Names() == [elem.mdName] + old(Names())
    {
      NamesFirst(elem, nodes);
      elem.next := head;
      head := elem;
      nodes, repr := [elem] + nodes, repr + {elem};
    }

    /** md_entry_pop: the first element leaves the list. */
    method Pop() returns (first: MdEntry?)
      requires Valid()
      modifies this
      ensures Valid() && repr == old(repr)
      ensures first == null <==> old(nodes) == []
      ensures first == null ==> nodes == []
      ensures first != null ==> old(nodes) == [first] + nodes && old(Names()) == [first.mdName] + Names()
    {
      if head == null {
        return null;
      }
      first := head;
      assert |nodes| > 1 ==> nodes[0].next == nodes[0 + 1];
      assert nodes == [first] + nodes[1..];
      NamesFirst(first, nodes[1..]);
      head := head.next;
      nodes := nodes[1..];
    }

    /** Takes the element behind `prev` out of the list. */
    method Unlink(prev: MdEntry?, current: MdEntry, ghost i: nat)
      requires Valid() && i < |nodes| && current == nodes[i] && prev == (if i == 0 then null else nodes[i - 1])
      modifies repr
      ensures Valid() && repr == old(repr) && nodes == old(nodes)[..i] + old(nodes)[i + 1..]
    {
      assert i + 1 < |nodes| ==> current.next == nodes[i + 1];
      if prev == null {
        head := current.next;
      } else {
        prev.next := current.next;
      }
      nodes := nodes[..i] + nodes[i + 1..];
    }

    /** md_entry_search_md_name: the first element with that name leaves the list. */
    method SearchMdName(name: string) returns (found: MdEntry?)
      requires Valid()
      modifies repr
      ensures Valid() && repr == old(repr)
      ensures found == null <==> name !in old(Names())
      ensures found != null ==> found in old(nodes) && found.mdName == name && found !in nodes
      ensures Names() == Without(old(Names()), name)
    {
      ghost var names := Names();
      ghost var i := 0;
      var current, prev: MdEntry? := head, null;
      while current != null
        invariant 0 <= i <= |nodes| && Valid() && nodes == old(nodes) && repr == old(repr)
        invariant current == if i < |nodes| then nodes[i] else null
        invariant prev == if i == 0 then null else nodes[i - 1]
        invariant forall j :: 0 <= j < i ==> names[j] != name
        decreases |nodes| - i
      {
        if current.mdName == name {
          WithoutAt(names, name, i);
          NamesCut(nodes, i);
          Unlink(prev, current, i);
          return current;
        }
        prev := current;
        current := current.next;
        i := i + 1;
      }
      WithoutAbsent(names, name);
      return null;
    }
  }

  // ------------------------------------------------------------ the sender's buffer

  /** What is left of a buffer: its capacity and the length of the text in it. */
  datatype Room = Room(capacity: nat, length: nat)

  /** One more key: the buffer grows at most once, by half. */
  function Grow(r: Room, name: string): Room {
    var length := r.length + 1 + |name|;
    Room(if length >= r.capacity then (r.capacity * 3) / 2 else r.capacity, length)
  }

  /** Every key, with the terminator behind it, fits the buffer it is copied to. */
  predicate Fits(r: Room, names: seq<string>)
    decreases |names|
  {
    names == [] || (Grow(r, names[0]).length < Grow(r, names[0]).capacity && Fits(Grow(r, names[0]), names[1..]))
  }

  predicate NamesAtMost(names: seq<string>, m: nat) {
    forall i :: 0 <= i < |names| ==> |names[i]| <= m
  }

  lemma {:induction false} ShortNamesFit(r: Room, names: seq<string>)
    requires r.capacity >= 80 && r.length < r.capacity && NamesAtMost(names, 39)
    ensures Fits(r, names)
    decreases |names|
  {
    if names != [] {
      ShortNamesFit(Grow(r, names[0]), names[1..]);
    }
  }

  const START := Room(80, 0)

  /** The buffer has room for every list of keys of at most m characters exactly when
      m is at most 39: one growth by half is not always enough for a longer key. */
  lemma FitsIffShort(m: nat)
    ensures (forall names :: NamesAtMost(names, m) ==> Fits(START, names)) <==> m <= 39
  {
    if m <= 39 {
      forall names | NamesAtMost(names, m)
        ensures Fits(START, names)
      {
        ShortNamesFit(START, names);
      }
    } else {
      var names := [seq(38, _ => 'a'), seq(39, _ => 'b'), seq(40, _ => 'c')];
      assert NamesAtMost(names, m);
      assert Grow(START, names[0]) == Room(80, 39);
      assert names[1..][0] == names[1] && names[1..][1..] == [names[2]];
      assert Grow(Room(80, 39), names[1]) == Room(80, 79);
      assert Grow(Room(80, 79), names[2]) == Room(120, 120);
      assert !Fits(Room(80, 79), [names[2]]);
      assert !Fits(START, names);
    }
  }

  // ------------------------------------------------------------ the two loops

  lemma PackOneMore(names: seq<string>, i: nat)
    requires i < |names|
    ensures Pack(names[..i + 1]) == Pack(names[..i]) + "," + names[i]
  {
    if i == 0 {
      assert names[..1] == [names[0]] && names[..1][1..] == [];
    } else {
      assert names[..i + 1][1..] == names[1..][..i] && names[..i][1..] == names[1..][..i - 1];
      PackOneMore(names[1..], i - 1);
    }
  }

  function KeySet(names: seq<string>): set<string> {
    set k | k in names
  }

  /** The first i names are packed and deleted. */
  ghost predicate PackedTo(names: seq<string>, i: nat, r: Room, text: string, store0: set<string>, store: set<string>) {
    && i <= |names| && text == Pack(names[..i]) && r.length == |text|
    && KeySet(names[..i]) <= store0 && store == store0 - KeySet(names[..i])
    && (Fits(START, names) ==> r.length < r.capacity && Fits(r, names[i..]))
  }

  lemma PackStep(names: seq<string>, i: nat, r: Room, r': Room, text: string, text': string,
                 store0: set<string>, store: set<string>, store': set<string>)
    requires PackedTo(names, i, r, text, store0, store) && i < |names| && Distinct(names)
    requires r' == Grow(r, names[i]) && text' == text + "," + names[i] && store' == store - {names[i]}
    ensures names[i] !in store ==> !(KeySet(names) <= store0)
    ensures names[i] in store ==> PackedTo(names, i + 1, r', text', store0, store')
  {
    PackOneMore(names, i);
    var init := names[..i];
    assert names[..i + 1] == init + [names[i]];
    assert names[i] !in init;
    assert names[i] in KeySet(names);
    assert KeySet(names[..i + 1]) == KeySet(init) + {names[i]};
    assert names[i..][0] == names[i] && names[i..][1..] == names[i + 1..];
  }

  /** One key: popped, deleted from the storage, and appended to the text. */
  method PackKey(list: EntryList, ghost names: seq<string>, ghost i: nat, r: Room, text: string,
                 ghost store0: set<string>, store: set<string>)
    returns (ok: bool, r': Room, text': string, store': set<string>)
    requires list.Valid() && i < |names| && list.Names() == names[i..] && Distinct(names)
    requires PackedTo(names, i, r, text, store0, store)
    modifies list
    ensures list.Valid() && list.Names() == names[i + 1..]
    ensures if ok then PackedTo(names, i + 1, r', text', store0, store') else !(KeySet(names) <= store0)
  {
    assert names[i..] == [names[i]] + names[i + 1..];
    var first := list.Pop();
    ok := first.mdName in store;
    store' := store - {first.mdName};
    var length := r.length + 1 + |first.mdName|;
    r' := Room(if length >= r.capacity then (r.capacity * 3) / 2 else r.capacity, length);
    text' := text + "," + first.mdName;
    PackStep(names, i, r, r', text, text', store0, store, store');
  }

  /** The sender's loop over one entry. It fails only when a key is not in the storage;
      the text is then followed by its terminator. */
  method PackList(list: EntryList, store0: set<string>)
    returns (ok: bool, text: string, length: nat, store: set<string>, capacity: nat)
    requires list.Valid() && Distinct(list.Names())
    modifies list
    ensures list.Valid()
    ensures ok <==> KeySet(old(list.Names())) <= store0
    ensures ok ==> list.Names() == [] && text == Pack(old(list.Names())) && length == |text| + 1
    ensures ok ==> store == store0 - KeySet(old(list.Names()))
    ensures ok && Fits(START, old(list.Names())) ==> length <= capacity
  {
    ghost var names := list.Names();
    ghost var i := 0;
    var r := START;
    ok, text, store := true, "", store0;
    assert names[0..] == names;
    while list.head != null
      invariant i <= |names| && list.Valid() && list.Names() == names[i..] && ok
      invariant PackedTo(names, i, r, text, store0, store)
      decreases |names| - i
    {
      ok, r, text, store := PackKey(list, names, i, r, text, store0, store);
      if !ok {
        return ok, text, 0, store, r.capacity;
      }
      i := i + 1;
    }
    assert names[..i] == names;
    length, capacity := r.length + 1, r.capacity;
  }

  /** The first position that is not a comma. */
  method SkipCommas(text: string, pos0: nat) returns (pos: nat)
    requires pos0 <= |text|
    ensures pos0 <= pos <= |text| && (pos < |text| ==> text[pos] != ',')
    ensures Unpack(text[pos..]) == Unpack(text[pos0..])
  {
    pos := pos0;
    while pos < |text| && text[pos] == ','
      invariant pos0 <= pos <= |text| && Unpack(text[pos..]) == Unpack(text[pos0..])
    {
      assert text[pos..][1..] == text[pos + 1..];
      pos := pos + 1;
    }
  }

  /** strtok: the next token from a position on. */
  method NextToken(text: string, pos0: nat) returns (found: bool, token: string, pos: nat)
    requires pos0 <= |text|
    ensures pos0 <= pos <= |text|
    ensures found <==> Unpack(text[pos0..]) != []
    ensures found ==> pos0 < pos && Unpack(text[pos0..]) == [token] + Unpack(text[pos..])
  {
    var start := SkipCommas(text, pos0);
    pos := start;
    while pos < |text| && text[pos] != ','
      invariant start <= pos <= |text| && forall k :: start <= k < pos ==> text[k] != ','
      invariant start < |text| && pos == start ==> text[pos] != ','
    {
      pos := pos + 1;
    }
    token, found := text[start..pos], start < |text|;
    if found {
      TokenAt(text, start, pos);
    }
  }

  /** The first call of strtok. */
  method FirstToken(text: string) returns (found: bool, token: string, pos: nat, ghost rest: seq<string>)
    ensures pos <= |text| && rest == Unpack(text[pos..])
    ensures Unpack(text) == if found then [token] + rest else []
  {
    assert text[0..] == text;
    found, token, pos := NextToken(text, 0);
    rest := Unpack(text[pos..]);
  }

  lemma TokenAt(text: string, start: nat, pos: nat)
    requires start < pos <= |text| && forall k :: start <= k < pos ==> text[k] != ','
    requires pos == |text| || text[pos] == ','
    ensures Unpack(text[start..]) == [text[start..pos]] + Unpack(text[pos..])
  {
    var token, rest := text[start..pos], text[pos..];
    assert text[start..] == token + rest;
    TokenEndAt(token, rest);
    assert (token + rest)[..|token|] == token && (token + rest)[|token|..] == rest;
  }

  lemma ReverseMore(keys: seq<string>, key: string)
    ensures Reverse(keys + [key]) == [key] + Reverse(keys)
  {
    if keys == [] {
      assert [key][1..] == [];
    } else {
      assert (keys + [key])[1..] == keys[1..] + [key];
      ReverseMore(keys[1..], key);
    }
  }

  /** `names` is what the list holds when the keys of `done` have been put in front of
      it one after the other. */
  ghost predicate Pushed(names0: seq<string>, done: seq<string>, names: seq<string>) {
    if done == [] then names == names0
    else
      && names != [] && names[0] == done[|done| - 1]
      && Pushed(names0, done[..|done| - 1], names[1..])
  }

  lemma PushedMore(names0: seq<string>, done: seq<string>, names: seq<string>, token: string)
    requires Pushed(names0, done, names)
    ensures Pushed(names0, done + [token], [token] + names)
  {
    assert ([token] + names)[1..] == names && (done + [token])[..|done|] == done;
  }

  lemma {:induction false} PushedIsReversed(names0: seq<string>, done: seq<string>, names: seq<string>)
    requires Pushed(names0, done, names)
    ensures names == Reverse(done) + names0
    decreases |done|
  {
    if done != [] {
      var init := done[..|done| - 1];
      PushedIsReversed(names0, init, names[1..]);
      assert done == init + [names[0]];
      ReverseMore(init, names[0]);
    }
  }

  /** Some key is already in the storage, or comes twice. */
  ghost predicate Refused(keys: seq<string>, store0: set<string>) {
    !(Distinct(keys) && KeySet(keys) !! store0)
  }

  /** The first i tokens are in the list and in the storage. */
  ghost predicate UnpackedTo(names0: seq<string>, keys: seq<string>, i: nat, names: seq<string>,
                             store0: set<string>, store: set<string>) {
    && i <= |keys| && Pushed(names0, keys[..i], names)
    && Distinct(keys[..i]) && KeySet(keys[..i]) !! store0 && store == store0 + KeySet(keys[..i])
  }

  lemma UnpackStep(names0: seq<string>, keys: seq<string>, i: nat, names: seq<string>, names': seq<string>,
                   store0: set<string>, store: set<string>, store': set<string>)
    requires UnpackedTo(names0, keys, i, names, store0, store) && i < |keys|
    requires names' == [keys[i]] + names && store' == store + {keys[i]}
    ensures keys[i] in store ==> Refused(keys, store0)
    ensures keys[i] !in store ==> UnpackedTo(names0, keys, i + 1, names', store0, store')
  {
    var done, token := keys[..i], keys[i];
    assert keys[..i + 1] == done + [token];
    PushedMore(names0, done, names, token);
    assert KeySet(done + [token]) == KeySet(done) + {token};
    if token in store {
      assert token in KeySet(keys);
      if token !in store0 {
        var j :| 0 <= j < |done| && done[j] == token;
        assert keys[j] == keys[i];
      }
    }
  }

  /** Token i is at hand and `rest` are the tokens ahead, or there is none left. */
  ghost predicate TokensAt(keys: seq<string>, i: nat, found: bool, token: string, rest: seq<string>) {
    if found then i < |keys| && keys[i] == token && rest == keys[i + 1..] else i == |keys|
  }

  lemma TokensStep(keys: seq<string>, i: nat, token: string, rest: seq<string>,
                   found: bool, token': string, rest': seq<string>)
    requires TokensAt(keys, i, true, token, rest)
    requires if found then rest == [token'] + rest' else rest == []
    ensures TokensAt(keys, i + 1, found, token', rest')
  {
    if found {
      assert rest[0] == token' && rest[1..] == rest';
    }
  }

  lemma UnpackStart(keys: seq<string>, names: seq<string>, store: set<string>)
    ensures UnpackedTo(names, keys, 0, names, store, store)
  {
    assert keys[..0] == [];
  }

  /** The first token, if there is one. */
  lemma TokensStart(keys: seq<string>, found: bool, token: string, rest: seq<string>)
    requires keys == if found then [token] + rest else []
    ensures TokensAt(keys, 0, found, token, rest)
  {}

  lemma UnpackEnd(names0: seq<string>, keys: seq<string>, names: seq<string>, store0: set<string>, store: set<string>)
    requires UnpackedTo(names0, keys, |keys|, names, store0, store)
    ensures !Refused(keys, store0) && names == Reverse(keys) + names0 && store == store0 + KeySet(keys)
  {
    assert keys[..|keys|] == keys;
    PushedIsReversed(names0, keys, names);
  }

  /** Every element that was added since is one of the entry. */
  ghost predicate OnlyAdded(before: seq<MdEntry>, nodes: seq<MdEntry>, entry: int) {
    forall n :: n in nodes && n !in before ==> n.entry == entry
  }

  /** One token. */
  method AddToken(list: EntryList, entry: int, token: string, store1: set<string>,
                  ghost names0: seq<string>, ghost store0: set<string>, ghost keys: seq<string>, ghost i: nat)
    returns (ok: bool, store: set<string>)
    requires list.Valid() && UnpackedTo(names0, keys, i, list.Names(), store0, store1)
    requires i < |keys| && keys[i] == token
    modifies list
    ensures list.Valid() && OnlyAdded(old(list.nodes), list.nodes, entry)
    ensures if ok then UnpackedTo(names0, keys, i + 1, list.Names(), store0, store) else Refused(keys, store0)
  {
    ghost var names := list.Names();
    var node := new MdEntry(entry, token);
    list.Insert(node);
    ok := token !in store1;
    store := store1 + {token};
    UnpackStep(names0, keys, i, names, list.Names(), store0, store1, store);
  }

  /** The receiver's loop over one packet: every token becomes the first element of the
      list and is put into the storage. It fails only when a key is already there. */
  method UnpackText(list: EntryList, entry: int, text: string, store0: set<string>)
    returns (ok: bool, store: set<string>)
    requires list.Valid()
    modifies list
    ensures list.Valid()
    ensures !ok <==> Refused(Unpack(text), store0)
    ensures ok ==> list.Names() == Reverse(Unpack(text)) + old(list.Names())
    ensures ok ==> store == store0 + KeySet(Unpack(text))
    ensures OnlyAdded(old(list.nodes), list.nodes, entry)
  {
    ghost var keys, names0, nodes0 := Unpack(text), list.Names(), list.nodes;
    ghost var i := 0;
    store := store0;
    var found, token, pos, rest := FirstToken(text);
    TokensStart(keys, found, token, rest);
    UnpackStart(keys, names0, store0);
    while found
      invariant list.Valid() && pos <= |text| && rest == Unpack(text[pos..])
      invariant TokensAt(keys, i, found, token, rest)
      invariant UnpackedTo(names0, keys, i, list.Names(), store0, store)
      invariant OnlyAdded(nodes0, list.nodes, entry)
      decreases |text| - pos, found
    {
      var name := token;
      ghost var rest0 := rest;
      found, token, pos := NextToken(text, pos);
      rest := Unpack(text[pos..]);
      TokensStep(keys, i, name, rest0, found, token, rest);
      ok, store := AddToken(list, entry, name, store, names0, store0, keys, i);
      if !ok {
        return;
      }
      i := i + 1;
    }
    UnpackEnd(names0, keys, list.Names(), store0, store);
    ok := true;
  }
}
