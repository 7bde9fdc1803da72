/** The access list of a server: counters, windows of old counts, and the load indices
    the manager receives. */
module Eacl {
  import opened Queue
  import opened Sequences

  const WORD: nat := 0x1_0000_0000
  const WINDOW_SIZE: nat := 12

  /** The index of an entry with forgetting factor 0.5: the conversion to an unsigned
      word drops the fraction. */
  function SaiOf(mean: nat, count: nat): int {
    ((1.0 - 0.5) * (mean as real) + 0.5 * (count as real)).Floor
  }

  lemma SaiIsHalf(mean: nat, count: nat)
    ensures SaiOf(mean, count) == (mean + count) / 2
    ensures mean < WORD && count < WORD ==> 0 <= SaiOf(mean, count) < WORD
  {
    var x := (1.0 - 0.5) * (mean as real) + 0.5 * (count as real);
    assert x == (mean + count) as real / 2.0;
    var h := (mean + count) / 2;
    assert h as real <= x < (h + 1) as real;
  }

  predicate Below(xs: seq<nat>, bound: nat) {
    forall i :: 0 <= i < |xs| ==> xs[i] < bound
  }

  lemma {:induction false} SumBelow(xs: seq<nat>, bound: nat, n: nat)
    requires bound > 0 && Below(xs, bound) && n == |xs|
    ensures SumOf(xs) <= n * (bound - 1)
  {
    if n > 0 {
      SumBelow(xs[..n - 1], bound, n - 1);
      assert n * (bound - 1) == (bound - 1) + (n - 1) * (bound - 1);
    }
  }

  /** The average of words is a word. */
  lemma AverageBelow(xs: seq<nat>, bound: nat)
    requires bound > 0 && Below(xs, bound)
    ensures Average(xs) < bound
  {
    if xs != [] {
      SumBelow(xs, bound, |xs|);
      assert SumOf(xs) / |xs| <= bound - 1;
    }
  }

  // ------------------------------------------------------------ the life of one entry

  /** The counts of the past windows since the last reset, and the current one. */
  datatype Entry = Entry(past: seq<nat>, count: nat)

  datatype Event = Access | Shift | Forget

  function Apply(s: Entry, e: Event): Entry {
    match e
    case Access => Entry(s.past, (s.count + 1) % WORD)
    case Shift => Entry(s.past + [s.count], 0)
    case Forget => Entry([], 0)
  }

  function Run(s: Entry, events: seq<Event>): Entry
    decreases |events|
  {
    if events == [] then s else Apply(Run(s, events[..|events| - 1]), events[|events| - 1])
  }

  /** The events since a reset: `windows[k]` accesses and a shift, for each past window,
      and then `now` accesses. */
  function Windows(windows: seq<nat>, now: nat): seq<Event>
    decreases |windows|, now
  {
    if now > 0 then Windows(windows, now - 1) + [Access]
    else if windows == [] then []
    else Windows(windows[..|windows| - 1], windows[|windows| - 1]) + [Shift]
  }

  function Words(windows: seq<nat>): (r: seq<nat>)
    ensures |r| == |windows|
  {
    seq(|windows|, k requires 0 <= k < |windows| => windows[k] % WORD)
  }

  /** One more event at the end. */
  lemma RunMore(s: Entry, events: seq<Event>, e: Event)
    ensures Run(s, events + [e]) == Apply(Run(s, events), e)
  {
    assert (events + [e])[..|events|] == events;
  }

  lemma {:induction false} RunSplit(s: Entry, a: seq<Event>, b: seq<Event>)
    ensures Run(s, a + b) == Run(Run(s, a), b)
    decreases |b|
  {
    if b == [] {
      assert a + b == a;
    } else {
      var init, e := b[..|b| - 1], b[|b| - 1];
      RunSplit(s, a, init);
      assert a + b == (a + init) + [e] && b == init + [e];
      RunMore(s, a + init, e);
      RunMore(Run(s, a), init, e);
    }
  }

  const NONE := Entry([], 0)

  lemma {:induction false} WindowsCounted(windows: seq<nat>, now: nat)
    ensures Run(NONE, Windows(windows, now)) == Entry(Words(windows), now % WORD)
    decreases |windows|, now
  {
    if now > 0 {
      WindowsCounted(windows, now - 1);
      OneAccess(Windows(windows, now - 1), Words(windows), now);
    } else if windows != [] {
      var init, last := windows[..|windows| - 1], windows[|windows| - 1];
      WindowsCounted(init, last);
      RunMore(NONE, Windows(init, last), Shift);
      WordsMore(windows);
    }
  }

  lemma OneAccess(events: seq<Event>, past: seq<nat>, now: nat)
    requires now > 0 && Run(NONE, events) == Entry(past, (now - 1) % WORD)
    ensures Run(NONE, events + [Access]) == Entry(past, now % WORD)
  {
    RunMore(NONE, events, Access);
  }

  lemma WordsMore(windows: seq<nat>)
    requires windows != []
    ensures Words(windows) == Words(windows[..|windows| - 1]) + [windows[|windows| - 1] % WORD]
  {}

  /** Whatever happened before a reset, afterwards an entry holds exactly the accesses
      of each window since, as words. */
  lemma EntryCounts(s: Entry, before: seq<Event>, windows: seq<nat>, now: nat)
    ensures
      var r := Run(s, before + [Forget] + Windows(windows, now));
      && r.count == now % 0x1_0000_0000 && |r.past| == |windows|
      && forall k :: 0 <= k < |windows| ==> r.past[k] == windows[k] % 0x1_0000_0000
  {
    RunSplit(s, before + [Forget], Windows(windows, now));
    RunMore(s, before, Forget);
    WindowsCounted(windows, now);
  }

  lemma OneMore(xs: seq<int>, x: nat, total: nat)
    requires total == SumOf(xs) % WORD
    ensures (total + x) % WORD == SumOf(xs + [x]) % WORD
  {
    SumOfAppend(xs, x);
  }

  class Eacl {
    const size: nat
    const accessCount: array<nat>
    const sai: array<nat>
    const oldAccesses: seq<Queue>
    var loadLvl: nat

    /** eacl_init: no access was counted yet. */
    constructor (size: nat)
      ensures Valid() && this.size == size && fresh(Footprint()) && loadLvl == 0
      ensures forall i :: 0 <= i < size ==> At(i) == Entry([], 0) && sai[i] == 0
    {
      var queues := NewQueues(size);
      this.size, oldAccesses, loadLvl := size, queues, 0;
      accessCount, sai := new nat[size](_ => 0), new nat[size](_ => 0);
    }

    static method NewQueues(n: nat) returns (queues: seq<Queue>)
      ensures |queues| == n
      ensures forall i :: 0 <= i < n ==>
                && fresh(queues[i]) && fresh(queues[i].values) && queues[i].Valid()
                && queues[i].count == WINDOW_SIZE && queues[i].history == []
      ensures forall i, j :: 0 <= i < j < n ==> queues[i] != queues[j] && queues[i].values != queues[j].values
    {
      queues := [];
      for k := 0 to n
        invariant |queues| == k
        invariant forall i :: 0 <= i < k ==>
                    && fresh(queues[i]) && fresh(queues[i].values) && queues[i].Valid()
                    && queues[i].count == WINDOW_SIZE && queues[i].history == []
        invariant forall i, j :: 0 <= i < j < k ==> queues[i] != queues[j] && queues[i].values != queues[j].values
      {
        var q := new Queue(WINDOW_SIZE);
        queues := queues + [q];
      }
    }

    ghost predicate Separate() {
      && accessCount.Length == sai.Length == |oldAccesses| == size && accessCount != sai
      && (forall i :: 0 <= i < size ==> oldAccesses[i].values != accessCount && oldAccesses[i].values != sai)
      && forall i, j :: 0 <= i < j < size ==>
           oldAccesses[i] != oldAccesses[j] && oldAccesses[i].values != oldAccesses[j].values
    }

    ghost function Footprint(): set<object> {
      {this, accessCount, sai} + (set i | 0 <= i < |oldAccesses| :: oldAccesses[i])
      + (set i | 0 <= i < |oldAccesses| :: oldAccesses[i].values)
    }

    /** The window of entry i is in order and holds words. */
    ghost predicate QueueOk(i: nat)
      requires i < |oldAccesses|
      reads oldAccesses[i], oldAccesses[i].values
    {
      oldAccesses[i].Valid() && oldAccesses[i].count == WINDOW_SIZE && Below(oldAccesses[i].history, WORD)
    }

    ghost predicate Valid()
      reads Footprint()
    {
      && Separate()
      && (forall i :: 0 <= i < size ==> accessCount[i] < WORD && QueueOk(i))
    }

    ghost function At(i: nat): Entry
      requires i < |oldAccesses| == accessCount.Length
      reads accessCount, oldAccesses[i]
    {
      Entry(oldAccesses[i].history, accessCount[i])
    }

    /** eacl_incr_access: the counter is a word and wraps around. */
    method IncrAccess(index: int) returns (rc: int)
      requires Valid()
      modifies accessCount
      ensures Valid()
      ensures rc == if 0 <= index < size then 0 else -1
      ensures forall i :: 0 <= i < size ==> At(i) == if i == index then Apply(old(At(i)), Access) else old(At(i))
    {
      if index < 0 || index >= size {
        return -1;
      }
      accessCount[index] := (accessCount[index] + 1) % WORD;
      rc := 0;
    }

    /** eacl_reset_access: the window of every entry shifts by its count. */
    method ResetAccess()
      requires Valid()
      modifies Footprint() - {this, sai}
      ensures Valid()
      ensures forall i :: 0 <= i < size ==> At(i) == Apply(old(At(i)), Shift)
    {
      for i := 0 to size
        invariant forall j :: 0 <= j < size ==> accessCount[j] < WORD && QueueOk(j)
        invariant forall j :: 0 <= j < i ==> At(j) == Apply(old(At(j)), Shift)
        invariant forall j :: i <= j < size ==> At(j) == old(At(j))
      {
        ShiftOne(i);
      }
    }

    /** One entry of the loop. */
    method ShiftOne(i: nat)
      requires Separate() && i < size && QueueOk(i) && accessCount[i] < WORD
      modifies accessCount, oldAccesses[i], oldAccesses[i].values
      ensures QueueOk(i) && oldAccesses[i].history == old(oldAccesses[i].history) + [old(accessCount[i])]
      ensures accessCount[i] == 0
      ensures forall j :: 0 <= j < size && j != i ==> accessCount[j] == old(accessCount[j])
    {
      oldAccesses[i].Put(accessCount[i]);
      accessCount[i] := 0;
    }

    /** eacl_reset_all_entry: the entry forgets everything. */
    method ResetAllEntry(index: int) returns (rc: int)
      requires Valid()
      modifies accessCount, sai
      modifies if 0 <= index < |oldAccesses| then {oldAccesses[index], oldAccesses[index].values} else {}
      ensures Valid()
      ensures rc == if 0 <= index < size then 0 else -1
      ensures forall i :: 0 <= i < size ==> At(i) == if i == index then Apply(old(At(i)), Forget) else old(At(i))
      ensures forall i :: 0 <= i < size ==> sai[i] == if i == index then 0 else old(sai[i])
    {
      if index < 0 || index >= size {
        return -1;
      }
      assert QueueOk(index);
      oldAccesses[index].Reset();
      accessCount[index] := 0;
      sai[index] := 0;
      rc := 0;
    }

    /** The index of entry i, from its window and its counter. */
    ghost function Index(i: nat): nat
      requires i < |oldAccesses| == accessCount.Length
      reads accessCount, oldAccesses[i]
    {
      (Average(Window(oldAccesses[i].history, WINDOW_SIZE)) + accessCount[i]) / 2
    }

    /** One entry of the loop below. */
    method EntrySai(i: nat) returns (x: nat)
      requires Valid() && i < size
      modifies sai
      ensures Valid() && x == sai[i] == Index(i) < WORD
      ensures forall j :: 0 <= j < size && j != i ==> sai[j] == old(sai[j])
    {
      assert QueueOk(i);
      var q := oldAccesses[i];
      var mean := q.Mean();
      assert Below(Window(q.history, WINDOW_SIZE), WORD);
      AverageBelow(Window(q.history, WINDOW_SIZE), WORD);
      SaiIsHalf(mean, accessCount[i]);
      sai[i] := SaiOf(mean, accessCount[i]);
      x := sai[i];
    }

    /** One turn of the loop below: the index of entry i is added to the load level. */
    method AddSai(i: nat, ghost done: seq<int>) returns (ghost more: seq<int>)
      requires Valid() && i < size && loadLvl == SumOf(done) % WORD
      modifies this`loadLvl, sai
      ensures Valid() && more == done + [sai[i]] && loadLvl == SumOf(more) % WORD
      ensures sai[i] == Index(i) < WORD && forall j :: 0 <= j < size && j != i ==> sai[j] == old(sai[j])
    {
      var x := EntrySai(i);
      OneMore(done, x, loadLvl);
      more := done + [x];
      loadLvl := (loadLvl + x) % WORD;
    }

    /** eacl_calculate_sai: every index is the floor of half the sum of the average of
        the window and the current count, and the load level is their sum as a word. */
    method CalculateSai()
      requires Valid()
      modifies this`loadLvl, sai
      ensures Valid()
      ensures forall i :: 0 <= i < size ==>
                sai[i] == (Average(Window(old(At(i)).past, 12)) + old(At(i)).count) / 2 < WORD
      ensures loadLvl == SumOf(sai[..]) % 0x1_0000_0000
    {
      loadLvl := 0;
      ghost var done: seq<int> := [];
      for i := 0 to size
        invariant Valid() && |done| == i && forall j :: 0 <= j < i ==> sai[j] == done[j]
        invariant forall j :: 0 <= j < i ==> done[j] == old(Index(j)) < WORD
        invariant loadLvl == SumOf(done) % WORD
      {
        done := AddSai(i, done);
      }
      assert sai[..] == done;
    }
  }
}
