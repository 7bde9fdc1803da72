/** The ring buffer of old access counts, and its mean. */
module Queue {
  import opened Division
  import opened Sequences

  /** The last `count` values of a history, or all of them. */
  function Window(history: seq<nat>, count: nat): (r: seq<nat>)
    ensures |r| == if |history| < count then |history| else count
  {
    if |history| < count then history else history[|history| - count..]
  }

  /** The floor of the average; 0 when there is nothing. */
  function Average(xs: seq<nat>): nat {
    if xs == [] then 0 else SumOfNat(xs); SumOf(xs) / |xs|
  }

  /** It is the only number that lies at most one below the exact average. */
  lemma AverageIff(xs: seq<nat>, q: nat)
    requires xs != []
    ensures q == Average(xs) <==> q * |xs| <= SumOf(xs) < q * |xs| + |xs|
  {
    SumOfNat(xs);
    DivIff(SumOf(xs), |xs|, q);
  }

  /** Overwriting the oldest value of a full buffer drops it and appends the new one. */
  lemma PutRotates(was: seq<nat>, next: nat, value: nat)
    requires next < |was|
    ensures was[next := value][next + 1..] + was[next := value][..next + 1]
            == (was[next..] + was[..next])[1..] + [value]
  {
    var now := was[next := value];
    assert now[next + 1..] == was[next + 1..] && now[..next + 1] == was[..next] + [value];
    assert (was[next..] + was[..next])[1..] == was[next + 1..] + was[..next];
  }

  /** The buffer holds the window: from its start while it fills up, then from `next`
      round to `next`. */
  ghost predicate Ring(vals: seq<nat>, used: nat, next: nat, history: seq<nat>) {
    && used == (if |history| < |vals| then |history| else |vals|) && next < |vals|
    && (used < |vals| ==> next == used && vals[..used] == history)
    && (used == |vals| ==> vals[next..] + vals[..next] == Window(history, |vals|))
  }

  /** One put: the value goes to `next`, which is free or holds the oldest value. */
  lemma RingPut(vals: seq<nat>, used: nat, next: nat, history: seq<nat>, value: nat)
    requires Ring(vals, used, next, history)
    ensures Ring(vals[next := value], if used < |vals| then used + 1 else used,
                 if next == |vals| - 1 then 0 else next + 1, history + [value])
  {
    var n, now, h := |vals|, vals[next := value], history + [value];
    if used < n {
      assert now[..used + 1] == h;
      if used + 1 == n {
        assert now[0..] + now[..0] == h;
      }
    } else {
      assert Window(h, n) == Window(history, n)[1..] + [value];
      PutRotates(vals, next, value);
      if next == n - 1 {
        assert now[n..] + now[..n] == now[0..] + now[..0];
      }
    }
  }

  lemma SumOfNext(vals: seq<int>, i: nat)
    requires i < |vals|
    ensures SumOf(vals[..i + 1]) == SumOf(vals[..i]) + vals[i]
  {
    assert vals[..i + 1] == vals[..i] + [vals[i]];
    SumOfAppend(vals[..i], vals[i]);
  }

  /** The sum of the used part is the sum of the window. */
  lemma RingSum(vals: seq<nat>, used: nat, next: nat, history: seq<nat>)
    requires Ring(vals, used, next, history)
    ensures SumOf(vals[..used]) == SumOf(Window(history, |vals|)) && used == |Window(history, |vals|)|
  {
    if used == |vals| {
      SumOfConcat(vals[next..], vals[..next]);
      SumOfConcat(vals[..next], vals[next..]);
      assert vals[..used] == vals[..next] + vals[next..];
    }
  }

  class Queue {
    const count: nat
    const values: array<nat>
    var used: nat
    var next: nat
    /** All values put since the queue was created or reset. */
    ghost var history: seq<nat>

    ghost predicate Valid()
      reads this, values
    {
      count == values.Length && Ring(values[..], used, next, history)
    }

    /** queue_new. */
    constructor (count: nat)
      requires count > 0
      ensures Valid() && fresh(values) && this.count == count && history == []
    {
      this.count := count;
      values := new nat[count];
      used, next, history := 0, 0, [];
    }

    method Put(value: nat)
      requires Valid()
      modifies this, values
      ensures Valid() && history == old(history) + [value]
    {
      RingPut(values[..], used, next, history, value);
      values[next] := value;
      if used < count {
        used := used + 1;
      }
      if next == count - 1 {
        next := 0;
      } else {
        next := next + 1;
      }
      history := history + [value];
    }

    method Mean() returns (mean: nat)
      requires Valid()
      ensures mean == Average(Window(history, count))
    {
      if used == 0 {
        return 0;
      }
      var sum := 0;
      ghost var vals := values[..];
      for i := 0 to used
        invariant sum == SumOf(vals[..i])
      {
        SumOfNext(vals, i);
        sum := sum + values[i];
      }
      RingSum(vals, used, next, history);
      SumOfNat(vals[..used]);
      mean := sum / used;
    }

    method Reset()
      requires Valid()
      modifies this, values
      ensures Valid() && history == []
    {
      for i := 0 to used
        modifies values
        invariant used == old(used)
      {
        values[i] := 0;
      }
      used, next, history := 0, 0, [];
    }
  }
}
