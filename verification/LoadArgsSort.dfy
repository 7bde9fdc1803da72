/** The quicksort of the list of entries to send: two parallel arrays, ordered by
    server. */
module LoadArgsSort {

  /** Only the lines in [p, r) were moved, and only among each other. */
  ghost predicate Shuffled(before: seq<(int, int)>, after: seq<(int, int)>, p: int, r: int) {
    && |after| == |before| && multiset(after) == multiset(before)
    && forall k :: 0 <= k < |before| && !(p <= k < r) ==> after[k] == before[k]
  }

  lemma SwapShuffles(s: seq<(int, int)>, i: int, j: int, p: int, r: int)
    requires 0 <= p <= i < r <= |s| && p <= j < r
    ensures Shuffled(s, s[i := s[j]][j := s[i]], p, r)
  {}

  lemma Unmoved(a: seq<(int, int)>, p: int, r: int)
    ensures Shuffled(a, a, p, r)
  {}

  lemma ShuffleAgain(a: seq<(int, int)>, b: seq<(int, int)>, c: seq<(int, int)>, p: int, r: int)
    requires Shuffled(a, b, p, r) && Shuffled(b, c, p, r)
    ensures Shuffled(a, c, p, r)
  {}

  lemma SameMiddle(x: multiset<(int, int)>, y: multiset<(int, int)>, y': multiset<(int, int)>, z: multiset<(int, int)>)
    requires x + y + z == x + y' + z
    ensures y == y'
  {
    assert y == (x + y + z) - x - z && y' == (x + y' + z) - x - z;
  }

  /** Every line of the part was in the part before. */
  lemma ShuffleKeeps(a: seq<(int, int)>, b: seq<(int, int)>, p: int, r: int, k: int) returns (was: int)
    requires 0 <= p <= k < r <= |a| && Shuffled(a, b, p, r)
    ensures p <= was < r && a[was] == b[k]
  {
    assert a == a[..p] + a[p..r] + a[r..];
    assert b == b[..p] + b[p..r] + b[r..];
    assert a[..p] == b[..p] && a[r..] == b[r..];
    SameMiddle(multiset(a[..p]), multiset(a[p..r]), multiset(b[p..r]), multiset(a[r..]));
    assert b[p..r][k - p] in multiset(b[p..r]);
    var j :| 0 <= j < |a[p..r]| && a[p..r][j] == b[k];
    was := p + j;
  }

  ghost predicate SortedBetween(s: seq<(int, int)>, p: int, r: int)
    requires 0 <= p && r <= |s|
  {
    forall i, j :: p <= i < j < r ==> s[i].0 <= s[j].0
  }

  /** Everything in [p, q) is at most everything in [q, r). */
  ghost predicate Parted(s: seq<(int, int)>, p: int, q: int, r: int)
    requires 0 <= p <= q <= r <= |s|
  {
    forall i, j :: p <= i < q <= j < r ==> s[i].0 <= s[j].0
  }

  lemma PartedStays(a: seq<(int, int)>, b: seq<(int, int)>, c: seq<(int, int)>, p: int, q: int, r: int)
    requires 0 <= p <= q <= r <= |a| && Parted(a, p, q, r)
    requires Shuffled(a, b, p, q) && Shuffled(b, c, q, r)
    ensures Parted(c, p, q, r) && Shuffled(a, c, p, r)
  {
    forall i, j | p <= i < q <= j < r
      ensures c[i].0 <= c[j].0
    {
      assert c[i] == b[i];
      var i' := ShuffleKeeps(a, b, p, q, i);
      var j' := ShuffleKeeps(b, c, q, r, j);
      assert a[j'] == b[j'];
    }
  }

  /** Lines p to i are at most the pivot and lines j to r are at least the pivot. */
  ghost predicate Cutting(s: seq<(int, int)>, p: int, r: int, i: int, j: int, pivot: int) {
    && 0 <= p <= i < j <= r < |s|
    && (forall k :: p <= k <= i ==> s[k].0 <= pivot) && (forall k :: j <= k <= r ==> pivot <= s[k].0)
  }

  /** After both scans: either the part is cut, or exchanging the two lines goes on. */
  lemma CutStep(s: seq<(int, int)>, p: int, r: int, i0: int, j0: int, i: int, j: int, pivot: int)
    requires Cutting(s, p, r, i0, j0, pivot)
    requires i0 <= j < j0 && s[j].0 <= pivot && forall k :: j < k < j0 ==> s[k].0 > pivot
    requires i0 < i <= j0 && s[i].0 >= pivot && forall k :: i0 < k < i ==> s[k].0 < pivot
    ensures i >= j ==> p <= j < r && Parted(s, p, j + 1, r + 1)
    ensures i < j ==> Cutting(s[i := s[j]][j := s[i]], p, r, i, j, pivot)
  {
    if i >= j {
      forall x | p <= x <= j
        ensures s[x].0 <= pivot
      {
        assert x <= i0 || i0 < x < i || x == j;
      }
    }
  }

  lemma HalvesSorted(b: seq<(int, int)>, c: seq<(int, int)>, p: int, q: int, r: int)
    requires 0 <= p <= q <= r <= |b| == |c| && Parted(c, p, q, r)
    requires SortedBetween(b, p, q) && SortedBetween(c, q, r) && forall k :: p <= k < q ==> c[k] == b[k]
    ensures SortedBetween(c, p, r)
  {}

  /** Two parallel arrays, servers and entries, and how much of them is used. */
  class LoadArgs {
    const servers: array<int>
    const entries: array<int>
    var size: nat
    /** The used part: pairs of a server and an entry. */
    ghost var lines: seq<(int, int)>

    ghost predicate Valid()
      reads this, servers, entries
    {
      && servers != entries && servers.Length == entries.Length && |lines| == size <= servers.Length
      && forall k :: 0 <= k < size ==> lines[k] == (servers[k], entries[k])
    }

    constructor (capacity: nat)
      ensures Valid() && lines == [] && servers.Length == capacity
      ensures fresh(servers) && fresh(entries)
    {
      servers, entries, size := new int[capacity], new int[capacity], 0;
      lines := [];
    }

    /** One more line. */
    method Add(srv: int, entry: int)
      requires Valid() && size < servers.Length
      modifies this, servers, entries
      ensures Valid() && lines == old(lines) + [(srv, entry)]
    {
      servers[size] := srv;
      entries[size] := entry;
      size := size + 1;
      lines := lines + [(srv, entry)];
    }

    method Swap(i: int, j: int, ghost p: int, ghost r: int)
      requires Valid() && 0 <= p <= i < r <= size && p <= j < r
      modifies `lines, servers, entries
      ensures Valid() && lines == old(lines)[i := old(lines)[j]][j := old(lines)[i]]
      ensures Shuffled(old(lines), lines, p, r)
    {
      SwapShuffles(lines, i, j, p, r);
      servers[i], servers[j] := servers[j], servers[i];
      entries[i], entries[j] := entries[j], entries[i];
      lines := lines[i := lines[j]][j := lines[i]];
    }

    /** Down from line `from` to a server that is at most the pivot; there is one at
        or above line `stop`. */
    method ScanDown(from: int, stop: int, pivot: int) returns (j: int)
      requires Valid() && 0 <= stop < from <= size && servers[stop] <= pivot
      ensures stop <= j < from && servers[j] <= pivot && forall k :: j < k < from ==> servers[k] > pivot
    {
      j := from - 1;
      while servers[j] > pivot
        invariant stop <= j < from && forall k :: j < k < from ==> servers[k] > pivot
        decreases j
      {
        j := j - 1;
      }
    }

    /** Up from line `from` to a server that is at least the pivot; there is one at or
        below line `stop`. */
    method ScanUp(from: int, stop: int, pivot: int) returns (i: int)
      requires Valid() && -1 <= from < stop < size && servers[stop] >= pivot
      ensures from < i <= stop && servers[i] >= pivot && forall k :: from < k < i ==> servers[k] < pivot
    {
      i := from + 1;
      while servers[i] < pivot
        invariant from < i <= stop && forall k :: from < k < i ==> servers[k] < pivot
        decreases stop - i
      {
        i := i + 1;
      }
    }

    /** The first turn of the loop, which always finds line p. */
    method FirstTurn(p: int, r: int) returns (pivot: int, i: int, j: int)
      requires Valid() && 0 <= p < r < size
      modifies `lines, servers, entries
      ensures Valid() && i == p <= j <= r && Shuffled(old(lines), lines, p, r + 1)
      ensures i >= j ==> Parted(lines, p, j + 1, r + 1)
      ensures i < j ==> Cutting(lines, p, r, i, j, pivot)
    {
      pivot := servers[p];
      j := ScanDown(r + 1, p, pivot);
      i := ScanUp(p - 1, p, pivot);
      if i < j {
        Swap(i, j, p, r + 1);
      } else {
        Unmoved(lines, p, r + 1);
      }
    }

    /** Every other turn. */
    method NextTurn(p: int, r: int, pivot: int, i0: int, j0: int) returns (i: int, j: int)
      requires Valid() && r < size && Cutting(lines, p, r, i0, j0, pivot)
      modifies `lines, servers, entries
      ensures Valid() && p <= j < j0 && Shuffled(old(lines), lines, p, r + 1)
      ensures i >= j ==> j < r && Parted(lines, p, j + 1, r + 1)
      ensures i < j ==> i0 < i && Cutting(lines, p, r, i, j, pivot)
    {
      ghost var s := lines;
      j := ScanDown(j0, i0, pivot);
      i := ScanUp(i0, j0, pivot);
      CutStep(s, p, r, i0, j0, i, j, pivot);
      if i < j {
        Swap(i, j, p, r + 1);
      } else {
        Unmoved(s, p, r + 1);
      }
    }

    /** cut: Hoare's partition of the lines p to r around the server of line p. */
    method Cut(p: int, r: int) returns (q: int)
      requires Valid() && 0 <= p < r < size
      modifies `lines, servers, entries
      ensures Valid() && p <= q < r
      ensures Parted(lines, p, q + 1, r + 1)
      ensures Shuffled(old(lines), lines, p, r + 1)
    {
      var pivot, i, j := FirstTurn(p, r);
      while i < j
        invariant Valid() && p <= j <= r && Shuffled(old(lines), lines, p, r + 1)
        invariant i >= j ==> j < r && Parted(lines, p, j + 1, r + 1)
        invariant i < j ==> Cutting(lines, p, r, i, j, pivot)
        decreases j - i
      {
        ghost var s := lines;
        i, j := NextTurn(p, r, pivot, i, j);
        ShuffleAgain(old(lines), s, lines, p, r + 1);
      }
      return j;
    }

    /** load_args_sort: sorts the lines p to r by server. */
    method Sort(p: int, r: int)
      requires Valid() && 0 <= p <= r + 1 <= size
      modifies `lines, servers, entries
      ensures Valid() && SortedBetween(lines, p, r + 1)
      ensures Shuffled(old(lines), lines, p, r + 1)
      decreases r - p
    {
      if p < r {
        ghost var start := lines;
        var q := Cut(p, r);
        ghost var a := lines;
        Sort(p, q);
        ghost var b := lines;
        Sort(q + 1, r);
        ghost var c := lines;
        PartedStays(a, b, c, p, q + 1, r + 1);
        ShuffleAgain(start, a, c, p, r + 1);
        HalvesSorted(b, c, p, q + 1, r + 1);
      } else {
        Unmoved(lines, p, r + 1);
      }
    }
  }
}
