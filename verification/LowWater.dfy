/** Out-of-order completions turned into a low-water mark (internal_support.go). */
module LowWater {

  /** A completed range of numbers and the capacity its records hold. */
  datatype Done = Done(first: nat, last: nat, count: nat, bytes: nat)

  /** acked (internal_support.go): a range completed ahead of the mark. */
  datatype Waiting = Waiting(last: nat, count: nat, bytes: nat)

  predicate Contains(d: Done, n: nat) {
    d.first <= n <= d.last
  }

  ghost predicate Covered(h: seq<Done>, n: nat) {
    exists i :: 0 <= i < |h| && Contains(h[i], n)
  }

  /** Ranges are non-empty, lie above the start, and do not overlap. */
  ghost predicate Disjoint(start: nat, h: seq<Done>) {
    && (forall i :: 0 <= i < |h| ==> start < h[i].first <= h[i].last)
    && (forall i, j :: 0 <= i < |h| && 0 <= j < |h| && i != j ==> h[i].last < h[j].first || h[j].last < h[i].first)
  }

  /** The greatest m such that everything above start and up to m is completed. */
  ghost predicate IsMark(start: nat, h: seq<Done>, m: nat) {
    && start <= m
    && (forall n: nat :: start < n <= m ==> Covered(h, n))
    && !Covered(h, m + 1)
  }

  lemma MarkUnique(start: nat, h: seq<Done>, m: nat, m': nat)
    requires IsMark(start, h, m) && IsMark(start, h, m')
    ensures m == m'
  {
  }

  /** Records and bytes of the ranges that lie wholly at or below m. */
  function FreedCount(h: seq<Done>, m: nat): nat {
    if h == [] then 0
    else
      var d := h[|h| - 1];
      FreedCount(h[..|h| - 1], m) + (if d.last <= m then d.count else 0)
  }

  function FreedBytes(h: seq<Done>, m: nat): nat {
    if h == [] then 0
    else
      var d := h[|h| - 1];
      FreedBytes(h[..|h| - 1], m) + (if d.last <= m then d.bytes else 0)
  }

  /** Moving the mark over one range frees that range alone. */
  lemma {:induction false} FreedOne(h: seq<Done>, k: nat, m: nat, m': nat)
    requires k < |h| && m <= m' && h[k].last > m && h[k].last <= m'
    requires forall i :: 0 <= i < |h| && i != k ==> (h[i].last <= m <==> h[i].last <= m')
    ensures FreedCount(h, m') == FreedCount(h, m) + h[k].count
    ensures FreedBytes(h, m') == FreedBytes(h, m) + h[k].bytes
  {
    if k == |h| - 1 {
      FreedNone(h[..|h| - 1], m, m');
    } else {
      FreedOne(h[..|h| - 1], k, m, m');
    }
  }

  lemma {:induction false} FreedNone(h: seq<Done>, m: nat, m': nat)
    requires forall i :: 0 <= i < |h| ==> (h[i].last <= m <==> h[i].last <= m')
    ensures FreedCount(h, m') == FreedCount(h, m)
    ensures FreedBytes(h, m') == FreedBytes(h, m)
  {
    if h != [] {
      FreedNone(h[..|h| - 1], m, m');
    }
  }

  lemma CoveredMore(h: seq<Done>, d: Done)
    ensures forall n: nat :: Covered(h, n) ==> Covered(h + [d], n)
  {
    forall n: nat | Covered(h, n)
      ensures Covered(h + [d], n)
    {
      var i :| 0 <= i < |h| && Contains(h[i], n);
      assert (h + [d])[i] == h[i];
    }
  }

  // ---- what the tracker's fields mean --------------------------------------------

  ghost predicate Behind(start: nat, low: nat, h: seq<Done>) {
    forall n: nat :: start < n <= low ==> Covered(h, n)
  }

  /** A completed range is behind the mark or waits in the map. */
  ghost predicate Kept(low: nat, done: map<nat, Waiting>, d: Done) {
    || d.last <= low
    || (low < d.first && d.first in done && done[d.first] == Waiting(d.last, d.count, d.bytes))
  }

  ghost predicate Listed(h: seq<Done>, f: nat, w: Waiting) {
    exists i :: 0 <= i < |h| && h[i] == Done(f, w.last, w.count, w.bytes)
  }

  /** Behind the mark everything is covered; the ranges ahead of it are exactly the
      map's entries. */
  ghost predicate Explains(start: nat, low: nat, done: map<nat, Waiting>, h: seq<Done>) {
    && Disjoint(start, h) && start <= low && Behind(start, low, h)
    && (forall i :: 0 <= i < |h| ==> Kept(low, done, h[i]))
    && (forall f :: f in done ==> low < f && Listed(h, f, done[f]))
  }

  /** The number after the mark is completed only if some range starts with it. */
  lemma NextUncovered(start: nat, low: nat, done: map<nat, Waiting>, h: seq<Done>)
    requires Explains(start, low, done, h) && low + 1 !in done
    ensures IsMark(start, h, low)
  {
    if Covered(h, low + 1) {
      var i :| 0 <= i < |h| && Contains(h[i], low + 1);
      assert Kept(low, done, h[i]);
    }
  }

  /** A range that overlaps nothing completed lies ahead of the mark. */
  lemma AheadOfMark(start: nat, low: nat, h: seq<Done>, d: Done)
    requires Behind(start, low, h) && Disjoint(start, h + [d])
    ensures low < d.first <= d.last
  {
    assert (h + [d])[|h|] == d;
    FirstUncovered(start, h, d);
  }

  lemma FirstUncovered(start: nat, h: seq<Done>, d: Done)
    requires Disjoint(start, h + [d])
    ensures !Covered(h, d.first)
  {
    var h' := h + [d];
    assert h'[|h|] == d;
    forall i | 0 <= i < |h| ensures !Contains(h[i], d.first) {
      assert h'[i] == h[i];
    }
  }

  /** A range that starts right above the mark moves the mark to its end. */
  lemma MarkMoves(start: nat, low: nat, done: map<nat, Waiting>, done': map<nat, Waiting>, h: seq<Done>, k: nat)
    requires Disjoint(start, h) && start <= low && Behind(start, low, h)
    requires k < |h| && h[k].first == low + 1
    requires forall i :: 0 <= i < |h| && i != k ==> Kept(low, done, h[i])
    requires forall f :: f in done ==> low < f && Listed(h, f, done[f])
    requires done' == done - {low + 1}
    ensures Explains(start, h[k].last, done', h)
    ensures FreedCount(h, h[k].last) == FreedCount(h, low) + h[k].count
    ensures FreedBytes(h, h[k].last) == FreedBytes(h, low) + h[k].bytes
  {
    var low' := h[k].last;
    forall n: nat | start < n <= low'
      ensures Covered(h, n)
    {
      if n > low {
        assert Contains(h[k], n);
      }
    }
    forall i | 0 <= i < |h|
      ensures Kept(low', done', h[i])
    {
      if i != k {
        assert Kept(low, done, h[i]);
      }
    }
    forall f | f in done'
      ensures low' < f && Listed(h, f, done'[f])
    {
      assert Listed(h, f, done[f]);
      var i :| 0 <= i < |h| && h[i] == Done(f, done[f].last, done[f].count, done[f].bytes);
    }
    FreedOne(h, k, low, low');
  }

  /** A range completed ahead of the mark waits. */
  lemma RangeWaits(start: nat, low: nat, done: map<nat, Waiting>, h: seq<Done>, d: Done)
    requires Explains(start, low, done, h) && Disjoint(start, h + [d]) && d.first > low
    ensures Explains(start, low, done[d.first := Waiting(d.last, d.count, d.bytes)], h + [d])
    ensures FreedCount(h + [d], low) == FreedCount(h, low) && FreedBytes(h + [d], low) == FreedBytes(h, low)
  {
    var h', done' := h + [d], done[d.first := Waiting(d.last, d.count, d.bytes)];
    assert h'[|h|] == d && h'[..|h|] == h;
    CoveredMore(h, d);
    forall i | 0 <= i < |h'|
      ensures Kept(low, done', h'[i])
    {
      if i < |h| {
        assert Kept(low, done, h[i]) && h'[i] == h[i];
      }
    }
    forall f | f in done'
      ensures low < f && Listed(h', f, done'[f])
    {
      if f != d.first {
        assert Listed(h, f, done[f]);
        var i :| 0 <= i < |h| && h[i] == Done(f, done[f].last, done[f].count, done[f].bytes);
        assert h'[i] == h[i];
      }
    }
  }

  class AckTracker {
    var low: nat
    var done: map<nat, Waiting>

    ghost const start: nat
    /** Every range acknowledged so far. */
    ghost var acked: seq<Done>

    ghost predicate Valid()
      reads this
    {
      Explains(start, low, done, acked) && low + 1 !in done
    }

    constructor (low: nat)
      ensures Valid() && this.low == low && start == low && acked == []
    {
      this.low, done, start, acked := low, map[], low, [];
    }

    /** ack: records a completed range and returns the mark it leads to, and the
        capacity the mark's advance has freed. For any completion order the mark is
        exact, and what has been freed so far is exactly what lies at or below it. */
    method Ack(first: nat, last: nat, count: nat, bytes: nat)
      returns (mark: nat, freedCount: nat, freedBytes: nat)
      requires Valid() && Disjoint(start, acked + [Done(first, last, count, bytes)])
      modifies this
      ensures Valid() && acked == old(acked) + [Done(first, last, count, bytes)]
      ensures mark == low >= old(low) && IsMark(start, acked, mark)
      ensures freedCount == FreedCount(acked, mark) - FreedCount(old(acked), old(low))
      ensures freedBytes == FreedBytes(acked, mark) - FreedBytes(old(acked), old(low))
    {
      hide Explains, Disjoint;
      ghost var d := Done(first, last, count, bytes);
      ghost var h := acked + [d];
      ghost var low0 := low;
      RangeAdded(start, low, done, acked, d);
      if first != low + 1 {
        done := done[first := Waiting(last, count, bytes)];
        acked := h;
        NextUncovered(start, low, done, acked);
        return low, 0, 0;
      }
      acked := h;
      low := last;
      freedCount, freedBytes := count, bytes;
      while low + 1 in done
        invariant Explains(start, low, done, h) && acked == h && low0 < low
        invariant freedCount == FreedCount(h, low) - FreedCount(h, low0)
        invariant freedBytes == FreedBytes(h, low) - FreedBytes(h, low0)
        decreases |done|
      {
        var next := done[low + 1];
        Drained(start, low, done, h);
        done := done - {low + 1};
        low := next.last;
        freedCount := freedCount + next.count;
        freedBytes := freedBytes + next.bytes;
      }
      NextUncovered(start, low, done, acked);
      mark := low;
    }
  }

  /** Both ways a new range can be recorded. */
  lemma RangeAdded(start: nat, low: nat, done: map<nat, Waiting>, h: seq<Done>, d: Done)
    requires Explains(start, low, done, h) && low + 1 !in done && Disjoint(start, h + [d])
    ensures low < d.first <= d.last
    ensures FreedCount(h + [d], low) == FreedCount(h, low) && FreedBytes(h + [d], low) == FreedBytes(h, low)
    ensures d.first != low + 1 ==> Explains(start, low, done[d.first := Waiting(d.last, d.count, d.bytes)], h + [d])
    ensures d.first == low + 1 ==>
              && Explains(start, d.last, done, h + [d])
              && FreedCount(h + [d], d.last) == FreedCount(h, low) + d.count
              && FreedBytes(h + [d], d.last) == FreedBytes(h, low) + d.bytes
  {
    hide Disjoint, Behind, Kept, Listed, FreedCount, FreedBytes;
    AheadOfMark(start, low, h, d);
    RangeWaits(start, low, done, h, d);
    var h' := h + [d];
    assert h'[|h|] == d;
    if d.first == low + 1 {
      var waiting := done[d.first := Waiting(d.last, d.count, d.bytes)];
      assert waiting - {low + 1} == done;
      MarkMoves(start, low, waiting, done, h', |h|);
    }
  }

  /** One turn of the drain loop. */
  lemma Drained(start: nat, low: nat, done: map<nat, Waiting>, h: seq<Done>)
    requires Explains(start, low, done, h) && low + 1 in done
    ensures var next := done[low + 1];
            && low < next.last && |done - {low + 1}| < |done|
            && Explains(start, next.last, done - {low + 1}, h)
            && FreedCount(h, next.last) == FreedCount(h, low) + next.count
            && FreedBytes(h, next.last) == FreedBytes(h, low) + next.bytes
  {
    var next := done[low + 1];
    assert Listed(h, low + 1, next);
    var k :| 0 <= k < |h| && h[k] == Done(low + 1, next.last, next.count, next.bytes);
    MarkMoves(start, low, done, done - {low + 1}, h, k);
    assert (done - {low + 1}).Keys == done.Keys - {low + 1};
  }
}
