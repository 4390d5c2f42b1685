/** How the pieces fit: the ranges the flusher's loop hands on are what the whole-buffer
    machine assembles and what the acknowledgement tracker expects, in any completion
    order, and together they account for everything the log holds. */
module Assembly {
  import opened RecordFormat
  import opened Wal
  import opened LowWater
  import LogReader
  import WalSnapshot
  import Flusher
  import Pipeline
  import PipelineFrame

  // ---- the reader's answers as acts of the whole buffer ----------------------

  /** What a reader of the running log returns is what the whole-buffer machine's Read act
      takes: the contract of LogReader.Reader.Next is that act's guard. A reader stands where
      the machine says, or was created in the head's gap and stands at the head. */
  lemma EntryIsRead(cfg: Config, x: Pipeline.Sys, at: nat, lsn: nat, rec: Record)
    requires x.buf.Some? && HasActive(x.wal)
    requires LogReader.Gives(WalSnapshot.SnapOf(x.wal), at, lsn, rec)
    requires var head := WalSnapshot.ViewsOf(x.wal);
             || at == x.buf.value.next
             || (head != [] && LogReader.GapBefore(head[0], x.buf.value.next) && at == head[0].base)
    ensures Pipeline.Can(cfg, x, Pipeline.Read(lsn, rec))
  {
    hide LogReader.Gives, WalSnapshot.ViewsOf;
  }

  /** ... and it is never refused: the reader of a living buffer is above what is deleted, so
      ErrTruncated can only mean an empty head segment in front of which it stands. */
  lemma TruncatedMeansEmptyHead(cfg: Config, xs: seq<Pipeline.Sys>, acts: seq<Pipeline.Act>, i: nat)
    requires ValidConfig(cfg) && Pipeline.IsLife(cfg, xs, acts) && i < |xs| && xs[i].buf.Some?
    ensures HasActive(xs[i].wal) && WalSnapshot.ViewsOf(xs[i].wal) != []
    ensures var e, n := WalSnapshot.SnapOf(xs[i].wal), xs[i].buf.value.next;
            n > LogReader.Head(e) && (n < e.views[0].base ==> LogReader.GapBefore(e.views[0], n))
  {
    hide Pipeline.IsLife, LogReader.Chained, WalSnapshot.ViewsOf;
    PipelineFrame.ReaderAboveHead(cfg, xs, acts, i);
  }

  // ---- the flusher's ranges as acts of the whole buffer -------------------

  ghost predicate InLog(log: seq<Flusher.Entry>, n: nat) {
    exists k :: 0 <= k < |log| && log[k].lsn == n
  }

  /** The flusher works on what its reader returned: in the range, the entries it has are the
      ones returned, and the one the range ends at has been returned. */
  ghost predicate FedBy(log: seq<Flusher.Entry>, got: map<nat, Record>, from: nat, to: nat) {
    && (forall n: nat :: from <= n <= to ==> (InLog(log, n) <==> n in got))
    && (to in got || to + 1 in got)
  }

  function Numbers(batch: seq<Flusher.Entry>): set<nat> {
    set k | 0 <= k < |batch| :: batch[k].lsn
  }

  lemma {:induction false} BetweenHas(log: seq<Flusher.Entry>, from: nat, to: int, n: nat)
    ensures n in Numbers(Flusher.Between(log, from, to)) <==> from <= n <= to && InLog(log, n)
  {
    if log != [] {
      var k := |log| - 1;
      var front, rest := log[..k], Flusher.Between(log[..k], from, to);
      BetweenHas(front, from, to, n);
      var tail := if from <= log[k].lsn <= to then [log[k]] else [];
      assert Flusher.Between(log, from, to) == rest + tail;
      NumbersConcat(rest, tail, n);
      NumbersOne(log[k], n);
      InLogSplit(log, n);
    }
  }

  lemma NumbersOne(e: Flusher.Entry, n: nat)
    ensures n in Numbers([e]) <==> e.lsn == n
  {
    assert [e][0].lsn == e.lsn;
  }

  lemma NumbersConcat(a: seq<Flusher.Entry>, b: seq<Flusher.Entry>, n: nat)
    ensures n in Numbers(a + b) <==> n in Numbers(a) || n in Numbers(b)
  {
    if n in Numbers(a) {
      var k :| 0 <= k < |a| && a[k].lsn == n;
      assert (a + b)[k].lsn == n;
    }
    if n in Numbers(b) {
      var k :| 0 <= k < |b| && b[k].lsn == n;
      assert (a + b)[|a| + k].lsn == n;
    }
  }

  lemma InLogSplit(log: seq<Flusher.Entry>, n: nat)
    requires log != []
    ensures InLog(log, n) <==> InLog(log[..|log| - 1], n) || log[|log| - 1].lsn == n
  {
    if InLog(log, n) {
      var k :| 0 <= k < |log| && log[k].lsn == n;
      assert k < |log| - 1 ==> log[..|log| - 1][k].lsn == n;
    }
    if InLog(log[..|log| - 1], n) {
      var k :| 0 <= k < |log| - 1 && log[..|log| - 1][k].lsn == n;
      assert log[k].lsn == n;
    }
  }

  function Restrict(got: map<nat, Record>, numbers: set<nat>): map<nat, Record> {
    map n | n in numbers && n in got :: got[n]
  }

  /** A range handed on by the flusher's loop is a range the whole-buffer machine may
      assemble: its batch is delivered, and whatever else was read in it was dropped. */
  lemma RangeAssembles(cfg: Config, x: Pipeline.Sys, log: seq<Flusher.Entry>, r: Flusher.Range, mark: nat)
    requires x.buf.Some? && x.buf.value.cursor == r.from
    requires Flusher.RangeOk(log, r) && FedBy(log, x.buf.value.got, r.from, r.to)
    requires r.batch == [] ==> IsMark(x.buf.value.start, x.buf.value.acked + [Done(r.from, r.to, 0, 0)], mark)
    ensures var numbers := Numbers(r.batch);
            var recs := Restrict(x.buf.value.got, numbers);
            var skipped := Restrict(x.buf.value.got, Numbers(Flusher.Between(log, r.from, r.to)) - numbers);
            && recs.Keys == numbers
            && Pipeline.Can(cfg, x, Pipeline.Assemble(r.to, recs, skipped, mark))
  {
    hide Flusher.RangeOk, Flusher.Between, IsMark, Numbers, InLog;
    var all := Flusher.Between(log, r.from, r.to);
    var b, numbers := x.buf.value, Numbers(r.batch);
    RangeNumbers(log, r, b.got);
    var recs, skipped := Restrict(b.got, numbers), Restrict(b.got, Numbers(all) - numbers);
    assert recs.Keys == numbers;
    assert recs == map[] ==> numbers == {};
    assert Pipeline.CanAssemble(b, r.to, recs, skipped, mark);
  }

  lemma RangeNumbers(log: seq<Flusher.Entry>, r: Flusher.Range, got: map<nat, Record>)
    requires Flusher.RangeOk(log, r) && FedBy(log, got, r.from, r.to)
    ensures r.from <= r.to && (r.batch == [] <==> Numbers(r.batch) == {})
    ensures var all := Numbers(Flusher.Between(log, r.from, r.to));
            Numbers(r.batch) <= all && forall n: nat :: n in all <==> r.from <= n <= r.to && n in got
  {
    hide Flusher.Consecutive, Flusher.Sizes, Flusher.Between, Flusher.NoneDropped, Flusher.AllDropped, InLog;
    var all := Flusher.Between(log, r.from, r.to);
    forall n: nat ensures n in Numbers(all) <==> r.from <= n <= r.to && n in got {
      BetweenHas(log, r.from, r.to, n);
    }
    PrefixNumbers(r.batch, all);
  }

  lemma PrefixNumbers(a: seq<Flusher.Entry>, b: seq<Flusher.Entry>)
    requires a <= b
    ensures Numbers(a) <= Numbers(b) && (a == [] <==> Numbers(a) == {})
  {
    forall n | n in Numbers(a) ensures n in Numbers(b) {
      var k :| 0 <= k < |a| && a[k].lsn == n;
      assert b[k].lsn == n;
    }
    if a != [] {
      assert a[0].lsn in Numbers(a);
    }
  }

  // ---- the flusher's ranges as completions --------------------------------

  function Completion(r: Flusher.Range): Done {
    Done(r.from, r.to, r.count + r.skipCount, r.bytes + r.skipBytes)
  }

  /** The ranges at the given positions, in that order. */
  function Pick(out: seq<Flusher.Range>, order: seq<nat>): (h: seq<Done>)
    requires forall i :: 0 <= i < |order| ==> order[i] < |out|
    ensures |h| == |order| && forall i :: 0 <= i < |h| ==> h[i] == Completion(out[order[i]])
  {
    seq(|order|, i requires 0 <= i < |order| => Completion(out[order[i]]))
  }

  ghost predicate Distinct(order: seq<nat>) {
    forall i, j :: 0 <= i < j < |order| ==> order[i] != order[j]
  }

  /** However deliveries finish, their completions are what the tracker demands. */
  lemma AnyOrderDisjoint(log: seq<Flusher.Entry>, out: seq<Flusher.Range>, start: nat, order: seq<nat>)
    requires Flusher.Tiled(log, out, start) && start > 0 && Distinct(order)
    requires forall i :: 0 <= i < |order| ==> order[i] < |out|
    ensures Disjoint(start - 1, Pick(out, order))
  {
    hide Flusher.Tiled, Flusher.RangeOk;
    var h := Pick(out, order);
    forall i | 0 <= i < |h| ensures start - 1 < h[i].first <= h[i].last {
      RangeBounds(log, out, start, order[i]);
    }
    forall i, j | 0 <= i < |h| && 0 <= j < |h| && i != j
      ensures h[i].last < h[j].first || h[j].last < h[i].first
    {
      var a, b := order[i], order[j];
      assert a != b;
      if a < b {
        Flusher.TilesDisjoint(log, out, start, a, b);
      } else {
        Flusher.TilesDisjoint(log, out, start, b, a);
      }
    }
  }

  lemma RangeBounds(log: seq<Flusher.Entry>, out: seq<Flusher.Range>, start: nat, i: nat)
    requires Flusher.Tiled(log, out, start) && i < |out|
    ensures start <= out[i].from <= out[i].to < Flusher.Reached(out, start)
  {
    Flusher.TilesDisjoint(log, out, start, i, i);
  }

  /** Once every range is completed, in whatever order, the mark is the last number the
      flusher handed on. */
  lemma AllCompletedMark(log: seq<Flusher.Entry>, out: seq<Flusher.Range>, start: nat, order: seq<nat>)
    requires Flusher.Tiled(log, out, start) && start > 0
    requires forall i :: 0 <= i < |order| ==> order[i] < |out|
    requires forall k: nat :: k < |out| ==> k in order
    ensures Flusher.Reached(out, start) >= start
    ensures IsMark(start - 1, Pick(out, order), Flusher.Reached(out, start) - 1)
  {
    hide Flusher.Tiled, Flusher.RangeOk, Flusher.Reached;
    var h := Pick(out, order);
    var end := Flusher.Reached(out, start);
    Flusher.TilesNonEmpty(log, out, start);
    forall n: nat | start - 1 < n <= end - 1 ensures Covered(h, n) {
      var k := Flusher.TilesCover(log, out, start, n);
      assert k in order;
      var i :| 0 <= i < |order| && order[i] == k;
      assert Contains(h[i], n);
    }
    forall i | 0 <= i < |h| ensures !Contains(h[i], end) {
      RangeBounds(log, out, start, order[i]);
    }
  }

  // ---- conservation over all ranges ---------------------------------------

  function TotalCount(out: seq<Flusher.Range>): nat {
    if out == [] then 0 else TotalCount(out[..|out| - 1]) + out[|out| - 1].count + out[|out| - 1].skipCount
  }

  function TotalBytes(out: seq<Flusher.Range>): nat {
    if out == [] then 0 else TotalBytes(out[..|out| - 1]) + out[|out| - 1].bytes + out[|out| - 1].skipBytes
  }

  lemma {:induction false} BetweenJoins(log: seq<Flusher.Entry>, from: nat, mid: nat, to: int)
    requires Flusher.Increasing(log) && from <= mid && mid - 1 <= to
    ensures Flusher.Between(log, from, to) == Flusher.Between(log, from, mid - 1) + Flusher.Between(log, mid, to)
  {
    if log != [] {
      var k := |log| - 1;
      var front := log[..k];
      BetweenJoins(front, from, mid, to);
      if log[k].lsn < mid {
        Flusher.BetweenNone(front, mid, to);
      }
    }
  }

  /** The capacity of all ranges handed on is exactly what the log holds up to there. */
  lemma {:induction false} RangesAccountForLog(log: seq<Flusher.Entry>, out: seq<Flusher.Range>, start: nat)
    requires Flusher.Increasing(log) && Flusher.Tiled(log, out, start)
    ensures var held := Flusher.Between(log, start, Flusher.Reached(out, start) - 1);
            TotalCount(out) == |held| && TotalBytes(out) == Flusher.Sizes(held)
  {
    hide Flusher.Sizes, Flusher.Between, Flusher.Increasing, Flusher.EndsAtEntry, Flusher.Consecutive;
    if out == [] {
      BetweenEmpty(log, start);
    } else {
      var k := |out| - 1;
      var front, r := out[..k], out[k];
      RangesAccountForLog(log, front, start);
      Flusher.TilesNonEmpty(log, front, start);
      BetweenJoins(log, start, r.from, r.to);
      Flusher.SizesConcat(Flusher.Between(log, start, r.from - 1), Flusher.Between(log, r.from, r.to));
    }
  }

  lemma {:induction false} BetweenEmpty(log: seq<Flusher.Entry>, start: nat)
    ensures Flusher.Between(log, start, start - 1) == [] && Flusher.Sizes([]) == 0
  {
    if log != [] {
      BetweenEmpty(log[..|log| - 1], start);
    }
  }
}
