/** The flusher (flush.go): reads the log in order, assembles batches of consecutive
    records, and hands on or acknowledges ranges of numbers.

    Everything the flusher does not decide is arbitrary: what becomes of each record
    (delivered, dropped below the floor or as undecodable, or a reason to stop), whether it
    is there yet, and which event ends a wait. */
module Flusher {
  import Sizing

  /** A record in the log. `drop` is what becomes of it when it is read: below the floor or
      undecodable, and so dropped, or else delivered. */
  datatype Entry = Entry(lsn: nat, size: nat, drop: bool)

  /** A range handed on: dispatched with a batch, or completed at once without one.
      count and bytes are the batch's, skipCount and skipBytes what was dropped. */
  datatype Range = Range(from: nat, to: nat, id: nat, batch: seq<Entry>,
                         count: nat, bytes: nat, skipCount: nat, skipBytes: nat)

  /** What the next read gives: nothing yet, an error, a record, or one to stop at. */
  datatype Outcome = NoData | ReadFails | Taken | Stop

  datatype Event = Wake | Tick | Drain | Abort

  /** The choices of one turn of the loop. */
  datatype Turn = Turn(failed: bool, fetches: seq<Outcome>, force: bool, admitted: bool, event: Event)

  datatype Exit = Running | Failed | Stopped(lsn: nat) | Aborted | Drained

  ghost predicate Increasing(log: seq<Entry>) {
    forall i, j :: 0 <= i < j < |log| ==> log[i].lsn < log[j].lsn
  }

  function Lengths(s: seq<Entry>): (b: Sizing.Batch)
    ensures |b| == |s| && forall i :: 0 <= i < |b| ==> b[i] == s[i].size
  {
    seq(|s|, i requires 0 <= i < |s| => s[i].size)
  }

  /** Payload bytes. */
  function Sizes(s: seq<Entry>): nat {
    Sizing.Sizes(Lengths(s))
  }

  /** What the log holds from one number to another. */
  function Between(log: seq<Entry>, from: nat, to: int): seq<Entry> {
    if log == [] then []
    else
      var n := |log| - 1;
      Between(log[..n], from, to) + (if from <= log[n].lsn <= to then [log[n]] else [])
  }

  /** The records of a batch are numbered id, id+1, ... in order. */
  ghost predicate Consecutive(batch: seq<Entry>, id: nat) {
    forall k :: 0 <= k < |batch| ==> batch[k].lsn == id + k
  }

  ghost predicate NoneDropped(s: seq<Entry>) {
    forall k :: 0 <= k < |s| ==> !s[k].drop
  }

  ghost predicate AllDropped(s: seq<Entry>) {
    forall k :: 0 <= k < |s| ==> s[k].drop
  }

  /** A range ends at a record, or right in front of one. */
  ghost predicate EndsAtEntry(log: seq<Entry>, to: nat) {
    exists k :: 0 <= k < |log| && (log[k].lsn == to || log[k].lsn == to + 1)
  }

  /** The range accounts for everything the log holds in it: the batch, in order and
      without a hole, from the first number on, is exactly what is not to be dropped, and
      behind it comes at most one dropped record. */
  ghost predicate RangeOk(log: seq<Entry>, r: Range) {
    var all := Between(log, r.from, r.to);
    && r.from <= r.to && EndsAtEntry(log, r.to)
    && r.batch <= all && Consecutive(r.batch, r.id)
    && NoneDropped(r.batch) && AllDropped(all[|r.batch|..])
    && r.count == |r.batch| && r.bytes == Sizes(r.batch)
    && r.count + r.skipCount == |all| && r.bytes + r.skipBytes == Sizes(all)
    && (r.batch != [] ==> r.id == r.from && r.skipCount <= 1)
  }

  /** One past the last number handed on. */
  function Reached(out: seq<Range>, start: nat): nat {
    if out == [] then start else out[|out| - 1].to + 1
  }

  /** The ranges are consecutive from start, and each is right. */
  ghost predicate Tiled(log: seq<Entry>, out: seq<Range>, start: nat) {
    out != [] ==>
      var k := |out| - 1;
      Tiled(log, out[..k], start) && RangeOk(log, out[k]) && out[k].from == Reached(out[..k], start)
  }

  // ---- consequences of tiling --------------------------------------------

  /** Each range is non-empty and accounts for what the log holds in it, and the ranges
      do not overlap. */
  lemma {:induction false} TilesDisjoint(log: seq<Entry>, out: seq<Range>, start: nat, i: nat, j: nat)
    requires Tiled(log, out, start) && i <= j < |out|
    ensures RangeOk(log, out[i]) && start <= out[i].from && out[i].to < Reached(out, start)
    ensures i < j ==> out[i].to < out[j].from
  {
    hide RangeOk;
    var k := |out| - 1;
    TilesNonEmpty(log, out, start);
    if i < k {
      TilesDisjoint(log, out[..k], start, i, if j < k then j else i);
      assert out[..k][i] == out[i];
      if j < k {
        assert out[..k][j] == out[j];
      }
    }
  }

  lemma {:induction false} TilesNonEmpty(log: seq<Entry>, out: seq<Range>, start: nat)
    requires Tiled(log, out, start)
    ensures start <= Reached(out, start)
    ensures out != [] ==> start <= out[|out| - 1].from <= out[|out| - 1].to
  {
    if out != [] {
      TilesNonEmpty(log, out[..|out| - 1], start);
    }
  }

  /** The range a number handed on lies in. */
  lemma {:induction false} TilesCover(log: seq<Entry>, out: seq<Range>, start: nat, n: nat) returns (i: nat)
    requires Tiled(log, out, start) && start <= n < Reached(out, start)
    ensures i < |out| && out[i].from <= n <= out[i].to
  {
    hide RangeOk;
    var k := |out| - 1;
    if n >= out[k].from {
      return k;
    }
    i := TilesCover(log, out[..k], start, n);
  }

  lemma SizesConcat(a: seq<Entry>, b: seq<Entry>)
    ensures Sizes(a + b) == Sizes(a) + Sizes(b)
  {
    assert Lengths(a + b) == Lengths(a) + Lengths(b);
    Sizing.SizesConcat(Lengths(a), Lengths(b));
  }

  lemma SizesMore(s: seq<Entry>, e: Entry)
    ensures Sizes(s + [e]) == Sizes(s) + e.size
  {
    SizesConcat(s, [e]);
    assert Lengths([e]) == [e.size];
    Sizing.SizesOne(e.size);
  }

  lemma {:induction false} BetweenNone(log: seq<Entry>, from: nat, to: int)
    requires forall k :: 0 <= k < |log| ==> log[k].lsn < from
    ensures Between(log, from, to) == []
  {
    if log != [] {
      BetweenNone(log[..|log| - 1], from, to);
    }
  }

  /** A stretch of the log is what lies between numbers that bound it. */
  lemma {:induction false} BetweenSlice(log: seq<Entry>, lo: nat, hi: nat, from: nat, to: int)
    requires lo <= hi <= |log|
    requires forall k :: 0 <= k < |log| ==>
               (k < lo ==> log[k].lsn < from) && (lo <= k < hi ==> from <= log[k].lsn <= to) && (hi <= k ==> log[k].lsn > to)
    ensures Between(log, from, to) == log[lo..hi]
  {
    if log != [] {
      var n := |log| - 1;
      var front := log[..n];
      assert forall k :: 0 <= k < n ==> front[k] == log[k];
      if hi == |log| && lo == hi {
        BetweenNone(front, from, to);
      } else if hi == |log| {
        BetweenSlice(front, lo, n, from, to);
        assert front[lo..n] + [log[n]] == log[lo..hi];
      } else {
        BetweenSlice(front, lo, hi, from, to);
        assert front[lo..hi] == log[lo..hi];
      }
    }
  }

  /** Handing on the open range, whose entries are log[base..d], up to `to`. */
  lemma Emit(log: seq<Entry>, out: seq<Range>, start: nat, r: Range, base: nat, m: nat, d: nat)
    requires Tiled(log, out, start) && r.from == Reached(out, start) && r.from <= r.to && EndsAtEntry(log, r.to)
    requires base <= m <= d <= |log|
    requires forall k :: 0 <= k < |log| ==>
               (k < base ==> log[k].lsn < r.from) && (base <= k < d ==> r.from <= log[k].lsn <= r.to) && (d <= k ==> log[k].lsn > r.to)
    requires r.batch == log[base..m] && r.count == m - base && r.bytes == Sizes(r.batch)
    requires r.skipCount == d - m && r.skipBytes == Sizes(log[m..d])
    requires NoneDropped(log[base..m]) && AllDropped(log[m..d])
    requires Consecutive(r.batch, r.id) && (r.batch != [] ==> r.id == r.from && r.skipCount <= 1)
    ensures RangeOk(log, r) && Tiled(log, out + [r], start) && Reached(out + [r], start) == r.to + 1
    ensures Skips(out + [r]) == Skips(out) + r.skipCount
  {
    hide Sizes, Between, EndsAtEntry, Consecutive, NoneDropped, AllDropped, RangeOk;
    RangeFilled(log, r, base, m, d);
    assert (out + [r])[..|out|] == out;
  }

  /** A range whose entries are log[base..d] accounts for all of them. */
  lemma RangeFilled(log: seq<Entry>, r: Range, base: nat, m: nat, d: nat)
    requires r.from <= r.to && EndsAtEntry(log, r.to) && base <= m <= d <= |log|
    requires forall k :: 0 <= k < |log| ==>
               (k < base ==> log[k].lsn < r.from) && (base <= k < d ==> r.from <= log[k].lsn <= r.to) && (d <= k ==> log[k].lsn > r.to)
    requires r.batch == log[base..m] && r.count == m - base && r.bytes == Sizes(r.batch)
    requires r.skipCount == d - m && r.skipBytes == Sizes(log[m..d])
    requires NoneDropped(log[base..m]) && AllDropped(log[m..d])
    requires Consecutive(r.batch, r.id) && (r.batch != [] ==> r.id == r.from && r.skipCount <= 1)
    ensures RangeOk(log, r)
  {
    hide Sizes, Between, EndsAtEntry, Consecutive, NoneDropped, AllDropped;
    BetweenSlice(log, base, d, r.from, r.to);
    assert log[base..d] == log[base..m] + log[m..d];
    assert log[base..d][m - base..] == log[m..d];
    SizesConcat(log[base..m], log[m..d]);
  }

  /** How many dropped records the ranges account for. */
  function Skips(out: seq<Range>): nat {
    if out == [] then 0 else Skips(out[..|out| - 1]) + out[|out| - 1].skipCount
  }

  lemma IncreasingAt(log: seq<Entry>, d: nat)
    requires Increasing(log)
    ensures forall k :: d <= k < |log| && 0 < d ==> log[k].lsn > log[d - 1].lsn
    ensures forall k :: 0 <= k < d <= |log| ==> log[k].lsn <= log[d - 1].lsn
  {
  }

  class Flusher {
    const log: seq<Entry>
    const start: nat
    const flushRecords: nat
    const flushBytes: nat

    var pos: nat           // the reader's position
    var records: seq<Entry>
    var id: nat
    var wantLSN: nat
    var rangeFrom: nat
    var rangeTo: int
    var nbytes: nat
    var skipCount: nat
    var skipBytes: nat
    var expired: bool
    var draining: bool
    var cut: bool
    var hasHeld: bool
    var held: Entry

    var out: seq<Range>    // handed on so far
    var drops: nat         // records counted as dropped
    ghost var base: nat    // entries of the log in front of rangeFrom

    /** Entries whose fate is decided: all that were read, but a held one. */
    ghost function Decided(): int
      reads this`pos, this`hasHeld
    {
      pos - (if hasHeld then 1 else 0)
    }

    ghost predicate Sane()
    {
      && Increasing(log) && (log != [] ==> start <= log[0].lsn)
      && start > 0 && flushRecords > 0 && flushBytes > 0
    }

    /** The ranges handed on are right and end where the open range begins. */
    ghost predicate Emitted()
      reads this`out, this`rangeFrom, this`base
    {
      && Tiled(log, out, start) && rangeFrom == Reached(out, start)
      && base <= |log|
      && (forall k :: 0 <= k < |log| ==> (log[k].lsn < rangeFrom <==> k < base))
    }

    /** The open range: its batch, then what was dropped behind it. */
    ghost predicate Filling(d: int)
      reads this`base, this`records, this`nbytes, this`skipCount, this`skipBytes, this`rangeFrom, this`rangeTo, this`id, this`wantLSN, this`cut
    {
      var m := base + |records|;
      && base <= m <= d <= |log|
      && records == log[base..m] && NoneDropped(records) && AllDropped(log[m..d])
      && nbytes == Sizes(records)
      && skipCount == d - m && skipBytes == Sizes(log[m..d])
      && (if d == base then rangeTo == rangeFrom - 1 else rangeTo == log[d - 1].lsn)
      && (records != [] ==> id == rangeFrom && wantLSN == id + |records| && Consecutive(records, id))
      && (records != [] && skipCount > 0 ==> cut && skipCount == 1)
    }

    /** A batch stays within both limits: the last record is what may exceed the bytes. */
    ghost predicate InLimits(batch: seq<Entry>)
    {
      |batch| <= flushRecords && (batch != [] ==> Sizes(batch[..|batch| - 1]) < flushBytes)
    }

    ghost predicate Counted()
      reads this`drops, this`out, this`skipCount, this`records
    {
      && drops == Skips(out) + skipCount
      && InLimits(records)
      && forall i :: 0 <= i < |out| ==> InLimits(out[i].batch)
    }

    ghost predicate Valid()
      reads this`base, this`records, this`nbytes, this`skipCount, this`skipBytes, this`rangeFrom, this`rangeTo, this`id, this`wantLSN, this`cut, this`pos, this`hasHeld, this`held, this`out, this`drops
    {
      && Sane() && Emitted() && Counted() && pos <= |log|
      && 0 <= Decided() && Filling(Decided())
      && (hasHeld ==> held == log[pos - 1] && !held.drop && (records == [] || cut))
      && (cut ==> records != [] && Breaks())
    }

    /** The entry behind the open batch is dropped or is not the next number. */
    ghost predicate Breaks()
      reads this`base, this`records, this`wantLSN
    {
      var m := base + |records|;
      m < |log| && (log[m].drop || log[m].lsn != wantLSN)
    }

    /** The same of a batch, wherever it stands in the log. */
    ghost predicate Interrupted(batch: seq<Entry>)
    {
      exists m :: 0 < |batch| <= m < |log| && log[m - |batch|..m] == batch && (log[m].drop || log[m].lsn != log[m - 1].lsn + 1)
    }

    ghost predicate Full(batch: seq<Entry>)
    {
      |batch| >= flushRecords || Sizes(batch) >= flushBytes
    }

    /** The ranges handed on from the k-th on carry no batch. */
    ghost predicate NoBatch(k: nat)
      reads this`out
    {
      forall i :: k <= i < |out| ==> out[i].batch == []
    }

    constructor (log: seq<Entry>, from: nat, flushRecords: nat, flushBytes: nat)
      requires Increasing(log) && (log != [] ==> from <= log[0].lsn)
      requires from > 0 && flushRecords > 0 && flushBytes > 0
      ensures Valid() && out == [] && this.log == log && start == from && !hasHeld && records == []
      ensures !draining && !expired
    {
      this.log, this.start, this.flushRecords, this.flushBytes := log, from, flushRecords, flushBytes;
      pos, records, id, wantLSN, rangeFrom, rangeTo := 0, [], 0, 0, from, from - 1;
      nbytes, skipCount, skipBytes, expired, draining, cut := 0, 0, 0, false, false, false;
      hasHeld, held, out, drops, base := false, Entry(0, 0, false), [], 0, 0;
    }

    /** Hands on the open range up to `to`, which no undecided record reaches. */
    method HandOn(to: nat)
      requires Sane() && Emitted() && Counted() && rangeFrom <= to && EndsAtEntry(log, to)
      requires 0 <= Decided() && Filling(Decided())
      requires forall k :: Decided() <= k < |log| ==> log[k].lsn > to
      requires forall k :: base <= k < Decided() ==> log[k].lsn <= to
      modifies this`out, this`rangeFrom, this`base, this`records, this`nbytes, this`skipCount, this`skipBytes
      ensures Emitted() && Counted() && base == old(Decided())
      ensures rangeFrom == to + 1 && records == [] && nbytes == skipCount == skipBytes == 0
      ensures |out| == |old(out)| + 1 && old(out) <= out
      ensures out[|old(out)|] == Range(old(rangeFrom), to, old(id), old(records), |old(records)|, old(nbytes), old(skipCount), old(skipBytes))
    {
      hide Tiled, RangeOk, Skips, Reached, Increasing, Sizes, EndsAtEntry, NoneDropped, AllDropped;
      var r := Range(rangeFrom, to, id, records, |records|, nbytes, skipCount, skipBytes);
      Emit(log, out, start, r, base, base + |records|, Decided());
      base := Decided();
      out := out + [r];
      rangeFrom := to + 1;
      records, nbytes, skipCount, skipBytes := [], 0, 0, 0;
      EmptyInLimits();
    }

    lemma EmptyInLimits()
      requires flushBytes > 0
      ensures InLimits([])
    {
    }

    /** startBatch: opens a batch at the entry at p, first acknowledging the dropped
        records and gap in front of it. */
    method StartBatch(p: nat)
      requires Sane() && Emitted() && Counted() && records == []
      requires Filling(p) && p == Decided() < |log|
      modifies this`out, this`rangeFrom, this`base, this`records, this`nbytes, this`skipCount, this`skipBytes, this`id, this`wantLSN
      ensures Emitted() && Counted() && base == p && rangeFrom == id == wantLSN == log[p].lsn
      ensures records == [] && nbytes == skipCount == skipBytes == 0 && old(out) <= out && NoBatch(|old(out)|)
    {
      hide Tiled, Skips, Reached, Sizes, InLimits;
      var lsn := log[p].lsn;
      IncreasingAt(log, p);
      IncreasingAt(log, p + 1);
      assert lsn >= rangeFrom;
      if lsn > rangeFrom {
        assert log[p].lsn == (lsn - 1) + 1;
        HandOn(lsn - 1);
      } else {
        assert base == p;
        assert log[p..p] == [];
        SizesEmpty();
      }
      id, wantLSN := lsn, lsn;
    }

    lemma SizesEmpty()
      ensures Sizes([]) == 0 && AllDropped([]) && NoneDropped([])
    {
    }

    /** Appends the entry at p, the next in sequence, to the batch. */
    method Append(p: nat)
      requires Sane() && Emitted() && Counted() && !cut
      requires p == base + |records| < |log| && records == log[base..p] && nbytes == Sizes(records)
      requires skipCount == skipBytes == 0 && id == rangeFrom && wantLSN == id + |records| == log[p].lsn
      requires Consecutive(records, id) && NoneDropped(records) && !log[p].drop && |records| < flushRecords && nbytes < flushBytes
      modifies this`records, this`wantLSN, this`nbytes, this`rangeTo
      ensures Emitted() && Counted() && Filling(p + 1) && records == old(records) + [log[p]]
    {
      hide Tiled, Skips, Reached, Sizes, InLimits, Increasing, AllDropped, NoneDropped;
      AppendFacts(base, p);
      records := records + [log[p]];
      wantLSN := wantLSN + 1;
      nbytes := nbytes + log[p].size;
      rangeTo := log[p].lsn;
    }

    lemma AppendFacts(base: nat, p: nat)
      requires base <= p < |log| && p - base < flushRecords && Sizes(log[base..p]) < flushBytes
      ensures log[base..p + 1] == log[base..p] + [log[p]]
      ensures Sizes(log[base..p] + [log[p]]) == Sizes(log[base..p]) + log[p].size
      ensures InLimits(log[base..p] + [log[p]])
      ensures NoneDropped(log[base..p]) && !log[p].drop ==> NoneDropped(log[base..p] + [log[p]])
      ensures log[p + 1..p + 1] == [] && Sizes([]) == 0 && AllDropped([])
    {
      var s := log[base..p] + [log[p]];
      assert s[..|s| - 1] == log[base..p];
      SizesMore(log[base..p], log[p]);
    }

    /** A dropped record stays in the range, and so does its capacity. */
    method Skip(p: nat)
      requires Sane() && Emitted() && Counted() && !cut && Filling(p) && p < |log| && log[p].drop
      modifies this`drops, this`rangeTo, this`skipCount, this`skipBytes, this`cut
      ensures Emitted() && Counted() && Filling(p + 1) && cut == (records != []) && (cut ==> Breaks())
    {
      hide Tiled, Skips, Reached, InLimits, Increasing, Sizes, AllDropped, NoneDropped;
      SkipFacts(base + |records|, p);
      drops := drops + 1;
      rangeTo := log[p].lsn;
      skipCount := skipCount + 1;
      skipBytes := skipBytes + log[p].size;
      cut := |records| > 0;
    }

    lemma SkipFacts(m: nat, p: nat)
      requires m <= p < |log|
      ensures Sizes(log[m..p + 1]) == Sizes(log[m..p]) + log[p].size
      ensures AllDropped(log[m..p]) && log[p].drop ==> AllDropped(log[m..p + 1])
    {
      assert log[m..p + 1] == log[m..p] + [log[p]];
      SizesMore(log[m..p], log[p]);
    }

    /** The inner loop: reads until the batch is full or cut, or there is nothing to read.
        The record that stops the flusher stays where the reader found it. */
    method Fill(fetches: seq<Outcome>) returns (exit: Exit, ghost taken: nat)
      requires Valid() && !hasHeld
      modifies this
      ensures Valid() && old(out) <= out && expired == old(expired) && draining == old(draining) && NoBatch(|old(out)|)
      ensures taken <= |fetches| && pos == old(pos) + taken && forall k :: 0 <= k < taken ==> fetches[k].Taken?
      ensures exit.Failed? ==> taken < |fetches| && fetches[taken].ReadFails?
      ensures exit.Stopped? ==> taken < |fetches| && fetches[taken].Stop?
      ensures exit.Running? ==> cut || Full(records) || ReadAll(fetches, taken)
      ensures exit.Running? || exit.Failed? || exit.Stopped?
      ensures exit.Stopped? ==> pos < |log| && exit.lsn == log[pos].lsn && !hasHeld
      ensures hasHeld ==> cut
    {
      hide Tiled, Reached, Skips, Sizes, InLimits, Increasing, AllDropped, NoneDropped;
      var f := 0;
      taken := 0;
      while !cut && |records| < flushRecords && nbytes < flushBytes && f < |fetches|
        invariant Valid() && (hasHeld ==> cut) && old(out) <= out && NoBatch(|old(out)|)
        invariant expired == old(expired) && draining == old(draining)
        invariant f <= |fetches| && taken == f && pos == old(pos) + taken && forall k :: 0 <= k < taken ==> fetches[k].Taken?
        decreases |fetches| - f
      {
        var outcome := fetches[f];
        f := f + 1;
        if outcome.NoData? {
          break;
        }
        if outcome.ReadFails? {
          return Failed, taken;
        }
        if pos == |log| {
          break;
        }
        if outcome.Stop? {
          return Stopped(log[pos].lsn), taken;
        }
        Accept();
        taken := f;
      }
      assert nbytes == Sizes(records);
      return Running, taken;
    }

    /** The record read is left out, added to the batch, or held for the next one. */
    method Accept()
      requires Valid() && !hasHeld && !cut && pos < |log| && |records| < flushRecords && nbytes < flushBytes
      modifies this
      ensures Valid() && old(out) <= out && pos == old(pos) + 1 && NoBatch(|old(out)|)
      ensures expired == old(expired) && draining == old(draining)
      ensures hasHeld ==> cut
    {
      hide Emitted, Counted, Filling, Increasing, Breaks;
      if log[pos].drop {
        Skip(pos);
        pos := pos + 1;
      } else {
        Place();
      }
    }

    /** The reader has given all it has. */
    ghost predicate ReadAll(fetches: seq<Outcome>, taken: nat)
      reads this`pos
    {
      taken >= |fetches| || fetches[taken].NoData? || pos == |log|
    }

    /** A record read across a discontinuity belongs to the next batch. */
    method Hold()
      requires Valid() && !hasHeld && !cut && records != [] && pos < |log| && !log[pos].drop && log[pos].lsn != wantLSN
      modifies this`held, this`hasHeld, this`cut, this`pos
      ensures Valid() && hasHeld && cut && pos == old(pos) + 1
    {
      hide Emitted, Counted, Increasing, Sizes, AllDropped, NoneDropped;
      held, hasHeld, cut := log[pos], true, true;
      pos := pos + 1;
    }

    /** A deliverable record extends the batch, or is held for the next one. */
    method Place()
      requires Valid() && !hasHeld && !cut && pos < |log| && !log[pos].drop
      requires |records| < flushRecords && nbytes < flushBytes
      modifies this
      ensures Valid() && old(out) <= out && pos == old(pos) + 1 && NoBatch(|old(out)|)
      ensures expired == old(expired) && draining == old(draining)
      ensures hasHeld ==> cut
    {
      hide Emitted, Counted, Filling, Increasing;
      if |records| == 0 {
        BeginWith(pos);
        pos := pos + 1;
      } else if log[pos].lsn != wantLSN {
        Hold();
      } else {
        Extend();
        pos := pos + 1;
      }
    }

    /** The next record in sequence extends the batch. */
    method Extend()
      requires Sane() && Emitted() && Counted() && !cut && records != [] && Filling(pos)
      requires pos < |log| && !log[pos].drop && log[pos].lsn == wantLSN
      requires |records| < flushRecords && nbytes < flushBytes
      modifies this`records, this`wantLSN, this`nbytes, this`rangeTo
      ensures Emitted() && Counted() && Filling(pos + 1) && records != []
    {
      hide Tiled, Reached, Skips, Sizes, InLimits, Increasing, AllDropped, NoneDropped;
      assert log[pos..pos] == [];
      SizesEmpty();
      Append(pos);
    }

    /** The entry at p starts a batch. */
    method BeginWith(p: nat)
      requires Sane() && Emitted() && Counted() && records == [] && !cut
      requires Filling(p) && p == Decided() < |log| && !log[p].drop
      modifies this`out, this`rangeFrom, this`rangeTo, this`base, this`records, this`nbytes, this`skipCount, this`skipBytes, this`id, this`wantLSN
      ensures Emitted() && Counted() && Filling(p + 1) && records != [] && old(out) <= out && NoBatch(|old(out)|)
    {
      hide Tiled, Reached, Skips, Sizes, InLimits, Increasing, AllDropped, NoneDropped;
      StartBatch(p);
      assert log[p..p] == [];
      SizesEmpty();
      Append(p);
    }

    /** A record held over a discontinuity starts the next batch. */
    method PlaceHeld()
      requires Valid() && hasHeld && records == []
      modifies this
      ensures Valid() && old(out) <= out && !hasHeld && records != [] && NoBatch(|old(out)|) && pos == old(pos)
      ensures expired == old(expired) && draining == old(draining)
    {
      hide Tiled, Reached, Skips, Sizes, InLimits, Increasing, AllDropped, NoneDropped;
      BeginWith(pos - 1);
      hasHeld := false;
    }

    /** Hands on everything decided so far. */
    method HandOnDecided()
      requires Valid() && rangeTo >= rangeFrom && (hasHeld ==> records != [])
      modifies this
      ensures Valid() && old(out) <= out && |out| == |old(out)| + 1
      ensures records == [] && nbytes == 0 && !cut && base == Decided() && rangeFrom == rangeTo + 1
      ensures pos == old(pos) && hasHeld == old(hasHeld) && draining == old(draining) && expired == old(expired)
      ensures out[|old(out)|].batch == old(records)
    {
      hide Tiled, Reached, Skips, Sizes, InLimits, AllDropped, NoneDropped;
      IncreasingAt(log, Decided());
      hide Increasing;
      assert log[Decided() - 1].lsn == rangeTo;
      HandOn(rangeTo);
      cut := false;
      assert log[base..base] == [];
      SizesEmpty();
    }

    /** The open range is non-empty exactly when something in it was decided. */
    lemma RangeOpen()
      requires Valid()
      ensures rangeTo >= rangeFrom <==> Decided() > base
      ensures records != [] ==> Decided() > base
      ensures records == [] ==> nbytes == 0 && !cut
      ensures base <= Decided() && flushRecords > 0 && flushBytes > 0
    {
    }

    /** Why a batch may be handed on. */
    ghost predicate Due(batch: seq<Entry>, hurried: bool)
    {
      hurried || Full(batch) || Interrupted(batch)
    }

    /** The open batch, when it is full or cut. */
    lemma OpenDue(hurried: bool)
      requires Valid() && records != [] && (hurried || Full(records) || cut)
      ensures Due(records, hurried)
    {
      hide Tiled, Skips, Reached, Sizes, InLimits, AllDropped, NoneDropped;
      if cut {
        var m := base + |records|;
        assert log[m - |records|..m] == records;
        assert log[m - 1] == records[|records| - 1];
      }
    }

    /** One turn of the outer loop. No batch that is full, cut or due is left waiting, none is
        handed on for any other reason, and one turn hands on at most one. `taken` records
        are read: all there are, unless a batch is filled or cut, or an error or a stop ends
        the flusher. A flusher ends as drained only while draining, with nothing left, and
        while draining it does not wait. Only a turn that hands on nothing waits for an
        event. */
    method Step(t: Turn) returns (exit: Exit, ghost taken: nat)
      requires Valid() && (hasHeld ==> records == [])
      modifies this
      ensures Valid() && old(out) <= out
      ensures exit.Running? ==> (hasHeld ==> records == [])
      ensures exit.Running? ==> !cut && |records| < flushRecords && nbytes < flushBytes
      ensures exit.Running? && (old(expired) || old(draining) || t.force) ==> records == []
      ensures NoBatch(|old(out)|) || (out[|out| - 1].batch != [] && forall i :: |old(out)| <= i < |out| - 1 ==> out[i].batch == [])
      ensures forall i :: |old(out)| <= i < |out| && out[i].batch != [] ==>
                t.admitted && Due(out[i].batch, old(expired) || t.force || old(draining) || exit.Stopped?)
      ensures taken <= |t.fetches| && pos == old(pos) + taken && forall k :: 0 <= k < taken ==> t.fetches[k].Taken?
      ensures exit.Failed? ==> t.failed || (taken < |t.fetches| && t.fetches[taken].ReadFails?)
      ensures t.failed ==> exit.Failed? && out == old(out)
      ensures exit.Stopped? ==> taken < |t.fetches| && t.fetches[taken].Stop? && pos < |log| && exit.lsn == log[pos].lsn && !hasHeld
      ensures exit.Stopped? && t.admitted ==> base == pos
      ensures exit.Aborted? ==> !t.admitted || t.event.Abort?
      ensures exit.Drained? ==> old(draining) && base == pos && ReadAll(t.fetches, taken)
      ensures exit.Running? && NoBatch(|old(out)|) ==> ReadAll(t.fetches, taken)
      ensures exit.Running? && old(draining) ==> |out| > |old(out)|
      ensures exit.Running? && out == old(out) ==>
                && !t.event.Abort? && (draining <==> old(draining) || t.event.Drain?)
                && (expired <==> old(expired) || t.force || t.event.Tick?)
      ensures (draining ==> old(draining) || t.event.Drain?) && (old(draining) ==> draining)
      ensures expired ==> old(expired) || t.force || t.event.Tick?
    {
      hide Valid, Due, Full, Breaks;
      exit, taken := Collect(t);
      if exit.Failed? {
        return;
      }
      ghost var collected := out;
      ghost var batch := records;
      ghost var hurried := old(expired) || t.force || old(draining) || exit.Stopped?;
      if batch != [] && (hurried || Full(batch) || cut) {
        OpenDue(hurried);
      }
      if exit.Stopped? {
        HandOnStopped(t);
        return;
      }
      FullOpen();
      exit := Conclude(t);
    }

    /** The first part of a turn: nothing if the buffer has failed, otherwise the held record
        starts a batch and the reading loop goes on. */
    method Collect(t: Turn) returns (exit: Exit, ghost taken: nat)
      requires Valid() && (hasHeld ==> records == [])
      modifies this
      ensures Valid() && old(out) <= out && NoBatch(|old(out)|) && expired == old(expired) && draining == old(draining)
      ensures exit.Running? || exit.Failed? || exit.Stopped?
      ensures taken <= |t.fetches| && pos == old(pos) + taken && forall k :: 0 <= k < taken ==> t.fetches[k].Taken?
      ensures exit.Failed? ==> t.failed || (taken < |t.fetches| && t.fetches[taken].ReadFails?)
      ensures t.failed ==> exit.Failed? && out == old(out)
      ensures exit.Stopped? ==> taken < |t.fetches| && t.fetches[taken].Stop? && pos < |log| && exit.lsn == log[pos].lsn && !hasHeld
      ensures exit.Running? ==> cut || Full(records) || ReadAll(t.fetches, taken)
      ensures hasHeld ==> cut || exit.Failed?
    {
      hide Emitted, Counted, Filling, Increasing, Breaks, Full;
      if t.failed {
        return Failed, 0;
      }
      if hasHeld && |records| == 0 {
        PlaceHeld();
      }
      exit, taken := Fill(t.fetches);
    }

    /** A flusher that stops hands on what was decided in front of the record it stops at. */
    method HandOnStopped(t: Turn)
      requires Valid() && !hasHeld
      modifies this
      ensures Valid() && old(out) <= out && |out| <= |old(out)| + 1 && !hasHeld
      ensures |out| > |old(out)| ==> out[|old(out)|].batch == old(records) && (old(records) != [] ==> t.admitted)
      ensures t.admitted ==> base == pos
      ensures pos == old(pos) && expired == old(expired) && draining == old(draining)
    {
      hide Valid;
      RangeOpen();
      if |records| > 0 {
        if t.admitted {
          HandOnDecided();
        }
      } else if rangeTo >= rangeFrom {
        HandOnDecided();
      }
    }

    /** The last part of a turn: hand on what is due, end, or wait. */
    method Conclude(t: Turn) returns (exit: Exit)
      requires Valid() && (hasHeld ==> cut)
      modifies this
      ensures Valid() && old(out) <= out && |out| <= |old(out)| + 1 && pos == old(pos)
      ensures exit.Running? || exit.Aborted? || exit.Drained?
      ensures |out| > |old(out)| ==> exit.Running? && out[|old(out)|].batch == old(records)
      ensures |out| > |old(out)| && old(records) != [] ==>
                t.admitted && (old(expired) || t.force || old(draining) || old(IsFull()) || old(cut))
      ensures exit.Running? ==> (hasHeld ==> records == []) && !cut && !IsFull()
      ensures exit.Running? && (old(expired) || old(draining) || t.force) ==> records == []
      ensures exit.Running? && (out == old(out) || old(records) == []) ==> !old(cut) && !old(IsFull())
      ensures exit.Aborted? ==> !t.admitted || t.event.Abort?
      ensures exit.Drained? ==> old(draining) && base == pos && !old(cut) && !old(IsFull())
      ensures exit.Running? && old(draining) ==> |out| > |old(out)|
      ensures exit.Running? && out == old(out) ==>
                && !t.event.Abort? && (draining <==> old(draining) || t.event.Drain?)
                && (expired <==> old(expired) || t.force || t.event.Tick?)
      ensures (draining ==> old(draining) || t.event.Drain?) && (old(draining) ==> draining)
      ensures expired ==> old(expired) || t.force || t.event.Tick?
    {
      hide Valid, NoBatch;
      RangeOpen();
      if t.force {
        expired := true;
      }
      var full := |records| >= flushRecords || nbytes >= flushBytes;
      if |records| > 0 && (full || expired || draining || cut) {
        if !t.admitted {
          return Aborted;
        }
        HandOnDecided();
        expired := false;
        return Running;
      }
      if |records| == 0 && rangeTo >= rangeFrom {
        HandOnDecided();
        return Running;
      }
      if draining && |records| == 0 {
        return Drained;
      }
      exit := Await(t.event);
    }

    /** The final select. */
    method Await(event: Event) returns (exit: Exit)
      requires Valid()
      modifies this`expired, this`draining
      ensures Valid() && exit == (if event.Abort? then Aborted else Running)
      ensures expired == (old(expired) || event.Tick?) && draining == (old(draining) || event.Drain?)
    {
      hide Valid;
      exit := Running;
      match event {
        case Wake =>
        case Tick => expired := true;
        case Drain => draining := true;
        case Abort => exit := Aborted;
      }
    }

    ghost predicate IsFull()
      reads this`records, this`nbytes
    {
      |records| >= flushRecords || nbytes >= flushBytes
    }

    /** flusher, for as many turns as the script has. Whatever happens, the ranges handed
        on are consecutive from the start and account for what the log holds in them
        (Valid); the record that stopped it, and all behind it, are in none of them; a
        drained flusher was told to drain in an earlier turn and has handed on everything it
        read. */
    method Run(script: seq<Turn>) returns (exit: Exit, ghost turns: nat)
      requires Valid() && out == [] && !hasHeld
      modifies this
      ensures Valid() && Tiled(log, out, start)
      ensures forall i :: 0 <= i < |out| ==> RangeOk(log, out[i]) && InLimits(out[i].batch)
      ensures turns <= |script| && (turns < |script| ==> !exit.Running?)
      ensures exit.Stopped? ==> exists k :: 0 <= k < |log| && log[k].lsn == exit.lsn >= Reached(out, start)
      ensures exit.Drained? ==> !hasHeld && forall k :: 0 <= k < pos ==> log[k].lsn < Reached(out, start)
      ensures exit.Drained? ==> old(draining) || Drains(script, turns - 1)
      ensures drops == Skips(out) + skipCount
    {
      hide Tiled, Reached, Skips, Sizes, InLimits, Increasing, AllDropped, NoneDropped;
      turns := 0;
      var i := 0;
      exit := Running;
      while i < |script| && exit.Running?
        invariant i <= |script| && turns == i
        invariant Valid() && (exit.Running? ==> (hasHeld ==> records == []))
        invariant exit.Stopped? ==> pos < |log| && exit.lsn == log[pos].lsn && !hasHeld
        invariant exit.Drained? ==> base == pos && turns > 0 && (old(draining) || Drains(script, turns - 1))
        invariant exit.Running? && draining ==> old(draining) || Drains(script, turns)
        decreases |script| - i
      {
        ghost var taken;
        exit, taken := Step(script[i]);
        i := i + 1;
        turns := i;
      }
      forall i | 0 <= i < |out| ensures RangeOk(log, out[i]) {
        TilesDisjoint(log, out, start, i, i);
      }
    }

    /** One of the first n turns was told to drain. */
    ghost predicate Drains(script: seq<Turn>, n: int)
    {
      exists k :: 0 <= k < n && k < |script| && script[k].event.Drain?
    }

    lemma FullOpen()
      requires Valid()
      ensures Full(records) <==> IsFull()
      ensures flushRecords > 0 && flushBytes > 0
    {
      hide Sizes;
    }
  }
}
