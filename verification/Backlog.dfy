/** countBacklog (batch.go): what Open takes the inherited backlog to be. A reader walks the
    recovered log from behind the mark until it has no more data, and what it returned is
    counted. That is the whole backlog exactly when no empty segment's gap lies in its way. */
module Backlog {
  import opened RecordFormat
  import opened SegmentScan
  import opened Wal
  import opened WalRuns
  import opened WalExample
  import opened LogReader
  import opened WalSnapshot
  import WalStall
  import Capacity
  import Sizing
  import Pipeline
  import PipelineFrame
  import PipelineContent

  // ---- the backlog -----------------------------------------------------------------

  /** The record visible under n, if there is one. */
  ghost function RecordAt(e: Snap, n: nat): Option<Record> {
    if exists r :: Shows(e, n, r) then
      var r :| Shows(e, n, r);
      Some(r)
    else None
  }

  /** The visible records numbered from `from` up to but not including `to`, in order. */
  ghost function Listing(e: Snap, from: nat, to: nat): seq<Record> {
    if to <= from then []
    else Listing(e, from, to - 1) + (if RecordAt(e, to - 1).Some? then [RecordAt(e, to - 1).value] else [])
  }

  function PayloadSizes(recs: seq<Record>): (b: Sizing.Batch)
    ensures |b| == |recs| && forall i :: 0 <= i < |b| ==> b[i] == |recs[i].payload|
  {
    seq(|recs|, i requires 0 <= i < |recs| => |recs[i].payload|)
  }

  /** Payload bytes. */
  function Total(recs: seq<Record>): nat {
    Sizing.Sizes(PayloadSizes(recs))
  }

  /** A number has one record. */
  lemma ShowsOne(max: nat, e: Snap, n: nat, r: Record)
    requires SnapOk(max, e) && Shows(e, n, r)
    ensures RecordAt(e, n) == Some(r)
  {
    hide Chained;
    var q := RecordAt(e, n).value;
    assert Shows(e, n, q);
    var i :| 0 <= i < |e.views| && Has(e.views[i], n) && e.views[i].recs[n - e.views[i].base] == r;
    var j :| 0 <= j < |e.views| && Has(e.views[j], n) && e.views[j].recs[n - e.views[j].base] == q;
    Separate(max, e, i, j, n);
  }

  /** Listings continue each other. */
  lemma {:induction false} ListingSplit(e: Snap, from: nat, mid: nat, to: nat)
    requires from <= mid <= to
    ensures Listing(e, from, to) == Listing(e, from, mid) + Listing(e, mid, to)
  {
    hide RecordAt;
    if mid < to {
      ListingSplit(e, from, mid, to - 1);
    }
  }

  lemma {:induction false} ListingNone(e: Snap, from: nat, to: nat)
    requires forall n: nat, r :: from <= n < to ==> !Shows(e, n, r)
    ensures Listing(e, from, to) == []
  {
    if from < to {
      ListingNone(e, from, to - 1);
    }
  }

  /** One more record, with nothing visible in front of it. */
  lemma ListingNext(max: nat, e: Snap, from: nat, n: nat, lsn: nat, r: Record)
    requires SnapOk(max, e) && from <= n && Gives(e, n, lsn, r)
    ensures n <= lsn && Listing(e, from, lsn + 1) == Listing(e, from, n) + [r]
  {
    hide Chained, Gives, Shows, RecordAt;
    YieldsNext(max, e, n, lsn, r, n, r);
    GivesShows(e, n, lsn, r);
    ShowsOne(max, e, lsn, r);
    ListingSplit(e, from, n, lsn);
    forall m: nat, q | n <= m < lsn ensures !Shows(e, m, q) {
      YieldsNext(max, e, n, lsn, r, m, q);
    }
    ListingNone(e, n, lsn);
  }

  lemma GivesShows(e: Snap, n: nat, lsn: nat, r: Record)
    requires Gives(e, n, lsn, r)
    ensures Shows(e, lsn, r)
  {
  }

  // ---- counting it ------------------------------------------------------------------

  /** Where a reader that starts at `first` ends: behind the durable mark or at the first
      number in an empty segment's gap, whichever comes first. */
  ghost predicate StopsAt(e: Snap, first: nat, stop: nat) {
    && first <= stop && (stop > e.durable || InEmptyGap(e.views, stop))
    && (forall m :: first <= m < stop ==> !InEmptyGap(e.views, m))
    && (stop == first || stop <= e.durable + 1)
  }

  /** NewReader starts at the head if it is asked for a number in the head's gap. */
  function StartAt(e: Snap, from: nat): nat
    requires e.views != []
  {
    if from < e.views[0].base then e.views[0].base else from
  }

  /** The numbers counted so far stand for the records visible from `from` to `at`. */
  ghost predicate Counted(e: Snap, from: nat, at: nat, records: nat, bytes: nat, last: nat) {
    && records == |Listing(e, from, at)| && bytes == Total(Listing(e, from, at))
    && (records > 0 ==> from <= last < at && RecordAt(e, last) == Some(Listing(e, from, at)[records - 1]))
  }

  /** countBacklog. With nothing left at `from` there is nothing to count. Otherwise it
      counts exactly the records visible from `from` to where the reader stops, and `last`
      is the number of the last of them. */
  method CountBacklog(crc: Checksum, max: nat, e: Snap, from: nat) returns (records: nat, bytes: nat, last: nat, ghost stop: nat)
    requires SnapOk(max, e) && max <= MAX_RECORD_LIMIT
    ensures 0 < from <= Head(e) ==> records == bytes == 0
    ensures !(0 < from <= Head(e)) ==> StopsAt(e, StartAt(e, from), stop) && Counted(e, from, stop, records, bytes, last)
  {
    hide Chained, Counted, StopsAt, InEmptyGap, Later, ReadExactly, Gives, HoldsRecord, Walked;
    records, bytes, last, stop := 0, 0, 0, 0;
    var r := Reader.NewReader(crc, max, e, from);
    if r == null {
      return;
    }
    stop := r.nextLSN;
    StartsNowhere(max, e, from);
    LaterRefl(max, e);
    AboveHead(max, e, 0);
    while true
      invariant r.Valid() && r.max == max && r.env == e && r.nextLSN == stop && fresh(r) && stop >= e.views[0].base
      invariant Walked(max, e, from, stop) && Counted(e, from, stop, records, bytes, last)
      decreases e.durable + 1 - stop
    {
      var g := r.Next(e);
      if !g.Entry? {
        WalkEnds(max, e, from, stop);
        return;
      }
      ghost var rec :| Gives(e, stop, g.lsn, rec) && rec.payload == g.payload;
      WalkOn(max, e, from, stop, g.lsn, rec);
      CountOn(max, e, from, stop, records, bytes, last, g.lsn, rec);
      last := g.lsn;
      records := records + 1;
      bytes := bytes + |g.payload|;
      stop := g.lsn + 1;
    }
  }

  lemma CountOn(max: nat, e: Snap, from: nat, at: nat, records: nat, bytes: nat, last: nat, lsn: nat, r: Record)
    requires SnapOk(max, e) && from <= at && Counted(e, from, at, records, bytes, last) && Gives(e, at, lsn, r)
    ensures Counted(e, from, lsn + 1, records + 1, bytes + |r.payload|, lsn)
  {
    hide Chained, Listing, RecordAt, Gives, Shows, Total;
    ListingNext(max, e, from, at, lsn, r);
    GivesShows(e, at, lsn, r);
    ShowsOne(max, e, lsn, r);
    TotalMore(Listing(e, from, at), r);
  }

  /** The reader has come from `from` to `at` without standing in an empty segment's gap. */
  ghost predicate Walked(max: nat, e: Snap, from: nat, at: nat) {
    && e.views != [] && from <= StartAt(e, from) <= at
    && (forall m :: StartAt(e, from) <= m < at ==> !InEmptyGap(e.views, m))
    && (at == StartAt(e, from) || at <= e.durable + 1)
  }

  lemma StartsNowhere(max: nat, e: Snap, from: nat)
    requires SnapOk(max, e)
    ensures Walked(max, e, from, StartAt(e, from)) && Listing(e, from, StartAt(e, from)) == []
    ensures Counted(e, from, StartAt(e, from), 0, 0, 0)
  {
    hide Chained, Shows, InEmptyGap;
    forall m: nat, q | from <= m < StartAt(e, from) ensures !Shows(e, m, q) {
      HeadGapEmpty(max, e, m, q);
    }
    ListingNone(e, from, StartAt(e, from));
  }

  lemma WalkEnds(max: nat, e: Snap, from: nat, at: nat)
    requires Walked(max, e, from, at) && (at > e.durable || InEmptyGap(e.views, at))
    ensures StopsAt(e, StartAt(e, from), at)
  {
  }

  /** A reader steps over gaps of segments that have records, and no others. */
  lemma WalkOn(max: nat, e: Snap, from: nat, n: nat, lsn: nat, r: Record)
    requires SnapOk(max, e) && Walked(max, e, from, n) && Gives(e, n, lsn, r)
    ensures from <= n <= lsn <= e.durable && Walked(max, e, from, lsn + 1)
  {
    hide Chained, InEmptyGap, Gives, Shows;
    YieldsNext(max, e, n, lsn, r, n, r);
    forall m | n <= m < lsn + 1 ensures !InEmptyGap(e.views, m) {
      NotEmptyGap(max, e, n, lsn, r, m);
    }
  }

  lemma NotEmptyGap(max: nat, e: Snap, n: nat, lsn: nat, r: Record, m: nat)
    requires SnapOk(max, e) && Gives(e, n, lsn, r) && n <= m <= lsn
    ensures !InEmptyGap(e.views, m)
  {
    hide Chained;
    var k :| 0 <= k < |e.views| && Has(e.views[k], lsn);
    if m == lsn {
      HoldingNoGap(max, e, k, lsn);
    } else if InEmptyGap(e.views, m) {
      var i :| 0 <= i < |e.views| && GapBefore(e.views[i], n) && e.views[i].base == lsn;
      var j :| 0 <= j < |e.views| && GapBefore(e.views[j], m) && e.views[j].recs == [];
      Separate(max, e, i, j, m);
      OneBase(max, e, i, k, lsn);
    }
  }

  /** A segment that starts at a record of another one is that one. */
  lemma OneBase(max: nat, e: Snap, i: nat, k: nat, lsn: nat)
    requires SnapOk(max, e) && i < |e.views| && k < |e.views| && e.views[i].base == lsn && Has(e.views[k], lsn)
    ensures i == k
  {
    hide Chained;
    if i < k {
      ViewsOrdered(max, e, i, k);
    } else if k < i {
      ViewsOrdered(max, e, k, i);
    }
  }

  lemma TotalMore(recs: seq<Record>, r: Record)
    ensures Total(recs + [r]) == Total(recs) + |r.payload|
  {
    assert PayloadSizes(recs + [r]) == PayloadSizes(recs) + [|r.payload|];
    Sizing.SizesConcat(PayloadSizes(recs), [|r.payload|]);
    Sizing.SizesOne(|r.payload|);
  }

  // ---- how much of it is counted -------------------------------------------------------

  /** What is counted is a front part of the backlog, and all of it if and only if no empty
      segment's gap lies between where the reader starts and the durable mark. */
  lemma CountedAllIffNoGap(max: nat, e: Snap, from: nat, stop: nat)
    requires SnapOk(max, e) && from > Head(e) && StopsAt(e, StartAt(e, from), stop)
    ensures Listing(e, from, stop) <= Listing(e, from, e.durable + 1)
    ensures |Listing(e, from, stop)| == |Listing(e, from, e.durable + 1)| <==>
            forall m :: StartAt(e, from) <= m <= e.durable ==> !InEmptyGap(e.views, m)
  {
    hide Chained, InEmptyGap, RecordAt, Listing;
    if stop <= e.durable {
      ListingSplit(e, from, stop, e.durable + 1);
      DurableListed(max, e, stop);
    } else {
      AllListed(max, e, from, stop);
    }
  }

  lemma DurableListed(max: nat, e: Snap, from: nat)
    requires SnapOk(max, e) && Head(e) < from <= e.durable
    ensures Listing(e, from, e.durable + 1) != []
  {
    hide Listing, RecordAt;
    var i :| 0 <= i < |e.views| && Has(e.views[i], e.durable);
    var r := e.views[i].recs[e.durable - e.views[i].base];
    assert Shows(e, e.durable, r);
    ShowsOne(max, e, e.durable, r);
    ListingEnds(e, from, e.durable, r);
  }

  lemma ListingEnds(e: Snap, from: nat, n: nat, r: Record)
    requires from <= n && RecordAt(e, n) == Some(r)
    ensures Listing(e, from, n + 1) == Listing(e, from, n) + [r]
  {
    hide RecordAt;
  }

  lemma AllListed(max: nat, e: Snap, from: nat, stop: nat)
    requires SnapOk(max, e) && StopsAt(e, StartAt(e, from), stop) && stop > e.durable
    ensures Listing(e, from, stop) == Listing(e, from, e.durable + 1)
  {
    hide Chained, InEmptyGap, RecordAt;
    if stop != e.durable + 1 {
      StartsNowhere(max, e, from);
      if from <= e.durable {
        ListingSplit(e, from, e.durable + 1, stop);
      }
    }
  }

  /** What countBacklog stores is how the admission counters start: over the whole backlog
      as what was inherited, with as many of its leading records counted. */
  lemma CountersAtOpen(max: nat, e: Snap, from: nat, stop: nat, records: nat, bytes: nat, last: nat, maxRecords: nat, maxBytes: nat)
    requires SnapOk(max, e) && from > Head(e) && StopsAt(e, StartAt(e, from), stop) && Counted(e, from, stop, records, bytes, last)
    ensures var cfg := Capacity.Config(maxRecords, maxBytes, PayloadSizes(Listing(e, from, e.durable + 1)), records);
            && Capacity.ValidConfig(cfg)
            && Capacity.Initial(cfg).records == records && Capacity.Initial(cfg).bytes == bytes
            && (cfg.counted == |cfg.inherited| <==> forall m :: StartAt(e, from) <= m <= e.durable ==> !InEmptyGap(e.views, m))
  {
    hide Chained, InEmptyGap, Listing, RecordAt, StopsAt, Sizing.Sizes;
    CountedAllIffNoGap(max, e, from, stop);
    var front, all := Listing(e, from, stop), Listing(e, from, e.durable + 1);
    assert PayloadSizes(all)[..|front|] == PayloadSizes(front);
  }

  /** In every life, at every moment, what Open would count from is above everything deleted,
      and the listing is what is visible: with CountBacklog and CountedAllIffNoGap this says
      how the counters compare with the backlog of the running log. */
  lemma BacklogVisible(cfg: Config, xs: seq<Pipeline.Sys>, acts: seq<Pipeline.Act>, i: nat, n: nat, r: Record)
    requires ValidConfig(cfg) && Pipeline.IsLife(cfg, xs, acts) && i < |xs| && xs[i].buf.Some?
    ensures var s := xs[i].wal;
            && HasActive(s) && SnapOk(cfg.maxRecord, SnapOf(s)) && Head(SnapOf(s)) < xs[i].buf.value.mark + 1
            && (RecordAt(SnapOf(s), n) == Some(r) <==> Visible(s, n, r))
  {
    hide Pipeline.IsLife, Chained, ViewsOf, Visible, HoldsRecord, Good, PipelineFrame.Framed;
    PipelineFrame.ReaderAboveHead(cfg, xs, acts, i);
    PipelineFrame.LifeFramed(cfg, xs, acts, i);
    PipelineContent.FramedGood(cfg, xs[i]);
    SnapshotVisible(cfg, xs[i].wal, n, r);
    if Shows(SnapOf(xs[i].wal), n, r) {
      ShowsOne(cfg.maxRecord, SnapOf(xs[i].wal), n, r);
    }
  }

  // ---- an undercount without any damage --------------------------------------------------

  const Recs := [View(1, 0, [Rec(7, 0)]), View(B + 1, 1, []), View(2 * B + 1, B, [Rec(7, 3)]), View(3 * B + 1, 2 * B + 1, [])]
  const Stalled := Snap(Recs, 2 * B + 1)

  /** The fourth process opens what the three left. */
  lemma FourthOpens(s: State) returns (s1: State)
    requires s.mem.None? && s.disk == Disk([WalStall.First, WalStall.Second] + [Full(2 * B + 1, B, 7, 3, 9)], 3 * B)
    ensures Goes(Cfg, s, Recover, s1) && OpenedByFourth(s1)
  {
    hide Frames, Frame, ScanBytes, Contents, LastRecord;
    OneFrame(7, 3);
    Scans(7, 3);
    var f := Full(2 * B + 1, B, 7, 3, 9);
    assert f.bytes[..9] == f.bytes && f.written[..1] == f.written;
    assert Wal.Truncated(f, 9, 1) == f;
    s1 := Apply(Cfg, s, Recover);
    assert s1.disk.files == [WalStall.First, WalStall.Second, f, Blank(3 * B + 1, 2 * B + 1)];
    var segs := s1.mem.value.segs;
    assert segs == [Seg(1, 0, 9, 1), Seg(B + 1, 1, 0, 0), Seg(2 * B + 1, B, 9, 1), Seg(3 * B + 1, 2 * B + 1, 0, 0)];
    LastIsThird(segs);
  }

  ghost predicate OpenedByFourth(s: State) {
    && s.disk.files == [WalStall.First, WalStall.Second, Full(2 * B + 1, B, 7, 3, 9), Blank(3 * B + 1, 2 * B + 1)]
    && s.mem.Some? && s.mem.value.removed == 0 && s.mem.value.durable == 2 * B + 1
    && s.mem.value.segs == [Seg(1, 0, 9, 1), Seg(B + 1, 1, 0, 0), Seg(2 * B + 1, B, 9, 1), Seg(3 * B + 1, 2 * B + 1, 0, 0)]
  }

  lemma SnapStalled(s: State)
    requires OpenedByFourth(s)
    ensures HasActive(s) && SnapOf(s) == Stalled
  {
    hide Frame;
    var views := ViewsOf(s);
    var f := Full(2 * B + 1, B, 7, 3, 9);
    assert Alive(s.mem.value) == s.mem.value.segs;
    assert views[0] == ViewOf(Seg(1, 0, 9, 1), WalStall.First) && WalStall.First.written[..1] == [Rec(7, 0)];
    assert views[1] == Recs[1];
    assert views[2] == ViewOf(Seg(2 * B + 1, B, 9, 1), f) && f.written[..1] == [Rec(7, 3)];
    assert views[3] == Recs[3];
    assert views == Recs;
  }

  lemma LastIsThird(segs: seq<Seg>)
    requires segs == [Seg(1, 0, 9, 1), Seg(B + 1, 1, 0, 0), Seg(2 * B + 1, B, 9, 1), Seg(3 * B + 1, 2 * B + 1, 0, 0)]
    ensures LastRecord(segs) == 2 * B + 1
  {
    assert segs[..3][2] == Seg(2 * B + 1, B, 9, 1);
  }

  lemma OnlyTwo(n: nat, r: Record)
    ensures Shows(Stalled, n, r) <==> (n == 1 && r == Rec(7, 0)) || (n == 2 * B + 1 && r == Rec(7, 3))
  {
    assert Has(Recs[0], 1) && Has(Recs[2], 2 * B + 1);
  }

  lemma TwoListed()
    requires SnapOk(Cfg.maxRecord, Stalled)
    ensures Listing(Stalled, 1, 2) == [Rec(7, 0)] && Listing(Stalled, 1, 2 * B + 2) == [Rec(7, 0), Rec(7, 3)]
  {
    hide Chained, RecordAt, Listing, Shows;
    OnlyTwo(1, Rec(7, 0));
    OnlyTwo(2 * B + 1, Rec(7, 3));
    ShowsOne(Cfg.maxRecord, Stalled, 1, Rec(7, 0));
    ShowsOne(Cfg.maxRecord, Stalled, 2 * B + 1, Rec(7, 3));
    forall n: nat, r | 2 <= n < 2 * B + 1 ensures !Shows(Stalled, n, r) {
      OnlyTwo(n, r);
    }
    ListingNone(Stalled, 2, 2 * B + 1);
    ListingNone(Stalled, 1, 1);
    ListingEnds(Stalled, 1, 1, Rec(7, 0));
    ListingSplit(Stalled, 1, 2, 2 * B + 1);
    ListingEnds(Stalled, 1, 2 * B + 1, Rec(7, 3));
  }

  lemma StopsAtTwo(stop: nat)
    requires StopsAt(Stalled, 1, stop)
    ensures stop == 2
  {
    assert GapBefore(Recs[1], 2) && Recs[1].recs == [];
    assert InEmptyGap(Recs, 2);
    assert !InEmptyGap(Recs, 1);
  }

  /** A reachable log, undamaged, with two records above a mark of 0 of which countBacklog
      counts one: three processes have crashed, the second between staging and committing. */
  lemma UndercountReachable() returns (states: seq<State>, steps: seq<Step>)
    ensures ValidConfig(Cfg) && |states| > 0 && IsRun(Cfg, states, steps) && states[0] == Fresh
    ensures var s := states[|states| - 1];
            && HasActive(s) && SnapOk(Cfg.maxRecord, SnapOf(s)) && StartAt(SnapOf(s), 1) == 1
            && (forall stop :: StopsAt(SnapOf(s), 1, stop) ==> |Listing(SnapOf(s), 1, stop)| == 1)
            && |Listing(SnapOf(s), 1, SnapOf(s).durable + 1)| == 2
  {
    hide Goes, Enabled, Apply, StopsAt, Listing, Chained, OpenedByFourth;
    var ss, ts := WalStall.ThreeProcesses();
    var s := ss[|ss| - 1];
    Crashes(s);
    var s1 := FourthOpens(s.(mem := None));
    states, steps := ss + [s.(mem := None), s1], ts + [ProcessCrash, Recover];
    SnapStalled(s1);
    RunSnapshot(Cfg, states, steps, |states| - 1);
    TwoListed();
    forall stop | StopsAt(Stalled, 1, stop) ensures |Listing(Stalled, 1, stop)| == 1 {
      StopsAtTwo(stop);
    }
  }
}
