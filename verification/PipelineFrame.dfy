/** What every act of the buffer keeps in every sync mode: ranges, marks, the checkpoint and
    the head of the log, and that the reader passes over nothing. */
module PipelineFrame {
  import opened RecordFormat
  import opened SegmentScan
  import opened Wal
  import opened WalShape
  import opened WalHistory
  import opened WalRuns
  import opened WalDurability
  import opened LogReader
  import opened WalSnapshot
  import opened LowWater
  import opened Pipeline

  ghost predicate VisibleNumber(s: State, n: nat) {
    exists r :: Visible(s, n, r)
  }

  /** The head of the log follows something the mark covers. */
  ghost predicate HeadOk(files: seq<File>, mark: nat) {
    files != [] ==> files[0].prevEnd <= mark
  }

  /** Segments chosen for deletion lie wholly at or below the mark. */
  ghost predicate DoomedOk(m: Mem, mark: nat) {
    m.doomed <= |m.segs| && forall i :: 0 <= i < m.doomed ==> LastLSN(m.segs[i]) <= mark
  }

  /** Neither the head of the log nor what is chosen for deletion lies above the
      checkpoint. */
  ghost predicate HeadSafe(x: Sys) {
    HeadOk(x.wal.disk.files, x.ckpt) && (HasActive(x.wal) ==> DoomedOk(x.wal.mem.value, x.ckpt))
  }

  /** The checkpoint never claims a number that could still be handed out. */
  ghost predicate CheckOk(x: Sys) {
    x.ckpt <= x.wal.disk.reserved && (HasActive(x.wal) ==> x.ckpt < Settled(x.wal.mem.value))
  }

  /** Ranges are above the start, below the cursor, and overlap nowhere. */
  ghost predicate RangesOk(b: Buf) {
    && Disjoint(b.start, b.acked)
    && Disjoint(b.start, Entries(b.inflight))
    && (forall i, j :: 0 <= i < |b.acked| && 0 <= j < |b.inflight| ==>
          b.acked[i].last < b.inflight[j].first || b.inflight[j].last < b.acked[i].first)
    && (forall i :: 0 <= i < |b.acked| ==> b.acked[i].last < b.cursor)
    && (forall i :: 0 <= i < |b.inflight| ==> b.inflight[i].last < b.cursor)
    && b.start < b.cursor
  }

  function Entries(s: seq<Delivery>): (r: seq<Done>)
    ensures |r| == |s| && forall i :: 0 <= i < |r| ==> r[i] == RangeOf(s[i])
  {
    seq(|s|, i requires 0 <= i < |s| => RangeOf(s[i]))
  }

  /** Either the mark has reached the stored checkpoint, or Open lowered it to a place
      above which the log holds nothing at or below the checkpoint. */
  ghost predicate MarkOk(x: Sys, b: Buf) {
    || x.ckpt <= b.mark
    || (&& b.mark == b.start == b.lastCP && !b.persisting
        && (forall n: nat :: VisibleNumber(x.wal, n) && n > b.start ==> n > x.ckpt)
        && (forall n :: n in b.got ==> n > x.ckpt)
        && (forall i :: 0 <= i < |b.acked| ==> b.acked[i].last >= x.ckpt)
        && (forall i :: 0 <= i < |b.inflight| ==> b.inflight[i].last >= x.ckpt))
  }

  /** Records that were seen by a reader, under the numbers they were seen under. */
  ghost predicate WereSeen(s: State, recs: map<nat, Record>) {
    forall n :: n in recs ==> n in s.seen && s.seen[n] == recs[n]
  }

  /** What the reader has returned is exactly what is visible from the start to where it
      stands, as long as it is not deleted. */
  ghost predicate GotOk(s: State, b: Buf) {
    && (forall n :: n in b.got ==> b.start < n < b.next)
    && (forall n: nat, r :: Visible(s, n, r) && b.start < n < b.next ==> n in b.got && b.got[n] == r)
    && (forall n :: n in b.got && n > s.gone ==> Visible(s, n, b.got[n]))
  }

  /** What the reader has returned, deleted or not, was visible under its number. */
  ghost predicate GotSeen(s: State, b: Buf) {
    WereSeen(s, b.got) && forall i :: 0 <= i < |b.inflight| ==> WereSeen(s, b.inflight[i].recs)
  }

  /** Where the reader stands. */
  ghost predicate PlaceOk(s: State, b: Buf) {
    && HasActive(s) && b.cursor <= b.next <= Settled(s.mem.value)
    && (b.next == b.start + 1 || b.next <= s.mem.value.durable + 1)
    && HeadOk(s.disk.files, b.mark) && DoomedOk(s.mem.value, b.mark)
  }

  ghost predicate BufOk(x: Sys) {
    x.buf.Some? ==>
      var b := x.buf.value;
      PlaceOk(x.wal, b) && RangesOk(b) && IsMark(b.start, b.acked, b.mark) && GotOk(x.wal, b)
  }

  ghost predicate ResolvedSeen(x: Sys) {
    forall n :: n in x.resolved ==> n in x.wal.seen && x.wal.seen[n] == x.resolved[n].rec
  }

  /** What holds while every number names one record for good. */
  ghost predicate Lasting(x: Sys) {
    && CheckOk(x) && ResolvedSeen(x)
    && (x.buf.Some? ==> MarkOk(x, x.buf.value) && GotSeen(x.wal, x.buf.value))
  }

  ghost predicate Framed(cfg: Config, x: Sys) {
    && Snappable(cfg, x.wal) && CommittedKept(x.wal)
    && (x.buf.Some? ==> x.wal.mem.Some?)
    && HeadSafe(x) && BufOk(x)
    && (!x.wal.tainted ==> Lasting(x))
  }

  // ---- consequences --------------------------------------------------------------------

  /** The mark stays below everything unsettled. */
  lemma MarkSettled(b: Buf)
    requires RangesOk(b) && IsMark(b.start, b.acked, b.mark)
    ensures b.mark < b.cursor
  {
    if b.mark > b.start {
      assert Covered(b.acked, b.mark);
      var i :| 0 <= i < |b.acked| && Contains(b.acked[i], b.mark);
    }
  }

  // ---- steps of the log --------------------------------------------------------------------

  /** A step acknowledges only numbers that were unsettled. */
  lemma NewlyAcked(cfg: Config, s: State, step: Step, k: int, n: nat)
    requires Good(cfg, s) && Enabled(cfg, s, step) && AckedBy(Apply(cfg, s, step), k, n) && !AckedBy(s, k, n)
    ensures HasActive(s) && n >= Settled(s.mem.value)
  {
    hide Good, Apply;
    if k < |s.rounds| {
      RoundsStep(cfg, s, step, k);
      SettlingNumbers(cfg, s, k, n);
    } else {
      NewRoundsUndecided(cfg, s, step, k);
    }
  }

  lemma SettlingNumbers(cfg: Config, s: State, k: nat, n: nat)
    requires Good(cfg, s) && Enabled(cfg, s, SettleOk) && s.mem.value.inflight == Some(k)
    requires AckedBy(Apply(cfg, s, SettleOk), k, n)
    ensures n >= Settled(s.mem.value)
  {
    hide Frames, ScanBytes, DiskOk, Aligned, ActiveOk, RoundsOk, History;
  }

  /** A step shows its readers only numbers that were unsettled. */
  lemma NewlyVisible(cfg: Config, s: State, step: Step, n: nat)
    requires ValidConfig(cfg) && Good(cfg, s) && Enabled(cfg, s, step)
    requires s.mem.Some? && Apply(cfg, s, step).mem.Some?
    requires VisibleNumber(Apply(cfg, s, step), n)
    ensures VisibleNumber(s, n) || (HasActive(s) && n >= Settled(s.mem.value))
  {
    hide Good, Visible, Apply, Enabled;
    var r :| Visible(Apply(cfg, s, step), n, r);
    FlatMapStep(cfg, s, step, n, r);
    LivingSteps(cfg, s, step);
    if step.SettleOk? && InBatch(s, n, r) {
      BatchNumbers(cfg, s, n, r);
    }
  }

  lemma LivingSteps(cfg: Config, s: State, step: Step)
    requires Enabled(cfg, s, step) && s.mem.Some? && Apply(cfg, s, step).mem.Some?
    ensures Silent(step) || step.SettleOk? || step.TruncateRemove?
  {
    hide Frames, ScanBytes, Contents, Trimmed, Resumed, Tagged, Drop;
  }

  lemma BatchNumbers(cfg: Config, s: State, n: nat, r: Record)
    requires Good(cfg, s) && InBatch(s, n, r)
    ensures HasActive(s) && n >= Settled(s.mem.value)
  {
    hide Frames, ScanBytes, DiskOk, Aligned, ActiveOk, RoundsOk, History;
  }

  lemma LogReserved(cfg: Config, s: State, step: Step, ckpt: nat)
    requires Good(cfg, s) && Enabled(cfg, s, step) && ckpt <= s.disk.reserved
    requires HasActive(s) ==> ckpt < Settled(s.mem.value)
    ensures ckpt <= Apply(cfg, s, step).disk.reserved
  {
    hide Frames, ScanBytes, DiskOk, Aligned, ActiveOk, RoundsOk, History, Contents, Trimmed, Resumed, Tagged, Drop;
  }

  lemma LogSettled(cfg: Config, s: State, step: Step, ckpt: nat)
    requires ValidConfig(cfg) && Good(cfg, s) && Enabled(cfg, s, step) && ckpt <= s.disk.reserved
    requires HasActive(s) ==> ckpt < Settled(s.mem.value)
    requires HasActive(Apply(cfg, s, step))
    ensures ckpt < Settled(Apply(cfg, s, step).mem.value)
  {
    hide Good, Apply, Enabled, DoRecover;
    if s.mem.Some? {
      GoodActive(cfg, s);
      SettledMonotone(cfg, s, step);
    } else {
      RecoverOnly(cfg, s, step);
      RecoveredAbove(cfg, s);
    }
  }

  lemma RecoverOnly(cfg: Config, s: State, step: Step)
    requires Enabled(cfg, s, step) && s.mem.None? && Apply(cfg, s, step).mem.Some?
    ensures step.Recover? && Apply(cfg, s, step) == DoRecover(cfg, s)
  {
    hide Frames, ScanBytes, Contents, Trimmed, Resumed;
  }

  /** A recovered log hands out numbers above the reservation. */
  lemma RecoveredAbove(cfg: Config, s: State)
    requires ValidConfig(cfg) && Good(cfg, s) && Enabled(cfg, s, Recover)
    ensures var s' := DoRecover(cfg, s); HasActive(s') && Settled(s'.mem.value) > s.disk.reserved
  {
    hide Frames, ScanBytes, Contents, Trimmed, Resumed, Openable, SegOf, Contents;
    var s' := DoRecover(cfg, s);
    ShapeRecover(cfg, s);
    RecoveredPast(cfg, s);
    ActiveMatches(cfg, s');
  }

  lemma LogHead(cfg: Config, s: State, step: Step, ckpt: nat)
    requires ValidConfig(cfg) && Good(cfg, s) && Enabled(cfg, s, step) && HeadOk(s.disk.files, ckpt)
    requires HasActive(s) ==> DoomedOk(s.mem.value, ckpt)
    ensures HeadOk(Apply(cfg, s, step).disk.files, ckpt)
  {
    hide Frames, ScanBytes, NumbersOk, ActiveOk, RoundsOk, History, Contents, Tagged, Drop, SegOf, Openable;
    if !step.TruncateRemove? {
      hide Good, DoomedOk, Enabled, Apply;
      HeadStays(cfg, s, step);
    } else {
      var m := s.mem.value;
      assert Alive(m)[0] == m.segs[m.removed];
      assert Matches(cfg, Alive(m)[0], s.disk.files[0]) && Complete(Alive(m)[0], s.disk.files[0]);
      assert Follows(s.disk.files[0], s.disk.files[1]);
    }
  }

  lemma LogDoomed(cfg: Config, s: State, step: Step, ckpt: nat)
    requires Good(cfg, s) && Enabled(cfg, s, step)
    requires HasActive(s) ==> DoomedOk(s.mem.value, ckpt)
    requires step.TruncateBegin? ==> step.upto <= ckpt + 1
    requires HasActive(Apply(cfg, s, step))
    ensures DoomedOk(Apply(cfg, s, step).mem.value, ckpt)
  {
    hide Frames, ScanBytes, NumbersOk, ActiveOk, RoundsOk, History, Contents, Tagged, SegOf, Openable, Drop, DiskOk, Matches, Complete;
  }

  lemma {:induction false} MarkAtEnd(start: nat, h: seq<Done>, m: nat) returns (i: nat)
    requires IsMark(start, h, m) && m > start
    ensures i < |h| && h[i].last == m
  {
    assert Covered(h, m);
    i :| 0 <= i < |h| && Contains(h[i], m);
    if h[i].last > m {
      assert Contains(h[i], m + 1);
    }
  }

  lemma MarkGrows(start: nat, h: seq<Done>, d: Done, m: nat, m': nat)
    requires IsMark(start, h, m) && IsMark(start, h + [d], m')
    ensures m <= m'
  {
    if m' < m {
      assert Covered(h, m' + 1);
      CoveredMore(h, d);
    }
  }

  lemma SettledReserved(cfg: Config, s: State)
    requires Good(cfg, s) && HasActive(s) && !s.tainted
    ensures Settled(s.mem.value) <= s.disk.reserved + 1
  {
    hide Frames, ScanBytes, DiskOk, RoundsOk, Aligned, ActiveOk, TagsOk, DurableOk, SeenOk, VerdictsOk;
  }

  lemma RecoverTaint(cfg: Config, s: State)
    ensures DoRecover(cfg, s).tainted == s.tainted
  {
    hide Frames, ScanBytes, Contents, Trimmed, Resumed;
  }

  lemma GoodParts(cfg: Config, s: State)
    requires Good(cfg, s)
    ensures Shape(cfg, s) && History(s)
  {
  }

  lemma LogHeadSafe(cfg: Config, x: Sys, step: Step)
    requires ValidConfig(cfg) && Good(cfg, x.wal) && HeadSafe(x) && CanLog(cfg, x, step)
    ensures HeadSafe(DoLog(cfg, x, step))
  {
    hide Good, Apply, Enabled, HeadOk, DoomedOk;
    LogHead(cfg, x.wal, step, x.ckpt);
    if HasActive(DoLog(cfg, x, step).wal) {
      LogDoomed(cfg, x.wal, step, x.ckpt);
    }
  }

  lemma LogCheck(cfg: Config, x: Sys, step: Step)
    requires ValidConfig(cfg) && Good(cfg, x.wal) && CheckOk(x) && CanLog(cfg, x, step)
    ensures CheckOk(DoLog(cfg, x, step))
  {
    hide Good, Apply, Enabled;
    LogReserved(cfg, x.wal, step, x.ckpt);
    if HasActive(DoLog(cfg, x, step).wal) {
      LogSettled(cfg, x.wal, step, x.ckpt);
    }
  }

  lemma LogMark(cfg: Config, x: Sys, step: Step)
    requires ValidConfig(cfg) && Good(cfg, x.wal) && CanLog(cfg, x, step) && x.buf.Some?
    requires x.wal.mem.Some? && Apply(cfg, x.wal, step).mem.Some?
    requires MarkOk(x, x.buf.value) && HasActive(x.wal) && x.ckpt < Settled(x.wal.mem.value)
    ensures MarkOk(DoLog(cfg, x, step), x.buf.value)
  {
    hide Good, Apply, Enabled, VisibleNumber;
    var x', b := DoLog(cfg, x, step), x.buf.value;
    if x.ckpt > b.mark {
      forall n: nat | VisibleNumber(x'.wal, n) && n > b.start
        ensures n > x.ckpt
      {
        NewlyVisible(cfg, x.wal, step, n);
      }
    }
  }

  /** Nothing becomes visible behind the reader's back. */
  lemma LogGot(cfg: Config, x: Sys, step: Step)
    requires ValidConfig(cfg) && Good(cfg, x.wal) && CanLog(cfg, x, step) && x.buf.Some?
    requires x.wal.mem.Some? && Apply(cfg, x.wal, step).mem.Some? && GoneOk(x.wal)
    requires GotOk(x.wal, x.buf.value) && HasActive(x.wal) && x.buf.value.next <= Settled(x.wal.mem.value)
    ensures GotOk(Apply(cfg, x.wal, step), x.buf.value)
  {
    hide Good, Apply, Enabled, Visible, Settled;
    var s, s', b := x.wal, Apply(cfg, x.wal, step), x.buf.value;
    LivingSteps(cfg, s, step);
    GoneMonotone(cfg, s, step);
    forall n: nat, r | Visible(s', n, r) && b.start < n < b.next ensures n in b.got && b.got[n] == r {
      FlatMapStep(cfg, s, step, n, r);
      if step.SettleOk? && InBatch(s, n, r) {
        BatchNumbers(cfg, s, n, r);
      }
    }
    forall n | n in b.got && n > s'.gone ensures Visible(s', n, b.got[n]) {
      FlatMapStep(cfg, s, step, n, b.got[n]);
    }
  }

  lemma LogGotSeen(cfg: Config, x: Sys, step: Step)
    requires ValidConfig(cfg) && Good(cfg, x.wal) && CanLog(cfg, x, step) && x.buf.Some?
    requires GotSeen(x.wal, x.buf.value) && !Apply(cfg, x.wal, step).tainted
    ensures GotSeen(Apply(cfg, x.wal, step), x.buf.value)
  {
    hide Good, Apply, Enabled, WereSeen;
    var s', b := Apply(cfg, x.wal, step), x.buf.value;
    GoodParts(cfg, x.wal);
    HistoryStep(cfg, x.wal, step);
    SeenStays(x.wal, s', b.got);
    forall i | 0 <= i < |b.inflight| ensures WereSeen(s', b.inflight[i].recs) {
      SeenStays(x.wal, s', b.inflight[i].recs);
    }
  }

  lemma SeenStays(s: State, s': State, recs: map<nat, Record>)
    requires WereSeen(s, recs) && Extends(s.seen, s'.seen)
    ensures WereSeen(s', recs)
  {
  }

  lemma LogPlace(cfg: Config, x: Sys, step: Step)
    requires ValidConfig(cfg) && Good(cfg, x.wal) && CanLog(cfg, x, step) && x.buf.Some?
    requires Apply(cfg, x.wal, step).mem.Some? && HasActive(Apply(cfg, x.wal, step)) && PlaceOk(x.wal, x.buf.value)
    ensures PlaceOk(Apply(cfg, x.wal, step), x.buf.value)
  {
    hide Good, Apply, Enabled, HeadOk, DoomedOk;
    var b := x.buf.value;
    SettledMonotone(cfg, x.wal, step);
    DurableMonotone(cfg, x.wal, step);
    LogHead(cfg, x.wal, step, b.mark);
    LogDoomed(cfg, x.wal, step, b.mark);
  }

  lemma ResolvedStays(x: Sys, s': State)
    requires ResolvedSeen(x) && Extends(x.wal.seen, s'.seen)
    ensures ResolvedSeen(x.(wal := s'))
  {
  }

  lemma LogFramed(cfg: Config, x: Sys, step: Step)
    requires ValidConfig(cfg) && Framed(cfg, x) && CanLog(cfg, x, step)
    ensures Framed(cfg, DoLog(cfg, x, step))
    ensures x.wal.tainted ==> DoLog(cfg, x, step).wal.tainted
  {
    hide Apply, Enabled, CheckOk, HeadSafe, Good, GotOk, GotSeen, MarkOk, PlaceOk, RangesOk, IsMark, DurableReal, GoneOk, Rising, CommittedKept, ResolvedSeen;
    var x' := DoLog(cfg, x, step);
    SnappableStep(cfg, x.wal, step);
    CommittedKeptStep(cfg, x.wal, step);
    GoodParts(cfg, x.wal);
    HistoryStep(cfg, x.wal, step);
    LogHeadSafe(cfg, x, step);
    if x'.buf.Some? {
      LogBuf(cfg, x, step);
    }
    if !x'.wal.tainted {
      LogLasting(cfg, x, step);
    }
  }

  lemma LogLasting(cfg: Config, x: Sys, step: Step)
    requires ValidConfig(cfg) && Framed(cfg, x) && CanLog(cfg, x, step)
    requires !x.wal.tainted && !Apply(cfg, x.wal, step).tainted
    ensures Lasting(DoLog(cfg, x, step))
  {
    hide Apply, Enabled, CheckOk, HeadSafe, Good, GotOk, GotSeen, MarkOk, RangesOk, IsMark, DurableReal, GoneOk, Rising, CommittedKept, ResolvedSeen, HeadOk, DoomedOk;
    var x' := DoLog(cfg, x, step);
    GoodParts(cfg, x.wal);
    HistoryStep(cfg, x.wal, step);
    LogCheck(cfg, x, step);
    ResolvedStays(x, x'.wal);
    ResolvedFrame(x.(wal := x'.wal), x');
    if x'.buf.Some? {
      CheckBelow(x);
      LogMark(cfg, x, step);
      LogGotSeen(cfg, x, step);
    }
  }

  lemma CheckBelow(x: Sys)
    requires CheckOk(x) && HasActive(x.wal)
    ensures x.ckpt < Settled(x.wal.mem.value)
  {
  }

  lemma ResolvedFrame(x: Sys, x': Sys)
    requires ResolvedSeen(x) && x'.wal == x.wal && x'.resolved == x.resolved
    ensures ResolvedSeen(x')
  {
  }

  lemma LogBuf(cfg: Config, x: Sys, step: Step)
    requires ValidConfig(cfg) && Framed(cfg, x) && CanLog(cfg, x, step)
    requires DoLog(cfg, x, step).buf.Some? && Good(cfg, Apply(cfg, x.wal, step))
    ensures BufOk(DoLog(cfg, x, step))
  {
    hide Apply, Enabled, Good, GotOk, RangesOk, IsMark, DurableReal, GoneOk, Rising, CommittedKept, HeadOk, DoomedOk, Lasting;
    GoodActive(cfg, Apply(cfg, x.wal, step));
    LogPlace(cfg, x, step);
    LogGot(cfg, x, step);
  }

  // ---- opening -------------------------------------------------------------------------------

  /** Where the recovered log begins and what the reservation covers. */
  lemma OpenHead(cfg: Config, x: Sys)
    requires ValidConfig(cfg) && Good(cfg, x.wal) && CanOpen(cfg, x)
    ensures var x' := DoOpen(cfg, x);
            && x'.wal.disk.files != [] && x'.wal.disk.files[0].prevEnd < x'.wal.disk.files[0].base
            && x'.wal.disk.files[0].base == x'.wal.mem.value.segs[0].base
            && x'.wal.disk.files[0].prevEnd == x'.wal.mem.value.segs[0].prevEnd
            && x'.wal.disk.reserved == x.wal.disk.reserved
            && HasActive(x'.wal) && x'.wal.mem.value.doomed == 0 && Settled(x'.wal.mem.value) > x'.wal.disk.reserved
    ensures Good(cfg, DoOpen(cfg, x).wal)
    ensures !x.wal.tainted ==>
              var x' := DoOpen(cfg, x);
              x'.wal.disk.files[0].base <= x'.wal.disk.reserved + 1 && Extends(x.wal.seen, x'.wal.seen)
  {
    hide Frames, ScanBytes, Contents, Trimmed, Resumed, Openable, SegOf, LastRecord, RoundsOk, ActiveOk;
    var x' := DoOpen(cfg, x);
    var files := x'.wal.disk.files;
    RecoveredAbove(cfg, x.wal);
    ShapeRecover(cfg, x.wal);
    HistoryRecover(cfg, x.wal);
    RecoverTaint(cfg, x.wal);
    var m := x'.wal.mem.value;
    assert Alive(m) == m.segs;
    assert Matches(cfg, Alive(m)[0], files[0]);
    assert FileOk(cfg, files[0]);
    assert !x.wal.tainted ==> End(files[0]) <= x'.wal.disk.reserved + 1;
  }

  /** The first segment begins at or below everything unsettled. */
  lemma HeadBelow(cfg: Config, s: State)
    requires Good(cfg, s) && HasActive(s) && s.disk.files != []
    ensures s.disk.files[0].base <= Settled(s.mem.value)
  {
    hide Frames, ScanBytes, RoundsOk, History, Complete;
    var m := s.mem.value;
    var k := ActiveIndex(m);
    assert Alive(m)[k] == Active(m);
    assert Matches(cfg, Alive(m)[k], s.disk.files[k]);
    if k > 0 {
      FilesOrdered(cfg, s.disk.files, 0, k);
    }
    SettledFrom(cfg, s);
  }

  lemma SettledFrom(cfg: Config, s: State)
    requires Good(cfg, s) && HasActive(s)
    ensures Active(s.mem.value).base <= Settled(s.mem.value)
  {
    hide Frames, ScanBytes, RoundsOk, History, DiskOk, Aligned, Matches;
  }

  lemma OpenHeadSafe(cfg: Config, x: Sys)
    requires ValidConfig(cfg) && Good(cfg, x.wal) && CanOpen(cfg, x)
    ensures HeadSafe(DoOpen(cfg, x))
  {
    hide Good, DoRecover, Settled, Enabled;
    OpenHead(cfg, x);
  }

  lemma OpenLasting(cfg: Config, x: Sys)
    requires ValidConfig(cfg) && Framed(cfg, x) && CanOpen(cfg, x) && !x.wal.tainted
    ensures Lasting(DoOpen(cfg, x))
  {
    hide Snappable, DoRecover, CommittedKept, Enabled, BufOk, HeadSafe, MarkOk, CheckOk, ResolvedSeen, Extends;
    GoodPart(cfg, x.wal);
    OpenCheck(cfg, x);
    OpenHead(cfg, x);
    ResolvedStays(x, DoOpen(cfg, x).wal);
    ResolvedFrame(x.(wal := DoOpen(cfg, x).wal), DoOpen(cfg, x));
    OpenLowered(x, DoOpen(cfg, x));
  }

  lemma OpenCheck(cfg: Config, x: Sys)
    requires ValidConfig(cfg) && Good(cfg, x.wal) && CheckOk(x) && CanOpen(cfg, x) && !x.wal.tainted
    ensures CheckOk(DoOpen(cfg, x))
  {
    hide Good, DoRecover, Settled, Enabled;
    OpenHead(cfg, x);
  }

  lemma OpenBuf(cfg: Config, x: Sys)
    requires ValidConfig(cfg) && Good(cfg, x.wal) && CanOpen(cfg, x)
    ensures BufOk(DoOpen(cfg, x))
  {
    hide Good, DoRecover, Settled, Enabled, Visible, IsMark;
    OpenHead(cfg, x);
    var x' := DoOpen(cfg, x);
    MarkAlone(x'.buf.value.mark);
    HeadBelow(cfg, x'.wal);
    DurableBelow(cfg, x'.wal);
  }

  lemma MarkAlone(mark: nat)
    ensures IsMark(mark, [], mark)
  {
  }

  /** If Open's mark is below the checkpoint, nothing the log holds is above the mark. */
  lemma OpenLowered(x: Sys, x': Sys)
    requires x'.wal.mem.Some? && x'.wal.mem.value.segs != [] && x'.buf.Some?
    requires var mark := OpenMark(x.ckpt, x'.wal.mem.value.durable, x'.wal.mem.value.segs[0].base);
             x'.ckpt == Max(x.ckpt, mark) && x'.buf.value == Buf(mark, mark, [], [], mark + 1, mark + 1, map[], mark, false)
    ensures MarkOk(x', x'.buf.value)
  {
    var b := x'.buf.value;
    if x'.ckpt > b.mark {
      forall n: nat | VisibleNumber(x'.wal, n) ensures n <= b.mark {
        var r :| Visible(x'.wal, n, r);
        VisibleDurable(x'.wal, n, r);
      }
    }
  }

  lemma GoodPart(cfg: Config, s: State)
    requires Snappable(cfg, s)
    ensures Good(cfg, s)
  {
  }

  lemma VisibleDurable(s: State, n: nat, r: Record)
    requires Visible(s, n, r)
    ensures HasActive(s) && n <= s.mem.value.durable
  {
  }

  lemma OpenFramed(cfg: Config, x: Sys)
    requires ValidConfig(cfg) && Framed(cfg, x) && CanOpen(cfg, x)
    ensures Framed(cfg, DoOpen(cfg, x)) && DoOpen(cfg, x).ckpt >= x.ckpt && DoOpen(cfg, x).wal.tainted == x.wal.tainted
  {
    hide Snappable, DoRecover, CommittedKept, HeadSafe, Lasting, BufOk, Apply;
    RecoverApplies(cfg, x.wal);
    SnappableStep(cfg, x.wal, Recover);
    GoodPart(cfg, x.wal);
    CommittedKeptStep(cfg, x.wal, Recover);
    RecoverTaint(cfg, x.wal);
    OpenHeadSafe(cfg, x);
    OpenBuf(cfg, x);
    if !x.wal.tainted {
      OpenLasting(cfg, x);
    }
  }

  /** Open starts its reader at the right place: of what is visible then, exactly the records
      above the stored checkpoint are read again, and bringing the checkpoint into the log's
      range passes over none. */
  lemma OpenResumes(cfg: Config, x: Sys, n: nat, r: Record)
    requires ValidConfig(cfg) && Good(cfg, x.wal) && CanOpen(cfg, x) && Visible(DoOpen(cfg, x).wal, n, r)
    ensures var x' := DoOpen(cfg, x);
            && x'.ckpt >= x.ckpt && x'.buf.value.next == x'.buf.value.start + 1
            && (n > x'.buf.value.start <==> n > x.ckpt) && (n > x'.ckpt <==> n > x.ckpt)
  {
    hide Good, DoRecover, Settled, Enabled, Visible;
    OpenHead(cfg, x);
    VisibleDurable(DoOpen(cfg, x).wal, n, r);
    VisibleAbove(cfg, DoOpen(cfg, x).wal, n, r);
  }

  lemma VisibleAbove(cfg: Config, s: State, n: nat, r: Record)
    requires Good(cfg, s) && Visible(s, n, r)
    ensures s.disk.files != [] && n >= s.disk.files[0].base
  {
    hide Frames, ScanBytes, RoundsOk, NumbersOk, ActiveOk, History, Complete;
    var i :| VisibleIn(s, i, n, r);
    if i > 0 {
      FilesOrdered(cfg, s.disk.files, 0, i);
    }
  }

  lemma RecoverApplies(cfg: Config, s: State)
    requires Enabled(cfg, s, Recover)
    ensures Apply(cfg, s, Recover) == DoRecover(cfg, s) && DoRecover(cfg, s).mem.Some?
  {
    hide Frames, ScanBytes, Contents, Trimmed, Resumed, Openable;
  }

  // ---- reading ---------------------------------------------------------------------------------

  /** A reader that yields a record passes over nothing visible. */
  lemma ReadPasses(cfg: Config, s: State, n: nat, lsn: nat, rec: Record)
    requires ValidConfig(cfg) && Snappable(cfg, s) && HasActive(s) && Yields(SnapOf(s), n, lsn, rec)
    ensures n <= lsn <= s.mem.value.durable < Settled(s.mem.value) && Visible(s, lsn, rec)
    ensures forall k: nat :: n <= k < lsn ==> !VisibleNumber(s, k)
    ensures !s.tainted ==> lsn in s.seen && s.seen[lsn] == rec
  {
    hide Good, DurableReal, GoneOk, Rising, Chained, HoldsRecord, Visible, ViewsOf, Settled, Yields;
    SnapshotOk(cfg, s);
    YieldsShown(SnapOf(s), n, lsn, rec);
    YieldsNext(cfg.maxRecord, SnapOf(s), n, lsn, rec, n, rec);
    SnapshotVisible(cfg, s, lsn, rec);
    DurableBelow(cfg, s);
    forall k: nat | n <= k < lsn ensures !VisibleNumber(s, k) {
      if VisibleNumber(s, k) {
        var r :| Visible(s, k, r);
        SnapshotVisible(cfg, s, k, r);
        YieldsNext(cfg.maxRecord, SnapOf(s), n, lsn, rec, k, r);
      }
    }
    if !s.tainted {
      VisibleSeen(cfg, s, lsn, rec);
    }
  }

  lemma YieldsShown(e: Snap, n: nat, lsn: nat, rec: Record)
    requires Yields(e, n, lsn, rec)
    ensures Shows(e, lsn, rec)
  {
  }

  lemma DurableBelow(cfg: Config, s: State)
    requires Good(cfg, s) && HasActive(s)
    ensures s.mem.value.durable < Settled(s.mem.value)
  {
    hide Shape, TagsOk, PastOk;
  }

  lemma ReadFramed(cfg: Config, x: Sys, lsn: nat, rec: Record)
    requires ValidConfig(cfg) && Framed(cfg, x) && Can(cfg, x, Read(lsn, rec))
    ensures Framed(cfg, Do(cfg, x, Read(lsn, rec)))
  {
    hide Snappable, CommittedKept, CheckOk, HeadSafe, Yields, VisibleNumber, Visible, Settled, HeadOk, DoomedOk, IsMark, Disjoint;
    var x' := Do(cfg, x, Read(lsn, rec));
    var b, b' := x.buf.value, x'.buf.value;
    ReadPasses(cfg, x.wal, b.next, lsn, rec);
    HeadSame(x, x');
    ReadGot(cfg, x.wal, b, lsn, rec);
    if !x.wal.tainted {
      VisibleIsNumber(x.wal, lsn, rec);
      CheckSame(x, x');
    }
  }

  /** The entry read is the only one visible from where the reader stood. */
  lemma ReadGot(cfg: Config, s: State, b: Buf, lsn: nat, rec: Record)
    requires Snappable(cfg, s) && GotOk(s, b) && b.start < b.next <= lsn && Visible(s, lsn, rec)
    requires forall k: nat :: b.next <= k < lsn ==> !VisibleNumber(s, k)
    ensures GotOk(s, b.(next := lsn + 1, got := b.got[lsn := rec]))
  {
    hide Snappable, Visible, VisibleNumber;
    forall n: nat, r | Visible(s, n, r) && b.start < n < lsn + 1 ensures n in b.got[lsn := rec] && b.got[lsn := rec][n] == r {
      VisibleIsNumber(s, n, r);
      if n == lsn {
        GoodPart(cfg, s);
        VisibleUnique(cfg, s, n, r, rec);
      }
    }
  }

  /** At any moment a number names at most one record, whatever has failed before. */
  lemma VisibleUnique(cfg: Config, s: State, n: nat, r: Record, r': Record)
    requires Good(cfg, s) && Visible(s, n, r) && Visible(s, n, r')
    ensures r == r'
  {
    hide Frames, ScanBytes, RoundsOk, NumbersOk, ActiveOk, History, Aligned;
    var i :| VisibleIn(s, i, n, r);
    var j :| VisibleIn(s, j, n, r');
    if i < j {
      FilesOrdered(cfg, s.disk.files, i, j);
    } else if j < i {
      FilesOrdered(cfg, s.disk.files, j, i);
    }
  }

  lemma VisibleIsNumber(s: State, n: nat, r: Record)
    requires Visible(s, n, r)
    ensures VisibleNumber(s, n)
  {
  }

  lemma HeadSame(x: Sys, x': Sys)
    requires x'.wal == x.wal && x'.ckpt == x.ckpt && HeadSafe(x)
    ensures HeadSafe(x')
  {
  }

  lemma CheckSame(x: Sys, x': Sys)
    requires x'.wal == x.wal && x'.ckpt == x.ckpt && CheckOk(x)
    ensures CheckOk(x')
  {
  }

  // ---- ranges ----------------------------------------------------------------------------------

  /** Two deliveries never overlap. */
  lemma Apart(b: Buf, i: nat, j: nat)
    requires RangesOk(b) && i < |b.inflight| && j < |b.inflight| && i != j
    ensures b.inflight[i].last < b.inflight[j].first || b.inflight[j].last < b.inflight[i].first
  {
    assert Entries(b.inflight)[i] == RangeOf(b.inflight[i]) && Entries(b.inflight)[j] == RangeOf(b.inflight[j]);
  }

  lemma AbandonRanges(b: Buf, i: nat)
    requires RangesOk(b) && i < |b.inflight|
    ensures RangesOk(b.(inflight := Without(b.inflight, i)))
  {
    hide RangesOk, Disjoint;
    var rest := Without(b.inflight, i);
    assert forall j :: 0 <= j < |rest| ==> rest[j] == b.inflight[if j < i then j else j + 1];
    forall j, k | 0 <= j < |rest| && 0 <= k < |rest| && j != k
      ensures rest[j].last < rest[k].first || rest[k].last < rest[j].first
    {
      Apart(b, if j < i then j else j + 1, if k < i then k else k + 1);
    }
    FewerRanges(b, rest);
  }

  lemma FewerRanges(b: Buf, rest: seq<Delivery>)
    requires RangesOk(b)
    requires forall j :: 0 <= j < |rest| ==> rest[j] in b.inflight
    requires forall j, k :: 0 <= j < |rest| && 0 <= k < |rest| && j != k ==>
               rest[j].last < rest[k].first || rest[k].last < rest[j].first
    ensures RangesOk(b.(inflight := rest))
  {
    forall j | 0 <= j < |rest|
      ensures b.start < rest[j].first <= rest[j].last < b.cursor
      ensures forall i :: 0 <= i < |b.acked| ==> b.acked[i].last < rest[j].first || rest[j].last < b.acked[i].first
    {
      var k :| 0 <= k < |b.inflight| && b.inflight[k] == rest[j];
      assert Entries(b.inflight)[k] == RangeOf(rest[j]);
    }
  }

  lemma ResolveRanges(b: Buf, i: nat, mark: nat)
    requires RangesOk(b) && i < |b.inflight|
    ensures RangesOk(b.(inflight := Without(b.inflight, i)))
    ensures RangesOk(Resolved(b, i, mark))
  {
    var rest := Without(b.inflight, i);
    AbandonRanges(b, i);
    assert Entries(b.inflight)[i] == RangeOf(b.inflight[i]);
    forall j | 0 <= j < |rest|
      ensures rest[j].last < b.inflight[i].first || b.inflight[i].last < rest[j].first
    {
      Apart(b, if j < i then j else j + 1, i);
    }
  }


  lemma SameRanges(b: Buf, b': Buf)
    requires RangesOk(b) && b'.start == b.start && b'.acked == b.acked && b'.inflight == b.inflight && b'.cursor == b.cursor
    ensures RangesOk(b')
  {
  }

  lemma AssembleRanges(b: Buf, last: nat, recs: map<nat, Record>, mark: nat)
    requires RangesOk(b) && b.cursor <= last
    ensures RangesOk(Assembled(b, last, recs, mark))
  {
    var d := Delivery(b.cursor, last, recs);
    if recs == map[] {
      AckedRanges(b, RangeOf(d), mark);
    } else {
      assert forall i :: 0 <= i < |b.inflight| ==> Entries(b.inflight)[i] == RangeOf(b.inflight[i]);
      assert Entries(b.inflight + [d]) == Entries(b.inflight) + [RangeOf(d)];
    }
  }

  lemma AckedRanges(b: Buf, d: Done, mark: nat)
    requires RangesOk(b) && d.first == b.cursor <= d.last
    ensures RangesOk(b.(acked := b.acked + [d], mark := mark, cursor := d.last + 1))
  {
    assert forall i :: 0 <= i < |b.inflight| ==> Entries(b.inflight)[i] == RangeOf(b.inflight[i]);
  }

  /** Completing one more range keeps the relation between mark and checkpoint. */
  lemma MarkAdvances(x: Sys, b: Buf, d: Done, mark: nat)
    requires MarkOk(x, b) && IsMark(b.start, b.acked, b.mark) && IsMark(b.start, b.acked + [d], mark)
    requires x.ckpt > b.mark ==> d.last >= x.ckpt
    ensures mark >= b.mark && MarkOk(x, b.(acked := b.acked + [d], mark := mark))
  {
    MarkGrows(b.start, b.acked, d, b.mark, mark);
    if x.ckpt > b.mark && mark > b.start {
      var i := MarkAtEnd(b.start, b.acked + [d], mark);
    }
  }

  lemma AssembleFramed(cfg: Config, x: Sys, last: nat, recs: map<nat, Record>, skipped: map<nat, Record>, mark: nat)
    requires ValidConfig(cfg) && Framed(cfg, x) && Can(cfg, x, Assemble(last, recs, skipped, mark))
    ensures Framed(cfg, Do(cfg, x, Assemble(last, recs, skipped, mark)))
  {
    hide Snappable, CommittedKept, CheckOk, HeadSafe, VisibleNumber, Visible, Settled, RangesOk, Disjoint, MarkOk, GotOk, GotSeen, IsMark, HeadOk, DoomedOk, ResolvedSeen;
    var x' := Do(cfg, x, Assemble(last, recs, skipped, mark));
    var b, b' := x.buf.value, x'.buf.value;
    HeadSame(x, x');
    AssembleRanges(b, last, recs, mark);
    AssembleGot(x.wal, b, last, recs, skipped, mark);
    AssembleRaises(b, last, recs, skipped, mark);
    MarkRaisedTo(x.wal, b, b');
    if !x.wal.tainted {
      CheckSame(x, x');
      AssembleSeen(x.wal, b, last, recs, skipped, mark);
      AssembleMark(x, last, recs, skipped, mark);
      MarkSame(x, x', b', b');
      ResolvedMoreSeen(x, x', skipped, Dropped);
    }
  }

  lemma MarkRaisedTo(s: State, b: Buf, b': Buf)
    requires PlaceOk(s, b) && b'.mark >= b.mark && b'.cursor <= b.next && b'.next == b.next && b'.start == b.start
    ensures PlaceOk(s, b')
  {
  }

  /** What is assembled was read. */
  lemma AssembleGot(s: State, b: Buf, last: nat, recs: map<nat, Record>, skipped: map<nat, Record>, mark: nat)
    requires GotOk(s, b) && CanAssemble(b, last, recs, skipped, mark)
    ensures GotOk(s, Assembled(b, last, recs, mark)) && last < b.next
  {
    hide Visible, IsMark;
  }

  lemma AssembleSeen(s: State, b: Buf, last: nat, recs: map<nat, Record>, skipped: map<nat, Record>, mark: nat)
    requires GotSeen(s, b) && CanAssemble(b, last, recs, skipped, mark)
    ensures GotSeen(s, Assembled(b, last, recs, mark)) && WereSeen(s, skipped)
  {
    hide IsMark;
    assert WereSeen(s, recs);
  }

  lemma AssembleRaises(b: Buf, last: nat, recs: map<nat, Record>, skipped: map<nat, Record>, mark: nat)
    requires IsMark(b.start, b.acked, b.mark) && CanAssemble(b, last, recs, skipped, mark)
    ensures var b' := Assembled(b, last, recs, mark); b'.mark >= b.mark && IsMark(b'.start, b'.acked, b'.mark)
  {
    hide IsMark;
    if recs == map[] {
      MarkGrows(b.start, b.acked, Done(b.cursor, last, 0, 0), b.mark, mark);
    }
  }

  lemma AssembleMark(x: Sys, last: nat, recs: map<nat, Record>, skipped: map<nat, Record>, mark: nat)
    requires BufOk(x) && x.buf.Some? && MarkOk(x, x.buf.value) && CanAssemble(x.buf.value, last, recs, skipped, mark)
    ensures MarkOk(x, Assembled(x.buf.value, last, recs, mark))
  {
    hide IsMark, RangesOk, VisibleNumber, GotOk, PlaceOk;
    if recs == map[] {
      MarkAdvances(x, x.buf.value, Done(x.buf.value.cursor, last, 0, 0), mark);
    }
  }

  lemma ResolveFramed(cfg: Config, x: Sys, act: Act)
    requires ValidConfig(cfg) && Framed(cfg, x) && Can(cfg, x, act) && (act.Resolve? || act.Abandon?)
    ensures Framed(cfg, Do(cfg, x, act))
  {
    hide Snappable, CommittedKept, CheckOk, HeadSafe, VisibleNumber, Visible, Settled, RangesOk, Disjoint, IsMark, MarkOk, GotOk, GotSeen, HeadOk, DoomedOk, ResolvedSeen;
    var x' := Do(cfg, x, act);
    var b, b', i := x.buf.value, x'.buf.value, act.i;
    HeadSame(x, x');
    ResolveRanges(b, i, if act.Resolve? then act.mark else 0);
    GotSame(x.wal, b, b');
    if act.Resolve? {
      MarkGrows(b.start, b.acked, RangeOf(b.inflight[i]), b.mark, act.mark);
    }
    MarkRaisedTo(x.wal, b, b');
    if !x.wal.tainted {
      CheckSame(x, x');
      FewerDeliveries(x, x', b, b', i);
      if act.Resolve? {
        MarkAdvances(x, b.(inflight := Without(b.inflight, i)), RangeOf(b.inflight[i]), act.mark) by {
          InflightReach(x, b, i);
        }
        MarkSame(x, x', b.(inflight := Without(b.inflight, i), acked := b'.acked, mark := b'.mark), b');
      } else {
        MarkSame(x, x', b.(inflight := Without(b.inflight, i)), b');
      }
      ResolvedMoreSeen(x, x', b.inflight[i].recs, if act.Resolve? then act.outcome else Dropped);
    }
  }

  lemma InflightReach(x: Sys, b: Buf, i: nat)
    requires MarkOk(x, b) && i < |b.inflight|
    ensures x.ckpt > b.mark ==> b.inflight[i].last >= x.ckpt
  {
  }

  /** With one delivery fewer, the rest is as it was. */
  lemma FewerDeliveries(x: Sys, x': Sys, b: Buf, b': Buf, i: nat)
    requires MarkOk(x, b) && GotSeen(x.wal, b) && i < |b.inflight| && x'.wal == x.wal
    requires b'.got == b.got && b'.inflight == Without(b.inflight, i)
    ensures MarkOk(x, b.(inflight := Without(b.inflight, i))) && WereSeen(x.wal, b.inflight[i].recs)
    ensures GotSeen(x'.wal, b')
  {
    hide VisibleNumber, WereSeen;
    var rest := Without(b.inflight, i);
    assert forall j :: 0 <= j < |rest| ==> rest[j] == b.inflight[if j < i then j else j + 1];
  }

  lemma MarkSame(x: Sys, x': Sys, b: Buf, b': Buf)
    requires MarkOk(x, b) && x'.wal == x.wal && x'.ckpt == x.ckpt && b' == b
    ensures MarkOk(x', b')
  {
  }

  lemma GotSame(s: State, b: Buf, b': Buf)
    requires GotOk(s, b) && b'.start == b.start && b'.got == b.got && b'.next == b.next
    ensures GotOk(s, b')
  {
    hide Visible;
  }

  lemma ResolvedMoreSeen(x: Sys, x': Sys, recs: map<nat, Record>, outcome: Outcome)
    requires ResolvedSeen(x) && WereSeen(x.wal, recs) && x'.wal == x.wal
    requires x'.resolved == ResolveAll(x.resolved, recs, outcome) || x'.resolved == x.resolved
    ensures ResolvedSeen(x')
  {
  }

  lemma PersistFramed(cfg: Config, x: Sys, act: Act)
    requires ValidConfig(cfg) && Framed(cfg, x) && Can(cfg, x, act) && (act.Persist? || act.PersistDone?)
    ensures Framed(cfg, Do(cfg, x, act))
    ensures !x.wal.tainted ==> Do(cfg, x, act).ckpt >= x.ckpt
  {
    hide Good, CommittedKept, VisibleNumber, Visible, RangesOk, IsMark, DurableReal, GoneOk, Rising, HeadOk, DoomedOk, GotOk;
    var x' := Do(cfg, x, act);
    var b := x.buf.value;
    SameRanges(b, x'.buf.value);
    GotSame(x.wal, b, x'.buf.value);
    MarkSettled(b);
    if !x.wal.tainted {
      SettledReserved(cfg, x.wal);
    }
  }

  // ---- every act -----------------------------------------------------------------------------

  /** Every act keeps the frame, and while no Close of a log whose rollback failed has given
      RESERVED back, the stored checkpoint never decreases. */
  lemma FramedStep(cfg: Config, x: Sys, act: Act)
    requires ValidConfig(cfg) && Framed(cfg, x) && Can(cfg, x, act)
    ensures Framed(cfg, Do(cfg, x, act))
    ensures x.wal.tainted ==> Do(cfg, x, act).wal.tainted
    ensures !x.wal.tainted ==> Do(cfg, x, act).ckpt >= x.ckpt
  {
    hide Framed, Apply, Enabled, DoRecover, Yields;
    match act {
      case Log(step) => LogFramed(cfg, x, step);
      case Open => OpenFramed(cfg, x);
      case Read(lsn, rec) => ReadFramed(cfg, x, lsn, rec);
      case Assemble(last, recs, skipped, mark) => AssembleFramed(cfg, x, last, recs, skipped, mark);
      case Resolve(_, _, _) => ResolveFramed(cfg, x, act);
      case Abandon(_) => ResolveFramed(cfg, x, act);
      case Persist => PersistFramed(cfg, x, act);
      case PersistDone => PersistFramed(cfg, x, act);
    }
  }

  lemma FramedEmpty(cfg: Config)
    ensures Framed(cfg, Empty)
  {
    SnappableFresh(cfg);
    CommittedKeptFresh();
  }

  lemma {:induction false} LifeFramed(cfg: Config, xs: seq<Sys>, acts: seq<Act>, i: nat)
    requires ValidConfig(cfg) && IsLife(cfg, xs, acts) && i < |xs|
    ensures Framed(cfg, xs[i])
  {
    hide Framed, Can, Do;
    if i == 0 {
      FramedEmpty(cfg);
    } else {
      LifeFramed(cfg, xs, acts, i - 1);
      assert Leads(cfg, xs[i - 1], acts[i - 1], xs[i]);
      FramedStep(cfg, xs[i - 1], acts[i - 1]);
    }
  }

  // ---- the guarantees --------------------------------------------------------------------------

  /** Checkpoint safety at every crash point, in every sync mode: neither the head of the
      log nor anything deleted lies above the stored checkpoint, whatever has failed; and
      it never exceeds the reservation nor decreases, unless a Close of a log whose rollback
      failed has given RESERVED back. */
  lemma CheckpointSafe(cfg: Config, xs: seq<Sys>, acts: seq<Act>, i: nat)
    requires ValidConfig(cfg) && IsLife(cfg, xs, acts) && i < |xs|
    ensures xs[i].wal.disk.files != [] ==> xs[i].wal.disk.files[0].prevEnd <= xs[i].ckpt
    ensures xs[i].wal.gone <= xs[i].ckpt
    ensures !xs[i].wal.tainted ==> xs[i].ckpt <= xs[i].wal.disk.reserved
    ensures !xs[i].wal.tainted && i + 1 < |xs| ==> xs[i].ckpt <= xs[i + 1].ckpt
  {
    hide Good, DurableReal, Rising, CommittedKept, Can, Do, BufOk, ResolvedSeen, MarkOk, GotSeen;
    LifeFramed(cfg, xs, acts, i);
    if i + 1 < |xs| {
      assert Leads(cfg, xs[i], acts[i], xs[i + 1]);
      FramedStep(cfg, xs[i], acts[i]);
    }
  }

  /** ... so Open's missing-head check never refuses an undamaged directory, even one whose
      log was broken by a failed rollback. */
  lemma HeadNeverMissing(cfg: Config, xs: seq<Sys>, acts: seq<Act>, i: nat)
    requires ValidConfig(cfg) && IsLife(cfg, xs, acts) && i < |xs|
    requires Enabled(cfg, xs[i].wal, Recover)
    ensures Can(cfg, xs[i], Open)
  {
    hide Snappable, CommittedKept, Do, BufOk, Lasting, DoRecover, Openable;
    LifeFramed(cfg, xs, acts, i);
    RecoveredHead(cfg, xs[i].wal, xs[i].ckpt);
  }

  /** The reader never stands among deleted numbers. */
  lemma ReaderAboveHead(cfg: Config, xs: seq<Sys>, acts: seq<Act>, i: nat)
    requires ValidConfig(cfg) && IsLife(cfg, xs, acts) && i < |xs| && xs[i].buf.Some?
    ensures HasActive(xs[i].wal) && SnapOk(cfg.maxRecord, SnapOf(xs[i].wal))
    ensures Head(SnapOf(xs[i].wal)) <= xs[i].buf.value.mark < xs[i].buf.value.next
  {
    hide Good, DurableReal, GoneOk, Rising, CommittedKept, Can, Do, Lasting, GotOk, RangesOk, IsMark, Chained, ViewsOf;
    LifeFramed(cfg, xs, acts, i);
    SnapshotOk(cfg, xs[i].wal);
    HeadIsFile(cfg, xs[i].wal);
    MarkSettled(xs[i].buf.value);
  }

  lemma HeadIsFile(cfg: Config, s: State)
    requires Good(cfg, s) && HasActive(s) && ViewsOf(s) != []
    ensures s.disk.files != [] && Head(SnapOf(s)) == s.disk.files[0].prevEnd
  {
    hide Frames, ScanBytes, RoundsOk, NumbersOk, ActiveOk, History, DiskOk, Complete;
    assert Matches(cfg, Alive(s.mem.value)[0], s.disk.files[0]);
  }

  /** The reader passes over nothing: at every moment of every life, what it has returned
      since Open is exactly what is visible from where it started to where it stands, and
      has been deleted since or is still visible as it was returned. */
  lemma ReaderMissesNothing(cfg: Config, xs: seq<Sys>, acts: seq<Act>, i: nat, n: nat, r: Record)
    requires ValidConfig(cfg) && IsLife(cfg, xs, acts) && i < |xs| && xs[i].buf.Some?
    ensures var b := xs[i].buf.value;
            && (b.start < n < b.next ==>
                  (Visible(xs[i].wal, n, r) <==> n in b.got && b.got[n] == r && n > xs[i].wal.gone))
            && (n in b.got ==> b.start < n < b.next)
            && (n in b.got && !xs[i].wal.tainted ==> n in xs[i].wal.seen && xs[i].wal.seen[n] == b.got[n])
  {
    hide Good, DurableReal, GoneOk, Rising, CommittedKept, Can, Do, CheckOk, ResolvedSeen, Visible, PlaceOk, RangesOk, MarkOk;
    LifeFramed(cfg, xs, acts, i);
    if Visible(xs[i].wal, n, r) {
      VisibleAboveGone(cfg, xs[i].wal, n, r);
    }
  }

  /** What the check is for: when leading segments are gone that held a record above the
      checkpoint, Open refuses what is left of the directory. */
  lemma LostHeadRefused(cfg: Config, x: Sys, gone: nat, i: nat, n: nat)
    requires ValidConfig(cfg) && x.buf.None? && Enabled(cfg, x.wal, Recover) && DiskOk(cfg, x.wal.disk.files)
    requires 0 < gone < |x.wal.disk.files| && i < gone && x.wal.disk.files[i].base <= n < End(x.wal.disk.files[i]) && n > x.ckpt
    ensures var left := x.(wal := x.wal.(disk := x.wal.disk.(files := x.wal.disk.files[gone..])));
            !Can(cfg, left, Open)
  {
    hide Frames, ScanBytes, Contents, Openable, LastRecord, FileOk, SegOf;
    var files := x.wal.disk.files;
    assert Follows(files[gone - 1], files[gone]);
    if i < gone - 1 {
      FilesOrdered(cfg, files, i, gone - 1);
    }
    var left := x.(wal := x.wal.(disk := x.wal.disk.(files := files[gone..])));
    FirstKept(cfg, left.wal);
  }

  /** Recovery keeps the first segment's name. */
  lemma FirstKept(cfg: Config, s: State)
    requires s.disk.files != []
    ensures var m := DoRecover(cfg, s).mem.value; m.segs != [] && m.segs[0].prevEnd == s.disk.files[0].prevEnd
  {
    hide Frames, ScanBytes, Contents, Openable, LastRecord;
  }

  lemma RecoveredHead(cfg: Config, s: State, ckpt: nat)
    requires Enabled(cfg, s, Recover) && HeadOk(s.disk.files, ckpt)
    ensures var m := DoRecover(cfg, s).mem.value; m.segs != [] && m.segs[0].prevEnd <= ckpt
  {
    hide Frames, ScanBytes, Contents, Openable, LastRecord;
  }
}
