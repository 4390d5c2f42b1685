/** What the buffer is for, in the modes that fsync: every acknowledged record is resolved, or
    safe in the log above the checkpoint, and after any crash the next Open replays it. */
module PipelineContent {
  import opened RecordFormat
  import opened SegmentScan
  import opened Wal
  import opened WalShape
  import opened WalHistory
  import opened WalRuns
  import opened WalStaged
  import opened WalReopen
  import opened WalDurability
  import opened LogReader
  import opened WalSnapshot
  import opened LowWater
  import opened Pipeline
  import opened PipelineFrame

  /** Every acknowledged write numbered at or below m is resolved. */
  ghost predicate ResolvedUpTo(x: Sys, m: nat) {
    forall k, n: nat :: AckedBy(x.wal, k, n) && n <= m ==> n in x.resolved
  }

  /** Every acknowledged write numbered in the range is resolved, or in `numbers`. */
  ghost predicate ResolvedIn(x: Sys, first: nat, last: nat, numbers: set<nat>) {
    forall k, n: nat :: AckedBy(x.wal, k, n) && first <= n <= last ==> n in x.resolved || n in numbers
  }

  ghost predicate ContentOk(x: Sys, b: Buf) {
    && ResolvedUpTo(x, b.start)
    && (forall i :: 0 <= i < |b.acked| ==> ResolvedIn(x, b.acked[i].first, b.acked[i].last, {}))
    && (forall i :: 0 <= i < |b.inflight| ==> ResolvedIn(x, b.inflight[i].first, b.inflight[i].last, b.inflight[i].recs.Keys))
  }

  ghost predicate Content(cfg: Config, x: Sys) {
    && AckedSafe(cfg, x.wal)
    && (!x.wal.tainted ==> ResolvedUpTo(x, x.ckpt) && (x.buf.Some? ==> ContentOk(x, x.buf.value)))
  }

  ghost predicate Sound(cfg: Config, x: Sys) {
    Framed(cfg, x) && Content(cfg, x)
  }

  // ---- consequences --------------------------------------------------------------------

  /** Everything acknowledged up to the mark is resolved. */
  lemma MarkResolved(x: Sys, b: Buf)
    requires RangesOk(b) && IsMark(b.start, b.acked, b.mark) && ContentOk(x, b)
    ensures ResolvedUpTo(x, b.mark)
  {
    forall k, n: nat | AckedBy(x.wal, k, n) && n <= b.mark
      ensures n in x.resolved
    {
      if n > b.start {
        assert Covered(b.acked, n);
        var i :| 0 <= i < |b.acked| && Contains(b.acked[i], n);
        assert ResolvedIn(x, b.acked[i].first, b.acked[i].last, {});
      }
    }
  }

  /** What an acknowledged number stands for. */
  function AckedRecord(s: State, k: nat, n: nat): Record
    requires k < |s.rounds| && s.rounds[k].first <= n < s.rounds[k].first + |s.rounds[k].recs|
  {
    s.rounds[k].recs[n - s.rounds[k].first]
  }

  /** An unresolved acknowledged write is in the log above the checkpoint. */
  lemma UnresolvedInLog(cfg: Config, x: Sys, k: int, n: nat)
    requires Sound(cfg, x) && !x.wal.tainted && AckedBy(x.wal, k, n)
    ensures var r := AckedRecord(x.wal, k, n);
            (n in x.resolved && x.resolved[n].rec == r) || (n > x.ckpt && n > x.wal.gone && OnDisk(cfg, x.wal.disk.files, n, r))
  {
    hide Good, OnDisk, BufOk, DurableReal, Rising;
    if n in x.resolved {
      assert WalRuns.Kept(x.wal, k);
    } else {
      assert Safe(cfg, x.wal, n, AckedRecord(x.wal, k, n));
    }
  }

  // ---- the log -------------------------------------------------------------------------------

  /** New acknowledgements lie above the checkpoint and above every range. */
  lemma LogContent(cfg: Config, x: Sys, step: Step)
    requires ValidConfig(cfg) && cfg.fsync && Sound(cfg, x) && CanLog(cfg, x, step)
    ensures Content(cfg, DoLog(cfg, x, step))
  {
    hide Shape, History, AckedSafe, Apply, Enabled, CheckOk, BufOk, DurableReal, GoneOk, Rising, CommittedKept, ResolvedSeen, ContentOk, ResolvedUpTo;
    var x' := DoLog(cfg, x, step);
    HistoryStep(cfg, x.wal, step);
    AckedStep(cfg, x.wal, step);
    if !x'.wal.tainted {
      LogResolved(cfg, x, step);
      if x'.buf.Some? {
        LogRanges(cfg, x, step);
      }
    }
  }

  lemma LogResolved(cfg: Config, x: Sys, step: Step)
    requires ValidConfig(cfg) && Good(cfg, x.wal) && CheckOk(x) && ResolvedUpTo(x, x.ckpt) && CanLog(cfg, x, step)
    ensures ResolvedUpTo(DoLog(cfg, x, step), x.ckpt)
  {
    hide Good, Apply, Enabled, HeadOk, DoomedOk, Settled;
    var x' := DoLog(cfg, x, step);
    forall k, n: nat | AckedBy(x'.wal, k, n) && n <= x.ckpt
      ensures n in x'.resolved
    {
      if !AckedBy(x.wal, k, n) {
        NewlyAcked(cfg, x.wal, step, k, n);
      }
    }
  }

  lemma LogRanges(cfg: Config, x: Sys, step: Step)
    requires ValidConfig(cfg) && Good(cfg, x.wal) && CanLog(cfg, x, step) && BufOk(x) && x.buf.Some? && ContentOk(x, x.buf.value)
    ensures ContentOk(DoLog(cfg, x, step), x.buf.value)
  {
    hide Good, Apply, Enabled, MarkOk, IsMark, Disjoint, GotOk, HeadOk, DoomedOk, Settled;
    var x', b := DoLog(cfg, x, step), x.buf.value;
    forall k, n: nat | AckedBy(x'.wal, k, n) && n < b.cursor
      ensures AckedBy(x.wal, k, n)
    {
      if !AckedBy(x.wal, k, n) {
        NewlyAcked(cfg, x.wal, step, k, n);
      }
    }
    forall i | 0 <= i < |b.acked|
      ensures ResolvedIn(x', b.acked[i].first, b.acked[i].last, {})
    {
      assert ResolvedIn(x, b.acked[i].first, b.acked[i].last, {});
    }
    forall i | 0 <= i < |b.inflight|
      ensures ResolvedIn(x', b.inflight[i].first, b.inflight[i].last, b.inflight[i].recs.Keys)
    {
      assert ResolvedIn(x, b.inflight[i].first, b.inflight[i].last, b.inflight[i].recs.Keys);
    }
  }

  // ---- opening -------------------------------------------------------------------------------

  /** What is on disk and settled can be read. */
  lemma OnDiskVisible(cfg: Config, s: State, n: nat, r: Record)
    requires Good(cfg, s) && HasActive(s) && OnDisk(cfg, s.disk.files, n, r) && n < Settled(s.mem.value)
    ensures Visible(s, n, r)
  {
    hide Frames, ScanBytes, Shape, TagsOk, PastOk, Covers;
    var i :| 0 <= i < |s.disk.files| && Holds(cfg, s.disk.files[i], n, r);
    OnDiskCounted(cfg, s, i, n, r);
    assert UpTo(Alive(s.mem.value)[i], Settled(s.mem.value), s.mem.value.durable);
    assert VisibleIn(s, i, n, r);
  }

  lemma OnDiskCounted(cfg: Config, s: State, i: int, n: nat, r: Record)
    requires Good(cfg, s) && HasActive(s) && n < Settled(s.mem.value)
    requires 0 <= i < |s.disk.files| && Holds(cfg, s.disk.files[i], n, r)
    ensures var a := Alive(s.mem.value);
            && i < |a| && a[i].base == s.disk.files[i].base && a[i].base <= n < a[i].base + a[i].count
  {
    hide Frames, ScanBytes, RoundsOk, History;
    var m := s.mem.value;
    ActiveMatches(cfg, s);
    assert Alive(m)[|Alive(m)| - 1] == Active(m);
    if i < |Alive(m)| {
      assert Matches(cfg, Alive(m)[i], s.disk.files[i]);
    }
  }

  lemma OnDiskAboveHead(cfg: Config, s: State, n: nat, r: Record)
    requires Shape(cfg, s) && Safe(cfg, s, n, r) && n > s.gone
    ensures s.disk.files != [] && n >= s.disk.files[0].base
  {
    hide Frames, ScanBytes;
    var i :| 0 <= i < |s.disk.files| && Holds(cfg, s.disk.files[i], n, r);
    if i > 0 {
      FilesOrdered(cfg, s.disk.files, 0, i);
    }
  }

  lemma SameRounds(cfg: Config, x: Sys, k: int, n: nat)
    requires AckedBy(x.wal, k, n)
    ensures var s' := DoRecover(cfg, x.wal); AckedBy(s', k, n) && s'.rounds[k] == x.wal.rounds[k]
  {
    hide Frames, ScanBytes, Contents, Trimmed, Resumed;
  }


  /** Raising the checkpoint to the head passes over nothing acknowledged. */
  lemma OpenContent(cfg: Config, x: Sys)
    requires ValidConfig(cfg) && cfg.fsync && Sound(cfg, x) && CanOpen(cfg, x)
    ensures Content(cfg, DoOpen(cfg, x))
  {
    hide Frames, ScanBytes, Shape, History, AckedSafe, DoRecover, Enabled, Apply, CheckOk, BufOk, DurableReal, GoneOk, Rising, CommittedKept, ResolvedSeen, ResolvedUpTo;
    RecoverApplies(cfg, x.wal);
    AckedStep(cfg, x.wal, Recover);
    RecoverTaint(cfg, x.wal);
    if !x.wal.tainted {
      OpenResolved(cfg, x);
      OpenStarts(DoOpen(cfg, x));
    }
  }

  lemma OpenStarts(x: Sys)
    requires x.buf.Some? && x.buf.value.acked == [] && x.buf.value.inflight == []
    requires x.buf.value.start <= x.ckpt && ResolvedUpTo(x, x.ckpt)
    ensures ContentOk(x, x.buf.value)
  {
  }

  lemma OpenResolved(cfg: Config, x: Sys)
    requires ValidConfig(cfg) && cfg.fsync && Sound(cfg, x) && CanOpen(cfg, x) && !x.wal.tainted
    ensures ResolvedUpTo(DoOpen(cfg, x), DoOpen(cfg, x).ckpt)
  {
    hide Frames, ScanBytes, Shape, History, DoRecover, Enabled, Apply, BufOk, DurableReal, Rising, CommittedKept, ResolvedSeen, Safe;
    var x' := DoOpen(cfg, x);
    OpenHead(cfg, x);
    RecoverApplies(cfg, x.wal);
    ShapeStep(cfg, x.wal, Recover);
    AckedStep(cfg, x.wal, Recover);
    HeadStays(cfg, x.wal, Recover);
    forall k, n: nat | AckedBy(x'.wal, k, n) && n <= x'.ckpt
      ensures n in x'.resolved
    {
      RoundsBack(cfg, x, k, n);
      if n > x.ckpt {
        var r := AckedRecord(x'.wal, k, n);
        assert Safe(cfg, x'.wal, n, r);
        OnDiskAboveHead(cfg, x'.wal, n, r);
      }
    }
  }

  lemma RoundsBack(cfg: Config, x: Sys, k: int, n: nat)
    requires AckedBy(DoRecover(cfg, x.wal), k, n)
    ensures AckedBy(x.wal, k, n)
  {
    hide Frames, ScanBytes, Contents, Trimmed, Resumed;
  }

  // ---- the buffer's acts -----------------------------------------------------------------------

  /** Resolving more keeps what was resolved. */
  lemma ResolvedMore(x: Sys, x': Sys, first: nat, last: nat, numbers: set<nat>, numbers': set<nat>)
    requires x'.wal == x.wal && ResolvedIn(x, first, last, numbers)
    requires forall n :: n in x.resolved ==> n in x'.resolved
    requires forall n :: n in numbers ==> n in numbers' || n in x'.resolved
    ensures ResolvedIn(x', first, last, numbers')
  {
  }

  /** The same ranges, with more resolved. */
  lemma SameContent(x: Sys, x': Sys, b: Buf, b': Buf)
    requires x'.wal == x.wal && ContentOk(x, b) && forall n :: n in x.resolved ==> n in x'.resolved
    requires b'.start == b.start && b'.acked == b.acked && b'.inflight == b.inflight
    ensures ContentOk(x', b')
  {
    hide ResolvedIn;
    forall i | 0 <= i < |b.acked|
      ensures ResolvedIn(x', b.acked[i].first, b.acked[i].last, {})
    {
      ResolvedMore(x, x', b.acked[i].first, b.acked[i].last, {}, {});
    }
    forall i | 0 <= i < |b.inflight|
      ensures ResolvedIn(x', b.inflight[i].first, b.inflight[i].last, b.inflight[i].recs.Keys)
    {
      ResolvedMore(x, x', b.inflight[i].first, b.inflight[i].last, b.inflight[i].recs.Keys, b.inflight[i].recs.Keys);
    }
  }

  /** Everything acknowledged in a new range was read, because the reader misses nothing, and
      so is in its batch or was dropped. */
  lemma RangeContent(cfg: Config, x: Sys, last: nat, recs: map<nat, Record>, skipped: map<nat, Record>, mark: nat)
    requires ValidConfig(cfg) && Sound(cfg, x) && !x.wal.tainted && Can(cfg, x, Assemble(last, recs, skipped, mark))
    ensures ResolvedIn(Do(cfg, x, Assemble(last, recs, skipped, mark)), x.buf.value.cursor, last, recs.Keys)
  {
    hide Good, RangesOk, IsMark, ContentOk, MarkOk, OnDisk, DurableReal, Rising, CommittedKept, ResolvedSeen, Visible, DoomedOk;
    var x' := Do(cfg, x, Assemble(last, recs, skipped, mark));
    var b := x.buf.value;
    MarkSettled(b);
    StartBelow(b);
    forall k, n: nat | AckedBy(x'.wal, k, n) && b.cursor <= n <= last
      ensures n in x'.resolved || n in recs.Keys
    {
      var r := AckedRecord(x.wal, k, n);
      assert Safe(cfg, x.wal, n, r);
      OnDiskVisible(cfg, x.wal, n, r);
      VisibleIsNumber(x.wal, n, r);
      assert n in b.got;
    }
  }

  lemma StartBelow(b: Buf)
    requires RangesOk(b)
    ensures b.start < b.cursor
  {
  }

  lemma AssembleContent(cfg: Config, x: Sys, last: nat, recs: map<nat, Record>, skipped: map<nat, Record>, mark: nat)
    requires ValidConfig(cfg) && Sound(cfg, x) && Can(cfg, x, Assemble(last, recs, skipped, mark))
    ensures Content(cfg, Do(cfg, x, Assemble(last, recs, skipped, mark)))
  {
    hide Framed, AckedSafe, ResolvedIn, CanAssemble;
    var x' := Do(cfg, x, Assemble(last, recs, skipped, mark));
    if !x.wal.tainted {
      var b, b' := x.buf.value, x'.buf.value;
      RangeContent(cfg, x, last, recs, skipped, mark);
      SameContent(x, x', b, b);
      var d := Delivery(b.cursor, last, recs);
      assert recs == map[] ==> recs.Keys == {};
      if recs == map[] {
        assert b'.acked == b.acked + [Done(b.cursor, last, 0, 0)] && b'.inflight == b.inflight;
      } else {
        assert b'.inflight == b.inflight + [d] && b'.acked == b.acked;
      }
    }
  }

  lemma ResolveContent(cfg: Config, x: Sys, act: Act)
    requires ValidConfig(cfg) && Sound(cfg, x) && Can(cfg, x, act) && (act.Resolve? || act.Abandon?)
    ensures Content(cfg, Do(cfg, x, act))
  {
    hide Framed, AckedSafe, ResolvedIn, IsMark;
    var x' := Do(cfg, x, act);
    if !x.wal.tainted {
      var b, b', i := x.buf.value, x'.buf.value, act.i;
      var d := b.inflight[i];
      SameContent(x, x', b, b);
      assert forall j :: 0 <= j < |b'.inflight| ==> b'.inflight[j] == b.inflight[if j < i then j else j + 1];
      if act.Resolve? {
        ResolvedMore(x, x', d.first, d.last, d.recs.Keys, {});
        assert b'.acked == b.acked + [RangeOf(d)];
      }
    }
  }

  lemma PersistContent(cfg: Config, x: Sys, act: Act)
    requires ValidConfig(cfg) && Sound(cfg, x) && Can(cfg, x, act) && (act.Persist? || act.PersistDone? || act.Read?)
    ensures Content(cfg, Do(cfg, x, act))
  {
    hide Good, AckedSafe, IsMark, RangesOk, ContentOk, DurableReal, GoneOk, Rising, CommittedKept, ResolvedSeen, Yields;
    var x' := Do(cfg, x, act);
    if !x.wal.tainted {
      SameContent(x, x', x.buf.value, x'.buf.value);
      if act.Persist? {
        MarkResolved(x, x.buf.value);
      }
    }
  }

  // ---- every act -----------------------------------------------------------------------------

  lemma SoundStep(cfg: Config, x: Sys, act: Act)
    requires ValidConfig(cfg) && cfg.fsync && Sound(cfg, x) && Can(cfg, x, act)
    ensures Sound(cfg, Do(cfg, x, act))
  {
    hide Framed, Content, Apply, Enabled, DoRecover, Yields;
    FramedStep(cfg, x, act);
    match act {
      case Log(step) => LogContent(cfg, x, step);
      case Open => OpenContent(cfg, x);
      case Read(_, _) => PersistContent(cfg, x, act);
      case Assemble(last, recs, skipped, mark) => AssembleContent(cfg, x, last, recs, skipped, mark);
      case Resolve(_, _, _) => ResolveContent(cfg, x, act);
      case Abandon(_) => ResolveContent(cfg, x, act);
      case Persist => PersistContent(cfg, x, act);
      case PersistDone => PersistContent(cfg, x, act);
    }
  }

  lemma {:induction false} LifeSound(cfg: Config, xs: seq<Sys>, acts: seq<Act>, i: nat)
    requires ValidConfig(cfg) && cfg.fsync && IsLife(cfg, xs, acts) && i < |xs|
    ensures Sound(cfg, xs[i])
  {
    hide Framed, Content, Can, Do;
    if i == 0 {
      FramedEmpty(cfg);
      ContentEmpty(cfg);
    } else {
      LifeSound(cfg, xs, acts, i - 1);
      assert Leads(cfg, xs[i - 1], acts[i - 1], xs[i]);
      SoundStep(cfg, xs[i - 1], acts[i - 1]);
    }
  }

  lemma ContentEmpty(cfg: Config)
    ensures Content(cfg, Empty)
  {
    AckedFresh(cfg);
  }

  // ---- the guarantees --------------------------------------------------------------------------

  /** At-least-once over whole lives. In a mode that fsyncs, for every interleaving of
      writes, commits, rollbacks (failed ones too), reads, deliveries, checkpoints,
      truncation, process and machine crashes and reopenings in which no Close of a log
      whose rollback failed gave RESERVED back: a record whose round was told nil is itself
      resolved, or whole on stable storage above the checkpoint. */
  lemma AtLeastOnce(cfg: Config, xs: seq<Sys>, acts: seq<Act>, i: nat, k: int, n: nat)
    requires ValidConfig(cfg) && cfg.fsync && IsLife(cfg, xs, acts) && i < |xs|
    requires !xs[i].wal.tainted && AckedBy(xs[i].wal, k, n)
    ensures var x, r := xs[i], AckedRecord(xs[i].wal, k, n);
            (n in x.resolved && x.resolved[n].rec == r) || (n > x.ckpt && OnDisk(cfg, x.wal.disk.files, n, r))
  {
    hide Framed, Content, Can, Do;
    LifeSound(cfg, xs, acts, i);
    UnresolvedInLog(cfg, xs[i], k, n);
  }

  lemma {:induction false} LifeBears(cfg: Config, xs: seq<Sys>, acts: seq<Act>, i: nat, j: nat)
    requires ValidConfig(cfg) && IsLife(cfg, xs, acts) && i < j < |xs|
    requires acts[i].Log? && Staged(xs[i].wal, acts[i].step, xs[i + 1].wal)
    ensures Bears(xs[j].wal, xs[i].wal.mem.value.cur, xs[i].wal.mem.value.nextLSN, acts[i].step.payloads)
    ensures acts[i].step.payloads != []
    decreases j - i
  {
    hide Framed, Can, Do, Bears;
    LifeFramed(cfg, xs, acts, j - 1);
    FramedGood(cfg, xs[j - 1]);
    assert Leads(cfg, xs[j - 1], acts[j - 1], xs[j]);
    if i + 1 == j {
      StagedAct(cfg, xs[i], acts[i]);
    } else {
      LifeBears(cfg, xs, acts, i, j - 1);
      BearsAct(cfg, xs[j - 1], acts[j - 1], xs[i].wal.mem.value.cur, xs[i].wal.mem.value.nextLSN, acts[i].step.payloads);
    }
  }

  lemma StagedAct(cfg: Config, x: Sys, act: Act)
    requires Good(cfg, x.wal) && Can(cfg, x, act) && act.Log? && Staged(x.wal, act.step, Do(cfg, x, act).wal)
    ensures Bears(Do(cfg, x, act).wal, x.wal.mem.value.cur, x.wal.mem.value.nextLSN, act.step.payloads)
    ensures act.step.payloads != []
  {
    hide Good, Apply, Bears;
    StagedBears(cfg, x.wal, act.step);
  }

  lemma BearsAct(cfg: Config, x: Sys, act: Act, r: nat, first: nat, payloads: seq<Bytes>)
    requires Good(cfg, x.wal) && Can(cfg, x, act) && payloads != [] && Bears(x.wal, r, first, payloads)
    ensures Bears(Do(cfg, x, act).wal, r, first, payloads)
  {
    hide Good, Apply, Bears, Enabled, DoRecover, Yields, CanAssemble;
    if act.Log? {
      BearsStep(cfg, x.wal, act.step, r, first, payloads);
    } else if act.Open? {
      RecoverApplies(cfg, x.wal);
      BearsStep(cfg, x.wal, Recover, r, first, payloads);
    }
  }

  /** The same from the writer's side: of every payload that was staged and whose round was
      told nil, the payload itself, under the number its writer was told, is resolved or
      whole on stable storage above the checkpoint. */
  lemma WrittenAtLeastOnce(cfg: Config, xs: seq<Sys>, acts: seq<Act>, i: nat, j: nat, k: nat)
    requires ValidConfig(cfg) && cfg.fsync && IsLife(cfg, xs, acts) && i < j < |xs| && !xs[j].wal.tainted
    requires acts[i].Log? && Staged(xs[i].wal, acts[i].step, xs[i + 1].wal) && k < |acts[i].step.payloads|
    ensures var x, r, n := xs[j], xs[i].wal.mem.value.cur, xs[i].wal.mem.value.nextLSN + k;
            && r < |x.wal.rounds|
            && (x.wal.rounds[r].verdict.Committed? ==>
                  || (n in x.resolved && x.resolved[n].rec.payload == acts[i].step.payloads[k])
                  || (n > x.ckpt && exists rec :: OnDisk(cfg, x.wal.disk.files, n, rec) && rec.payload == acts[i].step.payloads[k]))
  {
    hide Leads, OnDisk;
    LifeBears(cfg, xs, acts, i, j);
    var r, n := xs[i].wal.mem.value.cur, xs[i].wal.mem.value.nextLSN + k;
    if xs[j].wal.rounds[r].verdict.Committed? {
      AtLeastOnce(cfg, xs, acts, j, r, n);
    }
  }

  /** Open replays what is not resolved: its flusher starts at or below it, and a reader can
      be given it. */
  lemma OpenReplays(cfg: Config, x: Sys, k: int, n: nat)
    requires ValidConfig(cfg) && cfg.fsync && Sound(cfg, x) && !x.wal.tainted && Can(cfg, x, Open)
    requires AckedBy(x.wal, k, n) && n !in x.resolved
    ensures var x' := Do(cfg, x, Open);
            && x'.buf.Some? && x'.buf.value.cursor <= n
            && Visible(x'.wal, n, AckedRecord(x.wal, k, n))
  {
    hide Frames, ScanBytes, DoRecover, Shape, History, Visible, OnDisk, CheckOk, DurableReal, Rising, CommittedKept, ResolvedSeen, Apply, Enabled;
    var x' := Do(cfg, x, Open);
    SoundStep(cfg, x, Open);
    RecoverTaint(cfg, x.wal);
    SameRounds(cfg, x, k, n);
    UnresolvedInLog(cfg, x', k, n);
    var r := AckedRecord(x.wal, k, n);
    assert Safe(cfg, x'.wal, n, r);
    OnDiskVisible(cfg, x'.wal, n, r);
  }

  // ---- after any crash ---------------------------------------------------------------------------

  /** Every recovery of the life starts from bytes that are on stable storage. */
  ghost predicate StableLife(xs: seq<Sys>, acts: seq<Act>) {
    && |xs| == |acts| + 1
    && forall i :: 0 <= i < |acts| && (acts[i].Open? || (acts[i].Log? && acts[i].step.Recover?)) ==>
         TailStable(xs[i].wal.disk.files)
  }

  lemma {:induction false} LifeSynced(cfg: Config, xs: seq<Sys>, acts: seq<Act>, i: nat)
    requires ValidConfig(cfg) && cfg.fsync && IsLife(cfg, xs, acts) && StableLife(xs, acts) && i < |xs|
    ensures SyncedOk(cfg, xs[i].wal)
  {
    hide Framed, Can, SyncedOk, Enabled, Apply, DoRecover, TailStable, Yields;
    if i == 0 {
      SyncedFresh(cfg);
    } else {
      LifeSynced(cfg, xs, acts, i - 1);
      LifeFramed(cfg, xs, acts, i - 1);
      var x, act := xs[i - 1], acts[i - 1];
      assert Leads(cfg, x, act, xs[i]);
      SyncedAct(cfg, x, act);
    }
  }

  lemma SyncedAct(cfg: Config, x: Sys, act: Act)
    requires ValidConfig(cfg) && cfg.fsync && Framed(cfg, x) && Can(cfg, x, act) && SyncedOk(cfg, x.wal)
    requires act.Open? || (act.Log? && act.step.Recover?) ==> TailStable(x.wal.disk.files)
    ensures SyncedOk(cfg, Do(cfg, x, act).wal)
  {
    hide Good, DurableReal, GoneOk, Rising, CommittedKept, CheckOk, BufOk, SyncedOk, Enabled, Apply, DoRecover, TailStable, Yields, CanAssemble;
    if act.Log? {
      SyncedStep(cfg, x.wal, act.step);
    } else if act.Open? {
      RecoverApplies(cfg, x.wal);
      SyncedStep(cfg, x.wal, Recover);
    }
  }

  predicate IsCrash(step: Step) {
    step.ProcessCrash? || step.MachineCrash?
  }

  /** Whatever a crash takes, the directory opens. */
  lemma CrashOpens(cfg: Config, s: State, crash: Step)
    requires ValidConfig(cfg) && Good(cfg, s) && SyncedOk(cfg, s) && IsCrash(crash) && Enabled(cfg, s, crash)
    ensures Enabled(cfg, Apply(cfg, s, crash), Recover)
  {
    hide Frames, ScanBytes, Openable, RoundsOk, History, Aligned, NumbersOk, ActiveOk;
    var files := s.disk.files;
    if crash.MachineCrash? {
      SyncedReopens(cfg, files, crash.kept);
    } else {
      var kept := seq(|files|, i requires 0 <= i < |files| => |files[i].bytes|);
      forall i | 0 <= i < |files| ensures files[i].synced <= kept[i] {
        assert FileOk(cfg, files[i]);
      }
      SyncedReopens(cfg, files, kept);
      OpenableSame(cfg, Survivors(files, kept), files);
    }
  }

  lemma OpenableSame(cfg: Config, files: seq<File>, files': seq<File>)
    requires Openable(cfg, files) && |files'| == |files|
    requires forall i :: 0 <= i < |files| ==>
               files'[i].base == files[i].base && files'[i].prevEnd == files[i].prevEnd && files'[i].bytes == files[i].bytes
    ensures Openable(cfg, files')
  {
    hide ScanBytes;
    forall i | 0 <= i < |files| ensures ScanFile(cfg, files'[i]) == ScanFile(cfg, files[i]) {
    }
  }

  /** Nothing acknowledged is lost, at any moment: in such a life whose recoveries start from
      stable tails, after any crash the directory opens, Open's checks pass, and the flusher
      it starts will be given every acknowledged record that is not resolved. */
  lemma CrashThenReplay(cfg: Config, xs: seq<Sys>, acts: seq<Act>, i: nat, crash: Step, k: int, n: nat)
    requires ValidConfig(cfg) && cfg.fsync && IsLife(cfg, xs, acts) && StableLife(xs, acts) && i < |xs| && !xs[i].wal.tainted
    requires IsCrash(crash) && Enabled(cfg, xs[i].wal, crash)
    requires AckedBy(xs[i].wal, k, n) && n !in xs[i].resolved
    ensures Can(cfg, xs[i], Log(crash))
    ensures var y := Do(cfg, xs[i], Log(crash));
            && Can(cfg, y, Open)
            && var z := Do(cfg, y, Open);
               z.buf.Some? && z.buf.value.cursor <= n && Visible(z.wal, n, AckedRecord(xs[i].wal, k, n))
  {
    hide Framed, Content, Apply, Enabled, SyncedOk, DoRecover, Openable, Visible;
    var x := xs[i];
    LifeSound(cfg, xs, acts, i);
    LifeSynced(cfg, xs, acts, i);
    FramedGood(cfg, x);
    CrashOpens(cfg, x.wal, crash);
    CrashStops(cfg, x.wal, crash, k, n);
    var y := Do(cfg, x, Log(crash));
    SoundStep(cfg, x, Log(crash));
    CrashedCanOpen(cfg, y);
    OpenReplays(cfg, y, k, n);
  }

  lemma FramedGood(cfg: Config, x: Sys)
    requires Framed(cfg, x)
    ensures Good(cfg, x.wal)
  {
  }

  lemma CrashedCanOpen(cfg: Config, y: Sys)
    requires Framed(cfg, y) && y.wal.mem.None? && Enabled(cfg, y.wal, Recover)
    ensures Can(cfg, y, Open)
  {
    hide Snappable, CommittedKept, BufOk, Lasting, DoRecover, Enabled;
    RecoveredHead(cfg, y.wal, y.ckpt);
  }

  lemma CrashStops(cfg: Config, s: State, crash: Step, k: int, n: nat)
    requires IsCrash(crash) && Enabled(cfg, s, crash) && AckedBy(s, k, n)
    ensures var s' := Apply(cfg, s, crash);
            s'.mem.None? && s'.tainted == s.tainted && s'.rounds == s.rounds && AckedBy(s', k, n)
  {
    hide Frames, ScanBytes;
  }
}
