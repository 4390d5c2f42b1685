/** In a mode that fsyncs, what a round was told nil about is on stable storage until
    Truncate deletes it. */
module WalDurability {
  import opened RecordFormat
  import opened SegmentScan
  import opened Wal
  import opened WalShape
  import opened WalHistory
  import opened WalRuns

  /** The file holds record r under number n, whole, on stable storage. */
  ghost predicate Holds(cfg: Config, f: File, n: nat, r: Record) {
    && f.base <= n < End(f) && f.written[n - f.base] == r
    && |Frames(cfg.crc, f.written[..n - f.base + 1])| <= f.synced
  }

  ghost predicate OnDisk(cfg: Config, files: seq<File>, n: nat, r: Record) {
    exists i :: 0 <= i < |files| && Holds(cfg, files[i], n, r)
  }

  /** Nothing above the last deleted number has been deleted. */
  ghost predicate GoneOk(s: State) {
    if s.disk.files == [] then s.gone == 0 else s.gone <= s.disk.files[0].prevEnd
  }

  /** Round k was told that it is durable, and n is one of its numbers. */
  ghost predicate AckedBy(s: State, k: int, n: nat) {
    && 0 <= k < |s.rounds| && s.rounds[k].verdict.Committed?
    && s.rounds[k].first <= n < s.rounds[k].first + |s.rounds[k].recs|
  }

  ghost predicate Safe(cfg: Config, s: State, n: nat, r: Record) {
    n <= s.gone || (OnDisk(cfg, s.disk.files, n, r) && (HasActive(s) ==> n < Settled(s.mem.value)))
  }

  ghost predicate AckedSafe(cfg: Config, s: State) {
    && GoneOk(s)
    && forall k, n: nat :: AckedBy(s, k, n) ==> Safe(cfg, s, n, s.rounds[k].recs[n - s.rounds[k].first])
  }

  // ---- effects on one file ---------------------------------------------------------

  lemma HoldsGrown(cfg: Config, f: File, f': File, n: nat, r: Record)
    requires Holds(cfg, f, n, r)
    requires f'.base == f.base && f.written <= f'.written && f.synced <= f'.synced
    ensures Holds(cfg, f', n, r)
  {
    hide Frames;
    assert f'.written[..n - f.base + 1] == f.written[..n - f.base + 1];
  }

  lemma HoldsTruncated(cfg: Config, f: File, g: Seg, n: nat, r: Record)
    requires FileOk(cfg, f) && Matches(cfg, g, f) && Holds(cfg, f, n, r) && n < g.base + g.count
    ensures Holds(cfg, Truncated(f, g.size, g.count), n, r)
  {
    hide Frames;
    var k := n - f.base + 1;
    FramesMonotone(cfg.crc, f.written, k, g.count);
    assert f.written[..g.count][..k] == f.written[..k];
  }

  lemma HoldsScanned(cfg: Config, f: File, n: nat, r: Record)
    requires ValidConfig(cfg) && FileOk(cfg, f) && Holds(cfg, f, n, r)
    ensures var g := SegOf(cfg, f); Holds(cfg, Truncated(f, g.size, g.count), n, r)
  {
    hide Frames, ScanBytes, SegOf, Whole;
    ScannedFile(cfg, f);
    WholeExact(cfg.crc, f.written, |f.bytes|, n - f.base + 1);
    HoldsTruncated(cfg, f, SegOf(cfg, f), n, r);
  }

  // ---- effects of the steps -----------------------------------------------------------

  lemma SafeActive(cfg: Config, s: State, step: Step, n: nat, r: Record)
    requires Good(cfg, s) && Enabled(cfg, s, step) && Safe(cfg, s, n, r) && n > s.gone
    requires step.Write? || step.Sync? || step.SyncFails? || step.CloseEnd?
    ensures OnDisk(cfg, Apply(cfg, s, step).disk.files, n, r)
  {
    hide Frames, ScanBytes, RoundsOk, NumbersOk, History, ActiveOk, DiskOk, Matches, Complete, Holds;
    var i :| 0 <= i < |s.disk.files| && Holds(cfg, s.disk.files[i], n, r);
    var s' := Apply(cfg, s, step);
    HoldsGrown(cfg, s.disk.files[i], s'.disk.files[i], n, r);
  }

  lemma SafeRotation(cfg: Config, s: State, step: Step, n: nat, r: Record)
    requires Good(cfg, s) && Enabled(cfg, s, step) && Safe(cfg, s, n, r) && n > s.gone
    requires step.CreateNext? || step.LinkNext? || step.LinkFails?
    ensures OnDisk(cfg, Apply(cfg, s, step).disk.files, n, r)
  {
    hide Frames, ScanBytes, RoundsOk, NumbersOk, History, DiskOk, Matches, Complete;
    var i :| 0 <= i < |s.disk.files| && Holds(cfg, s.disk.files[i], n, r);
    var s' := Apply(cfg, s, step);
    assert i < |s'.disk.files|;
    HoldsGrown(cfg, s.disk.files[i], s'.disk.files[i], n, r);
  }

  lemma SafeRollback(cfg: Config, s: State, step: Step, n: nat, r: Record)
    requires Good(cfg, s) && Enabled(cfg, s, step) && Safe(cfg, s, n, r) && n > s.gone
    requires step.Rollback? || step.RollbackFails?
    ensures OnDisk(cfg, Apply(cfg, s, step).disk.files, n, r)
  {
    hide Frames, ScanBytes, RoundsOk, NumbersOk, History, ActiveOk, DiskOk, Matches, Complete, Holds;
    var i :| 0 <= i < |s.disk.files| && Holds(cfg, s.disk.files[i], n, r);
    var s' := Apply(cfg, s, step);
    var m := s.mem.value;
    if i == ActiveIndex(m) {
      ActiveMatches(cfg, s);
      HoldsTruncated(cfg, ActiveFile(s), Active(m), n, r);
      var cut := Truncated(ActiveFile(s), Active(m).size, Active(m).count);
      if step.Rollback? {
        HoldsGrown(cfg, cut, SyncTo(cut, |cut.bytes|), n, r);
      }
      assert Holds(cfg, s'.disk.files[i], n, r);
    } else {
      assert s'.disk.files[i] == s.disk.files[i];
    }
  }

  lemma SafeRemove(cfg: Config, s: State, n: nat, r: Record)
    requires Good(cfg, s) && Enabled(cfg, s, TruncateRemove) && Safe(cfg, s, n, r) && n > s.gone
    ensures n <= DoTruncateRemove(s).gone || OnDisk(cfg, DoTruncateRemove(s).disk.files, n, r)
  {
    hide Frames, ScanBytes, RoundsOk, NumbersOk, History, ActiveOk, DiskOk, Matches, Complete;
    var i :| 0 <= i < |s.disk.files| && Holds(cfg, s.disk.files[i], n, r);
    if i > 0 {
      assert DoTruncateRemove(s).disk.files[i - 1] == s.disk.files[i];
    }
  }

  lemma SafeCrash(cfg: Config, s: State, kept: seq<nat>, n: nat, r: Record)
    requires Good(cfg, s) && Enabled(cfg, s, MachineCrash(kept)) && OnDisk(cfg, s.disk.files, n, r)
    ensures OnDisk(cfg, DoMachineCrash(s, kept).disk.files, n, r)
  {
    hide Frames, ScanBytes, RoundsOk, NumbersOk, History, ActiveOk, Aligned;
    var i :| 0 <= i < |s.disk.files| && Holds(cfg, s.disk.files[i], n, r);
    HoldsGrown(cfg, s.disk.files[i], DoMachineCrash(s, kept).disk.files[i], n, r);
  }

  lemma SafeTrimmed(cfg: Config, files: seq<File>, n: nat, r: Record)
    requires ValidConfig(cfg) && DiskOk(cfg, files) && OnDisk(cfg, files, n, r)
    ensures OnDisk(cfg, Trimmed(cfg, files), n, r)
  {
    hide Frames, ScanBytes, SegOf, Holds;
    var i :| 0 <= i < |files| && Holds(cfg, files[i], n, r);
    if i == |files| - 1 {
      HoldsScanned(cfg, files[i], n, r);
    }
    assert Holds(cfg, Trimmed(cfg, files)[i], n, r);
  }

  lemma SafeRecovered(cfg: Config, s: State, n: nat, r: Record)
    requires ValidConfig(cfg) && Good(cfg, s) && Enabled(cfg, s, Recover) && OnDisk(cfg, s.disk.files, n, r)
    ensures Safe(cfg, DoRecover(cfg, s), n, r)
  {
    hide Frames, ScanBytes, SegOf, Trimmed, Openable, Contents, Holds, History, RoundsOk, NumbersOk, ActiveOk, Whole;
    var s' := DoRecover(cfg, s);
    var t := Trimmed(cfg, s.disk.files);
    SafeTrimmed(cfg, s.disk.files, n, r);
    var i :| 0 <= i < |t| && Holds(cfg, t[i], n, r);
    assert s'.disk.files[i] == t[i];
    ShapeRecover(cfg, s);
    OnDiskSettled(cfg, s', i, n, r);
  }

  /** In a freshly recovered log everything in the files is settled. */
  lemma OnDiskSettled(cfg: Config, s: State, i: int, n: nat, r: Record)
    requires Shape(cfg, s) && HasActive(s) && s.mem.value.pc.Idle? && !s.mem.value.broken
    requires 0 <= i < |s.disk.files| && Holds(cfg, s.disk.files[i], n, r)
    ensures n < Settled(s.mem.value)
  {
    hide Frames, ScanBytes, RoundsOk, NumbersOk;
    ActiveMatches(cfg, s);
    var k := ActiveIndex(s.mem.value);
    if i < k {
      FilesOrdered(cfg, s.disk.files, i, k);
    }
  }

  /** Nothing lowers the settled boundary while a process lives. */
  lemma SettledMonotone(cfg: Config, s: State, step: Step)
    requires Good(cfg, s) && Enabled(cfg, s, step) && s.mem.Some? && Apply(cfg, s, step).mem.Some?
    ensures HasActive(s) && HasActive(Apply(cfg, s, step)) ==>
              Settled(Apply(cfg, s, step).mem.value) >= Settled(s.mem.value)
  {
    hide Frames, ScanBytes, DiskOk, RoundsOk, History, Tagged, Drop, Matches, Complete, ActiveOk, Aligned;
    match step {
      case LinkNext => SettledMoves(cfg, s, step);
      case PublishSize => SettledMoves(cfg, s, step);
      case SettleOk => SettledMoves(cfg, s, step);
      case TruncateEnd => SettledMoves(cfg, s, step);
      case _ => hide NumbersOk; SettledStays(cfg, s, step);
    }
  }

  lemma SettledMoves(cfg: Config, s: State, step: Step)
    requires Good(cfg, s) && Enabled(cfg, s, step)
    requires step.LinkNext? || step.PublishSize? || step.SettleOk? || step.TruncateEnd?
    ensures HasActive(s) && HasActive(Apply(cfg, s, step)) ==>
              Settled(Apply(cfg, s, step).mem.value) >= Settled(s.mem.value)
  {
    hide Frames, ScanBytes, DiskOk, RoundsOk, History, Matches, Complete, Aligned;
  }

  /** Steps of goroutines other than the committer. */
  predicate Beside(step: Step) {
    step.Stage? || step.TruncateBegin? || step.TruncateRemove? || step.CloseBegin? || step.CloseReserve? || step.Take?
  }

  lemma SettledStays(cfg: Config, s: State, step: Step)
    requires Enabled(cfg, s, step) && s.mem.Some? && Apply(cfg, s, step).mem.Some?
    requires !step.LinkNext? && !step.PublishSize? && !step.SettleOk? && !step.TruncateEnd? && !step.Recover?
    ensures HasActive(s) && HasActive(Apply(cfg, s, step)) ==>
              Settled(Apply(cfg, s, step).mem.value) == Settled(s.mem.value)
  {
    hide Frames, ScanBytes, Tagged, Drop, Contents, Numbered, SegOf, Openable;
    if Beside(step) {
      SettledBeside(cfg, s, step);
    } else {
      var m, m' := s.mem.value, Apply(cfg, s, step).mem.value;
      assert m'.segs == m.segs;
    }
  }

  lemma SettledBeside(cfg: Config, s: State, step: Step)
    requires Enabled(cfg, s, step) && s.mem.Some? && Apply(cfg, s, step).mem.Some? && Beside(step)
    ensures HasActive(s) && HasActive(Apply(cfg, s, step)) ==>
              Settled(Apply(cfg, s, step).mem.value) == Settled(s.mem.value)
  {
    hide Frames, Tagged, Drop;
  }

  lemma SafeStep(cfg: Config, s: State, step: Step, n: nat, r: Record)
    requires ValidConfig(cfg) && Good(cfg, s) && GoneOk(s) && Enabled(cfg, s, step) && Safe(cfg, s, n, r)
    ensures Safe(cfg, Apply(cfg, s, step), n, r)
  {
    hide Good, OnDisk, Frames, ScanBytes, Enabled, Apply;
    GoneMonotone(cfg, s, step);
    if n > s.gone {
      if step.Recover? {
        SafeRecoverStep(cfg, s, n, r);
      } else {
        var s' := Apply(cfg, s, step);
        OnDiskStep(cfg, s, step, n, r);
        OnlyRecoverOpens(cfg, s, step);
        if s'.mem.Some? {
          GoodActive(cfg, s);
          SettledMonotone(cfg, s, step);
        }
      }
    }
  }

  lemma OnlyRecoverOpens(cfg: Config, s: State, step: Step)
    requires Enabled(cfg, s, step) && !step.Recover?
    ensures Apply(cfg, s, step).mem.Some? ==> s.mem.Some?
  {
    hide Frames, ScanBytes, Openable;
  }

  lemma SafeRecoverStep(cfg: Config, s: State, n: nat, r: Record)
    requires ValidConfig(cfg) && Good(cfg, s) && Enabled(cfg, s, Recover) && Safe(cfg, s, n, r) && n > s.gone
    ensures Safe(cfg, Apply(cfg, s, Recover), n, r)
  {
    hide Good, OnDisk, Frames, ScanBytes, Openable, DoRecover;
    SafeRecovered(cfg, s, n, r);
  }

  /** A record on stable storage stays there until its file is deleted. */
  lemma OnDiskStep(cfg: Config, s: State, step: Step, n: nat, r: Record)
    requires ValidConfig(cfg) && Good(cfg, s) && GoneOk(s) && Enabled(cfg, s, step) && Safe(cfg, s, n, r) && n > s.gone
    requires !step.Recover?
    ensures n <= Apply(cfg, s, step).gone || OnDisk(cfg, Apply(cfg, s, step).disk.files, n, r)
  {
    hide Good, OnDisk, Frames, ScanBytes, Contents, Trimmed, SegOf, Drop, Tagged, Numbered, Settled;
    match step {
      case Write(_, _) => SafeActive(cfg, s, step, n, r);
      case Sync => SafeActive(cfg, s, step, n, r);
      case SyncFails(_) => SafeActive(cfg, s, step, n, r);
      case CloseEnd(_) => SafeActive(cfg, s, step, n, r);
      case CreateNext => SafeRotation(cfg, s, step, n, r);
      case LinkNext => SafeRotation(cfg, s, step, n, r);
      case LinkFails(_) => SafeRotation(cfg, s, step, n, r);
      case Rollback => SafeRollback(cfg, s, step, n, r);
      case RollbackFails(_) => SafeRollback(cfg, s, step, n, r);
      case TruncateRemove => SafeRemove(cfg, s, n, r);
      case MachineCrash(kept) => SafeCrash(cfg, s, kept, n, r);
      case TrimTail => GoodDisk(cfg, s); SafeTrimmed(cfg, s.disk.files, n, r);
      case _ =>
    }
  }

  lemma GoodActive(cfg: Config, s: State)
    requires Good(cfg, s) && s.mem.Some?
    ensures HasActive(s)
  {
  }

  lemma GoodDisk(cfg: Config, s: State)
    requires Good(cfg, s)
    ensures DiskOk(cfg, s.disk.files)
  {
  }

  lemma GoneMonotone(cfg: Config, s: State, step: Step)
    requires ValidConfig(cfg) && Good(cfg, s) && GoneOk(s) && Enabled(cfg, s, step)
    ensures s.gone <= Apply(cfg, s, step).gone && GoneOk(Apply(cfg, s, step))
    ensures Apply(cfg, s, step).gone != s.gone ==> step.TruncateRemove?
  {
    hide Frames, ScanBytes, RoundsOk, NumbersOk, History, ActiveOk, Matches, Complete, SegOf, Contents, Tagged, Drop, Openable;
    if step.TruncateRemove? {
      assert FileOk(cfg, s.disk.files[0]);
      assert Follows(s.disk.files[0], s.disk.files[1]);
    } else {
      hide DiskOk, Shape;
      HeadStays(cfg, s, step);
    }
  }

  /** Only Truncate takes the first file away. */
  lemma HeadStays(cfg: Config, s: State, step: Step)
    requires Enabled(cfg, s, step) && !step.TruncateRemove?
    ensures var s' := Apply(cfg, s, step);
            && s'.gone == s.gone
            && (s.disk.files != [] ==> s'.disk.files != [] && s'.disk.files[0].prevEnd == s.disk.files[0].prevEnd)
            && (s.disk.files == [] ==> s'.disk.files == [] || s'.disk.files[0].prevEnd == 0)
  {
    hide Frames, ScanBytes, SegOf, Contents, Tagged, Drop, Openable, Numbered;
    var s' := Apply(cfg, s, step);
    if Beside(step) || step.SettleOk? || step.SettleErr? || step.TruncateEnd? || step.CreateFails? || step.KeepSegment? || step.PublishSize? {
      HeadUntouched(cfg, s, step);
    }
  }

  lemma HeadUntouched(cfg: Config, s: State, step: Step)
    requires Enabled(cfg, s, step) && !step.TruncateRemove?
    requires Beside(step) || step.SettleOk? || step.SettleErr? || step.TruncateEnd? || step.CreateFails? || step.KeepSegment? || step.PublishSize?
    ensures Apply(cfg, s, step).gone == s.gone && Apply(cfg, s, step).disk.files == s.disk.files
  {
    hide Frames, Tagged, Drop, Numbered;
  }

  /** Settling a round in a mode that fsyncs: all of it is on stable storage. */
  lemma SettledSafe(cfg: Config, s: State, n: nat)
    requires cfg.fsync && Good(cfg, s) && AtPoint(s, Sized) && Flying(s)
    requires s.mem.value.pc.first <= n < s.mem.value.pc.first + |InFlight(s).recs|
    ensures Safe(cfg, DoSettleOk(s), n, InFlight(s).recs[n - s.mem.value.pc.first])
  {
    hide Frames, ScanBytes, RoundsOk, History, DiskOk;
    SettlingFile(cfg, s);
    ActiveMatches(cfg, s);
    var f := ActiveFile(s);
    MatchedBytes(cfg, Active(s.mem.value), f);
    FramesSplit(cfg.crc, f.written, n - f.base + 1);
    assert Holds(cfg, f, n, InFlight(s).recs[n - s.mem.value.pc.first]);
  }

  lemma AckedStep(cfg: Config, s: State, step: Step)
    requires ValidConfig(cfg) && cfg.fsync && Good(cfg, s) && AckedSafe(cfg, s) && Enabled(cfg, s, step)
    ensures AckedSafe(cfg, Apply(cfg, s, step))
  {
    hide Good, Safe, Enabled, Apply, GoneOk;
    var s' := Apply(cfg, s, step);
    GoneMonotone(cfg, s, step);
    forall k, n: nat | AckedBy(s', k, n)
      ensures Safe(cfg, s', n, s'.rounds[k].recs[n - s'.rounds[k].first])
    {
      AckedBefore(cfg, s, step, k, n);
      if AckedBy(s, k, n) {
        SafeStep(cfg, s, step, n, s.rounds[k].recs[n - s.rounds[k].first]);
      }
    }
  }

  /** A number acknowledged after a step either was before, or the step settled it. */
  lemma AckedBefore(cfg: Config, s: State, step: Step, k: int, n: nat)
    requires ValidConfig(cfg) && cfg.fsync && Good(cfg, s) && Enabled(cfg, s, step)
    requires AckedBy(Apply(cfg, s, step), k, n)
    ensures var s' := Apply(cfg, s, step);
            || (AckedBy(s, k, n) && s'.rounds[k] == s.rounds[k])
            || Safe(cfg, s', n, s'.rounds[k].recs[n - s'.rounds[k].first])
  {
    hide Good, Safe, Apply, Enabled;
    if k < |s.rounds| {
      RoundsStep(cfg, s, step, k);
      if s.rounds[k].verdict.Undecided? {
        SettledNow(cfg, s, k, n);
      }
    } else {
      NewRoundsUndecided(cfg, s, step, k);
    }
  }

  lemma SettledNow(cfg: Config, s: State, k: nat, n: nat)
    requires cfg.fsync && Good(cfg, s) && Enabled(cfg, s, SettleOk) && s.mem.value.inflight == Some(k)
    requires AckedBy(Apply(cfg, s, SettleOk), k, n)
    ensures var s' := Apply(cfg, s, SettleOk); Safe(cfg, s', n, s'.rounds[k].recs[n - s'.rounds[k].first])
  {
    hide Frames, ScanBytes, RoundsOk, History, DiskOk, Safe, ActiveOk, Aligned;
    SettledSafe(cfg, s, n);
  }

  lemma AckedFresh(cfg: Config)
    ensures AckedSafe(cfg, Fresh)
  {
  }

  /** Over whole runs in a mode that fsyncs: a record whose round was told nil is whole
      on stable storage under its number unless Truncate has deleted it, whatever
      crashes, failed rounds and failed rollbacks happen in between. */
  lemma {:induction false} RunAckedSafe(cfg: Config, states: seq<State>, steps: seq<Step>, i: nat)
    requires ValidConfig(cfg) && cfg.fsync && IsRun(cfg, states, steps) && states[0] == Fresh && i < |states|
    ensures AckedSafe(cfg, states[i])
  {
    hide Good, AckedSafe, Enabled, Apply;
    if i == 0 {
      AckedFresh(cfg);
    } else {
      RunAckedSafe(cfg, states, steps, i - 1);
      RunGood(cfg, states, steps, i - 1);
      assert Goes(cfg, states[i - 1], steps[i - 1], states[i]);
      AckedStep(cfg, states[i - 1], steps[i - 1]);
    }
  }

  /** Nothing visible has been deleted. */
  lemma VisibleAboveGone(cfg: Config, s: State, n: nat, r: Record)
    requires Good(cfg, s) && GoneOk(s) && Visible(s, n, r)
    ensures n > s.gone
  {
    hide Frames, ScanBytes, RoundsOk, NumbersOk, ActiveOk, History, Matches, Complete;
    var i :| VisibleIn(s, i, n, r);
    assert FileOk(cfg, s.disk.files[0]);
    if i > 0 {
      FilesOrdered(cfg, s.disk.files, 0, i);
    }
  }
}
