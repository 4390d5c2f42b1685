/** When a directory opens again, and what it opens as. */
module WalReopen {
  import opened RecordFormat
  import opened SegmentScan
  import opened Wal
  import opened WalShape
  import opened WalHistory
  import opened WalRuns
  import opened WalExample

  // ---- reopening is a fixed point ----------------------------------------------

  /** The same files, apart from how much of them is on stable storage. */
  ghost predicate SameBytes(files: seq<File>, files': seq<File>) {
    && |files| == |files'|
    && forall i :: 0 <= i < |files| ==> files'[i] == files[i].(synced := files'[i].synced)
  }

  /** Files that hold exactly their records, linked, and reaching the reservation. */
  ghost predicate Steady(cfg: Config, files: seq<File>, reserved: nat) {
    && files != [] && DiskOk(cfg, files)
    && (forall i :: 0 <= i < |files| ==> files[i].bytes == Frames(cfg.crc, files[i].written))
    && End(files[|files| - 1]) > reserved
  }

  lemma RecoverSteady(cfg: Config, s: State)
    requires ValidConfig(cfg) && Good(cfg, s) && Enabled(cfg, s, Recover)
    ensures Steady(cfg, DoRecover(cfg, s).disk.files, s.disk.reserved)
  {
    hide Frames, ScanBytes, Trimmed, Resumed, Openable, Contents, SegOf, DiskOk, History;
    RecoveredFiles(cfg, s.disk.files, s.disk.reserved);
    ResumedFiles(cfg, Trimmed(cfg, s.disk.files), s.disk.reserved);
  }

  /** Recovering steady files changes nothing and adds no segment. */
  lemma RecoverSteadyAgain(cfg: Config, files: seq<File>, reserved: nat)
    requires ValidConfig(cfg) && Steady(cfg, files, reserved)
    ensures Openable(cfg, files)
    ensures Resumed(cfg, Trimmed(cfg, files), reserved) == files
  {
    hide Frames, ScanBytes;
    forall i | 0 <= i < |files|
      ensures ScanFile(cfg, files[i]) == Clean(|files[i].written|, |files[i].bytes|)
      ensures SegOf(cfg, files[i]) == Seg(files[i].base, files[i].prevEnd, |files[i].bytes|, |files[i].written|)
    {
      ScannedComplete(cfg, files[i]);
    }
    forall i, j | 0 <= i < |files| && 0 <= j < |files| && j == i + 1
      ensures files[i].base + ScanFile(cfg, files[i]).count == files[j].prevEnd + 1
    {
      assert Follows(files[i], files[j]);
    }
    var last := files[|files| - 1];
    assert Truncated(last, |last.bytes|, |last.written|) == last by {
      assert last.bytes[..|last.bytes|] == last.bytes && last.written[..|last.written|] == last.written;
      assert FileOk(cfg, last);
    }
    assert Trimmed(cfg, files) == files;
  }

  /** Recovering, then stopping without writing in any way that keeps the bytes, then
      recovering again: no further segment, and the same records, durable mark and next
      number. */
  lemma ReopenFixedPoint(cfg: Config, s: State, s2: State)
    requires ValidConfig(cfg) && Good(cfg, s) && Enabled(cfg, s, Recover)
    requires s2.mem.None? && s2.disk.reserved == s.disk.reserved
    requires SameBytes(DoRecover(cfg, s).disk.files, s2.disk.files)
    requires DiskOk(cfg, s2.disk.files)
    ensures Enabled(cfg, s2, Recover)
    ensures var s1, s3 := DoRecover(cfg, s), DoRecover(cfg, s2);
            && s3.disk == s2.disk
            && s3.mem.value.segs == s1.mem.value.segs
            && s3.mem.value.durable == s1.mem.value.durable
            && s3.mem.value.nextLSN == s1.mem.value.nextLSN
            && (forall n, r :: Visible(s3, n, r) <==> Visible(s1, n, r))
  {
    hide Frames, ScanBytes, Trimmed, Resumed, Openable, Contents, DiskOk, Visible, Good, SameBytes, SegOf, LastRecord;
    var s1, s3 := DoRecover(cfg, s), DoRecover(cfg, s2);
    RecoverSteady(cfg, s);
    SteadyBytes(cfg, s1.disk.files, s2.disk.files, s.disk.reserved);
    RecoverSteadyAgain(cfg, s2.disk.files, s2.disk.reserved);
    forall n, r
      ensures Visible(s3, n, r) <==> Visible(s1, n, r)
    {
      SameView(cfg, s1, s3, n, r);
    }
  }

  lemma SteadyBytes(cfg: Config, files: seq<File>, files': seq<File>, reserved: nat)
    requires Steady(cfg, files, reserved) && SameBytes(files, files') && DiskOk(cfg, files')
    ensures Steady(cfg, files', reserved)
    ensures SegsOf(cfg, files') == SegsOf(cfg, files)
  {
    hide Frames, ScanBytes, DiskOk;
    assert forall i :: 0 <= i < |files| ==> SegOf(cfg, files'[i]) == SegOf(cfg, files[i]);
  }

  lemma SameView(cfg: Config, s1: State, s3: State, n: nat, r: Record)
    requires s1.mem.Some? && s3.mem.Some? && s1.mem.value.segs == s3.mem.value.segs
    requires s1.mem.value.removed == s3.mem.value.removed == 0 && s1.mem.value.durable == s3.mem.value.durable
    requires SameBytes(s1.disk.files, s3.disk.files)
    ensures Visible(s3, n, r) <==> Visible(s1, n, r)
  {
    if Visible(s1, n, r) {
      var i :| VisibleIn(s1, i, n, r);
      assert VisibleIn(s3, i, n, r);
    }
    if Visible(s3, n, r) {
      var i :| VisibleIn(s3, i, n, r);
      assert VisibleIn(s1, i, n, r);
    }
  }

  /** Ways of stopping right after recovery that the fixed point allows: a process
      crash, and a machine crash when everything is on stable storage. */
  lemma CrashKeepsBytes(cfg: Config, s: State, step: Step)
    requires ValidConfig(cfg) && Good(cfg, s) && Enabled(cfg, s, Recover)
    requires var s1 := DoRecover(cfg, s); Enabled(cfg, s1, step)
    requires var s1 := DoRecover(cfg, s);
             || step.ProcessCrash?
             || (step.MachineCrash? && forall i :: 0 <= i < |s1.disk.files| ==> s1.disk.files[i].synced == |s1.disk.files[i].bytes|)
    ensures var s1 := DoRecover(cfg, s);
            var s2 := Apply(cfg, s1, step);
            && s2.mem.None? && s2.disk.reserved == s.disk.reserved
            && SameBytes(s1.disk.files, s2.disk.files) && DiskOk(cfg, s2.disk.files)
  {
    hide Frames, ScanBytes, Trimmed, Resumed, Openable, Contents, DiskOk, History, SegOf;
    var s1 := DoRecover(cfg, s);
    ShapeRecover(cfg, s);
    ShapeStep(cfg, s1, step);
  }

  /** ... and a clean Close, which finds no part of the reservation to give back. */
  lemma CloseKeepsBytes(cfg: Config, s: State, claim: CellWrite, synced: bool)
    requires ValidConfig(cfg) && Good(cfg, s) && Enabled(cfg, s, Recover)
    ensures var s1 := DoRecover(cfg, s);
            && Enabled(cfg, s1, CloseBegin)
            && var c1 := Apply(cfg, s1, CloseBegin);
               && Enabled(cfg, c1, CloseReserve(claim))
               && var c2 := Apply(cfg, c1, CloseReserve(claim));
                  && Enabled(cfg, c2, CloseEnd(synced))
                  && var s2 := Apply(cfg, c2, CloseEnd(synced));
                     && s2.mem.None? && s2.disk.reserved == s.disk.reserved
                     && SameBytes(s1.disk.files, s2.disk.files) && DiskOk(cfg, s2.disk.files)
  {
    hide Frames, ScanBytes, Contents, DiskOk, Shape, Good, DoRecover;
    var s1 := DoRecover(cfg, s);
    RecoveredIdle(cfg, s);
    var c1 := s1.(mem := Some(s1.mem.value.(closed := true)));
    ShapeCloseBegin(cfg, s1);
    assert DoCloseReserve(c1, claim) == c1;
    ShapeClose(cfg, c1, CloseEnd(synced));
    ShapeDisk(cfg, DoCloseEnd(c1, synced));
  }

  /** A freshly opened log is idle and has nothing of its reservation left. */
  /** A drained log that is not broken: its files hold exactly their records and end where
      the next record would be numbered. */
  lemma DrainedSteady(cfg: Config, s: State)
    requires ValidConfig(cfg) && Good(cfg, s) && Drained(s) && HasActive(s) && !s.mem.value.broken
    ensures s.mem.value.nextLSN > 0
    ensures Steady(cfg, s.disk.files, s.mem.value.nextLSN - 1)
    ensures End(s.disk.files[|s.disk.files| - 1]) == s.mem.value.nextLSN
    ensures ActiveIndex(s.mem.value) == |s.disk.files| - 1
  {
    hide Frames, ScanBytes, History, RoundsOk;
    var m := s.mem.value;
    var k := ActiveIndex(m);
    ActiveMatches(cfg, s);
    FramesLowerBound(cfg.crc, s.rounds[m.cur].recs);
    forall i | 0 <= i < |s.disk.files| ensures s.disk.files[i].bytes == Frames(cfg.crc, s.disk.files[i].written) {
      assert i < k ==> Complete(Alive(m)[i], s.disk.files[i]) && Matches(cfg, Alive(m)[i], s.disk.files[i]);
      MatchedBytes(cfg, if i < k then Alive(m)[i] else Active(m), s.disk.files[i]);
    }
  }

  /** After a clean shutdown of a log that is not broken the next process goes on exactly
      where this one stopped, in the same segment and without a gap, unless a failed write
      had left RESERVED higher than the log knew. */
  lemma CloseContinues(cfg: Config, s: State, synced: bool)
    requires ValidConfig(cfg) && Good(cfg, s) && Drained(s) && HasActive(s) && !s.mem.value.broken && !s.tainted
    requires s.mem.value.reserved >= s.mem.value.nextLSN || s.disk.reserved == s.mem.value.reserved
    ensures s.mem.value.nextLSN > 0 && HasActive(DoCloseReserve(s, Stored))
    ensures var s1 := DoCloseEnd(DoCloseReserve(s, Stored), synced);
            && Enabled(cfg, s1, Recover)
            && var s2 := DoRecover(cfg, s1);
               && s2.mem.value.nextLSN == s.mem.value.nextLSN && |s2.disk.files| == |s.disk.files|
               && s2.disk.reserved == s.mem.value.nextLSN - 1
  {
    hide Frames, ScanBytes, Shape, TagsOk, DurableOk, SeenOk, VerdictsOk, Steady, Openable, Contents, LastRecord, Trimmed, Resumed, SegOf;
    DrainedSteady(cfg, s);
    ReservedExact(cfg, s);
    var s1 := DoCloseEnd(DoCloseReserve(s, Stored), synced);
    var files := s1.disk.files;
    ClosedDisk(cfg, s, s1);
    SteadyBytes(cfg, s.disk.files, files, s.mem.value.nextLSN - 1);
    RecoverSteadyAgain(cfg, files, s.mem.value.nextLSN - 1);
    LastSteady(cfg, files, s.mem.value.nextLSN - 1);
  }

  lemma ReservedExact(cfg: Config, s: State)
    requires Good(cfg, s) && HasActive(s) && !s.tainted && s.mem.value.nextLSN > 0
    requires s.mem.value.reserved >= s.mem.value.nextLSN || s.disk.reserved == s.mem.value.reserved
    ensures DoCloseReserve(s, Stored).disk.reserved == s.mem.value.nextLSN - 1
  {
    hide Shape, TagsOk, DurableOk, SeenOk, VerdictsOk;
  }

  /** Close's last fsync changes no byte. */
  lemma ClosedDisk(cfg: Config, s: State, s1: State)
    requires Good(cfg, s) && HasActive(s) && s.mem.value.nextLSN > 0
    requires exists synced :: s1 == DoCloseEnd(DoCloseReserve(s, Stored), synced)
    ensures SameBytes(s.disk.files, s1.disk.files) && DiskOk(cfg, s1.disk.files) && s1.mem.None?
  {
    hide Frames, ScanBytes, RoundsOk, NumbersOk, ActiveOk, History;
    ActiveMatches(cfg, s);
    var k := ActiveIndex(s.mem.value);
    var f' := s1.disk.files[k];
    assert s1.disk.files == s.disk.files[k := f'];
    ReplaceFile(cfg, s.disk.files, k, f');
  }

  lemma LastSteady(cfg: Config, files: seq<File>, reserved: nat)
    requires ValidConfig(cfg) && Steady(cfg, files, reserved)
    ensures var f := files[|files| - 1]; SegOf(cfg, f).base + SegOf(cfg, f).count == End(f)
  {
    hide Frames, ScanBytes;
    ScannedComplete(cfg, files[|files| - 1]);
  }

  lemma RecoveredIdle(cfg: Config, s: State)
    requires ValidConfig(cfg) && Good(cfg, s) && Enabled(cfg, s, Recover)
    ensures var s1 := DoRecover(cfg, s);
            && Shape(cfg, s1) && HasActive(s1) && s1.disk.reserved == s.disk.reserved
            && s1.mem.value.nextLSN > s1.mem.value.reserved
            && s1.mem.value.pc.Idle? && s1.mem.value.pending == []
  {
    hide Frames, ScanBytes, Trimmed, Resumed, Openable, Contents, History, SegOf, RoundsOk;
    var s1 := DoRecover(cfg, s);
    RecoverSteady(cfg, s);
    ShapeRecover(cfg, s);
    var last := s1.disk.files[|s1.disk.files| - 1];
    LastOk(cfg, s1.disk.files);
    ScannedComplete(cfg, last);
    assert s1.mem.value.nextLSN == End(last) > s1.mem.value.reserved;
  }

  lemma ShapeDisk(cfg: Config, s: State)
    requires Shape(cfg, s)
    ensures DiskOk(cfg, s.disk.files)
  {
  }

  lemma LastOk(cfg: Config, files: seq<File>)
    requires DiskOk(cfg, files) && files != []
    ensures FileOk(cfg, files[|files| - 1])
  {
  }

  // ---- opening after a machine crash -----------------------------------------------

  /** Every file that another one records as its predecessor is entirely on stable
      storage. */
  ghost predicate LinksSynced(cfg: Config, files: seq<File>) {
    forall i :: 0 <= i < |files| - 1 ==> files[i].synced == |Frames(cfg.crc, files[i].written)|
  }

  /** Whatever a machine crash takes from this directory, it opens again. */
  ghost predicate AlwaysReopens(cfg: Config, files: seq<File>) {
    forall kept :: CrashKeeps(files, kept) ==> Openable(cfg, Survivors(files, kept))
  }

  lemma SyncedReopens(cfg: Config, files: seq<File>, kept: seq<nat>)
    requires ValidConfig(cfg) && DiskOk(cfg, files) && LinksSynced(cfg, files) && CrashKeeps(files, kept)
    ensures Openable(cfg, Survivors(files, kept))
  {
    hide Frames, ScanBytes;
    var files' := Survivors(files, kept);
    SurvivorsOk(cfg, files, kept);
    forall i | 0 <= i < |files'|
      ensures ScanFile(cfg, files'[i]).Clean? || (ScanFile(cfg, files'[i]).Torn? && i == |files'| - 1)
      ensures i < |files'| - 1 ==> ScanFile(cfg, files'[i]) == Clean(|files[i].written|, |files'[i].bytes|)
    {
      ScannedFile(cfg, files'[i]);
      if i < |files'| - 1 {
        assert FileOk(cfg, files[i]);
        assert files'[i].bytes == Frames(cfg.crc, files[i].written);
        ScannedComplete(cfg, files'[i]);
      }
    }
    forall i, j | 0 <= i < |files'| && 0 <= j < |files'| && j == i + 1
      ensures files'[i].base + ScanFile(cfg, files'[i]).count == files'[j].prevEnd + 1
    {
      assert Follows(files'[i], files'[j]);
    }
  }

  /** A predecessor that can lose a byte can leave a directory that does not open. */
  lemma UnsyncedLink(cfg: Config, files: seq<File>, i: nat) returns (kept: seq<nat>)
    requires ValidConfig(cfg) && DiskOk(cfg, files)
    requires i < |files| - 1 && files[i].synced != |Frames(cfg.crc, files[i].written)|
    ensures CrashKeeps(files, kept) && !Openable(cfg, Survivors(files, kept))
  {
    hide Frames, ScanBytes;
    kept := seq(|files|, k requires 0 <= k < |files| => files[k].synced);
    forall k | 0 <= k < |files|
      ensures files[k].synced <= |files[k].bytes|
    {
      assert FileOk(cfg, files[k]);
    }
    var files' := Survivors(files, kept);
    SurvivorsOk(cfg, files, kept);
    ScannedFile(cfg, files'[i]);
    assert FileOk(cfg, files[i]);
    assert Follows(files'[i], files'[i + 1]);
    var j := i + 1;
    assert files'[i].base + ScanFile(cfg, files'[i]).count != files'[j].prevEnd + 1;
  }

  /** An undamaged directory opens after every possible machine crash if and only if
      each linked-over segment is entirely on stable storage. */
  lemma ReopensIffLinksSynced(cfg: Config, files: seq<File>)
    requires ValidConfig(cfg) && DiskOk(cfg, files)
    ensures AlwaysReopens(cfg, files) <==> LinksSynced(cfg, files)
  {
    hide Frames, ScanBytes, Openable, DiskOk;
    if LinksSynced(cfg, files) {
      forall kept | CrashKeeps(files, kept)
        ensures Openable(cfg, Survivors(files, kept))
      {
        SyncedReopens(cfg, files, kept);
      }
    } else {
      var i :| 0 <= i < |files| - 1 && files[i].synced != |Frames(cfg.crc, files[i].written)|;
      var kept := UnsyncedLink(cfg, files, i);
    }
  }

  // ---- which steps keep it so ---------------------------------------------------------

  /** In a mode that fsyncs, linked-over files and published bytes are stable. */
  ghost predicate SyncedOk(cfg: Config, s: State) {
    && LinksSynced(cfg, s.disk.files)
    && (HasActive(s) ==> ActiveFile(s).synced >= Active(s.mem.value).size)
  }

  /** Everything that survives in the last file is on stable storage. */
  predicate TailStable(files: seq<File>) {
    files != [] ==> files[|files| - 1].synced == |files[|files| - 1].bytes|
  }

  lemma SyncedWriting(cfg: Config, s: State, step: Step)
    requires cfg.fsync && Good(cfg, s) && SyncedOk(cfg, s) && Enabled(cfg, s, step)
    requires step.Write? || step.Sync? || step.SyncFails? || step.Rollback? || step.RollbackFails?
             || step.PublishSize?
    ensures SyncedOk(cfg, Apply(cfg, s, step))
  {
    if step.PublishSize? {
      hide SyncedOk, Good;
      SyncedPublish(cfg, s);
    } else {
      hide Frames, ScanBytes, Good, FileOk, Matches;
      WritingActive(cfg, s, step);
    }
  }

  /** Only the active file, which is the last one, changes, and its synced bytes stay at or
      above the published size. */
  lemma WritingActive(cfg: Config, s: State, step: Step)
    requires Good(cfg, s) && Enabled(cfg, s, step)
    requires step.Write? || step.Sync? || step.SyncFails? || step.Rollback? || step.RollbackFails?
    ensures var s', k := Apply(cfg, s, step), ActiveIndex(s.mem.value);
            && k == |s.disk.files| - 1 && HasActive(s') && s'.mem.value.segs == s.mem.value.segs && ActiveIndex(s'.mem.value) == k
            && s'.disk.files == s.disk.files[k := s'.disk.files[k]]
            && (ActiveFile(s).synced >= Active(s.mem.value).size ==> ActiveFile(s').synced >= Active(s.mem.value).size)
  {
    hide Frames, ScanBytes, RoundsOk, NumbersOk, History, DiskOk;
    ActiveMatches(cfg, s);
    hide Shape;
    var s', k := Apply(cfg, s, step), ActiveIndex(s.mem.value);
    assert s'.disk.files == s.disk.files[k := s'.disk.files[k]];
  }

  lemma SyncedPublish(cfg: Config, s: State)
    requires cfg.fsync && Good(cfg, s) && SyncedOk(cfg, s) && Enabled(cfg, s, PublishSize)
    ensures SyncedOk(cfg, Apply(cfg, s, PublishSize))
  {
    hide Frames, ScanBytes, RoundsOk, NumbersOk, History, DiskOk, LinksSynced;
    ActiveMatches(cfg, s);
    ShapePublishSize(cfg, s);
  }

  lemma SyncedRotation(cfg: Config, s: State, step: Step)
    requires cfg.fsync && Good(cfg, s) && SyncedOk(cfg, s) && Enabled(cfg, s, step)
    requires step.CreateNext? || step.LinkNext? || step.LinkFails?
    ensures SyncedOk(cfg, Apply(cfg, s, step))
  {
    hide Frames, ScanBytes, Good, FileOk, Matches, Complete;
    RotatingActive(cfg, s);
  }

  /** Around a rotation the old segment's file holds exactly its published records. */
  lemma RotatingActive(cfg: Config, s: State)
    requires Good(cfg, s) && (AtPoint(s, Begin) || AtPoint(s, Created))
    ensures Active(s.mem.value).size == |ActiveFile(s).bytes| == |Frames(cfg.crc, ActiveFile(s).written)|
    ensures ActiveFile(s).synced <= |ActiveFile(s).bytes|
    ensures |s.disk.files| == ActiveIndex(s.mem.value) + (if AtPoint(s, Created) then 2 else 1)
    ensures AtPoint(s, Created) ==> s.disk.files[|s.disk.files| - 1].bytes == []
  {
    hide Frames, ScanBytes, RoundsOk, NumbersOk, History, DiskOk;
    ActiveMatches(cfg, s);
    MatchedBytes(cfg, Active(s.mem.value), ActiveFile(s));
  }

  lemma SyncedQuiet(cfg: Config, s: State, step: Step)
    requires cfg.fsync && Good(cfg, s) && SyncedOk(cfg, s) && Enabled(cfg, s, step)
    requires step.Stage? || step.Take? || step.CreateFails? || step.KeepSegment? || step.SettleOk? || step.SettleErr?
             || step.TruncateBegin? || step.TruncateEnd? || step.CloseBegin? || step.CloseReserve? || step.ProcessCrash?
    ensures SyncedOk(cfg, Apply(cfg, s, step))
  {
    hide Frames, ScanBytes, Good, LinksSynced, Tagged, Drop, Numbered;
    var s' := Apply(cfg, s, step);
    assert s'.disk.files == s.disk.files;
    assert HasActive(s') ==> HasActive(s) && Active(s'.mem.value) == Active(s.mem.value);
  }

  lemma SyncedRemove(cfg: Config, s: State)
    requires Good(cfg, s) && SyncedOk(cfg, s) && Enabled(cfg, s, TruncateRemove)
    ensures SyncedOk(cfg, DoTruncateRemove(s))
  {
    hide Frames, ScanBytes, RoundsOk, NumbersOk, History, ActiveOk, DiskOk, Matches, Complete;
    var s' := DoTruncateRemove(s);
    assert forall i :: 0 <= i < |s'.disk.files| ==> s'.disk.files[i] == s.disk.files[i + 1];
    assert ActiveFile(s') == ActiveFile(s);
  }

  lemma SyncedClose(cfg: Config, s: State, synced: bool)
    requires Good(cfg, s) && SyncedOk(cfg, s) && Enabled(cfg, s, CloseEnd(synced))
    ensures SyncedOk(cfg, DoCloseEnd(s, synced))
    ensures synced ==> TailStable(DoCloseEnd(s, synced).disk.files)
  {
    hide Frames, ScanBytes, RoundsOk, NumbersOk, History, ActiveOk;
    ActiveMatches(cfg, s);
  }

  lemma SyncedCrash(cfg: Config, s: State, kept: seq<nat>)
    requires Good(cfg, s) && SyncedOk(cfg, s) && Enabled(cfg, s, MachineCrash(kept))
    ensures SyncedOk(cfg, DoMachineCrash(s, kept))
    ensures TailStable(DoMachineCrash(s, kept).disk.files)
  {
    hide Frames, ScanBytes, RoundsOk, Aligned, NumbersOk, History, ActiveOk;
    forall i | 0 <= i < |s.disk.files| - 1
      ensures kept[i] == |Frames(cfg.crc, s.disk.files[i].written)|
    {
      assert FileOk(cfg, s.disk.files[i]);
    }
  }

  lemma SyncedTrim(cfg: Config, s: State)
    requires SyncedOk(cfg, s) && s.mem.None?
    ensures SyncedOk(cfg, s.(disk := s.disk.(files := Trimmed(cfg, s.disk.files))))
  {
    hide Frames, ScanBytes, SegOf;
  }

  /** Recovery leaves a directory that opens after every machine crash exactly when it
      adds no segment or everything that survived in the old tail is on stable storage:
      the new segment records a link that the bytes behind it may not outlive. */
  lemma RecoverKeepsReopening(cfg: Config, s: State)
    requires ValidConfig(cfg) && Good(cfg, s) && LinksSynced(cfg, s.disk.files) && Enabled(cfg, s, Recover)
    ensures var t := Trimmed(cfg, s.disk.files);
            AlwaysReopens(cfg, DoRecover(cfg, s).disk.files) <==>
              Resumed(cfg, t, s.disk.reserved) == t || TailStable(t)
  {
    hide Frames, ScanBytes, SegOf, Openable, Contents, History, AlwaysReopens, DiskOk;
    var files := DoRecover(cfg, s).disk.files;
    var t := Trimmed(cfg, s.disk.files);
    RecoveredFiles(cfg, s.disk.files, s.disk.reserved);
    ReopensIffLinksSynced(cfg, files);
    ResumedFiles(cfg, t, s.disk.reserved);
    assert LinksSynced(cfg, t);
    if files != t {
      assert files == t + [files[|files| - 1]];
      if t != [] {
        assert files[|t| - 1] == t[|t| - 1];
      }
      assert forall i :: 0 <= i < |t| - 1 ==> files[i] == t[i];
    }
  }

  lemma SyncedRecover(cfg: Config, s: State)
    requires ValidConfig(cfg) && Good(cfg, s) && SyncedOk(cfg, s) && Enabled(cfg, s, Recover)
    requires TailStable(s.disk.files)
    ensures SyncedOk(cfg, DoRecover(cfg, s))
  {
    hide Frames, ScanBytes, SegOf, Openable, Contents, History, DiskOk, Resumed, RoundsOk, Aligned, NumbersOk, ActiveOk;
    var s' := DoRecover(cfg, s);
    var files := s'.disk.files;
    var t := Trimmed(cfg, s.disk.files);
    RecoveredFiles(cfg, s.disk.files, s.disk.reserved);
    ReopensIffLinksSynced(cfg, files);
    RecoverKeepsReopening(cfg, s);
    assert TailStable(t);
    ResumedFiles(cfg, t, s.disk.reserved);
    LastOk(cfg, files);
    ScannedComplete(cfg, files[|files| - 1]);
    if files == t {
      assert files[|files| - 1].synced == |files[|files| - 1].bytes|;
    }
  }

  /** In a mode that fsyncs, every step keeps published and linked-over bytes stable,
      provided recovery does not start over bytes still in the page cache. */
  lemma SyncedStep(cfg: Config, s: State, step: Step)
    requires ValidConfig(cfg) && cfg.fsync && Good(cfg, s) && SyncedOk(cfg, s) && Enabled(cfg, s, step)
    requires step.Recover? ==> TailStable(s.disk.files)
    ensures SyncedOk(cfg, Apply(cfg, s, step))
  {
    hide Good, SyncedOk, TailStable;
    match step {
      case CreateNext => SyncedRotation(cfg, s, step);
      case LinkNext => SyncedRotation(cfg, s, step);
      case LinkFails(_) => SyncedRotation(cfg, s, step);
      case Write(_, _) => SyncedWriting(cfg, s, step);
      case Sync => SyncedWriting(cfg, s, step);
      case SyncFails(_) => SyncedWriting(cfg, s, step);
      case Rollback => SyncedWriting(cfg, s, step);
      case RollbackFails(_) => SyncedWriting(cfg, s, step);
      case PublishSize => SyncedWriting(cfg, s, step);
      case TruncateRemove => SyncedRemove(cfg, s);
      case CloseEnd(synced) => SyncedClose(cfg, s, synced);
      case MachineCrash(kept) => SyncedCrash(cfg, s, kept);
      case TrimTail => SyncedTrim(cfg, s);
      case Recover => SyncedRecover(cfg, s);
      case _ => SyncedQuiet(cfg, s, step);
    }
  }

  ghost predicate StableRecoveries(states: seq<State>, steps: seq<Step>) {
    |states| == |steps| + 1 && forall i :: 0 <= i < |steps| && steps[i].Recover? ==> TailStable(states[i].disk.files)
  }

  /** Safety over whole runs: in a mode that fsyncs, if every recovery starts from
      bytes that are on stable storage, then at every moment of the run every machine
      crash leaves a directory that opens. */
  lemma {:induction false} RunAlwaysReopens(cfg: Config, states: seq<State>, steps: seq<Step>, i: nat)
    requires ValidConfig(cfg) && cfg.fsync && IsRun(cfg, states, steps) && states[0] == Fresh
    requires StableRecoveries(states, steps) && i < |states|
    ensures SyncedOk(cfg, states[i]) && AlwaysReopens(cfg, states[i].disk.files)
  {
    hide Good, SyncedOk, AlwaysReopens, Enabled, Apply, TailStable;
    RunGood(cfg, states, steps, i);
    if i == 0 {
      SyncedFresh(cfg);
    } else {
      RunAlwaysReopens(cfg, states, steps, i - 1);
      RunGood(cfg, states, steps, i - 1);
      assert Goes(cfg, states[i - 1], steps[i - 1], states[i]);
      SyncedStep(cfg, states[i - 1], steps[i - 1]);
    }
    SyncedOpens(cfg, states[i]);
  }

  lemma SyncedFresh(cfg: Config)
    ensures SyncedOk(cfg, Fresh)
  {
  }

  lemma SyncedOpens(cfg: Config, s: State)
    requires ValidConfig(cfg) && Good(cfg, s) && SyncedOk(cfg, s)
    ensures AlwaysReopens(cfg, s.disk.files)
  {
    hide AlwaysReopens, History, LinksSynced, DiskOk;
    ReopensIffLinksSynced(cfg, s.disk.files);
  }

  // ---- the hypothesis is needed ----------------------------------------------------------

  /** The next process has linked a segment over the unsynced record; a machine crash then
      takes the record. */
  lemma RecordLost(s7: State) returns (s8: State)
    requires s7.disk == Disk([Full(1, 0, 7, 0, 0), Blank(B + 1, 1)], B)
    ensures Goes(Cfg, s7, MachineCrash([0, 0]), s8)
    ensures s8.mem.None? && s8.tainted == s7.tainted && !Openable(Cfg, s8.disk.files)
  {
    hide Frames, Frame, ScanBytes;
    Scans(7, 0);
    s8 := Apply(Cfg, s7, MachineCrash([0, 0]));
    assert s8.disk.files[0].bytes == [];
    assert s8.disk.files[0].base + ScanFile(Cfg, s8.disk.files[0]).count != s8.disk.files[1].prevEnd + 1;
  }

  /** Without that hypothesis the guarantee is false, in a mode that fsyncs every round
      and with no I/O error at all: write a record, kill the process before its fsync,
      reopen (recovery links a new segment over the record), then lose power. The
      directory no longer opens. */
  lemma PageCacheTail() returns (states: seq<State>, steps: seq<Step>)
    ensures ValidConfig(Cfg) && Cfg.fsync
    ensures IsRun(Cfg, states, steps) && states[0] == Fresh
    ensures var last := states[|states| - 1];
            last.mem.None? && !last.tainted && !Openable(Cfg, last.disk.files)
  {
    hide Openable, Enabled, Apply, DoRecover;
    var s1 := FirstOpens();
    var s2 := StageOne(s1, Disk([Blank(1, 0)], 0), [Seg(1, 0, 0, 0)], 7, 0);
    var s3 := TakeOne(s2, 7, 0);
    assert [Blank(1, 0)] == [] + [Blank(1, 0)] && [Seg(1, 0, 0, 0)] == [] + [Seg(1, 0, 0, 0)];
    var s4, s5 := WriteOne(s3, [], [], 1, 0, 7, 0);
    Crashes(s5);
    var s6 := s5.(mem := None);
    var s7 := ReopensAbove(s6, 7, 0, 0);
    var s8 := RecordLost(s7);
    hide Goes;
    states := [Fresh, s1, s2, s3, s4, s5, s6, s7, s8];
    steps := [Recover, Stage([[7]], Stored), Take, KeepSegment, Write(9, true), ProcessCrash, Recover, MachineCrash([0, 0])];
  }
}
