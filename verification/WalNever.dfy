/** Opening after a machine crash in every sync mode (writeBatch, internal/wal/wal.go): the
    next segment is on disk before the old one is synced, and in the mode that never fsyncs
    that leaves a moment in which a crash makes the directory unopenable. */
module WalNever {
  import opened RecordFormat
  import opened SegmentScan
  import opened Wal
  import opened WalShape
  import opened WalHistory
  import opened WalRuns
  import opened WalReopen
  import opened WalExample

  /** A rotation has created its segment and not yet synced the old one, which holds bytes
      that are not on stable storage. */
  ghost predicate HalfRotated(cfg: Config, s: State) {
    AtPoint(s, Created) && ActiveFile(s).synced < |Frames(cfg.crc, ActiveFile(s).written)|
  }

  /** Every segment in front of the active one is on stable storage. */
  ghost predicate FrontSynced(cfg: Config, s: State) {
    HasActive(s) ==>
      forall i :: 0 <= i < ActiveIndex(s.mem.value) ==> s.disk.files[i].synced == |Frames(cfg.crc, s.disk.files[i].written)|
  }

  predicate AllStable(files: seq<File>) {
    forall i :: 0 <= i < |files| ==> files[i].synced == |files[i].bytes|
  }

  /** Links are synced exactly outside that moment. */
  lemma SyncedIffNotHalf(cfg: Config, s: State)
    requires Good(cfg, s) && HasActive(s) && FrontSynced(cfg, s)
    ensures LinksSynced(cfg, s.disk.files) <==> !HalfRotated(cfg, s)
  {
    hide Frames, ScanBytes, RoundsOk, NumbersOk, History;
    ActiveMatches(cfg, s);
    var k := ActiveIndex(s.mem.value);
    PrefixLength(cfg, s.disk.files[k]);
    if AtPoint(s, Created) {
      assert |s.disk.files| == k + 2;
    } else {
      assert |s.disk.files| == k + 1;
    }
  }

  lemma PrefixLength(cfg: Config, f: File)
    requires FileOk(cfg, f)
    ensures f.synced <= |Frames(cfg.crc, f.written)|
  {
    hide Frames;
  }

  // ---- every step ---------------------------------------------------------------------

  lemma FrontLink(cfg: Config, s: State)
    requires Good(cfg, s) && FrontSynced(cfg, s) && Enabled(cfg, s, LinkNext)
    ensures FrontSynced(cfg, Apply(cfg, s, LinkNext))
  {
    hide Frames, ScanBytes, RoundsOk, NumbersOk, History, DiskOk;
    ActiveMatches(cfg, s);
    MatchedBytes(cfg, Active(s.mem.value), ActiveFile(s));
  }

  lemma FrontRecover(cfg: Config, s: State)
    requires ValidConfig(cfg) && Good(cfg, s) && Enabled(cfg, s, Recover) && AllStable(s.disk.files)
    ensures FrontSynced(cfg, Apply(cfg, s, Recover))
  {
    hide Frames, ScanBytes, RoundsOk, NumbersOk, History, DiskOk, Contents, LastRecord, SegOf, Openable, Aligned, ActiveOk;
    RecoveredFiles(cfg, s.disk.files, s.disk.reserved);
  }

  lemma FrontStep(cfg: Config, s: State, step: Step)
    requires ValidConfig(cfg) && Good(cfg, s) && FrontSynced(cfg, s) && Enabled(cfg, s, step)
    requires step.Recover? ==> AllStable(s.disk.files)
    ensures FrontSynced(cfg, Apply(cfg, s, step))
  {
    hide Good, FrontSynced, Apply, Enabled;
    if step.LinkNext? {
      FrontLink(cfg, s);
    } else if step.Recover? {
      FrontRecover(cfg, s);
    } else {
      FrontStays(cfg, s, step);
    }
  }

  lemma FrontStays(cfg: Config, s: State, step: Step)
    requires Good(cfg, s) && FrontSynced(cfg, s) && Enabled(cfg, s, step) && !step.LinkNext? && !step.Recover?
    ensures FrontSynced(cfg, Apply(cfg, s, step))
  {
    hide Frames, ScanBytes, Good, Tagged, Drop, Trimmed, Truncated, Numbered;
  }

  /** Every recovery of the run starts from a directory that is on stable storage. */
  ghost predicate StableStarts(states: seq<State>, steps: seq<Step>) {
    && |states| == |steps| + 1
    && forall i :: 0 <= i < |steps| && steps[i].Recover? ==> AllStable(states[i].disk.files)
  }

  lemma {:induction false} RunFront(cfg: Config, states: seq<State>, steps: seq<Step>, i: nat)
    requires ValidConfig(cfg) && IsRun(cfg, states, steps) && states[0] == Fresh && StableStarts(states, steps) && i < |states|
    ensures FrontSynced(cfg, states[i])
  {
    hide Good, FrontSynced, Enabled, Apply, AllStable;
    if i == 0 {
      FrontFresh(cfg);
    } else {
      RunFront(cfg, states, steps, i - 1);
      RunGood(cfg, states, steps, i - 1);
      assert Goes(cfg, states[i - 1], steps[i - 1], states[i]);
      FrontStep(cfg, states[i - 1], steps[i - 1]);
    }
  }

  lemma FrontFresh(cfg: Config)
    ensures FrontSynced(cfg, Fresh)
  {
  }

  /** In every sync mode, at every moment a process has the log open: the directory opens
      after every machine crash if and only if no rotation stands between creating its
      segment and syncing an old one that holds unsynced bytes. */
  lemma ReopensIffNotHalf(cfg: Config, states: seq<State>, steps: seq<Step>, i: nat)
    requires ValidConfig(cfg) && IsRun(cfg, states, steps) && states[0] == Fresh && StableStarts(states, steps)
    requires i < |states| && HasActive(states[i])
    ensures AlwaysReopens(cfg, states[i].disk.files) <==> !HalfRotated(cfg, states[i])
  {
    hide Enabled, Apply, History, RoundsOk, Aligned, NumbersOk, ActiveOk, DiskOk, HalfRotated, LinksSynced, FrontSynced, AlwaysReopens;
    RunGood(cfg, states, steps, i);
    RunFront(cfg, states, steps, i);
    SyncedIffNotHalf(cfg, states[i]);
    ReopensIffLinksSynced(cfg, states[i].disk.files);
  }

  // ---- the moment is reached -------------------------------------------------------------

  const NeverCfg := Cfg.(maxSegment := 9, fsync := false)

  /** These steps do not look at the sync mode or the segment size. */
  lemma SameGoes(s: State, step: Step, s': State)
    requires Goes(Cfg, s, step, s')
    requires step.Stage? || step.Take? || step.Write? || step.SettleOk? || (step.KeepSegment? && Active(s.mem.value).size == 0)
    ensures Goes(NeverCfg, s, step, s')
  {
    hide Frames, Tagged, Numbered;
  }

  lemma NeverOpens(s1: State)
    requires Goes(Cfg, Fresh, Recover, s1)
    ensures Goes(NeverCfg, Fresh, Recover, s1)
  {
    hide Frames, ScanBytes;
    assert Trimmed(Cfg, []) == Trimmed(NeverCfg, []);
    var files := Resumed(Cfg, [], 0);
    assert SegsOf(Cfg, files) == SegsOf(NeverCfg, files);
  }

  /** The first record is written, not synced, and published. */
  lemma NeverCommits(s: State) returns (s1: State, s2: State, s3: State)
    requires Flight(s, [], [], Full(1, 0, 7, 0, 0), Written, 7, 0)
    ensures Goes(NeverCfg, s, Sync, s1) && Goes(NeverCfg, s1, PublishSize, s2) && Goes(NeverCfg, s2, SettleOk, s3)
    ensures s3.disk == s.disk && s3.rounds == s.rounds[0 := Round(1, [Rec(7, 0)], Committed)]
    ensures s3.mem == Some(s.mem.value.(segs := [Seg(1, 0, 9, 1)], durable := 1, inflight := None, pc := Idle))
  {
    hide Frames, Frame;
    OneFrame(7, 0);
    assert ActiveFile(s) == Full(1, 0, 7, 0, 0);
    s1 := Apply(NeverCfg, s, Sync);
    assert s1.disk.files == [] + [Full(1, 0, 7, 0, 0)];
    s2 := Apply(NeverCfg, s1, PublishSize);
    assert s2.mem.value.segs == [Seg(1, 0, 9, 1)];
    s3 := SettleOne(s2, 1, 0);
    SameGoes(s2, SettleOk, s3);
  }

  /** A second record is staged and needs a segment of its own. */
  lemma NeverRotates(s: State) returns (s1: State, s2: State, s3: State)
    requires s.disk == Disk([Full(1, 0, 7, 0, 0)], B) && s.mem.Some? && |s.rounds| == 2 && s.rounds[1] == NewRound
    requires var m := s.mem.value;
             && m.segs == [Seg(1, 0, 9, 1)] && m.removed == 0 && m.nextLSN == 2 && m.reserved == B && m.pc.Idle?
             && m.pending == [] && !m.closed && !m.broken && m.cur == 1
    ensures Goes(NeverCfg, s, Stage([[8]], Stored), s1) && Goes(NeverCfg, s1, Take, s2) && Goes(NeverCfg, s2, CreateNext, s3)
    ensures HalfRotated(NeverCfg, s3) && s3.disk.files == [Full(1, 0, 7, 0, 0), Blank(2, 1)]
  {
    hide Frames, Frame;
    OneFrame(7, 0);
    OneFrame(8, 1);
    s1 := Apply(NeverCfg, s, Stage([[8]], Stored));
    assert Tagged([[8]], 1) == [Rec(8, 1)];
    assert s1.mem.value.pending == [] + Wire(8);
    s2 := Apply(NeverCfg, s1, Take);
    s3 := Apply(NeverCfg, s2, CreateNext);
    assert ActiveFile(s3) == Full(1, 0, 7, 0, 0);
  }

  lemma NeverWrites() returns (s1: State, s2: State, s3: State, s4: State, s5: State)
    ensures Goes(NeverCfg, Fresh, Recover, s1) && Goes(NeverCfg, s1, Stage([[7]], Stored), s2)
    ensures Goes(NeverCfg, s2, Take, s3) && Goes(NeverCfg, s3, KeepSegment, s4) && Goes(NeverCfg, s4, Write(9, true), s5)
    ensures Flight(s5, [], [], Full(1, 0, 7, 0, 0), Written, 7, 0) && s5.disk.reserved == B
    ensures |s5.rounds| == 2 && s5.rounds[1] == NewRound
    ensures var m := s5.mem.value; m.nextLSN == 2 && m.reserved == B && m.pending == [] && !m.closed && !m.broken && m.cur == 1
  {
    hide Enabled, Apply;
    s1 := FirstOpens();
    NeverOpens(s1);
    s2 := StageOne(s1, Disk([Blank(1, 0)], 0), [Seg(1, 0, 0, 0)], 7, 0);
    s3 := TakeOne(s2, 7, 0);
    assert [Blank(1, 0)] == [] + [Blank(1, 0)] && [Seg(1, 0, 0, 0)] == [] + [Seg(1, 0, 0, 0)];
    s4, s5 := WriteOne(s3, [], [], 1, 0, 7, 0);
    hide Goes;
    SameGoes(s1, Stage([[7]], Stored), s2);
    SameGoes(s2, Take, s3);
    SameGoes(s3, KeepSegment, s4);
    SameGoes(s4, Write(9, true), s5);
  }

  /** In the mode that never fsyncs, without any I/O error: two records, the second in a new
      segment, and a machine crash while that segment is being started, after which the
      directory does not open. */
  lemma RotationWindow() returns (states: seq<State>, steps: seq<Step>)
    ensures ValidConfig(NeverCfg) && !NeverCfg.fsync && |states| > 0 && IsRun(NeverCfg, states, steps) && states[0] == Fresh
    ensures var s := states[|states| - 1];
            HalfRotated(NeverCfg, s) && CrashKeeps(s.disk.files, [0, 0]) && !Openable(NeverCfg, Survivors(s.disk.files, [0, 0]))
  {
    hide Enabled, Apply, Goes, Tagged, HalfRotated, Openable;
    var s1, s2, s3, s4, s5 := NeverWrites();
    var s6, s7, s8 := NeverCommits(s5);
    assert [] + [Full(1, 0, 7, 0, 0)] == [Full(1, 0, 7, 0, 0)];
    var s9, s10, s11 := NeverRotates(s8);
    LostInWindow(s11.disk.files);
    hide Flight;
    states := [Fresh, s1, s2, s3, s4, s5, s6, s7, s8, s9, s10, s11];
    steps := [Recover, Stage([[7]], Stored), Take, KeepSegment, Write(9, true), Sync, PublishSize, SettleOk,
              Stage([[8]], Stored), Take, CreateNext];
  }

  lemma LostInWindow(files: seq<File>)
    requires files == [Full(1, 0, 7, 0, 0), Blank(2, 1)]
    ensures CrashKeeps(files, [0, 0]) && !Openable(NeverCfg, Survivors(files, [0, 0]))
  {
    hide Frame, ScanBytes;
    OneFrame(7, 0);
    Scans(7, 0);
    var left := Survivors(files, [0, 0]);
    assert left[0].bytes == [];
    assert left[0].base + ScanFile(NeverCfg, left[0]).count != left[1].prevEnd + 1;
  }
}
