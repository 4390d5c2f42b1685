/** The condition under which the reader stalls is reachable without any damage: a record is
    committed, then two processes crash, the second between staging and committing. That
    leaves an empty segment with a gap in front of it, and a reader that has read the record
    never gets to what the third process commits. */
module WalStall {
  import opened RecordFormat
  import opened SegmentScan
  import opened Wal
  import opened WalRuns
  import opened WalExample
  import opened LogReader
  import opened WalSnapshot

  // ---- the three processes -------------------------------------------------

  const First := Full(1, 0, 7, 0, 9)
  const Second := Blank(B + 1, 1)
  const Third := Blank(2 * B + 1, B)

  lemma FirstStages() returns (s1: State, s2: State, s3: State)
    ensures Goes(Cfg, Fresh, Recover, s1) && Goes(Cfg, s1, Stage([[7]], Stored), s2) && Goes(Cfg, s2, Take, s3)
    ensures Flight(s3, [], [], Blank(1, 0), Begin, 7, 0) && s3.disk.reserved == B && |s3.rounds| == 2 && s3.mem.value.doomed == 0 && !s3.tainted
  {
    hide Enabled, Apply;
    s1 := FirstOpens();
    s2 := StageOne(s1, Disk([Blank(1, 0)], 0), [Seg(1, 0, 0, 0)], 7, 0);
    s3 := TakeOne(s2, 7, 0);
    assert [Blank(1, 0)] == [] + [Blank(1, 0)] && [Seg(1, 0, 0, 0)] == [] + [Seg(1, 0, 0, 0)];
  }

  lemma SecondDies(s1: State) returns (s2: State, s3: State)
    requires !s1.tainted && s1.mem.Some? && |s1.rounds| == 3 && s1.disk == Disk([First, Second], B)
    requires var m := s1.mem.value; m.reserved == B && m.nextLSN == B + 1 && m.cur == 2 && !m.closed && !m.broken
    ensures Goes(Cfg, s1, Stage([[7]], Stored), s2) && Goes(Cfg, s2, ProcessCrash, s3)
    ensures s3.mem.None? && !s3.tainted && s3.disk == Disk([First, Second], 2 * B) && |s3.rounds| == 3
  {
    hide Frames, Frame;
    s2 := Apply(Cfg, s1, Stage([[7]], Stored));
    s3 := Apply(Cfg, s2, ProcessCrash);
  }

  lemma ThirdOpens(s: State) returns (s1: State)
    requires s.mem.None? && !s.tainted && s.disk == Disk([First, Second], 2 * B) && |s.rounds| == 3
    ensures Goes(Cfg, s, Recover, s1) && !s1.tainted && s1.mem.Some? && |s1.rounds| == 4
    ensures s1.disk == Disk([First, Second, Third], 2 * B) && s1.rounds[3] == NewRound
    ensures s1.mem.value == OpenMem([Seg(1, 0, 9, 1), Seg(B + 1, 1, 0, 0), Seg(2 * B + 1, B, 0, 0)], 2 * B, 3)
  {
    hide Frames, Frame, ScanBytes, Contents, LastRecord;
    OneFrame(7, 0);
    Scans(7, 0);
    assert Wal.Truncated(Second, 0, 0) == Second;
    s1 := Apply(Cfg, s, Recover);
    assert s1.disk.files == [First, Second, Third];
    assert s1.mem.value.segs == [Seg(1, 0, 9, 1), Seg(B + 1, 1, 0, 0), Seg(2 * B + 1, B, 0, 0)];
  }

  lemma ThirdStages(s1: State) returns (s2: State, s3: State)
    requires !s1.tainted && s1.mem.Some? && |s1.rounds| == 4 && s1.rounds[3] == NewRound
    requires s1.disk == Disk([First, Second, Third], 2 * B)
    requires s1.mem.value == OpenMem([Seg(1, 0, 9, 1), Seg(B + 1, 1, 0, 0), Seg(2 * B + 1, B, 0, 0)], 2 * B, 3)
    ensures Goes(Cfg, s1, Stage([[7]], Stored), s2) && Goes(Cfg, s2, Take, s3)
    ensures Flight(s3, [First, Second], [Seg(1, 0, 9, 1), Seg(B + 1, 1, 0, 0)], Third, Begin, 7, 3) && s3.mem.value.doomed == 0 && !s3.tainted && s3.disk.reserved == 3 * B
  {
    hide Enabled, Apply, LastRecord;
    s2 := StageOne(s1, s1.disk, s1.mem.value.segs, 7, 3);
    s3 := TakeOne(s2, 7, 3);
    assert s3.disk.files == [First, Second] + [Third];
    assert s3.mem.value.segs == [Seg(1, 0, 9, 1), Seg(B + 1, 1, 0, 0)] + [Seg(2 * B + 1, B, 0, 0)];
  }

  /** The three processes: record 1, an empty segment with a gap, record 2B+1. */
  lemma ThreeProcesses() returns (states: seq<State>, steps: seq<Step>)
    ensures ValidConfig(Cfg) && |states| > 0 && IsRun(Cfg, states, steps) && states[0] == Fresh
    ensures var last := states[|states| - 1];
            && last.disk == Disk([First, Second] + [Full(2 * B + 1, B, 7, 3, 9)], 3 * B) && !last.tainted
            && last.mem.Some? && last.mem.value.removed == 0 && last.mem.value.doomed == 0 && last.mem.value.durable == 2 * B + 1
            && last.mem.value.segs == [Seg(1, 0, 9, 1), Seg(B + 1, 1, 0, 0)] + [Seg(2 * B + 1, B, 9, 1)]
  {
    hide Enabled, Apply, DoRecover;
    var s1, s2, s3 := FirstStages();
    var s4, s5 := WriteOne(s3, [], [], 1, 0, 7, 0);
    var s6, s7, s8 := CommitOne(s5, [], [], 1, 0, 7, 0);
    var s9 := s8.(mem := None);
    Crashes(s8);
    var s10 := ReopensAbove(s9, 7, 0, 9);
    var s11, s12 := SecondDies(s10);
    var s13 := ThirdOpens(s12);
    var s14, s15 := ThirdStages(s13);
    var pre, segs := [First, Second], [Seg(1, 0, 9, 1), Seg(B + 1, 1, 0, 0)];
    var s16, s17 := WriteOne(s15, pre, segs, 2 * B + 1, B, 7, 3);
    var s18, s19, s20 := CommitOne(s17, pre, segs, 2 * B + 1, B, 7, 3);
    hide Goes, Flight;
    states := [Fresh, s1, s2, s3, s4, s5, s6, s7, s8, s9, s10, s11, s12, s13, s14, s15, s16, s17, s18, s19, s20];
    steps := [Recover, Stage([[7]], Stored), Take, KeepSegment, Write(9, true), Sync, PublishSize, SettleOk, ProcessCrash,
              Recover, Stage([[7]], Stored), ProcessCrash,
              Recover, Stage([[7]], Stored), Take, KeepSegment, Write(9, true), Sync, PublishSize, SettleOk];
  }

  /** A reachable state in which records 1 and 2B+1 are visible, and a reader that has read
      record 1 sits in an empty segment's gap: Reader.Next answers ErrNoData. Once the segment
      of record 1 has been truncated away, it answers ErrTruncated. */
  lemma ReaderStallReachable() returns (states: seq<State>, steps: seq<Step>, later: State)
    ensures ValidConfig(Cfg) && IsRun(Cfg, states, steps) && states[0] == Fresh
    ensures var last := states[|states| - 1];
            && HasActive(last) && !last.tainted
            && Visible(last, 1, Rec(7, 0)) && Visible(last, 2 * B + 1, Rec(7, 3))
            && InEmptyGap(ViewsOf(last), 2) && 2 >= ViewsOf(last)[0].base && 2 <= last.mem.value.durable
    ensures exists mid :: Goes(Cfg, states[|states| - 1], TruncateBegin(2), mid) && Goes(Cfg, mid, TruncateRemove, later)
    ensures HasActive(later) && ViewsOf(later) != [] && ViewsOf(later)[0].recs == [] && 2 <= later.mem.value.durable
    ensures Head(SnapOf(later)) < 2 < ViewsOf(later)[0].base
  {
    hide IsRun, Goes, InEmptyGap, Visible;
    states, steps := ThreeProcesses();
    var last := states[|states| - 1];
    EndsStalled(last);
    var mid;
    mid, later := ThenTruncated(last);
  }

  lemma ThenTruncated(s: State) returns (mid: State, later: State)
    requires s.disk.files == [First, Second] + [Full(2 * B + 1, B, 7, 3, 9)]
    requires s.mem.Some? && s.mem.value.removed == 0 && s.mem.value.doomed == 0 && s.mem.value.durable == 2 * B + 1
    requires s.mem.value.segs == [Seg(1, 0, 9, 1), Seg(B + 1, 1, 0, 0)] + [Seg(2 * B + 1, B, 9, 1)]
    ensures Goes(Cfg, s, TruncateBegin(2), mid) && Goes(Cfg, mid, TruncateRemove, later)
    ensures HasActive(later) && ViewsOf(later) != [] && ViewsOf(later)[0].recs == [] && 2 <= later.mem.value.durable
    ensures Head(SnapOf(later)) < 2 < ViewsOf(later)[0].base
  {
    hide Frames, Frame;
    DropsFirst(s.mem.value.segs);
    mid := Apply(Cfg, s, TruncateBegin(2));
    later := Apply(Cfg, mid, TruncateRemove);
    assert Alive(later.mem.value)[0] == Seg(B + 1, 1, 0, 0);
    assert later.disk.files[0] == Second;
    assert ViewsOf(later)[0] == ViewOf(Seg(B + 1, 1, 0, 0), Second);
  }

  lemma DropsFirst(segs: seq<Seg>)
    requires segs == [Seg(1, 0, 9, 1), Seg(B + 1, 1, 0, 0)] + [Seg(2 * B + 1, B, 9, 1)]
    ensures Drop(segs, 2) == 1
  {
    assert segs[1..][0] == Seg(B + 1, 1, 0, 0);
  }

  lemma EndsStalled(s: State)
    requires s.disk.files == [First, Second] + [Full(2 * B + 1, B, 7, 3, 9)]
    requires s.mem.Some? && s.mem.value.removed == 0 && s.mem.value.durable == 2 * B + 1
    requires s.mem.value.segs == [Seg(1, 0, 9, 1), Seg(B + 1, 1, 0, 0)] + [Seg(2 * B + 1, B, 9, 1)]
    ensures HasActive(s) && InEmptyGap(ViewsOf(s), 2) && ViewsOf(s)[0].base == 1
    ensures Visible(s, 1, Rec(7, 0)) && Visible(s, 2 * B + 1, Rec(7, 3))
  {
    hide Frame;
    var m, views := s.mem.value, ViewsOf(s);
    assert Alive(m) == m.segs;
    assert views[1] == ViewOf(m.segs[1], Second);
    assert GapBefore(views[1], 2) && views[1].recs == [];
    assert VisibleIn(s, 0, 1, Rec(7, 0));
    assert VisibleIn(s, 2, 2 * B + 1, Rec(7, 3));
  }
}
