/** Building blocks of concrete runs: opening a directory, and committing one record of one
    byte into the last segment. */
module WalExample {
  import opened RecordFormat
  import opened SegmentScan
  import opened Wal

  const B := RESERVE_BLOCK
  const Cfg := Config((_, _) => 0, 16, 4096, true)
  /** The frame of a payload of one byte. */
  function Wire(p: Byte): Bytes { Frame(Cfg.crc, [p]) }

  function Rec(p: Byte, q: nat): Record { Record([p], q) }

  function Blank(base: nat, prevEnd: nat): File { File(base, prevEnd, [], 0, []) }

  /** A segment file that holds the one record of round q. */
  function Full(base: nat, prevEnd: nat, p: Byte, q: nat, synced: nat): File {
    File(base, prevEnd, Wire(p), synced, [Rec(p, q)])
  }

  lemma OneFrame(p: Byte, q: nat)
    ensures Frames(Cfg.crc, [Rec(p, q)]) == Wire(p) && |Wire(p)| == 9
  {
    assert Frames(Cfg.crc, [Rec(p, q)]) == Wire(p) + Frames(Cfg.crc, []);
  }

  lemma Scans(p: Byte, q: nat)
    ensures ScanBytes(Cfg.crc, Cfg.maxRecord, []) == Clean(0, 0)
    ensures ScanBytes(Cfg.crc, Cfg.maxRecord, Wire(p)) == Clean(1, 9)
  {
    OneFrame(p, q);
    ScanWritten(Cfg.crc, Cfg.maxRecord, [Rec(p, q)], []);
    assert Wire(p) + [] == Wire(p);
  }

  // ---- committing one record into a blank last segment --------------------

  /** Round q, one record, is on its way into the last segment. */
  ghost predicate Flight(s: State, pre: seq<File>, segs: seq<Seg>, f: File, at: Point, p: Byte, q: nat) {
    && s.disk.files == pre + [f] && |segs| == |pre|
    && s.mem.Some? && s.mem.value.removed == 0
    && s.mem.value.segs == segs + [Seg(f.base, f.prevEnd, 0, 0)]
    && s.mem.value.pc == Writing(Wire(p), f.base, f.base, at) && s.mem.value.inflight == Some(q)
    && q < |s.rounds| && s.rounds[q] == Round(f.base, [Rec(p, q)], Undecided)
  }

  lemma WriteOne(s: State, pre: seq<File>, segs: seq<Seg>, base: nat, prevEnd: nat, p: Byte, q: nat) returns (s1: State, s2: State)
    requires Flight(s, pre, segs, Blank(base, prevEnd), Begin, p, q)
    ensures Goes(Cfg, s, KeepSegment, s1) && Goes(Cfg, s1, Write(9, true), s2)
    ensures Flight(s2, pre, segs, Full(base, prevEnd, p, q, 0), Written, p, q)
    ensures s2.disk.reserved == s.disk.reserved && s2.rounds == s.rounds && s2.tainted == s.tainted
    ensures s1.mem.Some? && s2.mem.Some? && s2.mem.value == s.mem.value.(pc := s2.mem.value.pc)
  {
    hide Frames, Frame;
    OneFrame(p, q);
    s1 := Apply(Cfg, s, KeepSegment);
    assert ActiveFile(s1) == Blank(base, prevEnd);
    s2 := Apply(Cfg, s1, Write(9, true));
    assert [] + Wire(p)[..9] == Wire(p);
    assert s2.disk.files[|pre|] == Full(base, prevEnd, p, q, 0);
    assert s2.disk.files == pre + [Full(base, prevEnd, p, q, 0)];
  }

  lemma CommitOne(s: State, pre: seq<File>, segs: seq<Seg>, base: nat, prevEnd: nat, p: Byte, q: nat)
    returns (s1: State, s2: State, s3: State)
    requires Flight(s, pre, segs, Full(base, prevEnd, p, q, 0), Written, p, q)
    ensures Goes(Cfg, s, Sync, s1) && Goes(Cfg, s1, PublishSize, s2) && Goes(Cfg, s2, SettleOk, s3)
    ensures s1.mem.Some? && s2.mem.Some?
    ensures s3.disk == Disk(pre + [Full(base, prevEnd, p, q, 9)], s.disk.reserved) && s3.tainted == s.tainted
    ensures s3.mem == Some(s.mem.value.(segs := segs + [Seg(base, prevEnd, 9, 1)], durable := base, inflight := None, pc := Idle))
    ensures s3.rounds == s.rounds[q := Round(base, [Rec(p, q)], Committed)]
  {
    hide Enabled, Apply;
    s1 := SyncOne(s, pre, segs, base, prevEnd, p, q);
    s2 := PublishOne(s1, pre, segs, base, prevEnd, p, q);
    s3 := SettleOne(s2, base, q);
  }

  lemma SyncOne(s: State, pre: seq<File>, segs: seq<Seg>, base: nat, prevEnd: nat, p: Byte, q: nat) returns (s1: State)
    requires Flight(s, pre, segs, Full(base, prevEnd, p, q, 0), Written, p, q)
    ensures Goes(Cfg, s, Sync, s1) && Flight(s1, pre, segs, Full(base, prevEnd, p, q, 9), Flushed, p, q)
    ensures s1.disk.reserved == s.disk.reserved && s1.rounds == s.rounds && s1.tainted == s.tainted
    ensures s1.mem.value == s.mem.value.(pc := s1.mem.value.pc)
  {
    hide Frames, Frame;
    OneFrame(p, q);
    s1 := Apply(Cfg, s, Sync);
    assert ActiveFile(s) == Full(base, prevEnd, p, q, 0);
    assert s1.disk.files == pre + [Full(base, prevEnd, p, q, 9)];
  }

  lemma PublishOne(s1: State, pre: seq<File>, segs: seq<Seg>, base: nat, prevEnd: nat, p: Byte, q: nat) returns (s2: State)
    requires Flight(s1, pre, segs, Full(base, prevEnd, p, q, 9), Flushed, p, q)
    ensures Goes(Cfg, s1, PublishSize, s2) && s2.disk == s1.disk && s2.rounds == s1.rounds && s2.tainted == s1.tainted
    ensures s2.mem.Some? && s2.mem.value == s1.mem.value.(segs := segs + [Seg(base, prevEnd, 9, 1)], pc := Writing(Wire(p), base, base, Sized))
  {
    hide Frames, Frame;
    OneFrame(p, q);
    s2 := Apply(Cfg, s1, PublishSize);
    assert s2.mem.value.segs == segs + [Seg(base, prevEnd, 9, 1)];
  }

  lemma SettleOne(s2: State, base: nat, q: nat) returns (s3: State)
    requires AtPoint(s2, Sized) && Flying(s2) && s2.mem.value.pc.last == base && s2.mem.value.inflight == Some(q)
    ensures Goes(Cfg, s2, SettleOk, s3) && s3.disk == s2.disk && s3.tainted == s2.tainted
    ensures s3.rounds == s2.rounds[q := s2.rounds[q].(verdict := Committed)]
    ensures s3.mem.Some? && s3.mem.value == s2.mem.value.(durable := base, inflight := None, pc := Idle)
  {
    hide Numbered, Frames;
    s3 := Apply(Cfg, s2, SettleOk);
  }

  // ---- opening and staging ------------------------------------------------

  lemma FirstOpens() returns (s1: State)
    ensures Goes(Cfg, Fresh, Recover, s1) && !s1.tainted && s1.disk == Disk([Blank(1, 0)], 0) && s1.rounds == [NewRound]
    ensures s1.mem == Some(OpenMem([Seg(1, 0, 0, 0)], 0, 0))
  {
    hide Frames, Frame, ScanBytes;
    Scans(7, 0);
    s1 := Apply(Cfg, Fresh, Recover);
    assert s1.disk.files == [Blank(1, 0)];
    assert s1.mem.value.segs == [Seg(1, 0, 0, 0)];
  }

  /** Opening a directory whose one record lies far below the reservation: recovery resumes
      above it in a new segment. */
  lemma ReopensAbove(s: State, p: Byte, q: nat, synced: nat) returns (s1: State)
    requires s.mem.None? && s.disk == Disk([Full(1, 0, p, q, synced)], B) && synced <= 9
    ensures Goes(Cfg, s, Recover, s1) && s1 == DoRecover(Cfg, s)
    ensures s1.disk == Disk([Full(1, 0, p, q, synced), Blank(B + 1, 1)], B)
    ensures s1.tainted == s.tainted && s1.rounds == s.rounds + [NewRound]
    ensures s1.mem == Some(OpenMem([Seg(1, 0, 9, 1), Seg(B + 1, 1, 0, 0)], B, |s.rounds|)) && s1.mem.value.durable == 1
  {
    hide Frames, Frame, ScanBytes, Contents, LastRecord;
    OneFrame(p, q);
    Scans(p, q);
    var f := Full(1, 0, p, q, synced);
    assert f.bytes[..9] == f.bytes && f.written[..1] == f.written;
    assert Wal.Truncated(f, 9, 1) == f;
    s1 := Apply(Cfg, s, Recover);
    assert s1.disk.files == [f, Blank(B + 1, 1)];
    assert s1.mem.value.segs == [Seg(1, 0, 9, 1), Seg(B + 1, 1, 0, 0)];
    LastOfTwo(s1.mem.value.segs);
  }

  lemma LastOfTwo(segs: seq<Seg>)
    requires segs == [Seg(1, 0, 9, 1), Seg(B + 1, 1, 0, 0)]
    ensures LastRecord(segs) == 1
  {
    assert LastRecord(segs[..1]) == 1;
  }

  /** A freshly opened log stages one record into round q. */
  lemma StageOne(s1: State, disk: Disk, segs: seq<Seg>, p: Byte, q: nat) returns (s2: State)
    requires s1.disk == disk && |s1.rounds| == q + 1 && s1.rounds[q] == NewRound
    requires segs != [] && s1.mem == Some(OpenMem(segs, disk.reserved, q)) && disk.reserved + 1 == s1.mem.value.nextLSN
    ensures Goes(Cfg, s1, Stage([[p]], Stored), s2) && s2.tainted == s1.tainted
    ensures s2.disk == disk.(reserved := disk.reserved + B)
    ensures s2.rounds == s1.rounds[q := Round(disk.reserved + 1, [Rec(p, q)], Undecided)]
    ensures s2.mem == Some(s1.mem.value.(reserved := disk.reserved + B, pending := Wire(p), pendingMin := disk.reserved + 1,
                                         pendingMax := disk.reserved + 1, nextLSN := disk.reserved + 2))
  {
    hide Frames, Frame, LastRecord;
    OneFrame(p, q);
    s2 := Apply(Cfg, s1, Stage([[p]], Stored));
    assert Tagged([[p]], q) == [Rec(p, q)];
    assert [] + Wire(p) == Wire(p) && [] + [Rec(p, q)] == [Rec(p, q)];
  }

  lemma TakeOne(s2: State, p: Byte, q: nat) returns (s3: State)
    requires s2.mem.Some? && s2.mem.value.pc.Idle? && s2.mem.value.pending == Wire(p) && !s2.mem.value.broken && s2.mem.value.cur == q
    ensures Goes(Cfg, s2, Take, s3) && s3.disk == s2.disk && s3.tainted == s2.tainted && s3.rounds == s2.rounds + [NewRound]
    ensures s3.mem == Some(s2.mem.value.(pc := Writing(Wire(p), s2.mem.value.pendingMin, s2.mem.value.pendingMax, Begin),
                                         inflight := Some(q), cur := |s2.rounds|,
                                         pending := [], pendingMin := 0, pendingMax := 0))
  {
    hide Frames, Frame;
    OneFrame(p, q);
    s3 := Apply(Cfg, s2, Take);
  }

  lemma Crashes(s: State)
    ensures Goes(Cfg, s, ProcessCrash, s.(mem := None))
  {
  }
}
