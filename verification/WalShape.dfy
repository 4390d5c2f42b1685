/** What every step of the log keeps, whatever fails: the files are linked frame
    sequences, the segments in memory describe them, and numbering, staging buffer and
    commit rounds agree. */
module WalShape {
  import opened RecordFormat
  import opened SegmentScan
  import opened Wal

  ghost predicate FileOk(cfg: Config, f: File) {
    && f.prevEnd < f.base
    && f.synced <= |f.bytes|
    && f.bytes <= Frames(cfg.crc, f.written)
    && Within(cfg.maxRecord, f.written)
  }

  /** The first number behind a file's records. */
  function End(f: File): nat {
    f.base + |f.written|
  }

  /** g records that it follows f's last record. */
  ghost predicate Follows(f: File, g: File) {
    g.prevEnd + 1 == End(f)
  }

  ghost predicate Linked(files: seq<File>) {
    forall i, j :: 0 <= i < |files| && 0 <= j < |files| && j == i + 1 ==> Follows(files[i], files[j])
  }

  ghost predicate DiskOk(cfg: Config, files: seq<File>) {
    && (forall i :: 0 <= i < |files| ==> FileOk(cfg, files[i]))
    && Linked(files)
  }

  /** A segment in memory describes intact leading records of its file. */
  ghost predicate Matches(cfg: Config, g: Seg, f: File) {
    && g.base == f.base && g.prevEnd == f.prevEnd
    && g.count <= |f.written| && g.size <= |f.bytes|
    && g.size == |Frames(cfg.crc, f.written[..g.count])|
  }

  /** ... and there is nothing else in the file. */
  ghost predicate Complete(g: Seg, f: File) {
    g.count == |f.written| && g.size == |f.bytes|
  }

  ghost predicate Aligned(cfg: Config, s: State)
    requires s.mem.Some?
  {
    var m := s.mem.value;
    && m.removed <= m.doomed < |m.segs|
    && |s.disk.files| == |m.segs| - m.removed + (if m.pc.Writing? && m.pc.at.Created? then 1 else 0)
    && (forall i :: 0 <= i < |Alive(m)| ==> Matches(cfg, Alive(m)[i], s.disk.files[i]))
    && (forall i :: 0 <= i < |Alive(m)| - 1 ==> Complete(Alive(m)[i], s.disk.files[i]))
  }

  /** The active file holds exactly its published records, followed by nothing, by the
      whole batch in flight, or by some fragment of it. */
  ghost predicate ActiveOk(cfg: Config, s: State)
    requires Flying(s) || (HasActive(s) && s.mem.value.pc.Idle?)
  {
    var m := s.mem.value;
    var a, f := Active(m), ActiveFile(s);
    && (m.broken ==> m.pc.Idle? && m.pending == [])
    && match m.pc
       case Idle => m.broken || Complete(a, f)
       case Writing(buf, first, last, at) =>
         if at.Written? || at.Flushed? then
           && a.count <= |f.written| && f.written == f.written[..a.count] + InFlight(s).recs
           && f.bytes == Frames(cfg.crc, f.written)
           && (at.Flushed? && cfg.fsync ==> f.synced == |f.bytes|)
         else
           && Complete(a, f)
           && (at.Sized? ==>
                 && |InFlight(s).recs| <= a.count
                 && f.written[a.count - |InFlight(s).recs|..] == InFlight(s).recs
                 && (cfg.fsync ==> f.synced == |f.bytes|))
           && (at.Created? ==> first > 0 && s.disk.files[|s.disk.files| - 1] == File(first, first - 1, [], 0, []))
       case Failed(_, _) =>
         && a.count <= |f.written|
         && (f.written == f.written[..a.count] || f.written == f.written[..a.count] + InFlight(s).recs)
       case Undone(_, _, ok) =>
         && (ok ==> Complete(a, f))
         && a.count <= |f.written|
         && (f.written == f.written[..a.count] || f.written == f.written[..a.count] + InFlight(s).recs)
  }

  /** Records of the batch in flight that the segment does not count yet. */
  function Unsized(m: Mem): int {
    match m.pc
    case Idle => 0
    case Writing(_, first, last, at) => if at.Sized? then 0 else last - first + 1
    case Failed(first, last) => last - first + 1
    case Undone(first, last, _) => last - first + 1
  }

  /** The first number no reader can have seen a record under. */
  function Settled(m: Mem): nat
    requires m.segs != []
  {
    if m.pc.Writing? && m.pc.at.Sized? then m.pc.first else Active(m).base + Active(m).count
  }

  function FirstInFlight(m: Mem): nat
    requires !m.pc.Idle?
  {
    match m.pc
    case Writing(_, first, _, _) => first
    case Failed(first, _) => first
    case Undone(first, _, _) => first
  }

  function LastInFlight(m: Mem): nat
    requires !m.pc.Idle?
  {
    match m.pc
    case Writing(_, _, last, _) => last
    case Failed(_, last) => last
    case Undone(_, last, _) => last
  }

  ghost predicate RoundOk(cfg: Config, rounds: seq<Round>, r: int)
    requires 0 <= r < |rounds|
  {
    && Within(cfg.maxRecord, rounds[r].recs)
    && forall j :: 0 <= j < |rounds[r].recs| ==> rounds[r].recs[j].round == r
  }

  /** nextLSN is the active base, plus its records, plus those in flight and pending;
      the staging buffer and the batch in flight are exactly their rounds' frames. */
  ghost predicate NumbersOk(cfg: Config, s: State)
    requires HasActive(s)
  {
    var m := s.mem.value;
    var a := Active(m);
    && m.firstRound <= m.cur == |s.rounds| - 1
    && s.rounds[m.cur].verdict.Undecided?
    && m.nextLSN == a.base + a.count + Unsized(m) + |s.rounds[m.cur].recs|
    && m.pending == Frames(cfg.crc, s.rounds[m.cur].recs)
    && (m.pending != [] ==>
          && m.pendingMin == s.rounds[m.cur].first == m.nextLSN - |s.rounds[m.cur].recs|
          && m.pendingMax == m.nextLSN - 1)
    && m.reserved <= s.disk.reserved
    && (m.pc.Idle? <==> m.inflight.None?)
    && (m.inflight.Some? ==>
          var r := m.inflight.value;
          && m.firstRound <= r < m.cur
          && s.rounds[r].verdict.Undecided?
          && 0 < FirstInFlight(m) <= LastInFlight(m)
          && s.rounds[r].first == FirstInFlight(m) == Settled(m)
          && |s.rounds[r].recs| == LastInFlight(m) - FirstInFlight(m) + 1
          && (m.pc.Writing? && m.pc.at.Sized? ==> LastInFlight(m) + 1 == a.base + a.count)
          && (m.pc.Writing? ==> m.pc.buf == Frames(cfg.crc, s.rounds[r].recs)))
  }

  /** Every round holding staged records is the current one, in flight, or resolved. */
  ghost predicate RoundsOk(cfg: Config, s: State) {
    && (forall r :: 0 <= r < |s.rounds| ==> RoundOk(cfg, s.rounds, r))
    && (s.mem.Some? ==>
          forall r :: s.mem.value.firstRound <= r < |s.rounds| && s.rounds[r].verdict.Undecided? ==>
            r == s.mem.value.cur || s.mem.value.inflight == Some(r))
  }

  ghost predicate Shape(cfg: Config, s: State) {
    && DiskOk(cfg, s.disk.files)
    && RoundsOk(cfg, s)
    && (s.mem.Some? ==>
          && Aligned(cfg, s)
          && HasActive(s)
          && NumbersOk(cfg, s)
          && ActiveOk(cfg, s))
  }

  // ---- helpers -----------------------------------------------------------

  /** The matched prefix of a file, and a complete file, as frames. */
  lemma MatchedBytes(cfg: Config, g: Seg, f: File)
    requires FileOk(cfg, f) && Matches(cfg, g, f)
    ensures f.bytes[..g.size] == Frames(cfg.crc, f.written[..g.count])
    ensures g.count == |f.written| ==> f.bytes == Frames(cfg.crc, f.written) && Complete(g, f)
  {
    hide Frames, ScanBytes;
    FramesSplit(cfg.crc, f.written, g.count);
    assert g.count == |f.written| ==> f.written[..g.count] == f.written;
  }

  lemma PendingIffStaged(cfg: Config, s: State)
    requires Shape(cfg, s) && s.mem.Some?
    ensures s.mem.value.pending == [] <==> s.rounds[s.mem.value.cur].recs == []
  {
    hide Frames, ScanBytes;
    FramesLowerBound(cfg.crc, s.rounds[s.mem.value.cur].recs);
  }

  /** Replacing one file by one with the same place in the numbering keeps the links. */
  lemma ReplaceFile(cfg: Config, files: seq<File>, k: nat, f: File)
    requires DiskOk(cfg, files) && k < |files| && FileOk(cfg, f)
    requires f.base == files[k].base && f.prevEnd == files[k].prevEnd
    requires k == |files| - 1 || |f.written| == |files[k].written|
    ensures DiskOk(cfg, files[k := f])
  {
    hide Frames, ScanBytes;
    var files' := files[k := f];
    forall i, j | 0 <= i < |files'| && 0 <= j < |files'| && j == i + 1
      ensures Follows(files'[i], files'[j])
    {
      assert Follows(files[i], files[j]);
    }
  }

  lemma AppendFile(cfg: Config, files: seq<File>, f: File)
    requires DiskOk(cfg, files) && FileOk(cfg, f)
    requires files != [] ==> Follows(files[|files| - 1], f)
    ensures DiskOk(cfg, files + [f])
  {
    hide Frames, ScanBytes;
    var files' := files + [f];
    forall i, j | 0 <= i < |files'| && 0 <= j < |files'| && j == i + 1
      ensures Follows(files'[i], files'[j])
    {
      if j < |files| {
        assert Follows(files[i], files[j]);
      }
    }
  }

  /** Cutting a file at a record boundary. */
  lemma TruncatedOk(cfg: Config, f: File, size: nat, count: nat)
    requires FileOk(cfg, f) && count <= |f.written| && size <= |f.bytes|
    requires size == |Frames(cfg.crc, f.written[..count])|
    ensures var t := Truncated(f, size, count);
            && FileOk(cfg, t)
            && t.written == f.written[..count] && |t.bytes| == size && t.bytes == Frames(cfg.crc, t.written)
  {
    hide Frames, ScanBytes;
    FramesSplit(cfg.crc, f.written, count);
  }

  // ---- staging -----------------------------------------------------------

  lemma StageNumbers(cfg: Config, s: State, payloads: seq<Bytes>, claim: CellWrite)
    requires Shape(cfg, s) && Enabled(cfg, s, Stage(payloads, claim))
    ensures HasActive(DoStage(cfg, s, payloads, claim))
    ensures NumbersOk(cfg, DoStage(cfg, s, payloads, claim))
  {
    hide Frames, ScanBytes, Tagged, DiskOk, RoundsOk, Aligned, ActiveOk, RoundOk;
    var m := s.mem.value;
    var s' := DoStage(cfg, s, payloads, claim);
    FramesLowerBound(cfg.crc, s.rounds[m.cur].recs);
    FramesConcat(cfg.crc, s.rounds[m.cur].recs, Tagged(payloads, m.cur));
  }

  lemma ShapeStage(cfg: Config, s: State, payloads: seq<Bytes>, claim: CellWrite)
    requires Shape(cfg, s) && Enabled(cfg, s, Stage(payloads, claim))
    ensures Shape(cfg, DoStage(cfg, s, payloads, claim))
  {
    hide Frames, ScanBytes, Tagged, DiskOk, Matches, Complete, RoundsOk, NumbersOk;
    var s' := DoStage(cfg, s, payloads, claim);
    StageNumbers(cfg, s, payloads, claim);
    StageRounds(cfg, s, payloads, claim);
    assert Alive(s'.mem.value) == Alive(s.mem.value);
    StageActive(cfg, s, payloads, claim);
  }

  lemma StageRounds(cfg: Config, s: State, payloads: seq<Bytes>, claim: CellWrite)
    requires Shape(cfg, s) && Enabled(cfg, s, Stage(payloads, claim))
    ensures RoundsOk(cfg, DoStage(cfg, s, payloads, claim))
  {
    hide Frames, ScanBytes, Tagged, DiskOk, Aligned, ActiveOk;
    var s' := DoStage(cfg, s, payloads, claim);
    forall r | 0 <= r < |s'.rounds|
      ensures RoundOk(cfg, s'.rounds, r)
    {
      assert RoundOk(cfg, s.rounds, r);
    }
  }

  lemma StageActive(cfg: Config, s: State, payloads: seq<Bytes>, claim: CellWrite)
    requires Shape(cfg, s) && Enabled(cfg, s, Stage(payloads, claim))
    ensures HasActive(DoStage(cfg, s, payloads, claim)) && ActiveOk(cfg, DoStage(cfg, s, payloads, claim))
  {
    hide Frames, ScanBytes, Tagged, DiskOk, Aligned, Complete, RoundsOk;
    var s' := DoStage(cfg, s, payloads, claim);
    assert ActiveFile(s') == ActiveFile(s);
  }

  lemma ShapeTake(cfg: Config, s: State)
    requires Shape(cfg, s) && Enabled(cfg, s, Take)
    ensures Shape(cfg, DoTake(s))
  {
    hide Frames, ScanBytes;
    FramesLowerBound(cfg.crc, []);
    var s' := DoTake(s);
    PendingIffStaged(cfg, s);
    forall r | 0 <= r < |s'.rounds|
      ensures RoundOk(cfg, s'.rounds, r)
    {
      if r < |s.rounds| {
        assert RoundOk(cfg, s.rounds, r);
      }
    }
  }

  // ---- writeBatch --------------------------------------------------------

  lemma ShapePoint(cfg: Config, s: State, step: Step)
    requires Shape(cfg, s) && Enabled(cfg, s, step) && (step.CreateFails? || step.KeepSegment?)
    ensures Shape(cfg, Apply(cfg, s, step))
  {
    hide Frames, ScanBytes;
    var s' := Apply(cfg, s, step);
    assert Alive(s'.mem.value) == Alive(s.mem.value);
    ActiveMatches(cfg, s);
  }

  lemma ShapeCloseBegin(cfg: Config, s: State)
    requires Shape(cfg, s) && s.mem.Some?
    ensures Shape(cfg, s.(mem := Some(s.mem.value.(closed := true))))
  {
    hide Frames, ScanBytes;
    var s' := s.(mem := Some(s.mem.value.(closed := true)));
    assert Alive(s'.mem.value) == Alive(s.mem.value);
    assert ActiveFile(s') == ActiveFile(s) && NumbersOk(cfg, s');
  }

  lemma ShapeCreateNext(cfg: Config, s: State)
    requires Shape(cfg, s) && Enabled(cfg, s, CreateNext)
    ensures Shape(cfg, DoCreateNext(s))
  {
    hide Frames, ScanBytes, RoundsOk, Matches;
    var m := s.mem.value;
    var next := File(m.pc.first, m.pc.first - 1, [], 0, []);
    FramesLowerBound(cfg.crc, []);
    ActiveMatches(cfg, s);
    AppendFile(cfg, s.disk.files, next);
    RoundsSame(cfg, s, DoCreateNext(s));
  }

  lemma ShapeLinkNext(cfg: Config, s: State)
    requires Shape(cfg, s) && Enabled(cfg, s, LinkNext)
    ensures Shape(cfg, DoLinkNext(s))
  {
    hide Frames, ScanBytes, RoundsOk, DiskOk, Matches;
    var s' := DoLinkNext(s);
    RoundsSame(cfg, s, s');
    LinkedFiles(cfg, s);
    LinkAligned(cfg, s);
  }

  lemma LinkedFiles(cfg: Config, s: State)
    requires Shape(cfg, s) && Enabled(cfg, s, LinkNext)
    ensures DiskOk(cfg, DoLinkNext(s).disk.files)
  {
    hide Frames, ScanBytes, RoundsOk, Aligned, NumbersOk, ActiveOk;
    var k := |s.disk.files| - 2;
    var prev := s.disk.files[k];
    ReplaceFile(cfg, s.disk.files, k, SyncTo(prev, |prev.bytes|));
  }

  lemma LinkAligned(cfg: Config, s: State)
    requires Shape(cfg, s) && Enabled(cfg, s, LinkNext)
    ensures Aligned(cfg, DoLinkNext(s))
  {
    hide Frames, ScanBytes, RoundsOk, NumbersOk, DiskOk;
    FramesLowerBound(cfg.crc, []);
    var s' := DoLinkNext(s);
    var m, m' := s.mem.value, s'.mem.value;
    assert Alive(m') == Alive(m) + [Seg(m.pc.first, m.pc.first - 1, 0, 0)];
    forall i | 0 <= i < |Alive(m')|
      ensures Matches(cfg, Alive(m')[i], s'.disk.files[i])
      ensures i < |Alive(m')| - 1 ==> Complete(Alive(m')[i], s'.disk.files[i])
    {
      if i < |Alive(m)| {
        assert Matches(cfg, Alive(m)[i], s.disk.files[i]);
      }
    }
  }

  /** Replacing the active file under an unchanged segment list. */
  lemma AlignedActive(cfg: Config, s: State, s': State)
    requires s.mem.Some? && s'.mem.Some? && Aligned(cfg, s) && HasActive(s)
    requires s'.mem.value.segs == s.mem.value.segs
    requires s'.mem.value.removed == s.mem.value.removed && s'.mem.value.doomed == s.mem.value.doomed
    requires !(s.mem.value.pc.Writing? && s.mem.value.pc.at.Created?)
    requires !(s'.mem.value.pc.Writing? && s'.mem.value.pc.at.Created?)
    requires |s'.disk.files| == |s.disk.files|
    requires s'.disk.files == s.disk.files[ActiveIndex(s.mem.value) := s'.disk.files[ActiveIndex(s.mem.value)]]
    requires Matches(cfg, Active(s.mem.value), s'.disk.files[ActiveIndex(s.mem.value)])
    ensures Aligned(cfg, s') && HasActive(s')
  {
    hide Frames, ScanBytes;
    var m := s.mem.value;
    assert Alive(m)[|Alive(m)| - 1] == Active(m);
    forall i | 0 <= i < |Alive(m)|
      ensures Matches(cfg, Alive(m)[i], s'.disk.files[i])
      ensures i < |Alive(m)| - 1 ==> Complete(Alive(m)[i], s'.disk.files[i])
    {
      assert Matches(cfg, Alive(m)[i], s.disk.files[i]);
    }
  }

  lemma ShapeLinkFails(cfg: Config, s: State, upTo: nat)
    requires Shape(cfg, s) && Enabled(cfg, s, LinkFails(upTo))
    ensures Shape(cfg, DoLinkFails(s, upTo))
  {
    hide Frames, ScanBytes, RoundsOk, FileOk, Matches, DiskOk;
    var m := s.mem.value;
    var s' := DoLinkFails(s, upTo);
    RoundsSame(cfg, s, s');
    var files := s.disk.files[..|s.disk.files| - 1];
    var f := files[|files| - 1];
    assert ActiveFile(s) == f;
    ActiveMatches(cfg, s);
    WithoutLast(cfg, s.disk.files);
    SyncToOk(cfg, Active(m), f, upTo);
    ReplaceFile(cfg, files, |files| - 1, SyncTo(f, upTo));
    assert Alive(m)[|Alive(m)| - 1] == Active(m);
    forall i | 0 <= i < |Alive(m)|
      ensures Matches(cfg, Alive(m)[i], s'.disk.files[i])
      ensures i < |Alive(m)| - 1 ==> Complete(Alive(m)[i], s'.disk.files[i])
    {
      assert Matches(cfg, Alive(m)[i], s.disk.files[i]);
    }
  }

  /** The directory without its last file. */
  lemma WithoutLast(cfg: Config, files: seq<File>)
    requires DiskOk(cfg, files) && files != []
    ensures DiskOk(cfg, files[..|files| - 1])
  {
    hide FileOk;
    forall i, j | 0 <= i < |files| - 1 && 0 <= j < |files| - 1 && j == i + 1
      ensures Follows(files[i], files[j])
    {
    }
  }

  lemma ActiveMatches(cfg: Config, s: State)
    requires Shape(cfg, s) && s.mem.Some?
    ensures Matches(cfg, Active(s.mem.value), ActiveFile(s)) && FileOk(cfg, ActiveFile(s))
    ensures ActiveFile(s).base == Active(s.mem.value).base
    ensures !(s.mem.value.pc.Writing? && s.mem.value.pc.at.Created?) ==>
              ActiveIndex(s.mem.value) == |s.disk.files| - 1
  {
    hide Frames, ScanBytes;
    var m := s.mem.value;
    assert Alive(m)[|Alive(m)| - 1] == Active(m);
    assert Matches(cfg, Alive(m)[|Alive(m)| - 1], s.disk.files[|Alive(m)| - 1]);
  }

  lemma ShapeWrite(cfg: Config, s: State, n: nat, ok: bool)
    requires Shape(cfg, s) && Enabled(cfg, s, Write(n, ok))
    ensures Shape(cfg, DoWrite(s, n, ok))
  {
    hide Frames, ScanBytes;
    var m := s.mem.value;
    var s' := DoWrite(s, n, ok);
    ActiveMatches(cfg, s);
    var a, f, recs := Active(m), ActiveFile(s), InFlight(s).recs;
    MatchedBytes(cfg, a, f);
    FramesConcat(cfg.crc, f.written, recs);
    assert RoundOk(cfg, s.rounds, m.inflight.value);
    var f' := f.(bytes := f.bytes + m.pc.buf[..n], written := f.written + recs);
    assert f'.written[..a.count] == f.written[..a.count] == f.written;
    assert f'.bytes == Frames(cfg.crc, f'.written)[..|f.bytes| + n];
    ReplaceFile(cfg, s.disk.files, ActiveIndex(m), f');
    AlignedActive(cfg, s, s');
  }

  /** How much of a file is synced does not matter for what it holds. */
  lemma SyncToOk(cfg: Config, g: Seg, f: File, n: nat)
    requires FileOk(cfg, f) && Matches(cfg, g, f)
    ensures FileOk(cfg, SyncTo(f, n)) && Matches(cfg, g, SyncTo(f, n))
    ensures Complete(g, f) <==> Complete(g, SyncTo(f, n))
    ensures n == |f.bytes| ==> SyncTo(f, n).synced == |f.bytes|
  {
    hide Frames;
  }

  lemma ShapeSync(cfg: Config, s: State, step: Step)
    requires Shape(cfg, s) && Enabled(cfg, s, step) && (step.Sync? || step.SyncFails?)
    ensures Shape(cfg, Apply(cfg, s, step))
  {
    hide Frames, ScanBytes, RoundsOk, FileOk, Matches, DiskOk;
    var m := s.mem.value;
    var s' := Apply(cfg, s, step);
    RoundsSame(cfg, s, s');
    ActiveMatches(cfg, s);
    SyncToOk(cfg, Active(m), ActiveFile(s), if step.SyncFails? then step.upTo else |ActiveFile(s).bytes|);
    var f' := s'.disk.files[ActiveIndex(m)];
    assert s'.disk.files == s.disk.files[ActiveIndex(m) := f'];
    ReplaceFile(cfg, s.disk.files, ActiveIndex(m), f');
    AlignedActive(cfg, s, s');
  }

  lemma ShapePublishSize(cfg: Config, s: State)
    requires Shape(cfg, s) && Enabled(cfg, s, PublishSize)
    ensures Shape(cfg, DoPublishSize(s))
  {
    hide Frames, ScanBytes, DiskOk, RoundsOk, Aligned, Matches;
    var s' := DoPublishSize(s);
    PublishedActive(cfg, s);
    PublishAligned(cfg, s);
    RoundsSame(cfg, s, s');
  }

  /** The grown segment describes the whole active file. */
  lemma PublishedActive(cfg: Config, s: State)
    requires Shape(cfg, s) && Enabled(cfg, s, PublishSize)
    ensures var a', f := Active(DoPublishSize(s).mem.value), ActiveFile(s);
            Matches(cfg, a', f) && Complete(a', f)
  {
    hide Frames, ScanBytes, DiskOk, RoundsOk, Aligned;
    var a, f := Active(s.mem.value), ActiveFile(s);
    ActiveMatches(cfg, s);
    FramesConcat(cfg.crc, f.written[..a.count], InFlight(s).recs);
    assert f.written[..|f.written|] == f.written;
  }

  lemma PublishAligned(cfg: Config, s: State)
    requires Shape(cfg, s) && Enabled(cfg, s, PublishSize)
    requires Matches(cfg, Active(DoPublishSize(s).mem.value), ActiveFile(s))
    ensures Aligned(cfg, DoPublishSize(s)) && HasActive(DoPublishSize(s))
  {
    hide Frames, ScanBytes, DiskOk, RoundsOk, NumbersOk, ActiveOk, Matches, Complete;
    var s' := DoPublishSize(s);
    var m, m' := s.mem.value, s'.mem.value;
    assert Alive(m') == Alive(m)[|Alive(m)| - 1 := Active(m')];
    forall i | 0 <= i < |Alive(m')|
      ensures Matches(cfg, Alive(m')[i], s'.disk.files[i])
      ensures i < |Alive(m')| - 1 ==> Complete(Alive(m')[i], s'.disk.files[i])
    {
      assert Matches(cfg, Alive(m)[i], s.disk.files[i]);
    }
  }

  // ---- the outcome of a round ---------------------------------------------

  lemma ShapeSettleOk(cfg: Config, s: State)
    requires Shape(cfg, s) && Enabled(cfg, s, SettleOk)
    ensures Shape(cfg, DoSettleOk(s))
  {
    hide Frames, ScanBytes, DiskOk, Matches, Complete, RoundsOk;
    SettledRounds(cfg, s);
    assert ActiveFile(DoSettleOk(s)) == ActiveFile(s);
  }

  lemma SettledRounds(cfg: Config, s: State)
    requires Shape(cfg, s) && Enabled(cfg, s, SettleOk)
    ensures RoundsOk(cfg, DoSettleOk(s))
  {
    hide Frames, ScanBytes, DiskOk, Aligned, ActiveOk;
    var s' := DoSettleOk(s);
    forall r | 0 <= r < |s'.rounds|
      ensures RoundOk(cfg, s'.rounds, r)
    {
      assert RoundOk(cfg, s.rounds, r);
    }
  }

  /** Cutting a file back to what its segment describes leaves exactly that. */
  lemma CutActive(cfg: Config, g: Seg, f: File)
    requires FileOk(cfg, f) && Matches(cfg, g, f)
    ensures var t := Truncated(f, g.size, g.count);
            && FileOk(cfg, t) && Matches(cfg, g, t) && Complete(g, t) && g.count <= |f.written|
            && t.base == f.base && t.prevEnd == f.prevEnd && t.written == f.written[..g.count]
            && FileOk(cfg, SyncTo(t, |t.bytes|)) && Matches(cfg, g, SyncTo(t, |t.bytes|)) && Complete(g, SyncTo(t, |t.bytes|))
  {
    hide Frames;
    TruncatedOk(cfg, f, g.size, g.count);
    var t := Truncated(f, g.size, g.count);
    assert t.written[..g.count] == t.written;
    SyncToOk(cfg, g, t, |t.bytes|);
  }

  lemma ShapeRollback(cfg: Config, s: State, step: Step)
    requires Shape(cfg, s) && Enabled(cfg, s, step) && (step.Rollback? || step.RollbackFails?)
    ensures Shape(cfg, Apply(cfg, s, step))
  {
    hide Frames, ScanBytes, RoundsOk, FileOk, Matches, DiskOk;
    var m := s.mem.value;
    var s' := Apply(cfg, s, step);
    RoundsSame(cfg, s, s');
    ActiveMatches(cfg, s);
    var a, f := Active(m), ActiveFile(s);
    CutActive(cfg, a, f);
    var f' := s'.disk.files[ActiveIndex(m)];
    assert s'.disk.files == s.disk.files[ActiveIndex(m) := f'];
    assert f'.written[..a.count] == f.written[..a.count];
    ReplaceFile(cfg, s.disk.files, ActiveIndex(m), f');
    AlignedActive(cfg, s, s');
  }

  lemma ShapeSettleErr(cfg: Config, s: State)
    requires Shape(cfg, s) && Enabled(cfg, s, SettleErr)
    ensures Shape(cfg, DoSettleErr(s))
  {
    hide Frames, ScanBytes;
    FramesLowerBound(cfg.crc, []);
    var s' := DoSettleErr(s);
    forall r | 0 <= r < |s'.rounds|
      ensures RoundOk(cfg, s'.rounds, r)
    {
      if r < |s.rounds| {
        assert RoundOk(cfg, s.rounds, r);
      }
    }
  }

  // ---- truncation ----------------------------------------------------------

  lemma ShapeTruncateRemove(cfg: Config, s: State)
    requires Shape(cfg, s) && Enabled(cfg, s, TruncateRemove)
    ensures Shape(cfg, DoTruncateRemove(s))
  {
    hide Frames, ScanBytes, DiskOk, RoundsOk, Matches, Complete, Aligned, NumbersOk, ActiveOk;
    var s' := DoTruncateRemove(s);
    TailAligned(cfg, s);
    TailOk(cfg, s.disk.files);
    TailActive(cfg, s);
    RoundsSame(cfg, s, s');
  }

  lemma TailActive(cfg: Config, s: State)
    requires Shape(cfg, s) && Enabled(cfg, s, TruncateRemove)
    ensures var s' := DoTruncateRemove(s);
            && HasActive(s') && ActiveFile(s') == ActiveFile(s) && NumbersOk(cfg, s')
            && (Flying(s') || s'.mem.value.pc.Idle?) && ActiveOk(cfg, s')
  {
    hide Frames, ScanBytes, DiskOk, RoundsOk, Matches, Complete;
  }

  lemma RoundsSame(cfg: Config, s: State, s': State)
    requires RoundsOk(cfg, s) && s'.rounds == s.rounds && s.mem.Some? && s'.mem.Some?
    requires s'.mem.value.inflight == s.mem.value.inflight && s'.mem.value.cur == s.mem.value.cur
    requires s'.mem.value.firstRound == s.mem.value.firstRound
    ensures RoundsOk(cfg, s')
  {
    hide RoundOk;
  }

  /** The directory without its first file. */
  lemma TailOk(cfg: Config, files: seq<File>)
    requires DiskOk(cfg, files) && files != []
    ensures DiskOk(cfg, files[1..])
  {
    hide FileOk;
    forall i, j | 0 <= i < |files| - 1 && 0 <= j < |files| - 1 && j == i + 1
      ensures Follows(files[1..][i], files[1..][j])
    {
      assert Follows(files[i + 1], files[j + 1]);
    }
  }

  lemma TailAligned(cfg: Config, s: State)
    requires Shape(cfg, s) && Enabled(cfg, s, TruncateRemove)
    ensures Aligned(cfg, DoTruncateRemove(s))
  {
    hide Frames, ScanBytes, DiskOk, ActiveOk, NumbersOk, RoundsOk, Matches, Complete;
    var s' := DoTruncateRemove(s);
    var m, m' := s.mem.value, s'.mem.value;
    assert Alive(m') == Alive(m)[1..];
    forall i | 0 <= i < |Alive(m')|
      ensures Matches(cfg, Alive(m')[i], s'.disk.files[i])
      ensures i < |Alive(m')| - 1 ==> Complete(Alive(m')[i], s'.disk.files[i])
    {
      assert Matches(cfg, Alive(m)[i + 1], s.disk.files[i + 1]);
    }
  }

  lemma ShapeTruncateBegin(cfg: Config, s: State, doomed: nat)
    requires Shape(cfg, s) && s.mem.Some? && s.mem.value.removed <= doomed < |s.mem.value.segs|
    ensures Shape(cfg, s.(mem := Some(s.mem.value.(doomed := doomed))))
  {
    hide Frames, ScanBytes;
    var s' := s.(mem := Some(s.mem.value.(doomed := doomed)));
    assert Alive(s'.mem.value) == Alive(s.mem.value);
    assert ActiveFile(s') == ActiveFile(s) && NumbersOk(cfg, s');
  }

  lemma ShapeTruncateEnd(cfg: Config, s: State)
    requires Shape(cfg, s) && s.mem.Some?
    ensures Shape(cfg, DoTruncateEnd(s))
  {
    hide Frames, ScanBytes;
    var s' := DoTruncateEnd(s);
    assert Alive(s'.mem.value) == Alive(s.mem.value);
    assert Active(s'.mem.value) == Active(s.mem.value);
    assert ActiveFile(s') == ActiveFile(s) && NumbersOk(cfg, s');
  }

  // ---- shutdown and crashes --------------------------------------------------

  lemma ShapeClose(cfg: Config, s: State, step: Step)
    requires Shape(cfg, s) && Enabled(cfg, s, step) && (step.CloseReserve? || step.CloseEnd?)
    ensures Shape(cfg, Apply(cfg, s, step))
  {
    hide Frames, ScanBytes;
    if step.CloseEnd? {
      var f := ActiveFile(s);
      ActiveMatches(cfg, s);
      var s' := Apply(cfg, s, step);
      var k := ActiveIndex(s.mem.value);
      var f' := s'.disk.files[k];
      assert s'.disk.files == s.disk.files[k := f'];
      ReplaceFile(cfg, s.disk.files, k, f');
    }
  }

  lemma ShapeProcessCrash(cfg: Config, s: State)
    requires Shape(cfg, s)
    ensures Shape(cfg, s.(mem := None))
  {
    hide Frames, ScanBytes;
  }

  lemma ShapeMachineCrash(cfg: Config, s: State, kept: seq<nat>)
    requires Shape(cfg, s) && Enabled(cfg, s, MachineCrash(kept))
    ensures Shape(cfg, DoMachineCrash(s, kept))
  {
    hide Frames, ScanBytes, DiskOk, Aligned, NumbersOk, ActiveOk;
    SurvivorsOk(cfg, s.disk.files, kept);
  }

  lemma SurvivorsOk(cfg: Config, files: seq<File>, kept: seq<nat>)
    requires DiskOk(cfg, files) && CrashKeeps(files, kept)
    ensures DiskOk(cfg, Survivors(files, kept))
  {
    hide Frames;
    var files' := Survivors(files, kept);
    forall i, j | 0 <= i < |files'| && 0 <= j < |files'| && j == i + 1
      ensures Follows(files'[i], files'[j])
    {
      assert Follows(files[i], files[j]);
    }
    forall i | 0 <= i < |files'|
      ensures FileOk(cfg, files'[i])
    {
      assert FileOk(cfg, files[i]);
    }
  }

  // ---- recovery ----------------------------------------------------------

  /** Scanning an undamaged file gives the records that survived in it. */
  lemma ScannedFile(cfg: Config, f: File)
    requires ValidConfig(cfg) && FileOk(cfg, f)
    ensures var w := Whole(cfg.crc, f.written, |f.bytes|);
            && !ScanFile(cfg, f).TooLarge? && !ScanFile(cfg, f).Corrupt?
            && Matches(cfg, SegOf(cfg, f), f) && SegOf(cfg, f).count == w
            && (ScanFile(cfg, f).Clean? <==> SegOf(cfg, f).size == |f.bytes|)
            && (w == |f.written| <==> f.bytes == Frames(cfg.crc, f.written))
  {
    hide Frames, ScanBytes;
    ScanAfterCut(cfg.crc, cfg.maxRecord, f.written, f.bytes);
    WholeAll(cfg.crc, f.written, f.bytes);
  }

  /** Scanning a file whose bytes are all of its records. */
  lemma ScannedComplete(cfg: Config, f: File)
    requires ValidConfig(cfg) && FileOk(cfg, f) && f.bytes == Frames(cfg.crc, f.written)
    ensures SegOf(cfg, f) == Seg(f.base, f.prevEnd, |f.bytes|, |f.written|)
    ensures ScanFile(cfg, f) == Clean(|f.written|, |f.bytes|)
    ensures Matches(cfg, SegOf(cfg, f), f) && Complete(SegOf(cfg, f), f)
  {
    hide Frames, ScanBytes;
    ScannedFile(cfg, f);
    assert f.written[..|f.written|] == f.written;
  }

  /** Cutting a torn tail off keeps the links. */
  lemma TrimmedFiles(cfg: Config, files: seq<File>)
    requires ValidConfig(cfg) && DiskOk(cfg, files)
    ensures DiskOk(cfg, Trimmed(cfg, files)) && |Trimmed(cfg, files)| == |files|
    ensures files != [] ==>
              var t := Trimmed(cfg, files)[|files| - 1]; t.bytes == Frames(cfg.crc, t.written)
  {
    hide Frames, ScanBytes;
    if files != [] {
      var k := |files| - 1;
      var g := SegOf(cfg, files[k]);
      ScannedFile(cfg, files[k]);
      TruncatedOk(cfg, files[k], g.size, g.count);
      ReplaceFile(cfg, files, k, Truncated(files[k], g.size, g.count));
    }
  }

  /** The files recover ends up with are linked, and each holds exactly its records. */
  lemma RecoveredFiles(cfg: Config, files: seq<File>, reserved: nat)
    requires ValidConfig(cfg) && DiskOk(cfg, files) && Openable(cfg, files)
    ensures var t := Trimmed(cfg, files);
            && DiskOk(cfg, t) && |t| == |files|
            && (forall i :: 0 <= i < |t| ==> t[i].bytes == Frames(cfg.crc, t[i].written))
    ensures var t := Resumed(cfg, Trimmed(cfg, files), reserved);
            && DiskOk(cfg, t)
            && (forall i :: 0 <= i < |t| ==> t[i].bytes == Frames(cfg.crc, t[i].written))
  {
    hide Frames, ScanBytes;
    var t := Trimmed(cfg, files);
    TrimmedFiles(cfg, files);
    FramesLowerBound(cfg.crc, []);
    if files != [] {
      var k := |files| - 1;
      forall i | 0 <= i < |t|
        ensures t[i].bytes == Frames(cfg.crc, t[i].written)
      {
        if i < k {
          ScannedFile(cfg, files[i]);
          assert Follows(files[i], files[i + 1]);
        }
      }
      ScannedComplete(cfg, t[k]);
      var tail := LastLSN(SegOf(cfg, t[k]));
      if reserved > tail {
        AppendFile(cfg, t, File(reserved + 1, tail, [], 0, []));
      }
    }
  }

  lemma ShapeTrimTail(cfg: Config, s: State)
    requires ValidConfig(cfg) && Shape(cfg, s) && Enabled(cfg, s, TrimTail)
    ensures Shape(cfg, Apply(cfg, s, TrimTail))
  {
    hide Frames, ScanBytes, Trimmed;
    TrimmedFiles(cfg, s.disk.files);
  }

  lemma ShapeRecover(cfg: Config, s: State)
    requires ValidConfig(cfg) && Shape(cfg, s) && Enabled(cfg, s, Recover)
    ensures Shape(cfg, DoRecover(cfg, s))
  {
    hide Frames, ScanBytes, LastRecord, Contents, Trimmed, Resumed, SegOf;
    FramesLowerBound(cfg.crc, []);
    var s' := DoRecover(cfg, s);
    var files := s'.disk.files;
    RecoveredFiles(cfg, s.disk.files, s.disk.reserved);
    var m := s'.mem.value;
    assert Alive(m) == m.segs == SegsOf(cfg, files);
    forall i | 0 <= i < |files|
      ensures Matches(cfg, m.segs[i], files[i]) && Complete(m.segs[i], files[i])
    {
      ScannedComplete(cfg, files[i]);
    }
    forall r | 0 <= r < |s'.rounds|
      ensures RoundOk(cfg, s'.rounds, r)
    {
      if r < |s.rounds| {
        assert RoundOk(cfg, s.rounds, r);
      }
    }
  }

  /** Every step keeps the shape. */
  lemma ShapeStep(cfg: Config, s: State, step: Step)
    requires ValidConfig(cfg) && Shape(cfg, s) && Enabled(cfg, s, step)
    ensures Shape(cfg, Apply(cfg, s, step))
  {
    hide Shape;
    match step {
      case Stage(payloads, claim) => ShapeStage(cfg, s, payloads, claim);
      case Take => ShapeTake(cfg, s);
      case CreateNext => ShapeCreateNext(cfg, s);
      case LinkNext => ShapeLinkNext(cfg, s);
      case LinkFails(upTo) => ShapeLinkFails(cfg, s, upTo);
      case Write(n, ok) => ShapeWrite(cfg, s, n, ok);
      case Sync => ShapeSync(cfg, s, step);
      case SyncFails(_) => ShapeSync(cfg, s, step);
      case PublishSize => ShapePublishSize(cfg, s);
      case SettleOk => ShapeSettleOk(cfg, s);
      case Rollback => ShapeRollback(cfg, s, step);
      case RollbackFails(_) => ShapeRollback(cfg, s, step);
      case SettleErr => ShapeSettleErr(cfg, s);
      case TruncateBegin(upto) => ShapeTruncateBegin(cfg, s, Drop(s.mem.value.segs, upto));
      case TruncateRemove => ShapeTruncateRemove(cfg, s);
      case TruncateEnd => ShapeTruncateEnd(cfg, s);
      case CloseReserve(_) => ShapeClose(cfg, s, step);
      case CloseEnd(_) => ShapeClose(cfg, s, step);
      case MachineCrash(kept) => ShapeMachineCrash(cfg, s, kept);
      case TrimTail => ShapeTrimTail(cfg, s);
      case Recover => ShapeRecover(cfg, s);
      case CreateFails => ShapePoint(cfg, s, step);
      case KeepSegment => ShapePoint(cfg, s, step);
      case CloseBegin => ShapeCloseBegin(cfg, s);
      case ProcessCrash => ShapeProcessCrash(cfg, s);
    }
  }
}
