/** What the log keeps about the past: which records were ever visible, under which
    numbers, and what their rounds were told. */
module WalHistory {
  import opened RecordFormat
  import opened SegmentScan
  import opened Wal
  import opened WalShape

  /** Where a visible number lies in a file, the file holds the record seen there. */
  ghost predicate Agrees(seen: map<nat, Record>, f: File) {
    forall n :: n in seen && f.base <= n < End(f) ==> seen[n] == f.written[n - f.base]
  }

  /** Every record the segment counts below `settled` has been visible. */
  ghost predicate Covers(seen: map<nat, Record>, g: Seg, settled: nat) {
    forall n :: g.base <= n < g.base + g.count && n < settled ==> n in seen
  }

  /** No record the segment counts below `settled` lies above `durable`. */
  ghost predicate UpTo(g: Seg, settled: nat, durable: nat) {
    g.count > 0 && g.base < settled ==> (if LastLSN(g) < settled then LastLSN(g) else settled - 1) <= durable
  }

  /** RESERVED covers every number that may have been handed out. */
  ghost predicate ReservedOk(s: State) {
    && (forall n :: n in s.seen ==> n <= s.disk.reserved)
    && (forall i :: 0 <= i < |s.disk.files| ==> End(s.disk.files[i]) <= s.disk.reserved + 1)
    && (s.mem.Some? ==> s.mem.value.nextLSN <= s.mem.value.reserved + 1)
  }

  ghost predicate SeenOk(s: State) {
    && (forall i :: 0 <= i < |s.disk.files| ==> Agrees(s.seen, s.disk.files[i]))
    && (HasActive(s) ==>
          && (forall n :: n in s.seen ==> n < Settled(s.mem.value)))
  }

  /** The round a record was staged into has not been told that its records are gone. */
  ghost predicate NotFailed(rounds: seq<Round>, r: Record) {
    r.round < |rounds| && !rounds[r.round].verdict.RolledBack?
  }

  /** A record that a segment counts is from an earlier process, or committed by this
      one, or about to be told so. */
  ghost predicate Published(m: Mem, rounds: seq<Round>, r: Record) {
    && r.round < |rounds|
    && (|| r.round < m.firstRound
        || rounds[r.round].verdict.Committed?
        || (m.pc.Writing? && m.pc.at.Sized? && m.inflight == Some(r.round)))
  }

  ghost predicate VerdictsOk(s: State) {
    && (forall n :: n in s.seen ==> NotFailed(s.rounds, s.seen[n]))
    && (HasActive(s) ==> forall n :: n in s.seen ==> Published(s.mem.value, s.rounds, s.seen[n]))
    && (forall i, j :: 0 <= i < |s.disk.files| && 0 <= j < |s.disk.files[i].written| ==>
          NotFailed(s.rounds, s.disk.files[i].written[j]))
  }

  ghost predicate TagsOk(s: State) {
    && (forall i, j :: 0 <= i < |s.disk.files| && 0 <= j < |s.disk.files[i].written| ==>
          s.disk.files[i].written[j].round < |s.rounds|)
    && (HasActive(s) ==>
          var m := s.mem.value;
          forall i, j :: 0 <= i < |Alive(m)| && i < |s.disk.files| && 0 <= j < Alive(m)[i].count
                         && j < |s.disk.files[i].written| ==>
            Published(m, s.rounds, s.disk.files[i].written[j]))
  }

  /** The durable mark lies below everything unsettled, no visible record lies above
      it, and it names a record. */
  ghost predicate DurableOk(s: State) {
    HasActive(s) ==>
      var m := s.mem.value;
      && m.durable < Settled(m)
      && (m.durable == 0 || m.durable in s.seen)
      && (forall i :: 0 <= i < |Alive(m)| ==> Covers(s.seen, Alive(m)[i], Settled(m)))
      && (forall i :: 0 <= i < |Alive(m)| ==> UpTo(Alive(m)[i], Settled(m), m.durable))
  }

  ghost predicate PastOk(s: State) {
    VerdictsOk(s) && (!s.tainted ==> ReservedOk(s) && SeenOk(s))
  }

  ghost predicate History(s: State) {
    TagsOk(s) && DurableOk(s) && PastOk(s)
  }

  ghost predicate Extends(seen: map<nat, Record>, seen': map<nat, Record>) {
    forall n :: n in seen ==> n in seen' && seen'[n] == seen[n]
  }

  // ---- order of the files ---------------------------------------------------

  /** Earlier files end before later ones begin. */
  lemma {:induction false} FilesOrdered(cfg: Config, files: seq<File>, i: nat, j: nat)
    requires DiskOk(cfg, files) && i < j < |files|
    ensures End(files[i]) <= files[j].base
    decreases j - i
  {
    hide Frames;
    assert FileOk(cfg, files[j]);
    if i + 1 < j {
      FilesOrdered(cfg, files, i, j - 1);
      assert Follows(files[j - 1], files[j]);
    } else {
      assert Follows(files[i], files[j]);
    }
  }

  // ---- steps that move no record ----------------------------------------------

  /** Same records in the same files. */
  ghost predicate SameFiles(files: seq<File>, files': seq<File>) {
    && |files| == |files'|
    && forall i :: 0 <= i < |files| ==> files[i].base == files'[i].base && files[i].written == files'[i].written
  }

  /** Nothing the history speaks of has changed in memory. */
  ghost predicate SameMem(s: State, s': State) {
    && HasActive(s) && HasActive(s')
    && var m, m' := s.mem.value, s'.mem.value;
       && Alive(m) == Alive(m') && Settled(m) == Settled(m')
       && m.durable == m'.durable && m.firstRound == m'.firstRound
       && m.nextLSN == m'.nextLSN && m.reserved == m'.reserved
       && (forall r :: Published(m, s.rounds, r) ==> Published(m', s'.rounds, r))
  }

  lemma HistoryFrame(s: State, s': State)
    requires History(s)
    requires s'.seen == s.seen && s'.rounds == s.rounds && s'.tainted == s.tainted
    requires s'.disk.reserved == s.disk.reserved && SameFiles(s.disk.files, s'.disk.files)
    requires s'.mem.None? || SameMem(s, s')
    ensures History(s')
  {
    assert forall i :: 0 <= i < |s'.disk.files| ==> End(s'.disk.files[i]) == End(s.disk.files[i]);
    if !s.tainted {
      forall i | 0 <= i < |s'.disk.files|
        ensures Agrees(s'.seen, s'.disk.files[i])
      {
        assert Agrees(s.seen, s.disk.files[i]);
      }
    }
  }

  lemma HistoryQuiet(cfg: Config, s: State, step: Step)
    requires Shape(cfg, s) && History(s) && Enabled(cfg, s, step)
    requires step.CreateFails? || step.KeepSegment? || step.Sync? || step.SyncFails?
             || step.CloseEnd? || step.ProcessCrash?
    ensures History(Apply(cfg, s, step)) && Apply(cfg, s, step).seen == s.seen
  {
    hide Frames, ScanBytes, History, DiskOk, RoundsOk, Matches, Complete, ActiveOk, NumbersOk;
    var s' := Apply(cfg, s, step);
    HistoryFrame(s, s');
  }

  lemma HistoryTruncateMem(cfg: Config, s: State, step: Step)
    requires Shape(cfg, s) && History(s) && Enabled(cfg, s, step)
    requires step.TruncateBegin? || step.TruncateEnd? || step.CloseBegin?
    ensures History(Apply(cfg, s, step)) && Apply(cfg, s, step).seen == s.seen
  {
    hide Frames, ScanBytes, History, DiskOk, RoundsOk, Matches, Complete, ActiveOk, NumbersOk, Drop;
    var s' := Apply(cfg, s, step);
    assert Alive(s'.mem.value) == Alive(s.mem.value);
    assert Active(s'.mem.value) == Active(s.mem.value);
    HistoryFrame(s, s');
  }

  lemma HistoryMachineCrash(cfg: Config, s: State, kept: seq<nat>)
    requires Shape(cfg, s) && History(s) && Enabled(cfg, s, MachineCrash(kept))
    ensures History(DoMachineCrash(s, kept))
  {
    hide Frames, ScanBytes, History, DiskOk, RoundsOk, Aligned, ActiveOk, NumbersOk;
    HistoryFrame(s, DoMachineCrash(s, kept));
  }

  // ---- staging ------------------------------------------------------------------

  /** Everything written to the files is numbered below nextLSN. */
  lemma FilesBelowNext(cfg: Config, s: State)
    requires Shape(cfg, s) && s.mem.Some? && !s.mem.value.broken
    ensures forall i :: 0 <= i < |s.disk.files| ==> End(s.disk.files[i]) <= s.mem.value.nextLSN
  {
    hide Frames, ScanBytes, RoundsOk;
    var m := s.mem.value;
    ActiveMatches(cfg, s);
    var k := ActiveIndex(m);
    assert End(s.disk.files[k]) <= m.nextLSN;
    forall i | 0 <= i < |s.disk.files|
      ensures End(s.disk.files[i]) <= m.nextLSN
    {
      if i < k {
        FilesOrdered(cfg, s.disk.files, i, k);
      }
    }
  }

  lemma PastStage(cfg: Config, s: State, payloads: seq<Bytes>, claim: CellWrite)
    requires Shape(cfg, s) && PastOk(s) && Enabled(cfg, s, Stage(payloads, claim))
    ensures PastOk(DoStage(cfg, s, payloads, claim))
  {
    hide Frames, ScanBytes, Tagged, DiskOk, RoundsOk, Matches, Complete, ActiveOk, Agrees, Aligned, VerdictsOk;
    FilesBelowNext(cfg, s);
    VerdictsStage(cfg, s, payloads, claim);
  }

  lemma VerdictsStage(cfg: Config, s: State, payloads: seq<Bytes>, claim: CellWrite)
    requires Shape(cfg, s) && VerdictsOk(s) && Enabled(cfg, s, Stage(payloads, claim))
    ensures VerdictsOk(DoStage(cfg, s, payloads, claim))
  {
    hide Frames, ScanBytes, Tagged, DiskOk, RoundsOk, Matches, Complete, ActiveOk, Aligned;
  }

  lemma HistoryStage(cfg: Config, s: State, payloads: seq<Bytes>, claim: CellWrite)
    requires Shape(cfg, s) && History(s) && Enabled(cfg, s, Stage(payloads, claim))
    ensures History(DoStage(cfg, s, payloads, claim))
  {
    hide Frames, ScanBytes, Tagged, DiskOk, RoundsOk, Matches, Complete, ActiveOk, PastOk, Covers, UpTo;
    var s' := DoStage(cfg, s, payloads, claim);
    assert Alive(s'.mem.value) == Alive(s.mem.value);
    PastStage(cfg, s, payloads, claim);
  }

  lemma HistoryTake(cfg: Config, s: State)
    requires Shape(cfg, s) && History(s) && Enabled(cfg, s, Take)
    ensures History(DoTake(s))
  {
    hide Frames, ScanBytes, DiskOk, RoundsOk, Matches, Complete, ActiveOk, Agrees, Covers, UpTo;
    var s' := DoTake(s);
    assert Alive(s'.mem.value) == Alive(s.mem.value);
  }

  // ---- the committer --------------------------------------------------------------

  lemma HistoryCreateNext(cfg: Config, s: State)
    requires Shape(cfg, s) && History(s) && Enabled(cfg, s, CreateNext)
    ensures History(DoCreateNext(s))
  {
    hide Frames, ScanBytes, DiskOk, RoundsOk, Matches, Complete, Covers, UpTo;
    var s' := DoCreateNext(s);
    assert Alive(s'.mem.value) == Alive(s.mem.value);
  }

  lemma PastLinkNext(cfg: Config, s: State)
    requires Shape(cfg, s) && PastOk(s) && AtPoint(s, Created)
    ensures PastOk(DoLinkNext(s))
  {
    hide Frames, ScanBytes, DiskOk, RoundsOk, Matches, Complete;
    var s' := DoLinkNext(s);
    assert SameFiles(s.disk.files, s'.disk.files);
    if !s.tainted {
      forall i | 0 <= i < |s'.disk.files|
        ensures Agrees(s'.seen, s'.disk.files[i])
      {
        assert Agrees(s.seen, s.disk.files[i]);
      }
    }
  }

  lemma HistoryLinkNext(cfg: Config, s: State)
    requires Shape(cfg, s) && History(s) && AtPoint(s, Created)
    ensures History(DoLinkNext(s))
  {
    hide Frames, ScanBytes, DiskOk, RoundsOk, Matches, Complete, PastOk;
    var s' := DoLinkNext(s);
    var m, m' := s.mem.value, s'.mem.value;
    assert Alive(m') == Alive(m) + [Seg(m.pc.first, m.pc.first - 1, 0, 0)];
    assert Settled(m') == Settled(m);
    PastLinkNext(cfg, s);
  }

  lemma HistoryLinkFails(cfg: Config, s: State, upTo: nat)
    requires Shape(cfg, s) && History(s) && Enabled(cfg, s, LinkFails(upTo))
    ensures History(DoLinkFails(s, upTo))
  {
    hide Frames, ScanBytes, DiskOk, RoundsOk, Matches, Complete, ActiveOk, Aligned, NumbersOk;
    var s' := DoLinkFails(s, upTo);
    assert Alive(s'.mem.value) == Alive(s.mem.value);
    assert Settled(s'.mem.value) == Settled(s.mem.value);
    assert SameFiles(s.disk.files[..|s.disk.files| - 1], s'.disk.files);
    PastLinkFails(cfg, s, upTo);
    hide PastOk;
  }

  lemma PastLinkFails(cfg: Config, s: State, upTo: nat)
    requires Shape(cfg, s) && PastOk(s) && Enabled(cfg, s, LinkFails(upTo))
    ensures PastOk(DoLinkFails(s, upTo))
  {
    hide Frames, ScanBytes, DiskOk, RoundsOk, Matches, Complete, ActiveOk, Aligned, NumbersOk, Agrees;
    var s' := DoLinkFails(s, upTo);
    assert SameFiles(s.disk.files[..|s.disk.files| - 1], s'.disk.files);
    if !s.tainted {
      forall i | 0 <= i < |s'.disk.files|
        ensures Agrees(s'.seen, s'.disk.files[i])
      {
        assert Agrees(s.seen, s.disk.files[i]);
        AgreesSame(s.seen, s.disk.files[i], s'.disk.files[i]);
      }
    }
  }

  lemma AgreesSame(seen: map<nat, Record>, f: File, f': File)
    requires Agrees(seen, f) && f'.base == f.base && f'.written == f.written
    ensures Agrees(seen, f')
  {
  }

  /** The active file after the write: the records it had, then the batch. */
  lemma WrittenFile(cfg: Config, s: State, n: nat, ok: bool)
    requires Shape(cfg, s) && AtPoint(s, Ready) && n <= |s.mem.value.pc.buf|
    ensures Flying(s)
    ensures var f, f' := ActiveFile(s), DoWrite(s, n, ok).disk.files[ActiveIndex(s.mem.value)];
            && f'.base == f.base && f'.written == f.written + InFlight(s).recs
            && End(f) == Settled(s.mem.value) && End(f') <= s.mem.value.nextLSN
            && |f.written| == Active(s.mem.value).count
    ensures RoundOk(cfg, s.rounds, s.mem.value.inflight.value)
  {
    hide Frames, ScanBytes, DiskOk, Matches, RoundOk;
    ActiveMatches(cfg, s);
  }

  lemma PastWrite(cfg: Config, s: State, n: nat, ok: bool)
    requires Shape(cfg, s) && PastOk(s) && AtPoint(s, Ready) && n <= |s.mem.value.pc.buf| && Flying(s)
    ensures PastOk(DoWrite(s, n, ok))
  {
    hide Frames, ScanBytes, DiskOk, Matches, RoundsOk, Aligned, ActiveOk;
    var s' := DoWrite(s, n, ok);
    var k := ActiveIndex(s.mem.value);
    WrittenFile(cfg, s, n, ok);
    if !s.tainted {
      assert Agrees(s.seen, s.disk.files[k]);
      assert Agrees(s'.seen, s'.disk.files[k]);
    }
  }

  lemma HistoryWrite(cfg: Config, s: State, n: nat, ok: bool)
    requires Shape(cfg, s) && History(s) && AtPoint(s, Ready) && n <= |s.mem.value.pc.buf| && Flying(s)
    ensures History(DoWrite(s, n, ok))
  {
    hide Frames, ScanBytes, DiskOk, Matches, RoundsOk, Aligned, ActiveOk, PastOk, Covers, UpTo, NumbersOk;
    var s' := DoWrite(s, n, ok);
    assert Alive(s'.mem.value) == Alive(s.mem.value);
    WrittenFile(cfg, s, n, ok);
    PastWrite(cfg, s, n, ok);
    assert Alive(s.mem.value)[ActiveIndex(s.mem.value)] == Active(s.mem.value);
  }

  lemma HistoryPublishSize(cfg: Config, s: State)
    requires Shape(cfg, s) && History(s) && Enabled(cfg, s, PublishSize)
    ensures History(DoPublishSize(s))
  {
    hide Frames, ScanBytes, DiskOk, Matches, Complete, TagsOk, DurableOk, ActiveOk, RoundsOk;
    PublishTags(cfg, s);
    PublishDurable(cfg, s);
    assert Settled(DoPublishSize(s).mem.value) == Settled(s.mem.value);
  }

  lemma PublishTags(cfg: Config, s: State)
    requires Shape(cfg, s) && TagsOk(s) && Enabled(cfg, s, PublishSize)
    ensures TagsOk(DoPublishSize(s))
  {
    hide Frames, ScanBytes, DiskOk, Matches, Complete, ActiveOk, RoundsOk, RoundOk;
    FlushedFile(cfg, s);
    var s' := DoPublishSize(s);
    var m, m' := s.mem.value, s'.mem.value;
    var k := ActiveIndex(m);
    assert Alive(m') == Alive(m)[k := Active(m')] && Alive(m)[k] == Active(m);
  }

  /** When the batch has been synced, the file holds what was published and then the batch. */
  lemma FlushedFile(cfg: Config, s: State)
    requires Shape(cfg, s) && Enabled(cfg, s, PublishSize)
    ensures Flying(s)
    ensures var f, a := ActiveFile(s), Active(s.mem.value);
            && a.count <= |f.written|
            && forall j :: a.count <= j < |f.written| ==> f.written[j].round == s.mem.value.inflight.value
  {
    hide Frames, ScanBytes, DiskOk, Matches, Complete;
    ActiveMatches(cfg, s);
    assert RoundOk(cfg, s.rounds, s.mem.value.inflight.value);
    var f, a, recs := ActiveFile(s), Active(s.mem.value), InFlight(s).recs;
    assert f.written == f.written[..a.count] + recs;
    assert forall j :: a.count <= j < |f.written| ==> f.written[j] == recs[j - a.count];
  }

  lemma PublishDurable(cfg: Config, s: State)
    requires Shape(cfg, s) && DurableOk(s) && Enabled(cfg, s, PublishSize)
    ensures DurableOk(DoPublishSize(s))
  {
    hide Frames, ScanBytes, DiskOk, Matches, Complete, ActiveOk, RoundsOk;
    var s' := DoPublishSize(s);
    var m, m' := s.mem.value, s'.mem.value;
    var k := ActiveIndex(m);
    assert Alive(m') == Alive(m)[k := Active(m')] && Alive(m)[k] == Active(m);
    assert Settled(m') == Settled(m);
  }

  /** At the moment of settling, the active file ends with the batch in flight. */
  lemma SettlingFile(cfg: Config, s: State)
    requires Shape(cfg, s) && AtPoint(s, Sized)
    ensures Flying(s)
    ensures var f, recs := ActiveFile(s), InFlight(s).recs;
            && |recs| <= |f.written| && f.written[|f.written| - |recs|..] == recs
            && End(f) == s.mem.value.pc.first + |recs| == s.mem.value.pc.last + 1 <= s.mem.value.nextLSN
    ensures ActiveIndex(s.mem.value) == |s.disk.files| - 1
    ensures RoundOk(cfg, s.rounds, s.mem.value.inflight.value)
  {
    hide Frames, ScanBytes, DiskOk, Matches, RoundOk;
    ActiveMatches(cfg, s);
  }

  /** Settling shows exactly the batch in flight, where the active file has it. */
  lemma SettledAgrees(cfg: Config, s: State, i: nat)
    requires Shape(cfg, s) && Flying(s) && AtPoint(s, Sized) && i < |s.disk.files|
    requires Agrees(s.seen, s.disk.files[i])
    ensures Agrees(DoSettleOk(s).seen, s.disk.files[i])
  {
    hide Frames, ScanBytes, RoundsOk, RoundOk, Matches, Aligned, ActiveOk, NumbersOk, DiskOk;
    SettlingFile(cfg, s);
    var k := |s.disk.files| - 1;
    if i < k {
      FilesOrdered(cfg, s.disk.files, i, k);
    }
  }

  lemma PastSettleOk(cfg: Config, s: State)
    requires Shape(cfg, s) && PastOk(s) && AtPoint(s, Sized) && Flying(s)
    ensures PastOk(DoSettleOk(s))
    ensures !s.tainted ==> Extends(s.seen, DoSettleOk(s).seen)
  {
    hide Frames, ScanBytes, DiskOk, Matches, Complete, ActiveOk, Agrees, RoundsOk, RoundOk, Aligned, VerdictsOk;
    var s' := DoSettleOk(s);
    SettlingFile(cfg, s);
    SettledVerdicts(cfg, s);
    if !s.tainted {
      forall i | 0 <= i < |s.disk.files|
        ensures Agrees(s'.seen, s'.disk.files[i])
      {
        SettledAgrees(cfg, s, i);
      }
      assert SeenOk(s');
    }
  }

  lemma SettledVerdicts(cfg: Config, s: State)
    requires Shape(cfg, s) && VerdictsOk(s) && AtPoint(s, Sized) && Flying(s)
    ensures VerdictsOk(DoSettleOk(s))
  {
    hide Frames, ScanBytes, DiskOk, Matches, Complete, ActiveOk, RoundsOk, Aligned;
    SettlingFile(cfg, s);
  }

  lemma HistorySettleOk(cfg: Config, s: State)
    requires Shape(cfg, s) && History(s) && AtPoint(s, Sized) && Flying(s)
    ensures History(DoSettleOk(s))
    ensures !s.tainted ==> Extends(s.seen, DoSettleOk(s).seen)
  {
    hide Frames, ScanBytes, DiskOk, Matches, Complete, ActiveOk, RoundsOk, Aligned, PastOk, Extends;
    var s' := DoSettleOk(s);
    var m := s.mem.value;
    PastSettleOk(cfg, s);
    SettlingFile(cfg, s);
    assert Alive(s'.mem.value) == Alive(m);
    forall i | 0 <= i < |Alive(m)|
      ensures Covers(s'.seen, Alive(m)[i], Settled(s'.mem.value))
    {
      assert Covers(s.seen, Alive(m)[i], Settled(m));
    }
  }

  // ---- failed rounds -----------------------------------------------------------

  lemma PastRollback(cfg: Config, s: State)
    requires Shape(cfg, s) && PastOk(s) && HasActive(s) && s.mem.value.pc.Failed?
    ensures PastOk(DoRollback(s))
  {
    hide Frames, ScanBytes, DiskOk, RoundsOk, Matches, ActiveOk, PastOk;
    ActiveCut(s, DoRollback(s));
  }

  /** The active file keeps a front part of its records, and nothing else changes that the
      past depends on. */
  lemma ActiveCut(s: State, s': State)
    requires PastOk(s) && HasActive(s) && HasActive(s') && s.mem.value.pc.Failed? && s'.mem.value.pc.Undone?
    requires s' == s.(disk := s'.disk, mem := Some(s.mem.value.(pc := s'.mem.value.pc))) && s'.disk.reserved == s.disk.reserved
    requires Prefixes(s.disk.files, s'.disk.files)
    ensures PastOk(s')
  {
    hide VerdictsOk, Agrees;
    CutVerdicts(s, s');
    if !s.tainted {
      forall i | 0 <= i < |s'.disk.files|
        ensures Agrees(s'.seen, s'.disk.files[i]) && End(s'.disk.files[i]) <= s.disk.reserved + 1
      {
        assert Agrees(s.seen, s.disk.files[i]) && End(s.disk.files[i]) <= s.disk.reserved + 1;
        AgreesPrefix(s.seen, s.disk.files[i], s'.disk.files[i]);
      }
    }
  }

  lemma AgreesPrefix(seen: map<nat, Record>, f: File, f': File)
    requires Agrees(seen, f) && f'.base == f.base && f'.written <= f.written
    ensures Agrees(seen, f')
  {
  }

  lemma CutVerdicts(s: State, s': State)
    requires VerdictsOk(s) && HasActive(s) && HasActive(s') && s'.rounds == s.rounds && s'.seen == s.seen
    requires s.mem.value.pc.Failed? && s'.mem.value == s.mem.value.(pc := s'.mem.value.pc)
    requires Prefixes(s.disk.files, s'.disk.files)
    ensures VerdictsOk(s')
  {
    forall i, j | 0 <= i < |s'.disk.files| && 0 <= j < |s'.disk.files[i].written|
      ensures NotFailed(s'.rounds, s'.disk.files[i].written[j])
    {
      assert s'.disk.files[i].written[j] == s.disk.files[i].written[j];
    }
  }

  lemma HistoryRollback(cfg: Config, s: State, step: Step)
    requires Shape(cfg, s) && History(s) && Enabled(cfg, s, step) && (step.Rollback? || step.RollbackFails?)
    ensures History(Apply(cfg, s, step))
  {
    hide Frames, ScanBytes, Shape, PastOk, TagsOk, DurableOk;
    RollbackTags(cfg, s, step);
    RollbackDurable(cfg, s, step);
    match step {
      case Rollback => PastRollback(cfg, s);
      case RollbackFails(cut) => PastRollbackFails(cfg, s, cut);
    }
  }

  lemma RollbackTags(cfg: Config, s: State, step: Step)
    requires Shape(cfg, s) && TagsOk(s) && Enabled(cfg, s, step) && (step.Rollback? || step.RollbackFails?)
    ensures TagsOk(Apply(cfg, s, step))
  {
    hide Frames, ScanBytes, DiskOk, RoundsOk, Matches, ActiveOk, NumbersOk, Aligned;
    var s' := Apply(cfg, s, step);
    assert Alive(s'.mem.value) == Alive(s.mem.value);
  }

  lemma RollbackDurable(cfg: Config, s: State, step: Step)
    requires Shape(cfg, s) && DurableOk(s) && Enabled(cfg, s, step) && (step.Rollback? || step.RollbackFails?)
    ensures DurableOk(Apply(cfg, s, step))
  {
    hide Frames, ScanBytes, DiskOk, RoundsOk, Matches, ActiveOk, NumbersOk, Aligned, Covers, UpTo;
    var s' := Apply(cfg, s, step);
    assert Alive(s'.mem.value) == Alive(s.mem.value);
    assert Settled(s'.mem.value) == Settled(s.mem.value);
  }

  /** What a failed rollback may leave behind lies above everything visible. */
  lemma PastRollbackFails(cfg: Config, s: State, cut: bool)
    requires Shape(cfg, s) && PastOk(s) && HasActive(s) && s.mem.value.pc.Failed?
    ensures PastOk(DoRollbackFails(s, cut))
  {
    hide Frames, ScanBytes, DiskOk, RoundsOk, Matches, ActiveOk, PastOk;
    ActiveCut(s, DoRollbackFails(s, cut));
  }

  /** When a failed round is about to be told so, no file holds a record staged
      meanwhile, and none of the round itself if its rollback succeeded. */
  lemma FailingRoundAbsent(cfg: Config, s: State, i: nat, j: nat)
    requires Shape(cfg, s) && History(s) && Flying(s) && s.mem.value.pc.Undone?
    requires i < |s.disk.files| && j < |s.disk.files[i].written|
    ensures var r := s.disk.files[i].written[j].round;
            r != s.mem.value.cur && (s.mem.value.pc.ok ==> Some(r) != s.mem.value.inflight)
  {
    hide Frames, ScanBytes, DiskOk, Matches, RoundOk, PastOk, DurableOk;
    var m := s.mem.value;
    assert Alive(m)[|Alive(m)| - 1] == Active(m);
    if i < |Alive(m)| && j < Alive(m)[i].count {
      assert Published(m, s.rounds, s.disk.files[i].written[j]);
    } else {
      StrandedOwn(cfg, s, j);
    }
  }

  /** What lies behind the published records of the active file is of the round in flight. */
  lemma StrandedOwn(cfg: Config, s: State, j: nat)
    requires Shape(cfg, s) && Flying(s) && s.mem.value.pc.Undone?
    requires Active(s.mem.value).count <= j < |ActiveFile(s).written|
    ensures ActiveFile(s).written[j].round == s.mem.value.inflight.value
  {
    hide Frames, ScanBytes, DiskOk, Aligned, Matches;
    var a, f := Active(s.mem.value), ActiveFile(s);
    assert RoundOk(cfg, s.rounds, s.mem.value.inflight.value);
    assert f.written[j] == InFlight(s).recs[j - a.count];
  }

  lemma PastSettleErr(cfg: Config, s: State)
    requires Shape(cfg, s) && History(s) && Flying(s) && s.mem.value.pc.Undone?
    ensures PastOk(DoSettleErr(s))
  {
    hide Frames, ScanBytes, DiskOk, Matches, RoundsOk, Aligned, ActiveOk, Agrees, TagsOk, DurableOk;
    var s' := DoSettleErr(s);
    forall i, j | 0 <= i < |s.disk.files| && 0 <= j < |s.disk.files[i].written|
      ensures NotFailed(s'.rounds, s.disk.files[i].written[j])
    {
      FailingRoundAbsent(cfg, s, i, j);
      assert NotFailed(s.rounds, s.disk.files[i].written[j]);
    }
    forall n | n in s.seen
      ensures NotFailed(s'.rounds, s.seen[n])
    {
      assert Published(s.mem.value, s.rounds, s.seen[n]);
    }
  }

  lemma HistorySettleErr(cfg: Config, s: State)
    requires Shape(cfg, s) && History(s) && Flying(s) && s.mem.value.pc.Undone?
    ensures History(DoSettleErr(s))
  {
    hide Frames, ScanBytes, DiskOk, RoundsOk, Matches, Complete, ActiveOk, Covers, UpTo, PastOk;
    var s' := DoSettleErr(s);
    var m, m' := s.mem.value, s'.mem.value;
    assert Alive(m') == Alive(m) && Settled(m') == Settled(m);
    PastSettleErr(cfg, s);
    forall i, j | 0 <= i < |Alive(m)| && i < |s.disk.files| && 0 <= j < Alive(m)[i].count
                  && j < |s.disk.files[i].written|
      ensures Published(m', s'.rounds, s.disk.files[i].written[j])
    {
      assert Published(m, s.rounds, s.disk.files[i].written[j]);
    }
  }

  // ---- truncation and shutdown ----------------------------------------------------

  lemma HistoryTruncateRemove(cfg: Config, s: State)
    requires Shape(cfg, s) && History(s) && Enabled(cfg, s, TruncateRemove)
    ensures History(DoTruncateRemove(s))
  {
    hide Frames, ScanBytes, DiskOk, RoundsOk, Matches, Complete, ActiveOk, NumbersOk, Covers, UpTo, PastOk;
    var s' := DoTruncateRemove(s);
    var m, m' := s.mem.value, s'.mem.value;
    assert Alive(m') == Alive(m)[1..] && Settled(m') == Settled(m);
    assert forall i :: 0 <= i < |s'.disk.files| ==> s'.disk.files[i] == s.disk.files[i + 1];
    PastTruncateRemove(cfg, s);
  }

  lemma PastTruncateRemove(cfg: Config, s: State)
    requires Shape(cfg, s) && PastOk(s) && Enabled(cfg, s, TruncateRemove)
    ensures PastOk(DoTruncateRemove(s))
  {
    hide Frames, ScanBytes, DiskOk, RoundsOk, Matches, Complete, ActiveOk, NumbersOk, Agrees, Aligned;
    var s' := DoTruncateRemove(s);
    assert Settled(s'.mem.value) == Settled(s.mem.value);
    assert forall i :: 0 <= i < |s'.disk.files| ==> s'.disk.files[i] == s.disk.files[i + 1];
  }

  lemma HistoryCloseReserve(cfg: Config, s: State, claim: CellWrite)
    requires Shape(cfg, s) && History(s) && Drained(s) && s.mem.value.nextLSN > 0
    ensures History(DoCloseReserve(s, claim))
  {
    hide Frames, ScanBytes, DiskOk, RoundsOk, Matches, Complete, ActiveOk, Covers, UpTo, Agrees;
    var s' := DoCloseReserve(s, claim);
    assert Alive(s'.mem.value) == Alive(s.mem.value);
    FramesLowerBound(cfg.crc, s.rounds[s.mem.value.cur].recs);
    if !s.mem.value.broken {
      FilesBelowNext(cfg, s);
    }
  }

  // ---- recovery ---------------------------------------------------------------------

  lemma {:induction false} ContentsOf(cfg: Config, files: seq<File>, i: nat, n: nat)
    requires DiskOk(cfg, files) && i < |files| && files[i].base <= n < End(files[i])
    ensures n in Contents(files) && Contents(files)[n] == files[i].written[n - files[i].base]
  {
    hide Frames, FileOk;
    var k := |files| - 1;
    if i < k {
      FilesOrdered(cfg, files, i, k);
      var front := files[..k];
      assert Linked(front) by {
        assert forall a, b :: 0 <= a < |front| && 0 <= b < |front| && b == a + 1 ==>
          Follows(files[a], files[b]);
      }
      ContentsOf(cfg, front, i, n);
    }
  }

  lemma {:induction false} ContentsFrom(files: seq<File>, n: nat) returns (i: nat)
    requires n in Contents(files)
    ensures i < |files| && files[i].base <= n < End(files[i])
    ensures Contents(files)[n] == files[i].written[n - files[i].base]
  {
    var k := |files| - 1;
    if files[k].base <= n < End(files[k]) {
      i := k;
    } else {
      i := ContentsFrom(files[..k], n);
    }
  }

  /** The trimmed files hold prefixes of the same records. */
  ghost predicate Prefixes(files: seq<File>, files': seq<File>) {
    && |files| == |files'|
    && forall i :: 0 <= i < |files| ==> files[i].base == files'[i].base && files'[i].written <= files[i].written
  }

  lemma PastTrimmed(s: State, s': State)
    requires PastOk(s) && s'.mem.None? && Prefixes(s.disk.files, s'.disk.files)
    requires s'.seen == s.seen && s'.rounds == s.rounds && s'.tainted == s.tainted
    requires s'.disk.reserved == s.disk.reserved
    ensures PastOk(s')
  {
    forall i, j | 0 <= i < |s'.disk.files| && 0 <= j < |s'.disk.files[i].written|
      ensures NotFailed(s.rounds, s'.disk.files[i].written[j])
    {
      assert s'.disk.files[i].written[j] == s.disk.files[i].written[j];
    }
    if !s.tainted {
      forall i | 0 <= i < |s'.disk.files|
        ensures Agrees(s'.seen, s'.disk.files[i])
        ensures End(s'.disk.files[i]) <= s.disk.reserved + 1
      {
        assert Agrees(s.seen, s.disk.files[i]);
        assert End(s.disk.files[i]) <= s.disk.reserved + 1;
      }
    }
  }

  lemma TrimmedPrefixes(cfg: Config, files: seq<File>)
    requires ValidConfig(cfg) && DiskOk(cfg, files)
    ensures Prefixes(files, Trimmed(cfg, files))
  {
    hide Frames, ScanBytes;
    if files != [] {
      ScannedFile(cfg, files[|files| - 1]);
    }
  }

  lemma HistoryTrimTail(cfg: Config, s: State)
    requires ValidConfig(cfg) && Shape(cfg, s) && History(s) && s.mem.None?
    ensures History(s.(disk := s.disk.(files := Trimmed(cfg, s.disk.files))))
  {
    hide Frames, ScanBytes, Trimmed, PastOk;
    var s' := s.(disk := s.disk.(files := Trimmed(cfg, s.disk.files)));
    TrimmedPrefixes(cfg, s.disk.files);
    PastTrimmed(s, s');
  }

  /** lastRecordLSN finds the newest record. */
  lemma {:induction false} LastRecordNewest(cfg: Config, files: seq<File>, segs: seq<Seg>, settled: nat)
    requires DiskOk(cfg, files) && |segs| == |files|
    requires forall i :: 0 <= i < |files| ==> segs[i].base == files[i].base && segs[i].count == |files[i].written|
    requires files != [] ==> settled >= End(files[|files| - 1])
    ensures LastRecord(segs) == 0 || LastRecord(segs) in Contents(files)
    ensures forall i :: 0 <= i < |segs| ==> UpTo(segs[i], settled, LastRecord(segs))
    ensures LastRecord(segs) <= settled
    ensures segs != [] ==> LastRecord(segs) < settled
  {
    hide Frames, FileOk, Contents;
    if files != [] {
      var k := |files| - 1;
      FrontOk(cfg, files);
      if segs[k].count > 0 {
        hide DiskOk;
        ContentsOf(cfg, files, k, LastRecord(segs));
      } else {
        hide DiskOk;
        LastRecordNewest(cfg, files[..k], segs[..k], files[k].base);
        FrontContents(files);
      }
    }
  }

  /** All but the last file: each ends where the last one starts, at the latest. */
  lemma FrontOk(cfg: Config, files: seq<File>)
    requires DiskOk(cfg, files) && files != []
    ensures var k := |files| - 1;
            && DiskOk(cfg, files[..k]) && files[k].base > 0
            && (forall i :: 0 <= i < k ==> End(files[i]) <= files[k].base)
  {
    hide Frames;
    var k := |files| - 1;
    assert FileOk(cfg, files[k]);
    forall i | 0 <= i < k ensures End(files[i]) <= files[k].base {
      FilesOrdered(cfg, files, i, k);
    }
    forall a, b | 0 <= a < k && 0 <= b < k && b == a + 1 ensures Follows(files[..k][a], files[..k][b]) {
      assert Follows(files[a], files[b]);
    }
    hide FileOk;
  }

  lemma FrontContents(files: seq<File>)
    requires files != [] && files[|files| - 1].written == []
    ensures Contents(files) == Contents(files[..|files| - 1])
  {
    assert Contents(files) == Contents(files[..|files| - 1]) + Numbered(files[|files| - 1].base, []);
  }

  lemma PastAppendEmpty(s: State, f: File)
    requires PastOk(s) && s.mem.None? && f.written == [] && f.base == s.disk.reserved + 1
    ensures PastOk(s.(disk := s.disk.(files := s.disk.files + [f])))
  {
  }

  /** Recovery either keeps the files, if they reach the reservation, or adds an empty
      one just above it. */
  lemma ResumedFiles(cfg: Config, t: seq<File>, reserved: nat)
    requires ValidConfig(cfg) && DiskOk(cfg, t)
    requires t != [] ==> t[|t| - 1].bytes == Frames(cfg.crc, t[|t| - 1].written)
    ensures var files := Resumed(cfg, t, reserved);
            var last := files[|files| - 1];
            || (files == t && End(last) > reserved)
            || (files == t + [last] && last.base == reserved + 1 && last.written == [] && last.bytes == [])
  {
    hide Frames, ScanBytes;
    if t != [] {
      ScannedComplete(cfg, t[|t| - 1]);
    }
  }

  /** What recovery leaves on disk, as far as the past is concerned. */
  lemma RecoveredPast(cfg: Config, s: State)
    requires ValidConfig(cfg) && Shape(cfg, s) && TagsOk(s) && PastOk(s) && Enabled(cfg, s, Recover)
    ensures var files := DoRecover(cfg, s).disk.files;
            && files != []
            && PastOk(s.(disk := s.disk.(files := files)))
            && (forall i, j :: 0 <= i < |files| && 0 <= j < |files[i].written| ==>
                  files[i].written[j].round < |s.rounds|)
            && End(files[|files| - 1]) > s.disk.reserved
  {
    hide Frames, ScanBytes, Contents, LastRecord, Trimmed, Resumed, PastOk, DiskOk, SegOf, Openable, RoundsOk, Aligned, NumbersOk, ActiveOk;
    var t := Trimmed(cfg, s.disk.files);
    RecoveredFiles(cfg, s.disk.files, s.disk.reserved);
    TrimmedPrefixes(cfg, s.disk.files);
    var s1 := s.(disk := s.disk.(files := t));
    PastTrimmed(s, s1);
    ResumedFiles(cfg, t, s.disk.reserved);
    var files := Resumed(cfg, t, s.disk.reserved);
    if files != t {
      PastAppendEmpty(s1, files[|files| - 1]);
      assert s.(disk := s.disk.(files := files)) == s1.(disk := s1.disk.(files := t + [files[|files| - 1]]));
    }
  }

  lemma SeenContents(cfg: Config, s: State, files: seq<File>)
    requires DiskOk(cfg, files) && s.mem.None? && s.disk.files == files && PastOk(s) && !s.tainted
    ensures Extends(s.seen, s.seen + Contents(files))
    ensures forall i :: 0 <= i < |files| ==> Agrees(s.seen + Contents(files), files[i])
    ensures forall n :: n in s.seen + Contents(files) ==> n <= s.disk.reserved
  {
    hide DiskOk, Contents;
    forall n | n in Contents(files)
      ensures n in s.seen ==> s.seen[n] == Contents(files)[n]
      ensures n <= s.disk.reserved
    {
      var i := ContentsFrom(files, n);
      assert Agrees(s.seen, files[i]);
      assert End(files[i]) <= s.disk.reserved + 1;
    }
    forall i | 0 <= i < |files|
      ensures Agrees(s.seen + Contents(files), files[i])
    {
      forall n | n in s.seen + Contents(files) && files[i].base <= n < End(files[i])
        ensures (s.seen + Contents(files))[n] == files[i].written[n - files[i].base]
      {
        ContentsOf(cfg, files, i, n);
      }
    }
  }

  lemma HistoryRecover(cfg: Config, s: State)
    requires ValidConfig(cfg) && Shape(cfg, s) && History(s) && Enabled(cfg, s, Recover)
    ensures History(DoRecover(cfg, s))
    ensures !s.tainted ==> Extends(s.seen, DoRecover(cfg, s).seen)
  {
    hide Frames, ScanBytes, Contents, LastRecord, Trimmed, Resumed, Openable, SegOf, Shape, DurableOk, Covers, UpTo;
    var s' := DoRecover(cfg, s);
    RecoveredPast(cfg, s);
    DurableRecovered(cfg, s);
    assert Alive(s'.mem.value) == s'.mem.value.segs;
    PastRecovered(cfg, s);
  }

  /** Every recovered record has been seen, and the durable mark names the newest one. */
  lemma DurableRecovered(cfg: Config, s: State)
    requires ValidConfig(cfg) && Shape(cfg, s) && Enabled(cfg, s, Recover)
    ensures DurableOk(DoRecover(cfg, s))
  {
    hide Frames, ScanBytes, Contents, LastRecord, Trimmed, Resumed, Openable, SegOf, FileOk, Matches, Aligned, ActiveOk, RoundsOk;
    var s' := DoRecover(cfg, s);
    var files := s'.disk.files;
    var m := s'.mem.value;
    RecoveredFiles(cfg, s.disk.files, s.disk.reserved);
    forall i | 0 <= i < |files|
      ensures m.segs[i].base == files[i].base && m.segs[i].count == |files[i].written|
    {
      ScannedComplete(cfg, files[i]);
    }
    assert Alive(m) == m.segs && Settled(m) == End(files[|files| - 1]);
    LastRecordNewest(cfg, files, m.segs, Settled(m));
    forall i | 0 <= i < |m.segs|
      ensures Covers(s'.seen, m.segs[i], Settled(m))
    {
      forall n | m.segs[i].base <= n < m.segs[i].base + m.segs[i].count
        ensures n in s'.seen
      {
        ContentsOf(cfg, files, i, n);
      }
    }
  }

  lemma PastRecovered(cfg: Config, s: State)
    requires ValidConfig(cfg) && Shape(cfg, s) && History(s) && Enabled(cfg, s, Recover)
    ensures PastOk(DoRecover(cfg, s))
    ensures !s.tainted ==> Extends(s.seen, DoRecover(cfg, s).seen)
  {
    hide VerdictsOk, Frames, ScanBytes, Contents, LastRecord, Trimmed, Resumed, Openable, SegOf, Agrees, Matches, Aligned, NumbersOk, RoundsOk, SegsOf, Extends;
    var s' := DoRecover(cfg, s);
    var files := s'.disk.files;
    RecoveredFiles(cfg, s.disk.files, s.disk.reserved);
    RecoveredPast(cfg, s);
    VerdictsRecovered(s.(disk := s.disk.(files := files)), s');
    if !s.tainted {
      SeenContents(cfg, s.(disk := s.disk.(files := files)), files);
      ScannedComplete(cfg, files[|files| - 1]);
    }
  }

  /** What recovery shows for the first time is of rounds that were not rolled back. */
  lemma VerdictsRecovered(s: State, s': State)
    requires VerdictsOk(s) && s'.disk.files == s.disk.files && s'.seen == s.seen + Contents(s.disk.files)
    requires s'.rounds == s.rounds + [NewRound] && s'.mem.Some? && s'.mem.value.firstRound == |s.rounds|
    ensures VerdictsOk(s')
  {
    hide Contents;
    forall n | n in s'.seen
      ensures NotFailed(s.rounds, s'.seen[n])
    {
      if n in Contents(s.disk.files) {
        var i := ContentsFrom(s.disk.files, n);
        assert s'.seen[n] == s.disk.files[i].written[n - s.disk.files[i].base];
      }
    }
  }

  // ---- every step ---------------------------------------------------------------------

  /** Every step keeps the history, and while no Close of a log whose rollback failed has
      given RESERVED back, a number that once named a record names that record for good. */
  lemma HistoryStep(cfg: Config, s: State, step: Step)
    requires ValidConfig(cfg) && Shape(cfg, s) && History(s) && Enabled(cfg, s, step)
    ensures History(Apply(cfg, s, step))
    ensures s.tainted ==> Apply(cfg, s, step).tainted
    ensures !Apply(cfg, s, step).tainted ==> Extends(s.seen, Apply(cfg, s, step).seen)
  {
    hide Shape, History;
    match step {
      case Stage(payloads, claim) => HistoryStage(cfg, s, payloads, claim);
      case Take => HistoryTake(cfg, s);
      case CreateNext => HistoryCreateNext(cfg, s);
      case LinkNext => HistoryLinkNext(cfg, s);
      case LinkFails(upTo) => HistoryLinkFails(cfg, s, upTo);
      case Write(n, ok) => HistoryWrite(cfg, s, n, ok);
      case PublishSize => HistoryPublishSize(cfg, s);
      case SettleOk => HistorySettleOk(cfg, s);
      case Rollback => HistoryRollback(cfg, s, step);
      case RollbackFails(_) => HistoryRollback(cfg, s, step);
      case SettleErr => HistorySettleErr(cfg, s);
      case TruncateRemove => HistoryTruncateRemove(cfg, s);
      case TruncateBegin(_) => HistoryTruncateMem(cfg, s, step);
      case TruncateEnd => HistoryTruncateMem(cfg, s, step);
      case CloseBegin => HistoryTruncateMem(cfg, s, step);
      case CloseReserve(claim) => HistoryCloseReserve(cfg, s, claim);
      case MachineCrash(kept) => HistoryMachineCrash(cfg, s, kept);
      case TrimTail => HistoryTrimTail(cfg, s);
      case Recover => HistoryRecover(cfg, s);
      case _ => HistoryQuiet(cfg, s, step);
    }
  }
}
