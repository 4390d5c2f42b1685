/** How large segments grow (rotation in writeBatch, internal/wal/wal.go): a segment holds at
    most MaxSegmentBytes, or a single commit round. */
module WalRotation {
  import opened RecordFormat
  import opened SegmentScan
  import opened Wal
  import opened WalShape
  import opened WalHistory
  import opened WalRuns

  /** All of the records were written by one round. */
  ghost predicate OneRound(recs: seq<Record>) {
    forall i, j :: 0 <= i < |recs| && 0 <= j < |recs| ==> recs[i].round == recs[j].round
  }

  ghost predicate Bounded(cfg: Config, recs: seq<Record>) {
    |Frames(cfg.crc, recs)| <= cfg.maxSegment || OneRound(recs)
  }

  /** The batch in flight fits behind what the active segment holds, or it holds nothing. */
  ghost predicate FitsActive(cfg: Config, s: State) {
    AtPoint(s, Ready) ==>
      var a := Active(s.mem.value);
      a.size == 0 || a.size + |s.mem.value.pc.buf| <= cfg.maxSegment
  }

  ghost predicate SizesOk(cfg: Config, s: State) {
    && (forall i :: 0 <= i < |s.disk.files| ==> Bounded(cfg, s.disk.files[i].written))
    && FitsActive(cfg, s)
  }

  lemma BoundedPrefix(cfg: Config, recs: seq<Record>, k: nat)
    requires Bounded(cfg, recs) && k <= |recs|
    ensures Bounded(cfg, recs[..k])
  {
    FramesMonotone(cfg.crc, recs, k, |recs|);
    assert recs[..|recs|] == recs;
  }

  lemma BoundedNone(cfg: Config)
    ensures Bounded(cfg, [])
  {
  }

  // ---- the write -----------------------------------------------------------------------

  /** What DoWrite appends behind what is published. */
  lemma WriteBounded(cfg: Config, s: State, n: nat, ok: bool)
    requires Good(cfg, s) && Enabled(cfg, s, Write(n, ok)) && FitsActive(cfg, s)
    ensures Bounded(cfg, ActiveFile(s).written + InFlight(s).recs)
  {
    hide ScanBytes, History, DiskOk, Matches;
    var m := s.mem.value;
    ActiveMatches(cfg, s);
    WriteParts(cfg, s, n, ok);
    FramesConcat(cfg.crc, ActiveFile(s).written, InFlight(s).recs);
    FramesLowerBound(cfg.crc, ActiveFile(s).written);
    hide Frames;
    assert RoundOk(cfg, s.rounds, m.inflight.value);
    if ActiveFile(s).written == [] {
      assert ActiveFile(s).written + InFlight(s).recs == InFlight(s).recs;
    }
  }

  lemma WriteParts(cfg: Config, s: State, n: nat, ok: bool)
    requires Good(cfg, s) && Enabled(cfg, s, Write(n, ok))
    ensures Active(s.mem.value).size == |Frames(cfg.crc, ActiveFile(s).written)|
    ensures s.mem.value.pc.buf == Frames(cfg.crc, InFlight(s).recs)
    ensures RoundOk(cfg, s.rounds, s.mem.value.inflight.value)
  {
    hide Frames, ScanBytes, History, RoundOk;
    ActiveMatches(cfg, s);
    var f := ActiveFile(s);
    assert f.written[..|f.written|] == f.written;
  }

  // ---- every step --------------------------------------------------------------------------

  /** Every file holds what some file held, from the front. */
  ghost predicate Shrinks(files: seq<File>, files': seq<File>) {
    forall i :: 0 <= i < |files'| ==> files'[i].written == [] || exists j :: 0 <= j < |files| && files'[i].written <= files[j].written
  }

  lemma ShrunkBounded(cfg: Config, s: State, s': State)
    requires SizesOk(cfg, s) && Shrinks(s.disk.files, s'.disk.files)
    ensures forall i :: 0 <= i < |s'.disk.files| ==> Bounded(cfg, s'.disk.files[i].written)
  {
    hide Bounded;
    forall i | 0 <= i < |s'.disk.files| ensures Bounded(cfg, s'.disk.files[i].written) {
      if s'.disk.files[i].written == [] {
        BoundedNone(cfg);
      } else {
        var j :| 0 <= j < |s.disk.files| && s'.disk.files[i].written <= s.disk.files[j].written;
        var w, w' := s.disk.files[j].written, s'.disk.files[i].written;
        BoundedPrefix(cfg, w, |w'|);
        assert w[..|w'|] == w';
      }
    }
  }

  lemma StepShrinks(cfg: Config, s: State, step: Step)
    requires ValidConfig(cfg) && Good(cfg, s) && Enabled(cfg, s, step) && !step.Write? && !step.Recover? && !step.TrimTail?
    ensures Shrinks(s.disk.files, Apply(cfg, s, step).disk.files)
  {
    hide Frames, ScanBytes, Good, Tagged, Drop;
    var files, files' := s.disk.files, Apply(cfg, s, step).disk.files;
    forall i | 0 <= i < |files'| ensures files'[i].written == [] || exists j :: 0 <= j < |files| && files'[i].written <= files[j].written {
      if step.TruncateRemove? {
        assert files'[i] == files[i + 1];
      } else if i < |files| {
        assert files'[i].written <= files[i].written;
      }
    }
  }

  lemma RecoverShrinks(cfg: Config, s: State)
    requires ValidConfig(cfg) && Good(cfg, s) && Enabled(cfg, s, Recover)
    ensures Shrinks(s.disk.files, Trimmed(cfg, s.disk.files))
    ensures Shrinks(s.disk.files, DoRecover(cfg, s).disk.files)
  {
    hide Frames, ScanBytes, History, Trimmed, SegOf, Contents, LastRecord, RoundsOk;
    TrimmedPrefixes(cfg, s.disk.files);
    var t := Trimmed(cfg, s.disk.files);
    assert forall i :: 0 <= i < |t| ==> t[i].written <= s.disk.files[i].written;
  }

  lemma TrimShrinks(cfg: Config, s: State)
    requires ValidConfig(cfg) && Good(cfg, s)
    ensures Shrinks(s.disk.files, Trimmed(cfg, s.disk.files))
  {
    hide Frames, ScanBytes, History, Trimmed, RoundsOk;
    TrimmedPrefixes(cfg, s.disk.files);
    var t := Trimmed(cfg, s.disk.files);
    assert forall i :: 0 <= i < |t| ==> t[i].written <= s.disk.files[i].written;
  }

  lemma RecoveryShrinks(cfg: Config, s: State, step: Step)
    requires ValidConfig(cfg) && Good(cfg, s) && Enabled(cfg, s, step) && (step.Recover? || step.TrimTail?)
    ensures Shrinks(s.disk.files, Apply(cfg, s, step).disk.files)
  {
    hide Good, Shrinks, Openable, DoRecover, Trimmed;
    if step.Recover? {
      RecoverShrinks(cfg, s);
    } else {
      TrimShrinks(cfg, s);
    }
  }

  /** Whether the batch fits is decided before it is written, and nothing others do in
      between changes the active segment. */
  lemma FitsStep(cfg: Config, s: State, step: Step)
    requires Good(cfg, s) && Enabled(cfg, s, step) && FitsActive(cfg, s)
    ensures FitsActive(cfg, Apply(cfg, s, step))
  {
    hide Frames, ScanBytes, Good;
    if step.KeepSegment? || step.LinkNext? {
    } else {
      hide FitsActive;
      if AtPoint(Apply(cfg, s, step), Ready) {
        ReadyStays(cfg, s, step);
      }
      FitsSame(cfg, s, Apply(cfg, s, step));
    }
  }

  lemma FitsSame(cfg: Config, s: State, s': State)
    requires FitsActive(cfg, s)
    requires AtPoint(s', Ready) ==>
               AtPoint(s, Ready) && s'.mem.value.pc == s.mem.value.pc && Active(s'.mem.value) == Active(s.mem.value)
    ensures FitsActive(cfg, s')
  {
  }

  lemma ReadyStays(cfg: Config, s: State, step: Step)
    requires Enabled(cfg, s, step) && !step.KeepSegment? && !step.LinkNext? && AtPoint(Apply(cfg, s, step), Ready)
    ensures var s' := Apply(cfg, s, step);
            AtPoint(s, Ready) && s'.mem.value.pc == s.mem.value.pc && Active(s'.mem.value) == Active(s.mem.value)
  {
    hide Frames, ScanBytes, Tagged, Drop, Contents, Trimmed, Resumed, Truncated, Openable, SegsOf, LastRecord, Numbered;
  }

  lemma SizesStep(cfg: Config, s: State, step: Step)
    requires ValidConfig(cfg) && Good(cfg, s) && SizesOk(cfg, s) && Enabled(cfg, s, step)
    ensures SizesOk(cfg, Apply(cfg, s, step))
  {
    hide Good, Bounded, FitsActive, Shrinks, Enabled, Apply;
    FitsStep(cfg, s, step);
    if step.Write? {
      WriteBounded(cfg, s, step.n, step.ok);
      WriteSizes(cfg, s, step);
    } else {
      if step.Recover? || step.TrimTail? {
        RecoveryShrinks(cfg, s, step);
      } else {
        StepShrinks(cfg, s, step);
      }
      ShrunkBounded(cfg, s, Apply(cfg, s, step));
    }
  }

  lemma WriteSizes(cfg: Config, s: State, step: Step)
    requires SizesOk(cfg, s) && Enabled(cfg, s, step) && step.Write?
    requires Bounded(cfg, ActiveFile(s).written + InFlight(s).recs)
    ensures forall i :: 0 <= i < |Apply(cfg, s, step).disk.files| ==> Bounded(cfg, Apply(cfg, s, step).disk.files[i].written)
  {
    hide Bounded, FitsActive;
  }

  lemma {:induction false} RunSizes(cfg: Config, states: seq<State>, steps: seq<Step>, i: nat)
    requires ValidConfig(cfg) && IsRun(cfg, states, steps) && states[0] == Fresh && i < |states|
    ensures SizesOk(cfg, states[i])
  {
    hide Good, SizesOk, Enabled, Apply;
    if i == 0 {
      SizesFresh(cfg);
    } else {
      RunSizes(cfg, states, steps, i - 1);
      RunGood(cfg, states, steps, i - 1);
      assert Goes(cfg, states[i - 1], steps[i - 1], states[i]);
      SizesStep(cfg, states[i - 1], steps[i - 1]);
    }
  }

  lemma SizesFresh(cfg: Config)
    ensures SizesOk(cfg, Fresh)
  {
  }

  /** At every moment of every run, whatever failed and however often the log was reopened:
      a segment's published size is at most MaxSegmentBytes, or all it publishes was written
      by one round. */
  lemma SegmentsBounded(cfg: Config, states: seq<State>, steps: seq<Step>, i: nat, k: nat)
    requires ValidConfig(cfg) && IsRun(cfg, states, steps) && states[0] == Fresh && i < |states|
    requires states[i].mem.Some? && states[i].mem.value.removed <= |states[i].mem.value.segs| && k < |Alive(states[i].mem.value)|
    ensures var g := Alive(states[i].mem.value)[k];
            && k < |states[i].disk.files| && g.count <= |states[i].disk.files[k].written|
            && (g.size <= cfg.maxSegment || OneRound(states[i].disk.files[k].written[..g.count]))
  {
    hide Frames, ScanBytes, DiskOk, RoundsOk, NumbersOk, ActiveOk, History, Enabled, Apply, FitsActive, OneRound;
    RunGood(cfg, states, steps, i);
    RunSizes(cfg, states, steps, i);
    var g, f := Alive(states[i].mem.value)[k], states[i].disk.files[k];
    assert Matches(cfg, g, f);
    BoundedPrefix(cfg, f.written, g.count);
  }
}
