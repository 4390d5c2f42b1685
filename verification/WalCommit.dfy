/** What holds of the log while commit has a round in flight (internal/wal/wal.go). */
module WalCommit {
  import opened RecordFormat
  import opened SegmentScan
  import opened Wal
  import opened WalShape
  import opened WalHistory
  import opened WalRuns
  import opened WalDurability

  /** How the I/O of one commit goes, and what others do whenever the mutex is released. */
  datatype Script = Script(
    createOk: bool, linkOk: bool, linkUpTo: nat, landed: nat, writeOk: bool, syncOk: bool, syncUpTo: nat,
    cut: bool, cutSynced: bool, others: seq<seq<Step>>)
  {
    function at(k: nat): seq<Step> { if k < |others| then others[k] else [] }
  }

  datatype Outcome = Nothing | Done | GaveUp

  /** A run of the machine: the states visited and the steps between them. */
  datatype Run = Run(states: seq<State>, steps: seq<Step>)

  function Longer(run: Run, step: Step, s: State): Run {
    Run(run.states + [s], run.steps + [step])
  }

  ghost predicate Ran(cfg: Config, v0: State, run: Run, s: State) {
    IsRun(cfg, run.states, run.steps) && run.states[0] == v0 && run.states[|run.states| - 1] == s
  }

  /** Steps of goroutines other than the committer. */
  predicate Besides(step: Step) {
    step.Stage? || step.TruncateBegin? || step.TruncateRemove? || step.TruncateEnd? || step.CloseBegin?
  }

  /** Steps of the committer between taking a round and settling it. */
  predicate Own(step: Step) {
    || step.CreateFails? || step.CreateNext? || step.KeepSegment? || step.LinkNext? || step.LinkFails?
    || step.Write? || step.Sync? || step.SyncFails? || step.PublishSize? || step.Rollback? || step.RollbackFails?
  }

  ghost predicate Sane(cfg: Config, s: State) {
    Good(cfg, s) && GoneOk(s) && HasActive(s)
  }

  /** Readers see what they saw at v0, as far as it has not been deleted. */
  ghost predicate Quiet(v0: State, s: State) {
    forall n: nat, r :: Visible(s, n, r) <==> Visible(v0, n, r) && n > s.gone
  }

  ghost predicate InRound(round: Round, n: nat, r: Record) {
    round.first <= n < round.first + |round.recs| && round.recs[n - round.first] == r
  }

  predicate Carries(pc: Committer, m: Mem) {
    match pc
    case Idle => false
    case Writing(buf, first, last, _) => buf == m.pending && first == m.pendingMin && last == m.pendingMax
    case Failed(first, last) => first == m.pendingMin && last == m.pendingMax
    case Undone(first, last, _) => first == m.pendingMin && last == m.pendingMax
  }

  /** The round that was being filled at v0 is in flight. */
  ghost predicate Flight(v0: State, s: State) {
    && v0.mem.Some? && s.mem.Some?
    && var m0, m := v0.mem.value, s.mem.value;
       && m0.cur < |v0.rounds| && |s.rounds| == |v0.rounds| + 1 && !m.broken
       && m.inflight == Some(m0.cur) && m.cur == |v0.rounds|
       && s.rounds[m0.cur] == v0.rounds[m0.cur] && Carries(m.pc, m0)
       && m.firstRound == m0.firstRound && (m0.closed ==> m.closed && m.pending == [])
  }

  ghost predicate Busy(cfg: Config, v0: State, run: Run, s: State) {
    Ran(cfg, v0, run, s) && Sane(cfg, s) && Quiet(v0, s) && Flight(v0, s)
  }

  // ---- steps -------------------------------------------------------------------

  lemma RanLonger(cfg: Config, v0: State, run: Run, s: State, step: Step)
    requires Ran(cfg, v0, run, s) && Enabled(cfg, s, step)
    ensures Ran(cfg, v0, Longer(run, step, Apply(cfg, s, step)), Apply(cfg, s, step))
  {
    hide Enabled, Apply;
    var s' := Apply(cfg, s, step);
    var next := Longer(run, step, s');
    forall i | 0 <= i < |next.steps| ensures Goes(cfg, next.states[i], next.steps[i], next.states[i + 1]) {
      if i < |run.steps| {
        assert Goes(cfg, run.states[i], run.steps[i], run.states[i + 1]);
      }
    }
  }

  lemma RanNothing(cfg: Config, s: State)
    ensures Ran(cfg, s, Run([s], []), s)
  {
  }

  lemma RanJoin(cfg: Config, a: State, first: Run, b: State, second: Run, c: State)
    requires Ran(cfg, a, first, b) && Ran(cfg, b, second, c)
    ensures Ran(cfg, a, Join(first, second), c)
  {
    hide Goes;
    var run := Join(first, second);
    forall i | 0 <= i < |run.steps| ensures Goes(cfg, run.states[i], run.steps[i], run.states[i + 1]) {
      if i < |first.steps| {
        assert Goes(cfg, first.states[i], first.steps[i], first.states[i + 1]);
      } else {
        var j := i - |first.steps|;
        assert Goes(cfg, second.states[j], second.steps[j], second.states[j + 1]);
        assert run.states[i] == second.states[j];
      }
    }
  }

  function Join(first: Run, second: Run): Run {
    Run(first.states + (if second.states == [] then [] else second.states[1..]), first.steps + second.steps)
  }

  lemma SaneStep(cfg: Config, s: State, step: Step)
    requires ValidConfig(cfg) && Sane(cfg, s) && Enabled(cfg, s, step) && Apply(cfg, s, step).mem.Some?
    ensures Sane(cfg, Apply(cfg, s, step))
  {
    hide Enabled, Apply, Shape, History, GoneOk;
    ShapeStep(cfg, s, step);
    HistoryStep(cfg, s, step);
    GoneMonotone(cfg, s, step);
    GoodActive(cfg, Apply(cfg, s, step));
  }

  lemma QuietStep(cfg: Config, v0: State, s: State, step: Step)
    requires ValidConfig(cfg) && Sane(cfg, s) && Quiet(v0, s) && Enabled(cfg, s, step)
    requires Silent(step) || step.TruncateRemove?
    ensures Quiet(v0, Apply(cfg, s, step))
  {
    hide Enabled, Apply, Good, GoneOk, Visible;
    GoneMonotone(cfg, s, step);
    var s' := Apply(cfg, s, step);
    forall n: nat, r ensures Visible(s', n, r) <==> Visible(v0, n, r) && n > s'.gone {
      FlatMapStep(cfg, s, step, n, r);
    }
  }

  lemma FlightStep(cfg: Config, v0: State, s: State, step: Step)
    requires Flight(v0, s) && Enabled(cfg, s, step) && (Own(step) || Besides(step))
    ensures Flight(v0, Apply(cfg, s, step))
  {
    hide Frames, Tagged, Drop;
  }

  /** While a round is in flight, any step of its committer or of others keeps it so. */
  lemma BusyStep(cfg: Config, v0: State, run: Run, s: State, step: Step)
    requires ValidConfig(cfg) && Busy(cfg, v0, run, s) && Enabled(cfg, s, step) && (Own(step) || Besides(step))
    ensures Busy(cfg, v0, Longer(run, step, Apply(cfg, s, step)), Apply(cfg, s, step))
  {
    hide Enabled, Apply, Sane, Quiet, Flight, Ran;
    RanLonger(cfg, v0, run, s, step);
    QuietStep(cfg, v0, s, step);
    FlightStep(cfg, v0, s, step);
    FlightLives(v0, Apply(cfg, s, step));
    SaneStep(cfg, s, step);
  }

  lemma FlightLives(v0: State, s: State)
    requires Flight(v0, s)
    ensures s.mem.Some?
  {
  }

  /** Others leave the committer and the history alone. */
  lemma BesidesOnly(cfg: Config, s: State, step: Step)
    requires Enabled(cfg, s, step) && Besides(step) && s.mem.Some?
    ensures var s' := Apply(cfg, s, step);
            && s'.mem.Some? && s'.mem.value.pc == s.mem.value.pc && s'.seen == s.seen && s'.tainted == s.tainted
            && Newest(s'.mem.value) == Newest(s.mem.value)
  {
    hide Frames, Tagged, Drop, Newest;
    BesidesNewest(cfg, s, step);
  }

  lemma BesidesNewest(cfg: Config, s: State, step: Step)
    requires Enabled(cfg, s, step) && Besides(step) && s.mem.Some? && Apply(cfg, s, step).mem.Some?
    ensures Newest(Apply(cfg, s, step).mem.value) == Newest(s.mem.value)
  {
    hide Frames, Tagged, Drop;
  }

  /** The segment batches are appended to. */
  function Newest(m: Mem): Seg {
    if m.segs == [] then Seg(0, 0, 0, 0) else m.segs[|m.segs| - 1]
  }

  /** Which I/O a round needs: the write, in the modes that fsync its fsync, and if it has to
      start a segment that this and its linking succeed. */
  predicate Works(cfg: Config, io: Script, starts: bool) {
    (starts ==> io.createOk && io.linkOk) && io.writeOk && (cfg.fsync ==> io.syncOk)
  }

  // ---- what a busy log looks like ------------------------------------------------

  lemma SaneParts(cfg: Config, s: State)
    requires Sane(cfg, s)
    ensures HasActive(s) && s.mem.value.cur < |s.rounds|
  {
    hide Frames, ScanBytes, DiskOk, RoundsOk, Aligned, ActiveOk, History;
  }

  /** The active segment, its file and the round in flight are there. */
  lemma StillActive(cfg: Config, v0: State, run: Run, s: State)
    requires Busy(cfg, v0, run, s)
    ensures Flying(s) && s.mem.value.cur < |s.rounds| && Carries(s.mem.value.pc, v0.mem.value)
    ensures 0 < FirstInFlight(s.mem.value) <= LastInFlight(s.mem.value)
  {
    hide Frames, ScanBytes, DiskOk, RoundsOk, Aligned, ActiveOk, History, Ran, Quiet;
  }

  lemma FirstPositive(cfg: Config, v0: State, run: Run, s: State)
    requires Busy(cfg, v0, run, s) && s.mem.value.pc.Writing?
    ensures s.mem.value.pc.first > 0
  {
    hide Busy;
    StillActive(cfg, v0, run, s);
  }

  lemma BatchNumbered(cfg: Config, v0: State, run: Run, s: State)
    requires Busy(cfg, v0, run, s) && s.mem.value.pc.Writing?
    ensures s.mem.value.pc.first <= s.mem.value.pc.last
  {
    hide Busy;
    StillActive(cfg, v0, run, s);
  }

  /** Between creating a segment and linking it, its file stands behind the active one. */
  lemma TwoFiles(cfg: Config, v0: State, run: Run, s: State)
    requires Busy(cfg, v0, run, s) && s.mem.value.pc.Writing? && s.mem.value.pc.at == Created
    ensures HasActive(s) && AtPoint(s, Created) && |s.disk.files| >= 2 && s.mem.value.pc.first > 0
    ensures s.disk.files[|s.disk.files| - 1] == File(s.mem.value.pc.first, s.mem.value.pc.first - 1, [], 0, [])
  {
    hide Frames, ScanBytes, DiskOk, RoundsOk, NumbersOk, History, Ran, Quiet, Matches, Complete;
  }

  /** The active segment describes a prefix of its file. */
  lemma CutFits(cfg: Config, v0: State, run: Run, s: State)
    requires Busy(cfg, v0, run, s)
    ensures HasActive(s) && Active(s.mem.value).size <= |ActiveFile(s).bytes| && Active(s.mem.value).count <= |ActiveFile(s).written|
  {
    hide Frames, ScanBytes, DiskOk, RoundsOk, NumbersOk, ActiveOk, History, Ran, Quiet;
    ActiveMatches(cfg, s);
  }

  /** The active segment ends with the batch, on stable storage in the modes that fsync. */
  ghost predicate Holding(cfg: Config, s: State) {
    && Flying(s) && s.mem.value.pc.Writing?
    && var f, recs := ActiveFile(s), InFlight(s).recs;
       && LastLSN(Active(s.mem.value)) == s.mem.value.pc.last
       && |recs| <= |f.written| && f.written[|f.written| - |recs|..] == recs
       && f.bytes == Frames(cfg.crc, f.written) && (cfg.fsync ==> f.synced == |f.bytes|)
  }

  lemma HoldsBatch(cfg: Config, v0: State, run: Run, s: State)
    requires Busy(cfg, v0, run, s) && AtPoint(s, Sized)
    ensures Holding(cfg, s)
  {
    hide Frames, ScanBytes, DiskOk, RoundsOk, History, Ran, Quiet, Matches;
    ActiveMatches(cfg, s);
    MatchedBytes(cfg, Active(s.mem.value), ActiveFile(s));
    SettlingFile(cfg, s);
  }

  lemma BusyQuiet(cfg: Config, v0: State, run: Run, s: State)
    requires Busy(cfg, v0, run, s)
    ensures forall n: nat, r :: Visible(s, n, r) <==> Visible(v0, n, r) && n > s.gone
  {
    hide Visible, Sane, Flight, Ran;
  }

  // ---- beginning and ending ---------------------------------------------------------

  /** Taking the pending round: nothing has happened for readers. */
  lemma TakeBusy(cfg: Config, v0: State)
    requires ValidConfig(cfg) && Sane(cfg, v0) && v0.mem.value.pc.Idle? && v0.mem.value.pending != [] && !v0.mem.value.broken
    ensures Enabled(cfg, v0, Take) && Busy(cfg, v0, Longer(Run([v0], []), Take, DoTake(v0)), DoTake(v0))
  {
    hide Good, GoneOk, Visible, Apply;
    SaneParts(cfg, v0);
    TakeApplies(cfg, v0);
    RanLonger(cfg, v0, Run([v0], []), v0, Take);
    SaneStep(cfg, v0, Take);
    forall n: nat, r | Visible(v0, n, r) ensures n > v0.gone {
      VisibleAboveGone(cfg, v0, n, r);
    }
    QuietStep(cfg, v0, v0, Take);
  }

  lemma TakeApplies(cfg: Config, v0: State)
    requires Enabled(cfg, v0, Take)
    ensures Apply(cfg, v0, Take) == DoTake(v0)
  {
  }

  /** What commit has achieved, given how the committer stood when it settled. */
  ghost predicate Concluded(v0: State, pc: Committer, s: State) {
    && v0.mem.Some? && s.mem.Some?
    && var m0, m := v0.mem.value, s.mem.value;
       && m0.cur < |v0.rounds| < |s.rounds| && (pc.Writing? || pc.Undone?)
       && m.firstRound == m0.firstRound && (m0.closed ==> m.closed && m.pending == [])
       && (if pc.Writing? then
             && m.durable == m0.pendingMax && s.rounds[m0.cur].verdict.Committed?
             && forall n: nat, r :: Visible(s, n, r) <==>
                  (Visible(v0, n, r) || InRound(v0.rounds[m0.cur], n, r)) && n > s.gone
           else
             && m.nextLSN == m0.pendingMin && m.pending == [] && (m.broken <==> !pc.ok)
             && s.rounds[m0.cur].verdict == (if pc.ok then RolledBack else Stranded)
             && s.rounds[|v0.rounds|].verdict.RolledBack?
             && forall n: nat, r :: Visible(s, n, r) <==> Visible(v0, n, r) && n > s.gone)
  }

  lemma SettleEnds(cfg: Config, v0: State, run: Run, s: State)
    requires ValidConfig(cfg) && Busy(cfg, v0, run, s)
    requires s.mem.value.pc.Undone? || (s.mem.value.pc.Writing? && s.mem.value.pc.at == Sized)
    ensures var step := if s.mem.value.pc.Writing? then SettleOk else SettleErr;
            && Enabled(cfg, s, step)
            && var s' := Apply(cfg, s, step);
               && Ran(cfg, v0, Longer(run, step, s'), s') && Sane(cfg, s') && s'.mem.value.pc.Idle?
               && Concluded(v0, s.mem.value.pc, s')
  {
    hide Good, GoneOk, Visible, Numbered, Quiet;
    StillActive(cfg, v0, run, s);
    var step := if s.mem.value.pc.Writing? then SettleOk else SettleErr;
    RanLonger(cfg, v0, run, s, step);
    SaneStep(cfg, s, step);
    if s.mem.value.pc.Writing? {
      SettleOkShows(cfg, v0, run, s);
    } else {
      hide Busy;
      BusyParts(cfg, v0, run, s);
      QuietStep(cfg, v0, s, SettleErr);
      QuietMeans(v0, Apply(cfg, s, SettleErr));
    }
  }

  lemma BusyLives(cfg: Config, v0: State, run: Run, s: State)
    requires Busy(cfg, v0, run, s)
    ensures s.mem.Some?
  {
  }

  lemma BusyParts(cfg: Config, v0: State, run: Run, s: State)
    requires Busy(cfg, v0, run, s)
    ensures Sane(cfg, s) && Quiet(v0, s) && Flight(v0, s)
  {
  }

  lemma QuietMeans(v0: State, s: State)
    requires Quiet(v0, s)
    ensures forall n: nat, r :: Visible(s, n, r) <==> Visible(v0, n, r) && n > s.gone
  {
  }

  lemma SettleOkShows(cfg: Config, v0: State, run: Run, s: State)
    requires ValidConfig(cfg) && Busy(cfg, v0, run, s) && AtPoint(s, Sized) && Flying(s) && Sane(cfg, DoSettleOk(s))
    ensures forall n: nat, r :: Visible(DoSettleOk(s), n, r) <==>
              (Visible(v0, n, r) || InRound(v0.rounds[v0.mem.value.cur], n, r)) && n > DoSettleOk(s).gone
  {
    hide Good, GoneOk, Visible, Numbered, Apply, Quiet, Ran;
    var s' := DoSettleOk(s);
    SettleApplies(cfg, s);
    BatchIsRound(cfg, s);
    QuietMeans(v0, s);
    forall n: nat, r
      ensures Visible(s', n, r) <==> (Visible(v0, n, r) || InRound(v0.rounds[v0.mem.value.cur], n, r)) && n > s'.gone
    {
      FlatMapStep(cfg, s, SettleOk, n, r);
      assert InBatch(s, n, r) <==> InRound(v0.rounds[v0.mem.value.cur], n, r);
      if Visible(s', n, r) {
        VisibleAboveGone(cfg, s', n, r);
      }
    }
  }

  lemma SettleApplies(cfg: Config, s: State)
    requires AtPoint(s, Sized) && Flying(s)
    ensures Enabled(cfg, s, SettleOk) && Apply(cfg, s, SettleOk) == DoSettleOk(s) && DoSettleOk(s).gone == s.gone
  {
  }

  lemma BatchIsRound(cfg: Config, s: State)
    requires Good(cfg, s) && Flying(s) && s.mem.value.pc.Writing?
    ensures InFlight(s).first == s.mem.value.pc.first
  {
    hide Frames, ScanBytes, DiskOk, RoundsOk, Aligned, ActiveOk, History;
  }

  // ---- closing ------------------------------------------------------------------------

  lemma CloseBegins(cfg: Config, s: State)
    requires ValidConfig(cfg) && Sane(cfg, s)
    ensures var s' := s.(mem := Some(s.mem.value.(closed := true)));
            Sane(cfg, s') && Ran(cfg, s, Run([s, s'], [CloseBegin]), s')
  {
    hide Good, GoneOk;
    var s' := s.(mem := Some(s.mem.value.(closed := true)));
    assert Goes(cfg, s, CloseBegin, s');
    SaneStep(cfg, s, CloseBegin);
  }

  /** A closed log with nothing pending is drained. */
  lemma IsDrained(cfg: Config, s: State)
    requires Sane(cfg, s) && s.mem.value.pc.Idle? && s.mem.value.closed && (s.mem.value.pending == [] || s.mem.value.broken)
    ensures Drained(s)
    ensures forall r :: s.mem.value.firstRound <= r < |s.rounds| && s.rounds[r].recs != [] ==> !s.rounds[r].verdict.Undecided?
  {
    hide Frames, ScanBytes, DiskOk, RoundsOk, Aligned, NumbersOk, History;
    assert Drained(s);
    forall r | s.mem.value.firstRound <= r < |s.rounds| && s.rounds[r].recs != [] ensures !s.rounds[r].verdict.Undecided? {
      CloseDecidesAll(cfg, s, r);
    }
  }

  /** The last file is entirely on stable storage. */
  ghost predicate TailSynced(files: seq<File>) {
    files != [] && files[|files| - 1].synced == |files[|files| - 1].bytes|
  }

  /** While the committer is idle the active segment's file is the last one. */
  lemma IdleTail(cfg: Config, s: State)
    requires Sane(cfg, s) && s.mem.value.pc.Idle?
    ensures ActiveIndex(s.mem.value) == |s.disk.files| - 1 && ActiveFile(s).synced <= |ActiveFile(s).bytes|
  {
    hide Frames, ScanBytes, RoundsOk, NumbersOk, ActiveOk, History, DiskOk;
    ActiveMatches(cfg, s);
  }

  lemma NextPositive(cfg: Config, s: State)
    requires Sane(cfg, s)
    ensures s.mem.value.nextLSN > 0 && s.mem.value.reserved <= s.disk.reserved
  {
    hide Frames, ScanBytes, RoundsOk, ActiveOk, History;
    ActiveMatches(cfg, s);
  }

  lemma GoodStep(cfg: Config, s: State, step: Step)
    requires ValidConfig(cfg) && Good(cfg, s) && Enabled(cfg, s, step)
    ensures Good(cfg, Apply(cfg, s, step))
  {
    hide Shape, History, Enabled, Apply;
    ShapeStep(cfg, s, step);
    HistoryStep(cfg, s, step);
  }

  /** What RESERVED covers. */
  lemma ClosedTruth(cfg: Config, s: State)
    requires Good(cfg, s)
    ensures !s.tainted ==> forall n :: n in s.seen ==> n <= s.disk.reserved
    ensures !s.tainted ==> forall i :: 0 <= i < |s.disk.files| ==> End(s.disk.files[i]) <= s.disk.reserved + 1
  {
    hide Shape, TagsOk, DurableOk, SeenOk, VerdictsOk;
  }
}
