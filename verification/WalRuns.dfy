/** The log's guarantees over whole runs. */
module WalRuns {
  import opened RecordFormat
  import opened SegmentScan
  import opened Wal
  import opened WalShape
  import opened WalHistory

  /** A reader of this state can be given record r under number n. */
  ghost predicate VisibleIn(s: State, i: int, n: nat, r: Record) {
    && HasActive(s)
    && var m := s.mem.value;
       && 0 <= i < |Alive(m)| && i < |s.disk.files|
       && Alive(m)[i].base <= n < Alive(m)[i].base + Alive(m)[i].count && n <= m.durable
       && n < s.disk.files[i].base + |s.disk.files[i].written| && s.disk.files[i].base <= n
       && r == s.disk.files[i].written[n - s.disk.files[i].base]
  }

  ghost predicate Visible(s: State, n: nat, r: Record) {
    exists i :: VisibleIn(s, i, n, r)
  }

  ghost predicate Good(cfg: Config, s: State) {
    Shape(cfg, s) && History(s)
  }

  lemma GoodFresh(cfg: Config)
    ensures Good(cfg, Fresh)
  {
  }

  /** Every state of a run from an empty directory is good. */
  lemma {:induction false} RunGood(cfg: Config, states: seq<State>, steps: seq<Step>, i: nat)
    requires ValidConfig(cfg) && IsRun(cfg, states, steps) && states[0] == Fresh && i < |states|
    ensures Good(cfg, states[i])
  {
    hide Shape, History, Enabled, Apply;
    if i == 0 {
      GoodFresh(cfg);
    } else {
      RunGood(cfg, states, steps, i - 1);
      assert Goes(cfg, states[i - 1], steps[i - 1], states[i]);
      ShapeStep(cfg, states[i - 1], steps[i - 1]);
      HistoryStep(cfg, states[i - 1], steps[i - 1]);
    }
  }

  lemma {:induction false} SeenGrows(cfg: Config, states: seq<State>, steps: seq<Step>, i: nat, j: nat)
    requires ValidConfig(cfg) && IsRun(cfg, states, steps) && states[0] == Fresh
    requires i <= j < |states| && !states[j].tainted
    ensures !states[i].tainted && Extends(states[i].seen, states[j].seen)
    decreases j - i
  {
    hide Shape, History, Enabled, Apply;
    if i < j {
      RunGood(cfg, states, steps, j - 1);
      assert Goes(cfg, states[j - 1], steps[j - 1], states[j]);
      HistoryStep(cfg, states[j - 1], steps[j - 1]);
      SeenGrows(cfg, states, steps, i, j - 1);
    }
  }

  /** What a reader can be given is in the history. */
  lemma VisibleSeen(cfg: Config, s: State, n: nat, r: Record)
    requires Good(cfg, s) && Visible(s, n, r) && !s.tainted
    ensures n in s.seen && s.seen[n] == r
  {
    hide Frames, ScanBytes, DiskOk, RoundsOk, NumbersOk, ActiveOk, TagsOk, ReservedOk, VerdictsOk;
    var i :| VisibleIn(s, i, n, r);
    var m := s.mem.value;
    assert Matches(cfg, Alive(m)[i], s.disk.files[i]);
    assert Covers(s.seen, Alive(m)[i], Settled(m));
    assert Agrees(s.seen, s.disk.files[i]);
  }

  /** A number never names two records. Whatever rounds fail and are rolled back,
      whatever unsynced tail crashes lose, however often the log is closed and
      reopened: if a reader can be given r under n at one moment of a run and r' under
      n at another, they are the same record, provided no Close of a log whose rollback
      failed gave RESERVED back. Reissue shows that the proviso is needed. */
  lemma OneRecordPerNumber(cfg: Config, states: seq<State>, steps: seq<Step>,
                           i: nat, j: nat, n: nat, r: Record, r': Record)
    requires ValidConfig(cfg) && IsRun(cfg, states, steps) && states[0] == Fresh
    requires i <= j < |states| && !states[j].tainted
    requires Visible(states[i], n, r) && Visible(states[j], n, r')
    ensures r == r'
  {
    hide Shape, History, Visible;
    RunGood(cfg, states, steps, i);
    RunGood(cfg, states, steps, j);
    SeenGrows(cfg, states, steps, i, j);
    VisibleSeen(cfg, states[i], n, r);
    VisibleSeen(cfg, states[j], n, r');
  }

  // ---- the log as a flat map -----------------------------------------------------

  /** The steps a process makes without starting, stopping or deciding anything for
      its readers. */
  predicate Silent(step: Step) {
    match step
    case SettleOk => false
    case TruncateRemove => false
    case CloseEnd(_) => false
    case ProcessCrash => false
    case MachineCrash(_) => false
    case TrimTail => false
    case Recover => false
    case _ => true
  }

  /** Segment lists that count the same records in front of the durable mark. */
  lemma VisibleFrame(s: State, s': State, n: nat, r: Record)
    requires HasActive(s) && HasActive(s')
    requires s.mem.value.durable == s'.mem.value.durable
    requires var a, a' := Alive(s.mem.value), Alive(s'.mem.value);
             && |a| <= |a'| && |a| <= |s.disk.files| && |a'| <= |s'.disk.files|
             && (forall i :: 0 <= i < |a| ==> SamePublished(a[i], s.disk.files[i], a'[i], s'.disk.files[i], s.mem.value.durable))
             && (forall i :: |a| <= i < |a'| ==> a'[i].count == 0)
    ensures Visible(s, n, r) <==> Visible(s', n, r)
  {
    var a, a' := Alive(s.mem.value), Alive(s'.mem.value);
    if Visible(s, n, r) {
      var i :| VisibleIn(s, i, n, r);
      assert SamePublished(a[i], s.disk.files[i], a'[i], s'.disk.files[i], s.mem.value.durable);
      assert VisibleIn(s', i, n, r);
    }
    if Visible(s', n, r) {
      var i :| VisibleIn(s', i, n, r);
      assert SamePublished(a[i], s.disk.files[i], a'[i], s'.disk.files[i], s.mem.value.durable);
      assert VisibleIn(s, i, n, r);
    }
  }

  /** Two descriptions of a file agree on every record up to `durable`. */
  ghost predicate SamePublished(g: Seg, f: File, g': Seg, f': File, durable: nat) {
    && g.base == g'.base == f.base == f'.base
    && g.count <= |f.written| && g'.count <= |f'.written|
    && g.count <= g'.count && (g.count < g'.count ==> durable < g.base + g.count)
    && f.written[..g.count] == f'.written[..g.count]
  }

  lemma SilentUnseen(cfg: Config, s: State, step: Step, n: nat, r: Record)
    requires Good(cfg, s) && Enabled(cfg, s, step) && s.mem.Some?
    requires step.Stage? || step.Take? || step.CreateFails? || step.CreateNext? || step.KeepSegment?
             || step.TruncateBegin? || step.CloseBegin? || step.CloseReserve? || step.SettleErr?
    ensures Visible(Apply(cfg, s, step), n, r) <==> Visible(s, n, r)
  {
    hide Frames, ScanBytes, DiskOk, RoundsOk, NumbersOk, ActiveOk, History, Tagged, Drop, Complete, Visible;
    var s' := Apply(cfg, s, step);
    assert Alive(s'.mem.value) == Alive(s.mem.value);
    VisibleFrame(s, s', n, r);
  }

  lemma SilentWriting(cfg: Config, s: State, step: Step, n: nat, r: Record)
    requires Good(cfg, s) && Enabled(cfg, s, step)
    requires step.Write? || step.Sync? || step.SyncFails? || step.Rollback? || step.RollbackFails?
    ensures Visible(Apply(cfg, s, step), n, r) <==> Visible(s, n, r)
  {
    hide Frames, ScanBytes, DiskOk, RoundsOk, NumbersOk, ActiveOk, History, Complete, Visible;
    var s' := Apply(cfg, s, step);
    assert Alive(s'.mem.value) == Alive(s.mem.value);
    assert forall i :: 0 <= i < |Alive(s.mem.value)| ==> Matches(cfg, Alive(s.mem.value)[i], s.disk.files[i]);
    assert Alive(s.mem.value)[ActiveIndex(s.mem.value)] == Active(s.mem.value);
    VisibleFrame(s, s', n, r);
  }

  lemma SilentLinking(cfg: Config, s: State, step: Step, n: nat, r: Record)
    requires Good(cfg, s) && Enabled(cfg, s, step) && (step.LinkNext? || step.LinkFails?)
    ensures Visible(Apply(cfg, s, step), n, r) <==> Visible(s, n, r)
  {
    hide Frames, ScanBytes, DiskOk, RoundsOk, NumbersOk, History, Complete, Visible;
    var s' := Apply(cfg, s, step);
    var m, m' := s.mem.value, s'.mem.value;
    assert forall i :: 0 <= i < |Alive(m)| ==> Matches(cfg, Alive(m)[i], s.disk.files[i]);
    if step.LinkNext? {
      assert Alive(m') == Alive(m) + [Seg(m.pc.first, m.pc.first - 1, 0, 0)];
    } else {
      assert Alive(m') == Alive(m);
    }
    VisibleFrame(s, s', n, r);
  }

  lemma SilentSizing(cfg: Config, s: State, n: nat, r: Record)
    requires Good(cfg, s) && AtPoint(s, Flushed) && s.mem.value.pc.first <= s.mem.value.pc.last
    ensures Visible(DoPublishSize(s), n, r) <==> Visible(s, n, r)
  {
    hide Frames, ScanBytes, DiskOk, RoundsOk, TagsOk, PastOk, Complete, Visible;
    var s' := DoPublishSize(s);
    var m, m' := s.mem.value, s'.mem.value;
    ActiveMatches(cfg, s);
    assert forall i :: 0 <= i < |Alive(m)| ==> Matches(cfg, Alive(m)[i], s.disk.files[i]);
    assert Alive(m') == Alive(m)[ActiveIndex(m) := Active(m')] && Alive(m)[ActiveIndex(m)] == Active(m);
    VisibleFrame(s, s', n, r);
  }

  lemma SilentTruncateEnd(cfg: Config, s: State, n: nat, r: Record)
    requires Good(cfg, s) && HasActive(s)
    ensures Visible(DoTruncateEnd(s), n, r) <==> Visible(s, n, r)
  {
    hide Frames, ScanBytes, DiskOk, RoundsOk, NumbersOk, ActiveOk, History, Complete, Visible;
    var s' := DoTruncateEnd(s);
    assert Alive(s'.mem.value) == Alive(s.mem.value);
    VisibleFrame(s, s', n, r);
  }

  /** The batch in flight has record r under number n. */
  ghost predicate InBatch(s: State, n: nat, r: Record) {
    && Flying(s) && s.mem.value.pc.Writing?
    && var first, recs := s.mem.value.pc.first, InFlight(s).recs;
       first <= n < first + |recs| && r == recs[n - first]
  }

  lemma SettleShows(cfg: Config, s: State, i: int, n: nat, r: Record)
    requires Good(cfg, s) && AtPoint(s, Sized) && Flying(s) && VisibleIn(DoSettleOk(s), i, n, r)
    ensures VisibleIn(s, i, n, r) || InBatch(s, n, r)
  {
    hide Frames, ScanBytes, RoundsOk, TagsOk, PastOk, Complete, ActiveOk, NumbersOk, Covers;
    var m := s.mem.value;
    SettlingFile(cfg, s);
    var k := ActiveIndex(m);
    assert Alive(DoSettleOk(s).mem.value) == Alive(m);
    if n < m.pc.first {
      assert UpTo(Alive(m)[i], Settled(m), m.durable);
    } else if i < k {
      FilesOrdered(cfg, s.disk.files, i, k);
      assert false;
    }
  }

  lemma SettleKeeps(cfg: Config, s: State, i: int, n: nat, r: Record)
    requires Good(cfg, s) && AtPoint(s, Sized) && Flying(s) && VisibleIn(s, i, n, r)
    ensures VisibleIn(DoSettleOk(s), i, n, r)
  {
    hide Frames, ScanBytes, Shape, TagsOk, PastOk;
    assert Alive(DoSettleOk(s).mem.value) == Alive(s.mem.value);
    assert s.mem.value.durable <= s.mem.value.pc.last by {
      SettlingFile(cfg, s);
    }
  }

  lemma SettleShowsBatch(cfg: Config, s: State, n: nat, r: Record)
    requires Good(cfg, s) && AtPoint(s, Sized) && Flying(s) && InBatch(s, n, r)
    ensures VisibleIn(DoSettleOk(s), ActiveIndex(s.mem.value), n, r)
  {
    hide Frames, ScanBytes, RoundsOk, History, ActiveOk, NumbersOk, DiskOk, Aligned;
    var m := s.mem.value;
    var k := ActiveIndex(m);
    SettlingFile(cfg, s);
    ActiveMatches(cfg, s);
    assert Alive(DoSettleOk(s).mem.value) == Alive(m);
    assert Alive(m)[k] == Active(m);
    assert Active(m).count == |s.disk.files[k].written| by {
      SizedComplete(cfg, s);
    }
  }

  lemma SizedComplete(cfg: Config, s: State)
    requires Good(cfg, s) && AtPoint(s, Sized)
    ensures Complete(Active(s.mem.value), ActiveFile(s))
  {
    hide Frames, ScanBytes, RoundsOk, History, NumbersOk, DiskOk;
  }

  /** What a settled round adds to the map: its own records, nothing else. */
  lemma SettleAdds(cfg: Config, s: State, n: nat, r: Record)
    requires Good(cfg, s) && AtPoint(s, Sized) && Flying(s)
    ensures Visible(DoSettleOk(s), n, r) <==> Visible(s, n, r) || InBatch(s, n, r)
  {
    hide Good, VisibleIn, InBatch;
    if Visible(s, n, r) {
      var i :| VisibleIn(s, i, n, r);
      SettleKeeps(cfg, s, i, n, r);
    }
    if InBatch(s, n, r) {
      SettleShowsBatch(cfg, s, n, r);
    }
    if Visible(DoSettleOk(s), n, r) {
      var i :| VisibleIn(DoSettleOk(s), i, n, r);
      SettleShows(cfg, s, i, n, r);
    }
  }

  /** What deleting a segment takes from the map: exactly the numbers up to its end. */
  lemma RemoveTakes(cfg: Config, s: State, n: nat, r: Record)
    requires Good(cfg, s) && Enabled(cfg, s, TruncateRemove)
    ensures Visible(DoTruncateRemove(s), n, r) <==> Visible(s, n, r) && n > DoTruncateRemove(s).gone
  {
    hide Frames, ScanBytes, RoundsOk, NumbersOk, ActiveOk, History, Matches, Complete, DiskOk, Aligned;
    var s' := DoTruncateRemove(s);
    assert Alive(s'.mem.value) == Alive(s.mem.value)[1..];
    if Visible(s', n, r) {
      var i :| VisibleIn(s', i, n, r);
      assert VisibleIn(s, i + 1, n, r);
      FilesOrdered(cfg, s.disk.files, 0, i + 1);
    }
    if Visible(s, n, r) && n > s'.gone {
      var i :| VisibleIn(s, i, n, r);
      RemovedHolds(cfg, s, n, r, i);
      assert VisibleIn(s', i - 1, n, r);
    }
  }

  /** What the removed file held lies at or below the last number deleted. */
  lemma RemovedHolds(cfg: Config, s: State, n: nat, r: Record, i: nat)
    requires Good(cfg, s) && Enabled(cfg, s, TruncateRemove) && VisibleIn(s, i, n, r) && n > DoTruncateRemove(s).gone
    ensures i > 0
  {
    hide Frames, ScanBytes, RoundsOk, NumbersOk, ActiveOk, History, Complete, DiskOk;
    assert Matches(cfg, Alive(s.mem.value)[0], s.disk.files[0]);
  }

  /** The segmented log behaves as a flat map from numbers to records. Staging,
      rotation (including one that fails half-way), writing, failing and rolling back
      change nothing in it; settling a round adds exactly that round's records;
      deleting a segment takes away exactly the numbers up to its end. */
  lemma FlatMapStep(cfg: Config, s: State, step: Step, n: nat, r: Record)
    requires ValidConfig(cfg) && Good(cfg, s) && Enabled(cfg, s, step) && s.mem.Some?
    ensures Silent(step) ==> (Visible(Apply(cfg, s, step), n, r) <==> Visible(s, n, r))
    ensures step.SettleOk? ==>
              (Visible(Apply(cfg, s, step), n, r) <==> Visible(s, n, r) || InBatch(s, n, r))
    ensures step.TruncateRemove? ==>
              (Visible(Apply(cfg, s, step), n, r) <==> Visible(s, n, r) && n > Apply(cfg, s, step).gone)
  {
    hide Good, Visible;
    match step {
      case SettleOk => SettleAdds(cfg, s, n, r);
      case TruncateRemove => RemoveTakes(cfg, s, n, r);
      case PublishSize => SilentSizing(cfg, s, n, r);
      case TruncateEnd => SilentTruncateEnd(cfg, s, n, r);
      case LinkNext => SilentLinking(cfg, s, step, n, r);
      case LinkFails(_) => SilentLinking(cfg, s, step, n, r);
      case Write(_, _) => SilentWriting(cfg, s, step, n, r);
      case Sync => SilentWriting(cfg, s, step, n, r);
      case SyncFails(_) => SilentWriting(cfg, s, step, n, r);
      case Rollback => SilentWriting(cfg, s, step, n, r);
      case RollbackFails(_) => SilentWriting(cfg, s, step, n, r);
      case CloseEnd(_) =>
      case ProcessCrash =>
      case MachineCrash(_) =>
      case TrimTail =>
      case Recover =>
      case _ => SilentUnseen(cfg, s, step, n, r);
    }
  }


  // ---- the truth of rounds ----------------------------------------------------------

  /** Only settling decides rounds: the one in flight, and after a failure also the one
      being filled. */
  lemma RoundsUntouched(cfg: Config, s: State, step: Step, r: nat)
    requires Enabled(cfg, s, step) && r < |s.rounds| && !step.SettleOk? && !step.SettleErr?
    ensures r < |Apply(cfg, s, step).rounds|
    ensures Apply(cfg, s, step).rounds[r] == s.rounds[r]
            || (step.Stage? && r == s.mem.value.cur && Apply(cfg, s, step).rounds[r].verdict == s.rounds[r].verdict)
  {
    hide SegsOf, Trimmed, Resumed, Contents, Tagged, Drop, Frames, ScanBytes, Openable;
  }

  lemma RoundsSettled(cfg: Config, s: State, step: Step, r: nat)
    requires Good(cfg, s) && Enabled(cfg, s, step) && r < |s.rounds| && (step.SettleOk? || step.SettleErr?)
    ensures r < |Apply(cfg, s, step).rounds|
    ensures Apply(cfg, s, step).rounds[r] ==
              if s.mem.value.inflight == Some(r) || (step.SettleErr? && s.mem.value.cur == r)
              then s.rounds[r].(verdict := if step.SettleOk? then Committed
                                           else if s.mem.value.cur == r || s.mem.value.pc.ok then RolledBack
                                           else Stranded)
              else s.rounds[r]
    ensures s.mem.value.inflight == Some(r) || s.mem.value.cur == r ==> s.rounds[r].verdict.Undecided?
  {
    hide Frames, ScanBytes, DiskOk, Aligned, ActiveOk, History, RoundsOk;
  }

  /** A round is decided once and never changes afterwards. */
  lemma RoundsStep(cfg: Config, s: State, step: Step, r: nat)
    requires Good(cfg, s) && Enabled(cfg, s, step) && r < |s.rounds|
    ensures r < |Apply(cfg, s, step).rounds|
    ensures !s.rounds[r].verdict.Undecided? ==> Apply(cfg, s, step).rounds[r] == s.rounds[r]
    ensures s.rounds[r].verdict.Undecided? && Apply(cfg, s, step).rounds[r].verdict.Committed? ==>
              step.SettleOk? && s.mem.value.inflight == Some(r)
    ensures s.rounds[r].verdict.Undecided? && ToldError(Apply(cfg, s, step).rounds[r].verdict) ==>
              step.SettleErr? && (s.mem.value.inflight == Some(r) || s.mem.value.cur == r)
  {
    hide Apply, Frames, ScanBytes, DiskOk, Aligned, ActiveOk, History, RoundsOk;
    if step.SettleOk? || step.SettleErr? {
      RoundsSettled(cfg, s, step, r);
    } else {
      RoundsUntouched(cfg, s, step, r);
    }
  }

  /** Every record of the round is published at its number with its payload. */
  ghost predicate Kept(s: State, r: int)
    requires 0 <= r < |s.rounds|
  {
    var first, recs := s.rounds[r].first, s.rounds[r].recs;
    forall n: nat :: first <= n < first + |recs| ==> n in s.seen && s.seen[n] == recs[n - first]
  }

  ghost predicate CommittedKept(s: State) {
    !s.tainted ==> forall r :: 0 <= r < |s.rounds| && s.rounds[r].verdict.Committed? ==> Kept(s, r)
  }

  lemma CommittedKeptStep(cfg: Config, s: State, step: Step)
    requires ValidConfig(cfg) && Good(cfg, s) && CommittedKept(s) && Enabled(cfg, s, step)
    ensures CommittedKept(Apply(cfg, s, step))
  {
    hide Shape, History, Enabled, Apply;
    var s' := Apply(cfg, s, step);
    HistoryStep(cfg, s, step);
    if !s'.tainted {
      forall r | 0 <= r < |s'.rounds| && s'.rounds[r].verdict.Committed?
        ensures Kept(s', r)
      {
        if r < |s.rounds| {
          RoundsStep(cfg, s, step, r);
          if s.rounds[r].verdict.Committed? {
            KeptExtends(s, s', r);
          } else if s.rounds[r].verdict.Undecided? {
            SettledKept(cfg, s, r);
          }
        } else {
          NewRoundsUndecided(cfg, s, step, r);
        }
      }
    }
  }

  lemma KeptExtends(s: State, s': State, r: nat)
    requires r < |s.rounds| && r < |s'.rounds| && s'.rounds[r] == s.rounds[r]
    requires Kept(s, r) && Extends(s.seen, s'.seen)
    ensures Kept(s', r)
  {
  }

  lemma SettledKept(cfg: Config, s: State, r: nat)
    requires Good(cfg, s) && Enabled(cfg, s, SettleOk) && s.mem.value.inflight == Some(r)
    ensures r < |Apply(cfg, s, SettleOk).rounds| && Kept(Apply(cfg, s, SettleOk), r)
  {
    hide Frames, ScanBytes, DiskOk, Aligned, ActiveOk, History, RoundsOk;
  }

  lemma NewRoundsUndecided(cfg: Config, s: State, step: Step, r: nat)
    requires Good(cfg, s) && Enabled(cfg, s, step) && |s.rounds| <= r < |Apply(cfg, s, step).rounds|
    ensures Apply(cfg, s, step).rounds[r] == NewRound
  {
    hide Frames, ScanBytes, DiskOk, Aligned, ActiveOk, History, RoundsOk, SegsOf, Trimmed, Resumed, Contents, Tagged, Drop;
  }

  lemma {:induction false} RunCommittedKept(cfg: Config, states: seq<State>, steps: seq<Step>, i: nat)
    requires ValidConfig(cfg) && IsRun(cfg, states, steps) && states[0] == Fresh && i < |states|
    ensures CommittedKept(states[i])
  {
    hide Good, CommittedKept, Enabled, Apply;
    if i == 0 {
      CommittedKeptFresh();
    } else {
      RunCommittedKept(cfg, states, steps, i - 1);
      RunGood(cfg, states, steps, i - 1);
      assert Goes(cfg, states[i - 1], steps[i - 1], states[i]);
      CommittedKeptStep(cfg, states[i - 1], steps[i - 1]);
    }
  }

  lemma CommittedKeptFresh()
    ensures CommittedKept(Fresh)
  {
  }

  /** What a round was told stays true. Told nil: each of its records has been visible
      under its assigned number, and whatever a reader is ever given under that number
      is that record. Told an error: unless the rollback failed, no reader is ever given
      any of its records, whatever else becomes of the log. */
  lemma RoundTruth(cfg: Config, states: seq<State>, steps: seq<Step>, i: nat, j: nat, r: nat)
    requires ValidConfig(cfg) && IsRun(cfg, states, steps) && states[0] == Fresh
    requires i <= j < |states| && r < |states[i].rounds|
    ensures r < |states[j].rounds|
    ensures states[i].rounds[r].verdict.Committed? && !states[j].tainted ==>
              && states[j].rounds[r] == states[i].rounds[r] && Kept(states[j], r)
              && (var round := states[i].rounds[r];
                  forall n: nat, rec ::
                    Visible(states[j], n, rec) && round.first <= n < round.first + |round.recs| ==>
                      rec == round.recs[n - round.first])
    ensures states[i].rounds[r].verdict.RolledBack? ==>
              forall n: nat, rec :: Visible(states[j], n, rec) ==> rec.round != r
  {
    hide Good, CommittedKept, Enabled, Apply, Visible, IsRun;
    DecidedStays(cfg, states, steps, i, j, r);
    RunGood(cfg, states, steps, j);
    RunCommittedKept(cfg, states, steps, j);
    if states[i].rounds[r].verdict.Committed? && !states[j].tainted {
      KeptOf(states[j], r);
      var round := states[i].rounds[r];
      forall n: nat, rec | Visible(states[j], n, rec) && round.first <= n < round.first + |round.recs|
        ensures rec == round.recs[n - round.first]
      {
        VisibleSeen(cfg, states[j], n, rec);
      }
    }
    if states[i].rounds[r].verdict.RolledBack? {
      forall n: nat, rec | Visible(states[j], n, rec)
        ensures rec.round != r
      {
        VisibleNotFailed(cfg, states[j], n, rec);
      }
    }
  }

  lemma KeptOf(s: State, r: nat)
    requires CommittedKept(s) && !s.tainted && r < |s.rounds| && s.rounds[r].verdict.Committed?
    ensures Kept(s, r)
  {
  }

  lemma VisibleNotFailed(cfg: Config, s: State, n: nat, r: Record)
    requires Good(cfg, s) && Visible(s, n, r)
    ensures NotFailed(s.rounds, r)
  {
    hide Shape, TagsOk, DurableOk, ReservedOk, SeenOk;
    var i :| VisibleIn(s, i, n, r);
    assert r == s.disk.files[i].written[n - s.disk.files[i].base];
  }

  lemma {:induction false} DecidedStays(cfg: Config, states: seq<State>, steps: seq<Step>, i: nat, j: nat, r: nat)
    requires ValidConfig(cfg) && IsRun(cfg, states, steps) && states[0] == Fresh
    requires i <= j < |states| && r < |states[i].rounds|
    ensures r < |states[j].rounds|
    ensures !states[i].rounds[r].verdict.Undecided? ==> states[j].rounds[r] == states[i].rounds[r]
    decreases j - i
  {
    hide Good, Enabled, Apply;
    if i < j {
      DecidedStays(cfg, states, steps, i, j - 1, r);
      RunGood(cfg, states, steps, j - 1);
      assert Goes(cfg, states[j - 1], steps[j - 1], states[j]);
      RoundsStep(cfg, states[j - 1], steps[j - 1], r);
    }
  }

  /** Within one process even a failed rollback changes nothing about an error: a
      record of a round this process failed is never given to its readers. */
  lemma FailedNeverPublished(cfg: Config, s: State, n: nat, r: Record)
    requires Good(cfg, s) && Visible(s, n, r) && s.mem.value.firstRound <= r.round < |s.rounds|
    ensures !ToldError(s.rounds[r.round].verdict)
  {
    hide Frames, ScanBytes, DiskOk, ActiveOk, RoundsOk, DurableOk, PastOk, Complete;
    var i :| VisibleIn(s, i, n, r);
    assert Matches(cfg, Alive(s.mem.value)[i], s.disk.files[i]);
    assert Published(s.mem.value, s.rounds, s.disk.files[i].written[n - s.disk.files[i].base]);
  }

  /** Close leaves no round of the process undecided that holds a record. */
  lemma CloseDecidesAll(cfg: Config, s: State, r: nat)
    requires Good(cfg, s) && Drained(s) && s.mem.value.firstRound <= r < |s.rounds| && s.rounds[r].recs != []
    ensures !s.rounds[r].verdict.Undecided?
  {
    hide Frames, ScanBytes, DiskOk, ActiveOk, Aligned, History;
    FramesLowerBound(cfg.crc, s.rounds[s.mem.value.cur].recs);
  }

  /** No round is ever forgotten: over whole runs, a round of the living process that is
      not decided is the one being filled or the one in flight, and one of an earlier
      process can no longer be decided by anybody. */
  lemma RoundsAccounted(cfg: Config, states: seq<State>, steps: seq<Step>, i: nat, r: nat)
    requires ValidConfig(cfg) && IsRun(cfg, states, steps) && states[0] == Fresh && i < |states|
    requires r < |states[i].rounds| && states[i].mem.Some?
    ensures var m := states[i].mem.value;
            && (states[i].rounds[r].verdict.Undecided? && m.firstRound <= r ==> r == m.cur || m.inflight == Some(r))
            && (r < m.firstRound ==> r != m.cur && m.inflight != Some(r))
  {
    hide Enabled, Apply, DiskOk, ActiveOk, Aligned, History, Frames, ScanBytes;
    RunGood(cfg, states, steps, i);
  }

  /** The durable mark only moves forward while a process lives. */
  lemma DurableMonotone(cfg: Config, s: State, step: Step)
    requires Good(cfg, s) && Enabled(cfg, s, step) && s.mem.Some? && Apply(cfg, s, step).mem.Some?
    ensures Apply(cfg, s, step).mem.value.durable >= s.mem.value.durable
  {
    hide Frames, ScanBytes, DiskOk, ActiveOk, Aligned, TagsOk, PastOk, RoundsOk, Tagged, Drop;
    if !step.SettleOk? && !step.Recover? {
      hide Good;
      DurableStays(cfg, s, step);
    }
  }

  lemma DurableStays(cfg: Config, s: State, step: Step)
    requires Enabled(cfg, s, step) && s.mem.Some? && Apply(cfg, s, step).mem.Some?
    requires !step.SettleOk? && !step.Recover?
    ensures Apply(cfg, s, step).mem.value.durable == s.mem.value.durable
  {
    hide Frames, Tagged, Drop;
  }
}
