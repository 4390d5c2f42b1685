/** What an append promises its caller: the payloads it was given are what its round carries
    under the numbers it was told, for good (AppendBatchAsync and stage, internal/wal/wal.go). */
module WalStaged {
  import opened RecordFormat
  import opened SegmentScan
  import opened Wal
  import opened WalShape
  import opened WalHistory
  import opened WalRuns

  /** Round r holds these payloads, in order, under the numbers from `first`. */
  ghost predicate Bears(s: State, r: nat, first: nat, payloads: seq<Bytes>) {
    && r < |s.rounds|
    && s.rounds[r].first <= first && first + |payloads| <= s.rounds[r].first + |s.rounds[r].recs|
    && forall k :: 0 <= k < |payloads| ==>
         var rec := s.rounds[r].recs[first - s.rounds[r].first + k];
         rec.payload == payloads[k] && rec.round == r
  }

  /** A staging step that succeeded: numbers were handed out. */
  predicate Staged(s: State, step: Step, s': State) {
    step.Stage? && s.mem.Some? && s'.mem.Some? && s'.mem.value.nextLSN > s.mem.value.nextLSN
  }

  lemma StagedBears(cfg: Config, s: State, step: Step)
    requires Good(cfg, s) && Enabled(cfg, s, step) && Staged(s, step, Apply(cfg, s, step))
    ensures Bears(Apply(cfg, s, step), s.mem.value.cur, s.mem.value.nextLSN, step.payloads)
    ensures Apply(cfg, s, step).mem.value.nextLSN == s.mem.value.nextLSN + |step.payloads|
  {
    hide Good, Apply, Enabled;
    RoundStart(cfg, s);
    StageAppends(s, step, cfg);
  }

  /** Where the current round's next record will be numbered. */
  lemma RoundStart(cfg: Config, s: State)
    requires Good(cfg, s) && s.mem.Some?
    ensures s.mem.value.cur < |s.rounds|
    ensures var round := s.rounds[s.mem.value.cur];
            round.recs != [] ==> round.first + |round.recs| == s.mem.value.nextLSN
  {
    hide Frames, ScanBytes, DiskOk, Aligned, ActiveOk, History, RoundsOk;
    FramesLowerBound(cfg.crc, s.rounds[s.mem.value.cur].recs);
  }

  /** Staging appends the payloads, in order, to the current round. */
  lemma StageAppends(s: State, step: Step, cfg: Config)
    requires Enabled(cfg, s, step) && Staged(s, step, Apply(cfg, s, step))
    ensures var s', c, n := Apply(cfg, s, step), s.mem.value.cur, |step.payloads|;
            && |s'.rounds| == |s.rounds| && s'.mem.value.nextLSN == s.mem.value.nextLSN + n
            && (var before, after := s.rounds[c], s'.rounds[c];
                && after.first == (if before.recs == [] then s.mem.value.nextLSN else before.first)
                && |after.recs| == |before.recs| + n
                && forall k :: 0 <= k < n ==> after.recs[|before.recs| + k] == Record(step.payloads[k], c))
  {
    hide Frames, Tagged;
  }

  lemma BearsStep(cfg: Config, s: State, step: Step, r: nat, first: nat, payloads: seq<Bytes>)
    requires Good(cfg, s) && Enabled(cfg, s, step) && payloads != [] && Bears(s, r, first, payloads)
    ensures Bears(Apply(cfg, s, step), r, first, payloads)
  {
    hide Good, Bears, Apply, Enabled;
    if step.Stage? {
      BearsStage(cfg, s, step, r, first, payloads);
    } else {
      BearsKept(cfg, s, step, r, first, payloads);
    }
  }

  lemma BearsStage(cfg: Config, s: State, step: Step, r: nat, first: nat, payloads: seq<Bytes>)
    requires Enabled(cfg, s, step) && step.Stage? && payloads != [] && Bears(s, r, first, payloads)
    ensures Bears(Apply(cfg, s, step), r, first, payloads)
  {
    hide Frames, Tagged, Bears;
    var s' := Apply(cfg, s, step);
    BearsMore(s, s', r, first, payloads) by {
      assert r < |s.rounds| && s.rounds[r].recs != [] by {
        BearsParts(s, r, first, payloads);
      }
    }
  }

  lemma BearsIn(s: State, r: nat, first: nat, payloads: seq<Bytes>)
    requires Bears(s, r, first, payloads)
    ensures r < |s.rounds|
  {
  }

  lemma BearsParts(s: State, r: nat, first: nat, payloads: seq<Bytes>)
    requires payloads != [] && Bears(s, r, first, payloads)
    ensures r < |s.rounds| && s.rounds[r].recs != []
  {
  }

  lemma BearsMore(s: State, s': State, r: nat, first: nat, payloads: seq<Bytes>)
    requires Bears(s, r, first, payloads) && r < |s'.rounds|
    requires s'.rounds[r].first == s.rounds[r].first && s.rounds[r].recs <= s'.rounds[r].recs
    ensures Bears(s', r, first, payloads)
  {
    var before, after, o := s.rounds[r].recs, s'.rounds[r].recs, first - s.rounds[r].first;
    assert 0 <= o && o + |payloads| <= |before| <= |after|;
    forall k | 0 <= k < |payloads| ensures after[first - s'.rounds[r].first + k].payload == payloads[k]
                                   ensures after[first - s'.rounds[r].first + k].round == r {
      assert after[o + k] == before[o + k];
      assert s.rounds[r].recs[first - s.rounds[r].first + k].payload == payloads[k];
    }
  }

  lemma BearsKept(cfg: Config, s: State, step: Step, r: nat, first: nat, payloads: seq<Bytes>)
    requires Good(cfg, s) && Enabled(cfg, s, step) && !step.Stage? && Bears(s, r, first, payloads)
    ensures Bears(Apply(cfg, s, step), r, first, payloads)
  {
    hide Good, Apply, Enabled, Bears;
    assert r < |s.rounds| by {
      BearsIn(s, r, first, payloads);
    }
    if step.SettleOk? || step.SettleErr? {
      RoundsSettled(cfg, s, step, r);
    } else {
      RoundsUntouched(cfg, s, step, r);
    }
    var before, after := s.rounds[r], Apply(cfg, s, step).rounds[r];
    assert after.first == before.first && after.recs == before.recs;
    BearsMore(s, Apply(cfg, s, step), r, first, payloads);
  }

  lemma {:induction false} RunBears(cfg: Config, states: seq<State>, steps: seq<Step>, i: nat, j: nat)
    requires ValidConfig(cfg) && IsRun(cfg, states, steps) && states[0] == Fresh
    requires i < j < |states| && Staged(states[i], steps[i], states[i + 1])
    ensures Bears(states[j], states[i].mem.value.cur, states[i].mem.value.nextLSN, steps[i].payloads)
    decreases j - i
  {
    hide Good, Bears, Apply, Enabled;
    RunGood(cfg, states, steps, j - 1);
    assert Goes(cfg, states[j - 1], steps[j - 1], states[j]);
    if i + 1 == j {
      StagedBears(cfg, states[i], steps[i]);
    } else {
      RunBears(cfg, states, steps, i, j - 1);
      NotEmpty(cfg, states[i], steps[i], states[i + 1]);
      BearsStep(cfg, states[j - 1], steps[j - 1], states[i].mem.value.cur, states[i].mem.value.nextLSN, steps[i].payloads);
    }
  }

  lemma NotEmpty(cfg: Config, s: State, step: Step, s': State)
    requires Goes(cfg, s, step, s') && step.Stage?
    ensures step.payloads != []
  {
    hide Apply;
  }

  /** Over any run: what was staged stays in its round under the numbers its appender was
      told, payload by payload. Once the round has been told nil, the number is permanently
      that record, and whatever a reader is ever given under it carries the payload that was
      appended (unless a Close of a log whose rollback failed gave RESERVED back). */
  lemma StagedTruth(cfg: Config, states: seq<State>, steps: seq<Step>, i: nat, j: nat, k: nat)
    requires ValidConfig(cfg) && IsRun(cfg, states, steps) && states[0] == Fresh
    requires i < j < |states| && Staged(states[i], steps[i], states[i + 1]) && k < |steps[i].payloads|
    ensures var r, n := states[i].mem.value.cur, states[i].mem.value.nextLSN + k;
            && Bears(states[j], r, states[i].mem.value.nextLSN, steps[i].payloads)
            && (states[j].rounds[r].verdict.Committed? && !states[j].tainted ==>
                  && n in states[j].seen && states[j].seen[n].payload == steps[i].payloads[k]
                  && forall rec :: Visible(states[j], n, rec) ==> rec.payload == steps[i].payloads[k])
  {
    hide Good, CommittedKept, Enabled, Apply, Visible, Goes;
    RunBears(cfg, states, steps, i, j);
    var r, n, payloads := states[i].mem.value.cur, states[i].mem.value.nextLSN + k, steps[i].payloads;
    if states[j].rounds[r].verdict.Committed? && !states[j].tainted {
      RunGood(cfg, states, steps, j);
      RunCommittedKept(cfg, states, steps, j);
      KeptOf(states[j], r);
      forall rec | Visible(states[j], n, rec) ensures rec.payload == payloads[k] {
        VisibleSeen(cfg, states[j], n, rec);
      }
    }
  }
}
