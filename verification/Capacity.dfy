/** Admission (batch.go): capacity is two separate atomic counters that writers add to
    before they know whether they fit. Every step below is one atomic operation of one
    goroutine, so all interleavings of reserving, giving back, staging, committing,
    rolling back, abandoning and acknowledging are runs of this machine. */
module Capacity {
  import opened Sizing

  /** Limits of zero mean no limit. Of the backlog inherited from earlier processes Open
      has counted the first `counted` records (Backlog). */
  datatype Config = Config(maxRecords: nat, maxBytes: nat, inherited: Batch, counted: nat)

  predicate ValidConfig(cfg: Config) {
    cfg.counted <= |cfg.inherited|
  }

  /** What countBacklog stored, and what it passed over. */
  function Front(cfg: Config): Batch
    requires ValidConfig(cfg)
  {
    cfg.inherited[..cfg.counted]
  }

  function Missed(cfg: Config): Batch
    requires ValidConfig(cfg)
  {
    cfg.inherited[cfg.counted..]
  }

  /** Where a goroutine is: a writer, a settler or a delivery. */
  datatype Thread =
    | Idle
    | AddedRecords(batch: Batch, fitsRecords: bool)                 // reserve, between its two adds
    | Refused(batch: Batch, fitsRecords: bool, fitsBytes: bool)     // does not fit, nothing given back yet
    | Undoing(batch: Batch, fitsBytes: bool)                        // records given back, bytes not
    | Held(batch: Batch)                                            // admitted, not staged
    | Staged(batch: Batch)                                          // its commit round is undecided
    | Releasing(batch: Batch)                                       // release, before its first add
    | HalfReleased(batch: Batch)                                    // release, between its two adds

  /** The counters, the goroutines, and the records in the log above the mark. */
  datatype State = State(records: int, bytes: int, threads: seq<Thread>, log: Batch)

  datatype Step =
    | Spawn
    | AddRecords(i: nat, batch: Batch)
    | AddBytes(i: nat)
    | UndoRecords(i: nat)
    | UndoBytes(i: nat)
    | StageOk(i: nat)
    | StageFails(i: nat)
    | Commit(i: nat)
    | RollBack(i: nat)
    | Abandon(i: nat)
    | Acknowledge(i: nat, k: nat)
    | ReleaseRecords(i: nat)
    | ReleaseBytes(i: nat)

  function Initial(cfg: Config): State
    requires ValidConfig(cfg)
  {
    State(cfg.counted, Sizes(Front(cfg)), [], cfg.inherited)
  }

  predicate Enabled(s: State, step: Step) {
    if step.Spawn? then true
    else
      && step.i < |s.threads|
      && var t := s.threads[step.i];
         match step
         case AddRecords(_, _) => t.Idle?
         case AddBytes(_) => t.AddedRecords?
         case UndoRecords(_) => t.Refused?
         case UndoBytes(_) => t.Undoing?
         case StageOk(_) => t.Held?
         case StageFails(_) => t.Held?
         case Commit(_) => t.Staged?
         case RollBack(_) => t.Staged?
         case Abandon(_) => t.Staged?
         case Acknowledge(_, k) => t.Idle? && k <= |s.log|
         case ReleaseRecords(_) => t.Releasing?
         case ReleaseBytes(_) => t.HalfReleased?
         case Spawn => true
  }

  predicate Fits(limit: nat, value: int) {
    limit == 0 || value <= limit
  }

  function Goto(s: State, i: nat, t: Thread): State
    requires i < |s.threads|
  {
    s.(threads := s.threads[i := t])
  }

  function Apply(cfg: Config, s: State, step: Step): State
    requires Enabled(s, step)
  {
    match step
    case Spawn => s.(threads := s.threads + [Idle])
    case AddRecords(i, batch) =>
      var now := s.records + |batch|;
      Goto(s, i, AddedRecords(batch, Fits(cfg.maxRecords, now))).(records := now)
    case AddBytes(i) =>
      var t := s.threads[i];
      var now := s.bytes + Sizes(t.batch);
      var fits := Fits(cfg.maxBytes, now);
      Goto(s, i, if t.fitsRecords && fits then Held(t.batch) else Refused(t.batch, t.fitsRecords, fits)).(bytes := now)
    case UndoRecords(i) =>
      var t := s.threads[i];
      Goto(s, i, Undoing(t.batch, t.fitsBytes)).(records := s.records - |t.batch|)
    case UndoBytes(i) => Goto(s, i, Idle).(bytes := s.bytes - Sizes(s.threads[i].batch))
    case StageOk(i) => Goto(s, i, Staged(s.threads[i].batch))
    case StageFails(i) => Goto(s, i, Releasing(s.threads[i].batch))
    case Commit(i) => Goto(s, i, Idle).(log := s.log + s.threads[i].batch)
    case RollBack(i) => Goto(s, i, Releasing(s.threads[i].batch))
    case Abandon(i) => Goto(s, i, Idle).(threads := s.threads[i := Idle] + [s.threads[i]])
    case Acknowledge(i, k) => Goto(s, i, Releasing(s.log[..k])).(log := s.log[k..])
    case ReleaseRecords(i) =>
      Goto(s, i, HalfReleased(s.threads[i].batch)).(records := s.records - |s.threads[i].batch|)
    case ReleaseBytes(i) => Goto(s, i, Idle).(bytes := s.bytes - Sizes(s.threads[i].batch))
  }

  // ---- what each goroutine accounts for ----------------------------------

  datatype Kind =
    | Records | Bytes                      // what it has added to a counter and not taken back
    | ClaimedRecords | ClaimedBytes        // of that, what passed the limit when it was added
    | AdmittedRecords | AdmittedBytes      // of that, what an admitted write holds

  function Share(t: Thread, kind: Kind): nat
  {
    match t
    case Idle => 0
    case AddedRecords(b, fits) =>
      (match kind case Records => |b| case ClaimedRecords => if fits then |b| else 0 case _ => 0)
    case Refused(b, fitsR, fitsB) =>
      (match kind
       case Records => |b|
       case Bytes => Sizes(b)
       case ClaimedRecords => if fitsR then |b| else 0
       case ClaimedBytes => if fitsB then Sizes(b) else 0
       case _ => 0)
    case Undoing(b, fitsB) =>
      (match kind case Bytes => Sizes(b) case ClaimedBytes => if fitsB then Sizes(b) else 0 case _ => 0)
    case HalfReleased(b) =>
      (match kind case Bytes => Sizes(b) case ClaimedBytes => Sizes(b) case AdmittedBytes => Sizes(b) case _ => 0)
    case _ =>
      (match kind
       case Records => |t.batch| case ClaimedRecords => |t.batch| case AdmittedRecords => |t.batch|
       case _ => Sizes(t.batch))
  }

  function Sum(ts: seq<Thread>, kind: Kind): nat {
    if ts == [] then 0 else Sum(ts[..|ts| - 1], kind) + Share(ts[|ts| - 1], kind)
  }

  /** What the records in the log account for. */
  function LogShare(log: Batch, kind: Kind): nat {
    if kind == Records || kind == ClaimedRecords || kind == AdmittedRecords then |log| else Sizes(log)
  }

  function Load(s: State, kind: Kind): nat {
    Sum(s.threads, kind) + LogShare(s.log, kind)
  }

  function Larger(a: nat, b: nat): nat { if a < b then b else a }

  /** The counters are what goroutines added and not yet took back plus what is in the log,
      less what Open passed over, and what passed the limit is within it by as much. */
  ghost predicate Balanced(cfg: Config, s: State)
    requires ValidConfig(cfg)
  {
    && s.records == Load(s, Records) - |Missed(cfg)|
    && s.bytes == Load(s, Bytes) - Sizes(Missed(cfg))
    && (cfg.maxRecords > 0 ==> Load(s, ClaimedRecords) <= Larger(cfg.maxRecords + |Missed(cfg)|, |cfg.inherited|))
    && (cfg.maxBytes > 0 ==> Load(s, ClaimedBytes) <= Larger(cfg.maxBytes + Sizes(Missed(cfg)), Sizes(cfg.inherited)))
  }

  // ---- proofs ------------------------------------------------------------

  lemma {:induction false} SumUpdate(ts: seq<Thread>, i: nat, t: Thread, kind: Kind)
    requires i < |ts|
    ensures Sum(ts[i := t], kind) == Sum(ts, kind) - Share(ts[i], kind) + Share(t, kind)
  {
    var k := |ts| - 1;
    if i < k {
      assert ts[i := t][..k] == ts[..k][i := t];
      SumUpdate(ts[..k], i, t, kind);
    } else {
      assert ts[i := t][..k] == ts[..k];
    }
  }

  lemma SumAppend(ts: seq<Thread>, t: Thread, kind: Kind)
    ensures Sum(ts + [t], kind) == Sum(ts, kind) + Share(t, kind)
  {
    assert (ts + [t])[..|ts|] == ts;
  }

  ghost predicate Lower(low: Kind, high: Kind) {
    || (high == Records && (low == ClaimedRecords || low == AdmittedRecords))
    || (high == Bytes && (low == ClaimedBytes || low == AdmittedBytes))
    || (high == ClaimedRecords && low == AdmittedRecords)
    || (high == ClaimedBytes && low == AdmittedBytes)
  }

  lemma {:induction false} SumBelow(ts: seq<Thread>, low: Kind, high: Kind)
    requires Lower(low, high)
    ensures Sum(ts, low) <= Sum(ts, high)
  {
    if ts != [] {
      SumBelow(ts[..|ts| - 1], low, high);
    }
  }

  /** The effect of a step on one kind of load. */
  ghost predicate LoadMoves(cfg: Config, s: State, step: Step, kind: Kind)
    requires Enabled(s, step)
  {
    var s' := Apply(cfg, s, step);
    && (!step.AddRecords? && !step.AddBytes? ==> Load(s', kind) <= Load(s, kind))
    && (kind == Records ==> Load(s', kind) - Load(s, kind) == s'.records - s.records)
    && (kind == Bytes ==> Load(s', kind) - Load(s, kind) == s'.bytes - s.bytes)
    && (step.AddRecords? && kind == ClaimedRecords && Load(s', kind) > Load(s, kind) ==>
          Fits(cfg.maxRecords, s'.records))
    && (step.AddRecords? && kind == ClaimedBytes ==> Load(s', kind) == Load(s, kind))
    && (step.AddBytes? && kind == ClaimedBytes && Load(s', kind) > Load(s, kind) ==>
          Fits(cfg.maxBytes, s'.bytes))
    && (step.AddBytes? && kind == ClaimedRecords ==> Load(s', kind) == Load(s, kind))
  }

  lemma LoadStep(cfg: Config, s: State, step: Step, kind: Kind)
    requires Enabled(s, step)
    ensures LoadMoves(cfg, s, step, kind)
  {
    hide Sum, Sizes;
    if step.Spawn? {
      SumAppend(s.threads, Idle, kind);
    } else if step.Abandon? {
      SumUpdate(s.threads, step.i, Idle, kind);
      SumAppend(s.threads[step.i := Idle], s.threads[step.i], kind);
    } else if step.Commit? || step.Acknowledge? {
      hide LoadMoves;
      LoadLog(cfg, s, step, kind);
    } else {
      hide LoadMoves;
      LoadThread(cfg, s, step, kind);
    }
  }

  lemma LoadLog(cfg: Config, s: State, step: Step, kind: Kind)
    requires Enabled(s, step) && (step.Commit? || step.Acknowledge?)
    ensures LoadMoves(cfg, s, step, kind)
  {
    hide Sum, Sizes;
    SumUpdate(s.threads, step.i, Apply(cfg, s, step).threads[step.i], kind);
    if step.Commit? {
      SizesConcat(s.log, s.threads[step.i].batch);
    } else {
      assert s.log == s.log[..step.k] + s.log[step.k..];
      SizesConcat(s.log[..step.k], s.log[step.k..]);
    }
  }

  lemma LoadThread(cfg: Config, s: State, step: Step, kind: Kind)
    requires Enabled(s, step) && !step.Spawn? && !step.Abandon? && !step.Commit? && !step.Acknowledge?
    ensures LoadMoves(cfg, s, step, kind)
  {
    hide Sum, Sizes, Share, LogShare, Apply;
    LogSame(cfg, s, step);
    SumUpdate(s.threads, step.i, Apply(cfg, s, step).threads[step.i], kind);
    ShareMoves(cfg, s, step, kind);
  }

  lemma LogSame(cfg: Config, s: State, step: Step)
    requires Enabled(s, step) && !step.Spawn? && !step.Abandon? && !step.Commit? && !step.Acknowledge?
    ensures var s' := Apply(cfg, s, step); s'.log == s.log && |s'.threads| == |s.threads| && s'.threads == s.threads[step.i := s'.threads[step.i]]
  {
  }

  /** The same for one goroutine's share. */
  lemma ShareMoves(cfg: Config, s: State, step: Step, kind: Kind)
    requires Enabled(s, step) && !step.Spawn? && !step.Abandon? && !step.Commit? && !step.Acknowledge?
    ensures var s' := Apply(cfg, s, step);
            var before, after := Share(s.threads[step.i], kind), Share(s'.threads[step.i], kind);
            && (!step.AddRecords? && !step.AddBytes? ==> after <= before)
            && (kind == Records ==> after - before == s'.records - s.records)
            && (kind == Bytes ==> after - before == s'.bytes - s.bytes)
            && (step.AddRecords? && kind == ClaimedRecords && after > before ==> Fits(cfg.maxRecords, s'.records))
            && (step.AddRecords? && kind == ClaimedBytes ==> after == before)
            && (step.AddBytes? && kind == ClaimedBytes && after > before ==> Fits(cfg.maxBytes, s'.bytes))
            && (step.AddBytes? && kind == ClaimedRecords ==> after == before)
  {
    hide Sizes;
  }

  lemma ClaimsWithinCounters(s: State)
    ensures Load(s, AdmittedRecords) <= Load(s, ClaimedRecords) <= Load(s, Records)
    ensures Load(s, AdmittedBytes) <= Load(s, ClaimedBytes) <= Load(s, Bytes)
  {
    SumBelow(s.threads, AdmittedRecords, ClaimedRecords);
    SumBelow(s.threads, ClaimedRecords, Records);
    SumBelow(s.threads, AdmittedBytes, ClaimedBytes);
    SumBelow(s.threads, ClaimedBytes, Bytes);
  }

  /** Every step keeps the balance. */
  lemma BalanceStep(cfg: Config, s: State, step: Step)
    requires ValidConfig(cfg) && Balanced(cfg, s) && Enabled(s, step)
    ensures Balanced(cfg, Apply(cfg, s, step))
  {
    hide Load, Apply, Sizes;
    var s' := Apply(cfg, s, step);
    LoadStep(cfg, s, step, Records);
    LoadStep(cfg, s, step, Bytes);
    LoadStep(cfg, s, step, ClaimedRecords);
    LoadStep(cfg, s, step, ClaimedBytes);
    ClaimsWithinCounters(s');
  }

  ghost predicate Taken(cfg: Config, states: seq<State>, steps: seq<Step>, i: nat)
    requires |states| == |steps| + 1 && i < |steps|
  {
    Goes(cfg, states[i], steps[i], states[i + 1])
  }

  ghost predicate Goes(cfg: Config, s: State, step: Step, s': State) {
    Enabled(s, step) && s' == Apply(cfg, s, step)
  }

  /** A run from the state Open leaves. */
  ghost predicate IsRun(cfg: Config, states: seq<State>, steps: seq<Step>) {
    && ValidConfig(cfg) && |states| == |steps| + 1 && states[0] == Initial(cfg)
    && forall i :: 0 <= i < |steps| ==> Taken(cfg, states, steps, i)
  }

  lemma FrontAndMissed(cfg: Config)
    requires ValidConfig(cfg)
    ensures Sizes(cfg.inherited) == Sizes(Front(cfg)) + Sizes(Missed(cfg))
  {
    assert cfg.inherited == Front(cfg) + Missed(cfg);
    SizesConcat(Front(cfg), Missed(cfg));
  }

  lemma InitialBalanced(cfg: Config)
    requires ValidConfig(cfg)
    ensures Balanced(cfg, Initial(cfg))
  {
    hide Sizes, Share, Sum;
    FrontAndMissed(cfg);
    IdleSum([], Records);
    IdleSum([], Bytes);
    IdleSum([], ClaimedRecords);
    IdleSum([], ClaimedBytes);
  }

  lemma {:induction false} RunBalanced(cfg: Config, states: seq<State>, steps: seq<Step>, k: nat)
    requires IsRun(cfg, states, steps) && k < |states|
    ensures Balanced(cfg, states[k])
  {
    hide Apply, Enabled, Balanced;
    if k == 0 {
      InitialBalanced(cfg);
    } else {
      RunBalanced(cfg, states, steps, k - 1);
      assert Taken(cfg, states, steps, k - 1);
      BalanceStep(cfg, states[k - 1], steps[k - 1]);
    }
  }

  /** In every reachable state the counters are what they stand for, less what Open did not
      count, and admitted writes plus the backlog are within the limits and that much more,
      or within the inherited backlog where that was larger. */
  lemma CapacityConserved(cfg: Config, states: seq<State>, steps: seq<Step>, k: nat)
    requires IsRun(cfg, states, steps) && k < |states|
    ensures var s := states[k];
            && s.records == Load(s, Records) - |Missed(cfg)| && s.bytes == Load(s, Bytes) - Sizes(Missed(cfg))
            && s.records >= |s.log| - |Missed(cfg)| && s.bytes >= Sizes(s.log) - Sizes(Missed(cfg))
            && (cfg.maxRecords > 0 ==>
                  Load(s, AdmittedRecords) <= Larger(cfg.maxRecords + |Missed(cfg)|, |cfg.inherited|))
            && (cfg.maxBytes > 0 ==>
                  Load(s, AdmittedBytes) <= Larger(cfg.maxBytes + Sizes(Missed(cfg)), Sizes(cfg.inherited)))
  {
    RunBalanced(cfg, states, steps, k);
    ClaimsWithinCounters(states[k]);
  }

  /** Nothing leaks and nothing is released twice: once every goroutine is idle, the
      counters are the records in the log above the mark, less those Open did not count. */
  lemma {:induction false} QuiescentIsBacklog(cfg: Config, states: seq<State>, steps: seq<Step>, k: nat)
    requires IsRun(cfg, states, steps) && k < |states|
    requires forall i :: 0 <= i < |states[k].threads| ==> states[k].threads[i].Idle?
    ensures states[k].records == |states[k].log| - |Missed(cfg)|
    ensures states[k].bytes == Sizes(states[k].log) - Sizes(Missed(cfg))
  {
    RunBalanced(cfg, states, steps, k);
    IdleSum(states[k].threads, Records);
    IdleSum(states[k].threads, Bytes);
  }

  // ---- exactly when Open's count is enough -----------------------------------------

  ghost predicate Visits(cfg: Config, states: seq<State>, steps: seq<Step>, s: State) {
    IsRun(cfg, states, steps) && s in states
  }

  ghost predicate Reachable(cfg: Config, s: State) {
    exists states, steps :: Visits(cfg, states, steps, s)
  }

  lemma ReachableConserved(cfg: Config, s: State)
    requires Reachable(cfg, s)
    ensures ValidConfig(cfg)
    ensures s.records >= |s.log| - |Missed(cfg)| && s.bytes >= Sizes(s.log) - Sizes(Missed(cfg))
    ensures cfg.maxRecords > 0 ==>
              Load(s, AdmittedRecords) <= Larger(cfg.maxRecords + |Missed(cfg)|, |cfg.inherited|)
    ensures cfg.maxBytes > 0 ==>
              Load(s, AdmittedBytes) <= Larger(cfg.maxBytes + Sizes(Missed(cfg)), Sizes(cfg.inherited))
  {
    hide IsRun, Load, Sizes;
    var states, steps :| Visits(cfg, states, steps, s);
    var k :| 0 <= k < |states| && states[k] == s;
    RunValid(cfg, states, steps);
    CapacityConserved(cfg, states, steps, k);
  }

  lemma RunValid(cfg: Config, states: seq<State>, steps: seq<Step>)
    requires IsRun(cfg, states, steps)
    ensures ValidConfig(cfg)
  {
  }

  /** The counters never fall below the backlog exactly if Open counted all of it. */
  lemma NeverBelowIff(cfg: Config)
    requires ValidConfig(cfg)
    ensures (forall s :: Reachable(cfg, s) ==> s.records >= |s.log| && s.bytes >= Sizes(s.log))
            <==> cfg.counted == |cfg.inherited|
  {
    hide Sizes, Load;
    if cfg.counted == |cfg.inherited| {
      NothingMissed(cfg);
      forall s | Reachable(cfg, s) ensures s.records >= |s.log| && s.bytes >= Sizes(s.log) {
        hide Reachable;
        ReachableConserved(cfg, s);
      }
    } else {
      assert Visits(cfg, [Initial(cfg)], [], Initial(cfg));
    }
  }

  lemma NothingMissed(cfg: Config)
    requires ValidConfig(cfg) && cfg.counted == |cfg.inherited|
    ensures Missed(cfg) == [] && Sizes(Missed(cfg)) == 0
  {
  }

  /** A record limit, or the inherited backlog where that was larger, bounds what is admitted
      together with the backlog exactly if Open counted everything, or so much that there was
      no room anyway. */
  lemma RecordsBoundedIff(cfg: Config)
    requires ValidConfig(cfg) && cfg.maxRecords > 0
    ensures (forall s :: Reachable(cfg, s) ==> Load(s, AdmittedRecords) <= Larger(cfg.maxRecords, |cfg.inherited|))
            <==> cfg.counted == |cfg.inherited| || cfg.maxRecords <= cfg.counted
  {
    hide Reachable, Load;
    if cfg.counted == |cfg.inherited| || cfg.maxRecords <= cfg.counted {
      forall s | Reachable(cfg, s) ensures Load(s, AdmittedRecords) <= Larger(cfg.maxRecords, |cfg.inherited|) {
        ReachableConserved(cfg, s);
      }
    } else {
      var s := AdmitsAfterAck(cfg, Empties(cfg.maxRecords));
      assert Reachable(cfg, s) && Load(s, AdmittedRecords) == cfg.maxRecords + |Missed(cfg)|;
    }
  }

  /** The same for bytes. */
  lemma BytesBoundedIff(cfg: Config)
    requires ValidConfig(cfg) && cfg.maxBytes > 0
    ensures (forall s :: Reachable(cfg, s) ==> Load(s, AdmittedBytes) <= Larger(cfg.maxBytes, Sizes(cfg.inherited)))
            <==> Sizes(Missed(cfg)) == 0 || cfg.maxBytes <= Sizes(Front(cfg))
  {
    hide Reachable, Load, Sizes;
    FrontAndMissed(cfg);
    if Sizes(Missed(cfg)) == 0 || cfg.maxBytes <= Sizes(Front(cfg)) {
      forall s | Reachable(cfg, s) ensures Load(s, AdmittedBytes) <= Larger(cfg.maxBytes, Sizes(cfg.inherited)) {
        ReachableConserved(cfg, s);
      }
    } else {
      SizesOne(cfg.maxBytes);
      var s := AdmitsAfterAck(cfg, [cfg.maxBytes]);
      assert Reachable(cfg, s) && Load(s, AdmittedBytes) == cfg.maxBytes + Sizes(Missed(cfg));
    }
  }

  /** n records without payload. */
  function Empties(n: nat): (b: Batch)
    ensures |b| == n && Sizes(b) == 0
  {
    if n == 0 then [] else
      var rest := Empties(n - 1);
      assert (rest + [0])[..n - 1] == rest;
      rest + [0]
  }

  /** What was counted is acknowledged and released; then a batch that fills the limits is
      admitted on top of what was not counted. */
  lemma AdmitsAfterAck(cfg: Config, batch: Batch) returns (s6: State)
    requires ValidConfig(cfg) && Fits(cfg.maxRecords, |batch|) && Fits(cfg.maxBytes, Sizes(batch))
    ensures Reachable(cfg, s6)
    ensures Load(s6, AdmittedRecords) == |batch| + |Missed(cfg)|
    ensures Load(s6, AdmittedBytes) == Sizes(batch) + Sizes(Missed(cfg))
  {
    hide Sizes, Load;
    var s0 := Initial(cfg);
    var s1 := State(s0.records, s0.bytes, [Idle], cfg.inherited);
    var s2 := State(s0.records, s0.bytes, [Releasing(Front(cfg))], Missed(cfg));
    var s3 := State(0, s0.bytes, [HalfReleased(Front(cfg))], Missed(cfg));
    var s4 := State(0, 0, [Idle], Missed(cfg));
    var s5 := State(|batch|, 0, [AddedRecords(batch, true)], Missed(cfg));
    s6 := State(|batch|, Sizes(batch), [Held(batch)], Missed(cfg));
    var states := [s0, s1, s2, s3, s4, s5, s6];
    var steps := [Spawn, Acknowledge(0, cfg.counted), ReleaseRecords(0), ReleaseBytes(0), AddRecords(0, batch), AddBytes(0)];
    AcksFront(cfg, s0, s1, s2, s3, s4);
    AdmitsBatch(cfg, batch, s4, s5, s6);
    hide Goes, Front, Missed, Fits;
    assert Visits(cfg, states, steps, states[6]);
    HeldLoad(s6, batch, Missed(cfg));
  }

  lemma AcksFront(cfg: Config, s0: State, s1: State, s2: State, s3: State, s4: State)
    requires ValidConfig(cfg) && s0 == Initial(cfg) && s1 == s0.(threads := [Idle])
    requires s2 == s1.(threads := [Releasing(Front(cfg))], log := Missed(cfg))
    requires s3 == s2.(threads := [HalfReleased(Front(cfg))], records := 0)
    requires s4 == s3.(threads := [Idle], bytes := 0)
    ensures Goes(cfg, s0, Spawn, s1) && Goes(cfg, s1, Acknowledge(0, cfg.counted), s2)
    ensures Goes(cfg, s2, ReleaseRecords(0), s3) && Goes(cfg, s3, ReleaseBytes(0), s4)
  {
    hide Sizes;
  }

  lemma AdmitsBatch(cfg: Config, batch: Batch, s4: State, s5: State, s6: State)
    requires Fits(cfg.maxRecords, |batch|) && Fits(cfg.maxBytes, Sizes(batch))
    requires s4.records == 0 && s4.bytes == 0 && s4.threads == [Idle]
    requires s5 == s4.(threads := [AddedRecords(batch, true)], records := |batch|)
    requires s6 == s5.(threads := [Held(batch)], bytes := Sizes(batch))
    ensures Goes(cfg, s4, AddRecords(0, batch), s5) && Goes(cfg, s5, AddBytes(0), s6)
  {
    hide Sizes;
  }

  /** A limit of 10, 1 record in front of the gap and 10 behind it: 20 are held at once. */
  lemma OverAdmits() returns (s: State)
    ensures Reachable(Config(10, 0, Empties(11), 1), s) && Load(s, AdmittedRecords) == 20
  {
    hide Reachable, Load;
    s := AdmitsAfterAck(Config(10, 0, Empties(11), 1), Empties(10));
  }

  lemma HeldLoad(s: State, batch: Batch, log: Batch)
    requires s.threads == [Held(batch)] && s.log == log
    ensures Load(s, AdmittedRecords) == |batch| + |log| && Load(s, AdmittedBytes) == Sizes(batch) + Sizes(log)
  {
    hide Sizes, Sum;
    assert s.threads == [] + [Held(batch)];
    SumAppend([], Held(batch), AdmittedRecords);
    SumAppend([], Held(batch), AdmittedBytes);
    IdleSum([], AdmittedRecords);
    IdleSum([], AdmittedBytes);
  }

  lemma {:induction false} IdleSum(ts: seq<Thread>, kind: Kind)
    requires forall i :: 0 <= i < |ts| ==> ts[i].Idle?
    ensures Sum(ts, kind) == 0
  {
    if ts != [] {
      IdleSum(ts[..|ts| - 1], kind);
    }
  }
}
