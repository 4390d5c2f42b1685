/** admit (batch.go) on the capacity gate. Unlike a mark or a floor, room can come and
    go, and it can appear without a signal: release signals, but a refused reservation
    gives back what it had added in silence. */
module Admission {

  /** Limits of zero mean no limit. */
  datatype Config = Config(maxRecords: nat, maxBytes: nat)

  /** A write at the gate. `disturbed` is history: some other refused reservation has
      been given back since this write took its channel. */
  datatype Write = Write(n: nat, size: nat, ch: nat, overRecords: bool, overBytes: bool, disturbed: bool)

  datatype Thread =
    | Idle
    | Gated(w: Write)          // took the channel
    | AddedRecords(w: Write)   // reserve, between its adds
    | Refused(w: Write)        // reserve, does not fit
    | Undoing(w: Write)        // reserve, records given back
    | Turned(w: Write)         // reserve returned false
    | Parked(w: Write)
    | Admitted(n: nat, size: nat)
    | HalfReleased(size: nat)  // release, records given back
    | Signalling               // release, about to signal
    | Failing                  // fail, about to signal

  datatype State = State(records: int, bytes: int, gen: nat, failed: bool, threads: seq<Thread>)

  datatype Step =
    | TakeGate(i: nat, n: nat, size: nat)
    | AddRecords(i: nat)
    | AddBytes(i: nat)
    | UndoRecords(i: nat)
    | UndoBytes(i: nat)
    | CheckFailure(i: nat)
    | Wake(i: nat)             // the channel is closed
    | GiveUp(i: nat)           // timer, context or Close
    | ReleaseRecords(i: nat)
    | ReleaseBytes(i: nat)
    | Signal(i: nat)
    | Fail(i: nat)

  predicate Over(limit: nat, value: int) {
    limit > 0 && value > limit
  }

  /** The reservation would succeed if it were tried now. */
  predicate Room(cfg: Config, s: State, w: Write) {
    !Over(cfg.maxRecords, s.records + w.n) && !Over(cfg.maxBytes, s.bytes + w.size)
  }

  predicate AtGate(t: Thread) {
    t.Gated? || t.AddedRecords? || t.Refused? || t.Undoing? || t.Turned? || t.Parked?
  }

  predicate Enabled(s: State, step: Step) {
    && step.i < |s.threads|
    && var t := s.threads[step.i];
       match step
       case TakeGate(_, _, _) => t.Idle?
       case AddRecords(_) => t.Gated?
       case AddBytes(_) => t.AddedRecords?
       case UndoRecords(_) => t.Refused?
       case UndoBytes(_) => t.Undoing?
       case CheckFailure(_) => t.Turned?
       case Wake(_) => t.Parked? && t.w.ch < s.gen
       case GiveUp(_) => t.Parked?
       case ReleaseRecords(_) => t.Admitted?
       case ReleaseBytes(_) => t.HalfReleased?
       case Signal(_) => t.Signalling? || t.Failing?
       case Fail(_) => t.Idle?
  }

  function Goto(s: State, i: nat, t: Thread): State
    requires i < |s.threads|
  {
    s.(threads := s.threads[i := t])
  }

  function Touch(t: Thread): Thread {
    if AtGate(t) then t.(w := t.w.(disturbed := true)) else t
  }

  /** Thread i moves on, and its giving back disturbs all others. */
  function Disturb(ts: seq<Thread>, i: nat, t: Thread): (r: seq<Thread>)
    requires i < |ts|
    ensures |r| == |ts| && r[i] == t
    ensures forall j :: 0 <= j < |ts| && j != i ==> r[j] == Touch(ts[j])
  {
    seq(|ts|, j requires 0 <= j < |ts| => if j == i then t else Touch(ts[j]))
  }

  function Apply(cfg: Config, s: State, step: Step): State
    requires Enabled(s, step)
  {
    var t := s.threads[step.i];
    match step
    case TakeGate(i, n, size) => Goto(s, i, Gated(Write(n, size, s.gen, false, false, false)))
    case AddRecords(i) =>
      var now := s.records + t.w.n;
      Goto(s, i, AddedRecords(t.w.(overRecords := Over(cfg.maxRecords, now)))).(records := now)
    case AddBytes(i) =>
      var now := s.bytes + t.w.size;
      var w := t.w.(overBytes := Over(cfg.maxBytes, now));
      Goto(s, i, if w.overRecords || w.overBytes then Refused(w) else Admitted(w.n, w.size)).(bytes := now)
    case UndoRecords(i) => s.(threads := Disturb(s.threads, i, Undoing(t.w)), records := s.records - t.w.n)
    case UndoBytes(i) => s.(threads := Disturb(s.threads, i, Turned(t.w)), bytes := s.bytes - t.w.size)
    case CheckFailure(i) => Goto(s, i, if s.failed then Idle else Parked(t.w))
    case Wake(i) => Goto(s, i, Gated(Write(t.w.n, t.w.size, s.gen, false, false, false)))
    case GiveUp(i) => Goto(s, i, Idle)
    case ReleaseRecords(i) => Goto(s, i, HalfReleased(t.size)).(records := s.records - t.n)
    case ReleaseBytes(i) => Goto(s, i, Signalling).(bytes := s.bytes - t.size)
    case Signal(i) => Goto(s, i, Idle).(gen := s.gen + 1)
    case Fail(i) => Goto(s, i, Failing).(failed := true)
  }

  predicate OwesSpace(t: Thread) { t.HalfReleased? || t.Signalling? }

  /** Somebody gave capacity back and is on the way to signal. */
  ghost predicate SpaceDue(s: State) {
    exists j :: 0 <= j < |s.threads| && OwesSpace(s.threads[j])
  }

  ghost predicate FailureDue(s: State) {
    exists j :: 0 <= j < |s.threads| && s.threads[j].Failing?
  }

  /** What refused the write still does, counting what it has itself in the counters. */
  ghost predicate StillOver(cfg: Config, s: State, t: Thread)
    requires AtGate(t)
  {
    var w := t.w;
    match t
    case Gated(_) => true
    case AddedRecords(_) => w.overRecords ==> Over(cfg.maxRecords, s.records)
    case Refused(_) =>
      (w.overRecords && Over(cfg.maxRecords, s.records)) || (w.overBytes && Over(cfg.maxBytes, s.bytes))
    case Undoing(_) =>
      (w.overRecords && Over(cfg.maxRecords, s.records + w.n)) || (w.overBytes && Over(cfg.maxBytes, s.bytes))
    case _ => !Room(cfg, s, w)
  }

  /** A write at an open channel that nobody disturbed does not fit, or a signal is due;
      one parked there has not missed a failure. */
  ghost predicate NotForgotten(cfg: Config, s: State, t: Thread) {
    AtGate(t) ==>
      && t.w.ch <= s.gen
      && (t.w.ch == s.gen && !t.w.disturbed ==> SpaceDue(s) || StillOver(cfg, s, t))
      && (t.w.ch == s.gen && t.Parked? && s.failed ==> FailureDue(s))
  }

  ghost predicate Fair(cfg: Config, s: State) {
    forall i :: 0 <= i < |s.threads| ==> NotForgotten(cfg, s, s.threads[i])
  }

  /** The thread that acts keeps its own promise. */
  lemma ActorStep(cfg: Config, s: State, step: Step)
    requires Enabled(s, step) && NotForgotten(cfg, s, s.threads[step.i])
    requires SpaceDue(s) ==> SpaceDue(Apply(cfg, s, step)) || step.Signal?
    ensures NotForgotten(cfg, Apply(cfg, s, step), Apply(cfg, s, step).threads[step.i])
  {
    hide SpaceDue, FailureDue;
  }

  /** The others keep theirs: capacity goes down only by a release, which then owes a
      signal, or by a refused reservation, which disturbs them. */
  lemma OtherStep(cfg: Config, s: State, step: Step, j: nat)
    requires Enabled(s, step) && j < |s.threads| && j != step.i && NotForgotten(cfg, s, s.threads[j])
    requires var s' := Apply(cfg, s, step);
             && (SpaceDue(s) ==> SpaceDue(s') || step.Signal?)
             && (FailureDue(s) ==> FailureDue(s') || step.Signal?)
             && (step.ReleaseRecords? || step.ReleaseBytes? ==> SpaceDue(s'))
             && (step.Fail? ==> FailureDue(s'))
    ensures NotForgotten(cfg, Apply(cfg, s, step), Apply(cfg, s, step).threads[j])
  {
    hide SpaceDue, FailureDue;
    var s' := Apply(cfg, s, step);
    assert s'.threads[j] == if step.UndoRecords? || step.UndoBytes? then Touch(s.threads[j]) else s.threads[j];
  }

  lemma DuesStep(cfg: Config, s: State, step: Step)
    requires Enabled(s, step)
    ensures var s' := Apply(cfg, s, step);
            && (SpaceDue(s) ==> SpaceDue(s') || step.Signal?)
            && (FailureDue(s) ==> FailureDue(s') || step.Signal?)
            && (step.ReleaseRecords? || step.ReleaseBytes? ==> SpaceDue(s'))
            && (step.Fail? ==> FailureDue(s'))
  {
    var s' := Apply(cfg, s, step);
    var i := step.i;
    if SpaceDue(s) && !step.Signal? {
      var j :| 0 <= j < |s.threads| && OwesSpace(s.threads[j]);
      assert OwesSpace(s'.threads[j]);
    }
    if FailureDue(s) && !step.Signal? {
      var j :| 0 <= j < |s.threads| && s.threads[j].Failing?;
      assert s'.threads[j].Failing?;
    }
    if step.ReleaseRecords? || step.ReleaseBytes? {
      assert OwesSpace(s'.threads[i]);
    }
    if step.Fail? {
      assert s'.threads[i].Failing?;
    }
  }

  lemma FairStep(cfg: Config, s: State, step: Step)
    requires Fair(cfg, s) && Enabled(s, step)
    ensures Fair(cfg, Apply(cfg, s, step))
  {
    hide NotForgotten, SpaceDue, FailureDue;
    var s' := Apply(cfg, s, step);
    DuesStep(cfg, s, step);
    forall j | 0 <= j < |s'.threads| ensures NotForgotten(cfg, s', s'.threads[j]) {
      if j == step.i {
        ActorStep(cfg, s, step);
      } else {
        OtherStep(cfg, s, step, j);
      }
    }
  }

  ghost predicate Taken(cfg: Config, states: seq<State>, steps: seq<Step>, i: nat)
    requires |states| == |steps| + 1 && i < |steps|
  {
    Enabled(states[i], steps[i]) && states[i + 1] == Apply(cfg, states[i], steps[i])
  }

  /** Open starts with the backlog it counted and nobody at the gate. */
  ghost predicate Opened(s: State) {
    s.records >= 0 && s.bytes >= 0 && forall i :: 0 <= i < |s.threads| ==> !AtGate(s.threads[i])
  }

  ghost predicate IsPath(cfg: Config, states: seq<State>, steps: seq<Step>) {
    && |states| == |steps| + 1
    && forall i :: 0 <= i < |steps| ==> Taken(cfg, states, steps, i)
  }

  ghost predicate IsRun(cfg: Config, states: seq<State>, steps: seq<Step>) {
    IsPath(cfg, states, steps) && Opened(states[0])
  }

  lemma {:induction false} RunFair(cfg: Config, states: seq<State>, steps: seq<Step>, k: nat)
    requires IsRun(cfg, states, steps) && k < |states|
    ensures Fair(cfg, states[k])
  {
    hide Enabled, Apply;
    if k > 0 {
      hide Fair;
      RunFair(cfg, states, steps, k - 1);
      assert Taken(cfg, states, steps, k - 1);
      FairStep(cfg, states[k - 1], steps[k - 1]);
    }
  }

  /** In every interleaving, a write that is parked although the buffer has failed holds
      a closed channel or a failing goroutine is about to signal; and one that is parked
      although it would fit holds a closed channel, or a release is about to signal, or
      some other refused reservation was given back while it was at the gate. */
  lemma WakeupOrDisturbed(cfg: Config, states: seq<State>, steps: seq<Step>, k: nat, i: nat)
    requires IsRun(cfg, states, steps) && k < |states|
    requires i < |states[k].threads| && states[k].threads[i].Parked?
    ensures var s, w := states[k], states[k].threads[i].w;
            && (s.failed ==> w.ch < s.gen || FailureDue(s))
            && (Room(cfg, s, w) ==> w.ch < s.gen || SpaceDue(s) || w.disturbed)
  {
    RunFair(cfg, states, steps, k);
    assert NotForgotten(cfg, states[k], states[k].threads[i]);
  }

  /** The last way out is real: a write of 6 is refused against a backlog of 5 and a
      limit of 10; while it is being given back, a write of 5 is refused because of it,
      parks, and stays parked with room for it, an open channel and no signal due. */
  lemma SilentGiveBack() returns (cfg: Config, states: seq<State>, steps: seq<Step>)
    ensures IsRun(cfg, states, steps)
    ensures var s := states[|states| - 1];
            && |s.threads| == 2 && s.threads[1].Parked?
            && Room(cfg, s, s.threads[1].w) && s.threads[1].w.ch == s.gen
            && !SpaceDue(s) && !FailureDue(s) && s.threads[0].Parked?
  {
    cfg := Config(10, 0);
    var before, first := RefusedBesideAnother(cfg);
    var after, second := GivenBackInSilence(cfg);
    states, steps := before + after[1..], first + second;
    PathJoin(cfg, before, first, after, second);
  }

  const Meeting := State(11, 5, 0, false,
    [AddedRecords(Write(6, 6, 0, true, false, true)), Parked(Write(5, 5, 0, true, false, false))])

  const BothAdded := State(16, 5, 0, false,
    [AddedRecords(Write(6, 6, 0, true, false, false)), AddedRecords(Write(5, 5, 0, true, false, false))])

  lemma RefusedBesideAnother(cfg: Config) returns (states: seq<State>, steps: seq<Step>)
    requires cfg == Config(10, 0)
    ensures IsPath(cfg, states, steps) && Opened(states[0]) && states[|states| - 1] == Meeting
  {
    var before, first := BothReserve(cfg);
    var after, second := SecondParks(cfg);
    states, steps := before + after[1..], first + second;
    PathJoin(cfg, before, first, after, second);
  }

  lemma BothReserve(cfg: Config) returns (states: seq<State>, steps: seq<Step>)
    requires cfg == Config(10, 0)
    ensures IsPath(cfg, states, steps) && Opened(states[0]) && states[|states| - 1] == BothAdded
  {
    var s0 := State(5, 5, 0, false, [Idle, Idle]);
    var s1 := Apply(cfg, s0, TakeGate(0, 6, 6));
    var s2 := Apply(cfg, s1, AddRecords(0));
    var s3 := Apply(cfg, s2, TakeGate(1, 5, 5));
    var s4 := Apply(cfg, s3, AddRecords(1));
    states := [s0, s1, s2, s3, s4];
    steps := [TakeGate(0, 6, 6), AddRecords(0), TakeGate(1, 5, 5), AddRecords(1)];
    forall i | 0 <= i < |steps| ensures Taken(cfg, states, steps, i) {
    }
    assert s4.threads == BothAdded.threads;
  }

  lemma SecondParks(cfg: Config) returns (states: seq<State>, steps: seq<Step>)
    requires cfg == Config(10, 0)
    ensures IsPath(cfg, states, steps) && states[0] == BothAdded && states[|states| - 1] == Meeting && |steps| > 0
  {
    var s0 := BothAdded;
    var s1 := Apply(cfg, s0, AddBytes(1));
    var s2 := Apply(cfg, s1, UndoRecords(1));
    var s3 := Apply(cfg, s2, UndoBytes(1));
    var s4 := Apply(cfg, s3, CheckFailure(1));
    states := [s0, s1, s2, s3, s4];
    steps := [AddBytes(1), UndoRecords(1), UndoBytes(1), CheckFailure(1)];
    forall i | 0 <= i < |steps| ensures Taken(cfg, states, steps, i) {
    }
    assert s4.threads == Meeting.threads;
  }

  lemma GivenBackInSilence(cfg: Config) returns (states: seq<State>, steps: seq<Step>)
    requires cfg == Config(10, 0)
    ensures IsPath(cfg, states, steps) && states[0] == Meeting && |steps| > 0
    ensures states[|states| - 1] == State(5, 5, 0, false,
              [Parked(Write(6, 6, 0, true, false, true)), Parked(Write(5, 5, 0, true, false, true))])
  {
    var s0 := Meeting;
    var s1 := Apply(cfg, s0, AddBytes(0));
    var s2 := Apply(cfg, s1, UndoRecords(0));
    var s3 := Apply(cfg, s2, UndoBytes(0));
    var s4 := Apply(cfg, s3, CheckFailure(0));
    states := [s0, s1, s2, s3, s4];
    steps := [AddBytes(0), UndoRecords(0), UndoBytes(0), CheckFailure(0)];
    forall i | 0 <= i < |steps| ensures Taken(cfg, states, steps, i) {
    }
    assert s4.threads == [Parked(Write(6, 6, 0, true, false, true)), Parked(Write(5, 5, 0, true, false, true))];
  }

  lemma PathJoin(cfg: Config, a: seq<State>, x: seq<Step>, b: seq<State>, y: seq<Step>)
    requires IsPath(cfg, a, x) && IsPath(cfg, b, y) && a[|a| - 1] == b[0]
    ensures IsPath(cfg, a + b[1..], x + y)
  {
    hide Enabled, Apply;
    var states, steps := a + b[1..], x + y;
    forall i | 0 <= i < |steps| ensures Taken(cfg, states, steps, i) {
      if i < |x| {
        assert Taken(cfg, a, x, i);
      } else {
        assert Taken(cfg, b, y, i - |x|);
        assert states[i] == b[i - |x|];
      }
    }
  }
}
