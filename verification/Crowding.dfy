/** When a parked write can be forgotten (admit, batch.go): exactly when there is a limit and
    two writes can be at the gate at once. */
module Crowding {
  import opened Admission

  /** The write is parked although it would fit, its channel is open and nobody who gave
      capacity back is on the way to signal. */
  ghost predicate Forgotten(cfg: Config, s: State, i: int) {
    && 0 <= i < |s.threads| && s.threads[i].Parked?
    && Room(cfg, s, s.threads[i].w) && s.threads[i].w.ch == s.gen && !SpaceDue(s)
  }

  function AtTheGate(s: State): set<int> {
    set i | 0 <= i < |s.threads| && AtGate(s.threads[i])
  }

  /** A run in which never more than `most` writes are at the gate. */
  ghost predicate Crowd(cfg: Config, states: seq<State>, steps: seq<Step>, most: nat) {
    IsRun(cfg, states, steps) && forall k :: 0 <= k < |states| ==> |AtTheGate(states[k])| <= most
  }

  /** Some run with at most so many writes at the gate forgets one. */
  ghost predicate CanForget(cfg: Config, most: nat) {
    exists states, steps, k, i :: Crowd(cfg, states, steps, most) && 0 <= k < |states| && Forgotten(cfg, states[k], i)
  }

  // ---- a write that is alone is not forgotten -----------------------------------------

  ghost predicate Undisturbed(s: State) {
    forall i :: 0 <= i < |s.threads| && AtGate(s.threads[i]) ==> !s.threads[i].w.disturbed
  }

  lemma AloneAtGate(s: State, i: int, j: int)
    requires |AtTheGate(s)| <= 1 && i in AtTheGate(s) && j in AtTheGate(s)
    ensures i == j
  {
    var others := AtTheGate(s) - {i};
    assert |others| == |AtTheGate(s)| - 1;
    assert others == {};
  }

  lemma UndisturbedStep(cfg: Config, s: State, step: Step)
    requires |AtTheGate(s)| <= 1 && Undisturbed(s) && Enabled(s, step)
    ensures Undisturbed(Apply(cfg, s, step))
  {
    var s' := Apply(cfg, s, step);
    forall j | 0 <= j < |s'.threads| && AtGate(s'.threads[j]) ensures !s'.threads[j].w.disturbed {
      if j != step.i && (step.UndoRecords? || step.UndoBytes?) && AtGate(s.threads[j]) {
        AloneAtGate(s, step.i, j);
      }
    }
  }

  lemma {:induction false} RunUndisturbed(cfg: Config, states: seq<State>, steps: seq<Step>, k: nat)
    requires Crowd(cfg, states, steps, 1) && k < |states|
    ensures Undisturbed(states[k])
  {
    hide Enabled, Apply, AtTheGate;
    if k > 0 {
      RunUndisturbed(cfg, states, steps, k - 1);
      assert Taken(cfg, states, steps, k - 1);
      UndisturbedStep(cfg, states[k - 1], steps[k - 1]);
    }
  }

  // ---- without a limit nobody waits ------------------------------------------------------

  ghost predicate Unrefused(t: Thread) {
    !t.Refused? && !t.Undoing? && !t.Turned? && !t.Parked? && (t.AddedRecords? ==> !t.w.overRecords)
  }

  lemma {:induction false} NobodyWaits(cfg: Config, states: seq<State>, steps: seq<Step>, k: nat)
    requires cfg == Config(0, 0) && IsRun(cfg, states, steps) && k < |states|
    ensures forall i :: 0 <= i < |states[k].threads| ==> Unrefused(states[k].threads[i])
  {
    if k > 0 {
      NobodyWaits(cfg, states, steps, k - 1);
      assert Taken(cfg, states, steps, k - 1);
    }
  }

  lemma NobodyParked(cfg: Config, states: seq<State>, steps: seq<Step>, k: nat, i: nat)
    requires cfg == Config(0, 0) && IsRun(cfg, states, steps) && k < |states| && i < |states[k].threads|
    ensures !states[k].threads[i].Parked?
  {
    hide IsRun;
    NobodyWaits(cfg, states, steps, k);
    assert Unrefused(states[k].threads[i]);
  }

  // ---- two writes and a limit ---------------------------------------------------------

  /** A write of one record where records are limited, and of one byte otherwise. */
  function One(cfg: Config, ch: nat, over: bool, disturbed: bool): Write {
    if cfg.maxRecords > 0 then Write(1, 0, ch, over, false, disturbed) else Write(0, 1, ch, false, over, disturbed)
  }

  /** The limited counter at `extra` above its limit. */
  function At(cfg: Config, extra: int, gen: nat, ts: seq<Thread>): State {
    if cfg.maxRecords > 0 then State(cfg.maxRecords + extra, 0, gen, false, ts)
    else State(0, cfg.maxBytes + extra, gen, false, ts)
  }

  /** Two writers, and a third goroutine that stays away from the gate. */
  ghost predicate Three(states: seq<State>) {
    forall k :: 0 <= k < |states| ==> |states[k].threads| == 3 && !AtGate(states[k].threads[2])
  }

  predicate Limited(cfg: Config) {
    cfg.maxRecords > 0 || cfg.maxBytes > 0
  }

  /** The path of the given steps, three at a time. */
  lemma Steps3(cfg: Config, s0: State, a: Step, s1: State, b: Step, s2: State, c: Step, s3: State)
    requires Enabled(s0, a) && s1 == Apply(cfg, s0, a) && Enabled(s1, b) && s2 == Apply(cfg, s1, b)
    requires Enabled(s2, c) && s3 == Apply(cfg, s2, c)
    ensures IsPath(cfg, [s0, s1, s2, s3], [a, b, c])
  {
    hide Enabled, Apply;
    var states, steps := [s0, s1, s2, s3], [a, b, c];
    forall i | 0 <= i < |steps| ensures Taken(cfg, states, steps, i) {
    }
  }

  /** A write of one comes to the full buffer and is refused. */
  lemma Refuses(cfg: Config, i: nat, gen: nat, ts: seq<Thread>) returns (states: seq<State>, steps: seq<Step>)
    requires Limited(cfg) && i < 2 && |ts| == 3 && ts[i].Idle? && !AtGate(ts[2])
    ensures |states| > 1 && IsPath(cfg, states, steps) && Three(states)
    ensures states[0] == At(cfg, 0, gen, ts)
    ensures states[|states| - 1] == At(cfg, 1, gen, ts[i := Refused(One(cfg, gen, true, false))])
  {
    var w := One(cfg, gen, false, false);
    var s0 := At(cfg, 0, gen, ts);
    var s1 := Apply(cfg, s0, TakeGate(i, w.n, w.size));
    var s2 := Apply(cfg, s1, AddRecords(i));
    var s3 := Apply(cfg, s2, AddBytes(i));
    assert s3.threads == ts[i := Refused(One(cfg, gen, true, false))];
    Steps3(cfg, s0, TakeGate(i, w.n, w.size), s1, AddRecords(i), s2, AddBytes(i), s3);
    states, steps := [s0, s1, s2, s3], [TakeGate(i, w.n, w.size), AddRecords(i), AddBytes(i)];
  }

  /** One unit is released and signalled. */
  lemma Releases(cfg: Config) returns (states: seq<State>, steps: seq<Step>)
    requires Limited(cfg)
    ensures |states| > 1 && IsPath(cfg, states, steps) && Three(states)
    ensures var w := One(cfg, 0, true, false);
            states[0] == At(cfg, 1, 0, [Refused(w), Idle, Admitted(w.n, w.size)])
    ensures states[|states| - 1] == At(cfg, 0, 1, [Refused(One(cfg, 0, true, false)), Idle, Idle])
  {
    var w := One(cfg, 0, true, false);
    var s0 := At(cfg, 1, 0, [Refused(w), Idle, Admitted(w.n, w.size)]);
    var s1 := Apply(cfg, s0, ReleaseRecords(2));
    var s2 := Apply(cfg, s1, ReleaseBytes(2));
    var s3 := Apply(cfg, s2, Signal(2));
    assert s3.threads == [Refused(w), Idle, Idle];
    Steps3(cfg, s0, ReleaseRecords(2), s1, ReleaseBytes(2), s2, Signal(2), s3);
    states, steps := [s0, s1, s2, s3], [ReleaseRecords(2), ReleaseBytes(2), Signal(2)];
  }

  /** The second write, refused because of the first one's claim, parks. */
  lemma SecondGivesWay(cfg: Config) returns (states: seq<State>, steps: seq<Step>)
    requires Limited(cfg)
    ensures |states| > 1 && IsPath(cfg, states, steps) && Three(states)
    ensures states[0] == At(cfg, 1, 1, [Refused(One(cfg, 0, true, false)), Refused(One(cfg, 1, true, false)), Idle])
    ensures states[|states| - 1] == At(cfg, 0, 1, [Refused(One(cfg, 0, true, true)), Parked(One(cfg, 1, true, false)), Idle])
  {
    var s0 := At(cfg, 1, 1, [Refused(One(cfg, 0, true, false)), Refused(One(cfg, 1, true, false)), Idle]);
    var s1 := Apply(cfg, s0, UndoRecords(1));
    var s2 := Apply(cfg, s1, UndoBytes(1));
    var s3 := Apply(cfg, s2, CheckFailure(1));
    assert s3.threads == [Refused(One(cfg, 0, true, true)), Parked(One(cfg, 1, true, false)), Idle];
    Steps3(cfg, s0, UndoRecords(1), s1, UndoBytes(1), s2, CheckFailure(1), s3);
    states, steps := [s0, s1, s2, s3], [UndoRecords(1), UndoBytes(1), CheckFailure(1)];
  }

  /** The first write's claim is given back in silence. */
  lemma FirstGivesBack(cfg: Config) returns (states: seq<State>, steps: seq<Step>)
    requires Limited(cfg)
    ensures |states| > 1 && IsPath(cfg, states, steps) && Three(states)
    ensures states[0] == At(cfg, 0, 1, [Refused(One(cfg, 0, true, true)), Parked(One(cfg, 1, true, false)), Idle])
    ensures states[|states| - 1] == At(cfg, -1, 1, [Turned(One(cfg, 0, true, true)), Parked(One(cfg, 1, true, true)), Idle])
  {
    var s0 := At(cfg, 0, 1, [Refused(One(cfg, 0, true, true)), Parked(One(cfg, 1, true, false)), Idle]);
    var s1 := Apply(cfg, s0, UndoRecords(0));
    var s2 := Apply(cfg, s1, UndoBytes(0));
    assert s2.threads == [Turned(One(cfg, 0, true, true)), Parked(One(cfg, 1, true, true)), Idle];
    states, steps := [s0, s1, s2], [UndoRecords(0), UndoBytes(0)];
    forall i | 0 <= i < |steps| ensures Taken(cfg, states, steps, i) {
    }
  }

  lemma LimitForgets(cfg: Config, most: nat)
    requires Limited(cfg) && most >= 2
    ensures CanForget(cfg, most)
  {
    hide IsPath, Three;
    var w := One(cfg, 0, true, false);
    var a, x := Refuses(cfg, 0, 0, [Idle, Idle, Admitted(w.n, w.size)]);
    var b, y := Releases(cfg);
    a, x := JoinThree(cfg, a, x, b, y);
    b, y := Refuses(cfg, 1, 1, [Refused(w), Idle, Idle]);
    a, x := JoinThree(cfg, a, x, b, y);
    b, y := SecondGivesWay(cfg);
    a, x := JoinThree(cfg, a, x, b, y);
    b, y := FirstGivesBack(cfg);
    a, x := JoinThree(cfg, a, x, b, y);
    forall k | 0 <= k < |a| ensures |AtTheGate(a[k])| <= most {
      AtMostTwo(a, k);
    }
    assert Crowd(cfg, a, x, most);
    assert Forgotten(cfg, a[|a| - 1], 1);
  }

  lemma JoinThree(cfg: Config, a: seq<State>, x: seq<Step>, b: seq<State>, y: seq<Step>) returns (c: seq<State>, z: seq<Step>)
    requires |a| > 1 && |b| > 1 && IsPath(cfg, a, x) && IsPath(cfg, b, y) && a[|a| - 1] == b[0] && Three(a) && Three(b)
    ensures |c| > 1 && IsPath(cfg, c, z) && Three(c) && c[0] == a[0] && c[|c| - 1] == b[|b| - 1]
  {
    hide IsPath;
    PathJoin(cfg, a, x, b, y);
    c, z := a + b[1..], x + y;
  }

  lemma AtMostTwo(states: seq<State>, k: nat)
    requires Three(states) && k < |states|
    ensures |AtTheGate(states[k])| <= 2
  {
    var s := states[k];
    var rest := {0, 1} - AtTheGate(s);
    assert AtTheGate(s) + rest == {0, 1};
  }

  // ---- the exact condition ------------------------------------------------------------

  /** A parked write that would fit can be left with an open channel and no signal on the way
      if and only if there is a limit and two writes may be at the gate at once. */
  lemma ForgetsIff(cfg: Config, most: nat)
    ensures CanForget(cfg, most) <==> Limited(cfg) && most >= 2
  {
    hide Crowd, Forgotten;
    if Limited(cfg) && most >= 2 {
      LimitForgets(cfg, most);
    }
    if CanForget(cfg, most) {
      var states, steps, k, i :| Crowd(cfg, states, steps, most) && 0 <= k < |states| && Forgotten(cfg, states[k], i);
      NotForgottenAlone(cfg, states, steps, most, k, i);
    }
  }

  lemma NotForgottenAlone(cfg: Config, states: seq<State>, steps: seq<Step>, most: nat, k: nat, i: int)
    requires Crowd(cfg, states, steps, most) && k < |states| && Forgotten(cfg, states[k], i)
    ensures Limited(cfg) && most >= 2
  {
    hide IsPath, Opened, AtTheGate, SpaceDue;
    if cfg == Config(0, 0) {
      NobodyParked(cfg, states, steps, k, i);
    } else if most <= 1 {
      RunUndisturbed(cfg, states, steps, k);
      WakeupOrDisturbed(cfg, states, steps, k, i);
    }
  }
}
