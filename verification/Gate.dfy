/** gate (internal_support.go) with waiters for a level that only rises: Flush waits for
    the low-water mark, awaitRetry for the floor. A channel is named by the generation
    it belongs to; it is closed once the gate has moved on. */
module Gate {

  /** `flush` tells a Flush, which asks whether the buffer has failed, from an awaitRetry,
      which does not. */
  datatype Waiter =
    | Away
    | Told                                         // returned with the buffer's failure
    | Took(target: nat, ch: nat, flush: bool)      // has taken the channel, has not looked yet
    | Parked(target: nat, ch: nat, flush: bool)    // looked, saw too little, waits on the channel

  /** Whether a goroutine has raised the level and not yet signalled. */
  datatype Raiser = Quiet | Owes

  datatype State = State(gen: nat, level: nat, failed: bool, waiters: seq<Waiter>, raisers: seq<Raiser>)

  datatype Step =
    | Arrive(i: nat, target: nat, flush: bool)
    | Look(i: nat)
    | Wake(i: nat)
    | Leave(i: nat)                    // context done, or the retry timer
    | Raise(j: nat, to: nat)           // ack moves the mark; the CAS moves the floor
    | Signal(j: nat)
    | Fail                             // signals another gate

  function Initial(waiters: nat, raisers: nat): State {
    State(0, 0, false, seq(waiters, _ => Away), seq(raisers, _ => Quiet))
  }

  predicate Enabled(s: State, step: Step) {
    match step
    case Arrive(i, _, _) => i < |s.waiters| && (s.waiters[i].Away? || s.waiters[i].Told?)
    case Look(i) => i < |s.waiters| && s.waiters[i].Took?
    case Wake(i) => i < |s.waiters| && s.waiters[i].Parked? && s.waiters[i].ch < s.gen
    case Leave(i) => i < |s.waiters| && s.waiters[i].Parked?
    case Raise(j, _) => j < |s.raisers| && s.raisers[j].Quiet?
    case Signal(j) => j < |s.raisers| && s.raisers[j].Owes?
    case Fail => true
  }

  /** Flush returns the buffer's error whether or not the mark has arrived. */
  function Looked(s: State, w: Waiter): Waiter
    requires w.Took?
  {
    if w.flush && s.failed then Told
    else if s.level >= w.target then Away
    else Parked(w.target, w.ch, w.flush)
  }

  function Apply(s: State, step: Step): State
    requires Enabled(s, step)
  {
    match step
    case Arrive(i, target, flush) => s.(waiters := s.waiters[i := Took(target, s.gen, flush)])
    case Look(i) => s.(waiters := s.waiters[i := Looked(s, s.waiters[i])])
    case Wake(i) => s.(waiters := s.waiters[i := Took(s.waiters[i].target, s.gen, s.waiters[i].flush)])
    case Leave(i) => s.(waiters := s.waiters[i := Away])
    case Raise(j, to) => s.(level := if to > s.level then to else s.level, raisers := s.raisers[j := Owes])
    case Signal(j) => s.(gen := s.gen + 1, raisers := s.raisers[j := Quiet])
    case Fail => s.(failed := true)
  }

  ghost predicate SomeoneOwes(s: State) {
    exists j :: 0 <= j < |s.raisers| && s.raisers[j].Owes?
  }

  /** A waiter parked on an open channel has nothing to find, or a signal is due. */
  ghost predicate NotForgotten(s: State, w: Waiter) {
    && (w.Took? || w.Parked? ==> w.ch <= s.gen)
    && (w.Parked? && s.level >= w.target ==> w.ch < s.gen || SomeoneOwes(s))
  }

  ghost predicate Fair(s: State) {
    forall i :: 0 <= i < |s.waiters| ==> NotForgotten(s, s.waiters[i])
  }

  lemma FairStep(s: State, step: Step)
    requires Fair(s) && Enabled(s, step)
    ensures Fair(Apply(s, step))
  {
    var s' := Apply(s, step);
    if SomeoneOwes(s) && !step.Signal? {
      var j :| 0 <= j < |s.raisers| && s.raisers[j].Owes?;
      assert s'.raisers[j].Owes?;
    }
    if step.Raise? {
      assert s'.raisers[step.j].Owes?;
    }
    forall i | 0 <= i < |s'.waiters| ensures NotForgotten(s', s'.waiters[i]) {
      assert NotForgotten(s, s.waiters[i]);
    }
  }

  ghost predicate Taken(states: seq<State>, steps: seq<Step>, i: nat)
    requires |states| == |steps| + 1 && i < |steps|
  {
    Enabled(states[i], steps[i]) && states[i + 1] == Apply(states[i], steps[i])
  }

  ghost predicate IsRun(states: seq<State>, steps: seq<Step>, waiters: nat, raisers: nat) {
    && |states| == |steps| + 1 && states[0] == Initial(waiters, raisers)
    && forall i :: 0 <= i < |steps| ==> Taken(states, steps, i)
  }

  /** No lost wake-up for a rising level: in every interleaving, a waiter that is parked
      although the level has reached its target holds a closed channel, or somebody who
      raised the level is about to signal. */
  lemma {:induction false} NoLostWakeup(states: seq<State>, steps: seq<Step>, waiters: nat, raisers: nat, k: nat)
    requires IsRun(states, steps, waiters, raisers) && k < |states|
    ensures Fair(states[k])
    ensures forall i :: 0 <= i < |states[k].waiters| ==>
              var w := states[k].waiters[i];
              w.Parked? && states[k].level >= w.target ==> w.ch < states[k].gen || SomeoneOwes(states[k])
  {
    hide Enabled, Apply, SomeoneOwes;
    if k > 0 {
      NoLostWakeup(states, steps, waiters, raisers, k - 1);
      assert Taken(states, steps, k - 1);
      FairStep(states[k - 1], steps[k - 1]);
    }
    forall i | 0 <= i < |states[k].waiters|
      ensures var w := states[k].waiters[i];
              w.Parked? && states[k].level >= w.target ==> w.ch < states[k].gen || SomeoneOwes(states[k])
    {
      assert NotForgotten(states[k], states[k].waiters[i]);
    }
  }

  /** Failure does not have that guarantee: fail signals the capacity gate only, so a
      Flush that was parked before stays parked on an open channel. */
  lemma FailureForgetsFlush() returns (states: seq<State>, steps: seq<Step>)
    ensures IsRun(states, steps, 1, 1)
    ensures var s := states[|states| - 1];
            && s.failed && |s.waiters| == 1 && s.waiters[0].Parked? && s.waiters[0].flush
            && s.waiters[0].ch == s.gen && !SomeoneOwes(s)
  {
    var s0 := Initial(1, 1);
    var s1 := Apply(s0, Arrive(0, 1, true));
    var s2 := Apply(s1, Look(0));
    var s3 := Apply(s2, Fail);
    states, steps := [s0, s1, s2, s3], [Arrive(0, 1, true), Look(0), Fail];
    assert forall i :: 0 <= i < |steps| ==> Taken(states, steps, i) by {
      assert Taken(states, steps, 0) && Taken(states, steps, 1) && Taken(states, steps, 2);
    }
  }

  ghost predicate NoSignal(steps: seq<Step>, a: nat, b: nat, i: nat) {
    b <= |steps| && forall k :: a <= k < b ==> !steps[k].Signal? && steps[k] != Leave(i)
  }

  /** How long it stays so: in every run, a waiter parked on the open channel is parked on it,
      and the channel open, until some raiser signals or it leaves on its own, whatever fails
      meanwhile. */
  lemma {:induction false} ParkedUntilSignal(states: seq<State>, steps: seq<Step>, waiters: nat, raisers: nat, a: nat, b: nat, i: nat)
    requires IsRun(states, steps, waiters, raisers) && a <= b < |states| && NoSignal(steps, a, b, i)
    requires i < |states[a].waiters| && states[a].waiters[i].Parked? && states[a].waiters[i].ch == states[a].gen
    ensures i < |states[b].waiters| && states[b].waiters[i] == states[a].waiters[i] && states[b].gen == states[a].gen
    decreases b - a
  {
    if a < b {
      ParkedUntilSignal(states, steps, waiters, raisers, a, b - 1, i);
      assert Taken(states, steps, b - 1);
      assert !steps[b - 1].Signal? && steps[b - 1] != Leave(i);
      ParkedStays(states[b - 1], steps[b - 1], i);
    }
  }

  lemma ParkedStays(s: State, step: Step, i: nat)
    requires Enabled(s, step) && !step.Signal? && step != Leave(i)
    requires i < |s.waiters| && s.waiters[i].Parked? && s.waiters[i].ch == s.gen
    ensures Apply(s, step).gen == s.gen && |Apply(s, step).waiters| == |s.waiters| && Apply(s, step).waiters[i] == s.waiters[i]
  {
  }

  /** Exactly who learns of a failure: a Flush does, at the moment it looks, if and only if the
      buffer has failed by then. */
  lemma ToldIffLooked(states: seq<State>, steps: seq<Step>, waiters: nat, raisers: nat, k: nat, i: nat)
    requires IsRun(states, steps, waiters, raisers) && k < |steps| && i < |states[k].waiters| && !states[k].waiters[i].Told?
    ensures i < |states[k + 1].waiters|
    ensures states[k + 1].waiters[i].Told? <==> steps[k] == Look(i) && states[k].waiters[i].Took? && states[k].waiters[i].flush && states[k].failed
  {
    assert Taken(states, steps, k);
  }

  /** ... so one parked when the buffer fails learns of it with the next signal. */
  lemma SignalTells(s: State, i: nat, j: nat)
    requires s.failed && i < |s.waiters| && s.waiters[i].Parked? && s.waiters[i].flush && s.waiters[i].ch <= s.gen
    requires Enabled(s, Signal(j))
    ensures var s1 := Apply(s, Signal(j));
            && Enabled(s1, Wake(i))
            && var s2 := Apply(s1, Wake(i));
               Enabled(s2, Look(i)) && Apply(s2, Look(i)).waiters[i].Told?
  {
  }
}
