/** The flusher and any number of deliveries at once (flush.go): every step is one atomic
    operation or one call of one goroutine, so all interleavings of reading, dropping,
    dispatching, delivering, dead-lettering, completing, failing and closing are runs. */
module Outcomes {
  import opened Sinks

  /** Zero attempts mean no bound. */
  datatype Config = Config(maxAttempts: nat, dlqAttempts: nat, hasDlq: bool)

  /** Where deliver or deadLetter stands. */
  datatype Pc =
    | Check                                // at the top of the loop
    | Calling                              // the sink has been called
    | Answered(answer: Answer)
    | Judged(answer: Answer, action: Action)
    | Waiting                              // awaitRetry
    | Counting(fate: Fate)                 // about to add to the fate's counter
    | Completing(fate: Fate)               // about to complete the range
    | Finished(fate: Fate)
    | Kept                                 // returned without disposing of the batch

  /** A dispatched batch: its first number, its records, what was dropped in its range.
      `completions`, `cancelSeen`, `said` (the answers of the sink it is with) and `verdict`
      (that sink's last refusal was final) are history. */
  datatype Delivery = Delivery(
    id: nat, count: nat, skip: nat, inDlq: bool, attempt: nat, pc: Pc, completions: nat, cancelSeen: bool,
    said: seq<Answer>, verdict: bool)

  /** The shared counters and flags; the flusher's batch being filled (`holding` records read
      for delivery, `skips` dropped in its range); the deliveries. `decided` counts records
      read, `drops` those the flusher dropped, `acked` what completions covered. */
  datatype State = State(
    floor: nat, abort: bool, cancelled: bool, failed: bool,
    flushed: nat, deadLettered: nat, dropped: nat, acked: nat,
    decided: nat, drops: nat, holding: nat, skips: nat, deliveries: seq<Delivery>)

  const Initial := State(0, false, false, false, 0, 0, 0, 0, 0, 0, 0, 0, [])

  datatype Step =
    | ReadDrop                             // below the floor, or undecodable
    | ReadKeep
    | Dispatch(count: nat, id: nat)
    | CompleteSkips                        // a range with nothing to deliver
    | RaiseFloor(to: nat)
    | FailElsewhere
    | CloseAbort                           // close(b.abort) ...
    | CloseCancel                          // ... then b.deliverCancel()
    | SeeFloor(i: nat)
    | Return(i: nat, answer: Answer)
    | Classify(i: nat, action: Action)
    | Act(i: nat)
    | EndWait(i: nat, aborts: bool)
    | Count(i: nat)
    | Complete(i: nat)

  predicate Enabled(s: State, step: Step) {
    match step
    case ReadDrop => true
    case ReadKeep => true
    case Dispatch(count, _) => 0 < count <= s.holding
    case CompleteSkips => s.holding == 0 && s.skips > 0
    case RaiseFloor(to) => to >= s.floor
    case FailElsewhere => true
    case CloseAbort => true
    case CloseCancel => s.abort
    case _ => step.i < |s.deliveries| && Ready(s.deliveries[step.i], step, s.abort, s.cancelled)
  }

  /** The delivery is where the step starts from. */
  predicate Ready(d: Delivery, step: Step, abort: bool, cancelled: bool) {
    match step
    case SeeFloor(_) => d.pc.Check?
    case Return(_, answer) => d.pc.Calling? && (answer.CancelError? ==> cancelled)
    case Classify(_, _) => d.pc.Answered?
    case Act(_) => d.pc.Judged?
    case EndWait(_, aborts) => d.pc.Waiting? && (aborts ==> abort)
    case Count(_) => d.pc.Counting?
    case Complete(_) => d.pc.Completing?
    case _ => false
  }

  /** Handing a batch to the dead-letter sink, or dropping it where there is none. */
  function Bury(cfg: Config, d: Delivery): Delivery {
    if d.inDlq || !cfg.hasDlq then d.(pc := Counting(Dropped))
    else d.(inDlq := true, attempt := 0, pc := Check, said := [], verdict := false)
  }

  function Bound(cfg: Config, d: Delivery): nat {
    if d.inDlq then cfg.dlqAttempts else cfg.maxAttempts
  }

  predicate Exhausted(cfg: Config, d: Delivery) {
    Bound(cfg, d) > 0 && d.attempt >= Bound(cfg, d)
  }

  /** What is done about an answer, given whether the buffer is aborting now. */
  function Reaction(cfg: Config, d: Delivery, abort: bool): Delivery
    requires d.pc.Judged?
  {
    if d.pc.answer.Ok? then d.(pc := Counting(if d.inDlq then DeadLettered else Flushed))
    else if abort then d.(pc := Kept)
    else match d.pc.action
      case FailBuffer => d.(pc := Kept)
      case HandlerPanics => d.(pc := Kept)
      case DeadLetterBatch => Bury(cfg, d.(verdict := true))
      case RetryBatch => if Exhausted(cfg, d) then Bury(cfg, d) else d.(pc := Waiting)
  }

  /** What a handler's action comes to: it is not asked while aborting, nor about a yes. */
  function Asked(abort: bool, answer: Answer, action: Action): Action {
    if abort || answer.Ok? then RetryBatch else action
  }

  /** Where a step takes its delivery. */
  function Moved(cfg: Config, floor: nat, abort: bool, cancelled: bool, d: Delivery, step: Step): Delivery
    requires Ready(d, step, abort, cancelled)
  {
    match step
    case SeeFloor(_) =>
      if d.id < floor then d.(pc := Counting(Dropped)) else d.(pc := Calling, attempt := d.attempt + 1)
    case Return(_, answer) =>
      d.(pc := if answer.Panic? then Kept else Answered(answer), said := d.said + [answer],
         cancelSeen := d.cancelSeen || answer.CancelError?)
    case Classify(_, action) => d.(pc := Judged(d.pc.answer, Asked(abort, d.pc.answer, action)))
    case Act(_) => Reaction(cfg, d, abort)
    case EndWait(_, aborts) => d.(pc := if aborts then Kept else Check)
    case Count(_) => d.(pc := Completing(d.pc.fate))
    case Complete(_) => d.(pc := Finished(d.pc.fate), completions := d.completions + 1)
  }

  /** Whether a step of a delivery fails the buffer. */
  predicate Fails(d: Delivery, step: Step, abort: bool) {
    match step
    case Return(_, answer) => answer.Panic?
    case Classify(_, action) => d.pc.Answered? && Asked(abort, d.pc.answer, action).HandlerPanics?
    case Act(_) =>
      d.pc.Judged? && !d.pc.answer.Ok? && !abort && (d.pc.action.FailBuffer? || d.pc.action.HandlerPanics?)
    case _ => false
  }

  function Apply(cfg: Config, s: State, step: Step): State
    requires Enabled(s, step)
  {
    match step
    case ReadDrop => s.(dropped := s.dropped + 1, drops := s.drops + 1, decided := s.decided + 1, skips := s.skips + 1)
    case ReadKeep => s.(decided := s.decided + 1, holding := s.holding + 1)
    case Dispatch(count, id) =>
      s.(holding := s.holding - count, skips := 0,
         deliveries := s.deliveries + [Delivery(id, count, s.skips, false, 0, Check, 0, false, [], false)])
    case CompleteSkips => s.(acked := s.acked + s.skips, skips := 0)
    case RaiseFloor(to) => s.(floor := to)
    case FailElsewhere => s.(failed := true)
    case CloseAbort => s.(abort := true)
    case CloseCancel => s.(cancelled := true)
    case _ =>
      var d := s.deliveries[step.i];
      Tallied(s.(deliveries := s.deliveries[step.i := Moved(cfg, s.floor, s.abort, s.cancelled, d, step)],
                 failed := s.failed || Fails(d, step, s.abort)), d, step)
  }

  /** The shared counters after a step of a delivery. */
  function Tallied(s: State, d: Delivery, step: Step): (r: State)
    ensures r == s.(flushed := r.flushed, deadLettered := r.deadLettered, dropped := r.dropped, acked := r.acked)
    ensures r.acked == s.acked + (if step.Complete? then d.count + d.skip else 0)
  {
    if step.Complete? then s.(acked := s.acked + d.count + d.skip)
    else if step.Count? && d.pc.Counting? then
      (match d.pc.fate
       case Flushed => s.(flushed := s.flushed + d.count)
       case DeadLettered => s.(deadLettered := s.deadLettered + d.count)
       case Dropped => s.(dropped := s.dropped + d.count))
    else s
  }

  // ---- what each delivery accounts for ------------------------------------------

  datatype Kind = All | Uncounted | As(fate: Fate) | Uncompleted

  predicate CountedAs(pc: Pc, fate: Fate) {
    (pc.Completing? || pc.Finished?) && pc.fate == fate
  }

  predicate IsCounted(pc: Pc) {
    pc.Completing? || pc.Finished?
  }

  function Share(d: Delivery, kind: Kind): nat {
    match kind
    case All => d.count
    case Uncounted => if IsCounted(d.pc) then 0 else d.count
    case As(fate) => if CountedAs(d.pc, fate) then d.count else 0
    case Uncompleted => if d.pc.Finished? then 0 else d.count + d.skip
  }

  function Sum(ds: seq<Delivery>, kind: Kind): nat {
    if ds == [] then 0 else Sum(ds[..|ds| - 1], kind) + Share(ds[|ds| - 1], kind)
  }

  /** Records read and neither counted nor dropped: still with the flusher or a delivery. */
  function Unacknowledged(s: State): nat {
    s.holding + Sum(s.deliveries, Uncounted)
  }

  ghost predicate Balanced(s: State) {
    && s.flushed == Sum(s.deliveries, As(Flushed))
    && s.deadLettered == Sum(s.deliveries, As(DeadLettered))
    && s.dropped == s.drops + Sum(s.deliveries, As(Dropped))
    && s.decided == s.drops + s.holding + Sum(s.deliveries, All)
    && s.decided == s.acked + s.skips + s.holding + Sum(s.deliveries, Uncompleted)
  }

  /** One delivery in view of the flags: completed once exactly if it has finished; kept only
      in a failed or aborting buffer; past a cancellation error only on its way to be kept. */
  ghost predicate Proper(s: State, d: Delivery) {
    && d.completions == (if d.pc.Finished? then 1 else 0)
    && (d.pc.Kept? ==> s.failed || s.abort)
    && (d.cancelSeen ==>
          && s.abort
          && (|| d.pc == Answered(CancelError) || d.pc == Judged(CancelError, RetryBatch) || d.pc == Kept))
    && (d.pc.Answered? && d.pc.answer.CancelError? ==> d.cancelSeen)
    && (d.pc.Judged? && d.pc.answer.CancelError? ==> d.cancelSeen)
  }

  predicate Disposed(pc: Pc) {
    pc.Counting? || pc.Completing? || pc.Finished?
  }

  predicate Last(said: seq<Answer>, answer: Answer) {
    said != [] && said[|said| - 1] == answer
  }

  /** What a delivery has heard, and why it stands where it stands: every answer but the
      last was an error, attempts are counted and bounded, a fate says what the sink said, and
      a batch is dropped only below the floor or when nobody is left to take it. */
  ghost predicate Told(cfg: Config, s: State, d: Delivery) {
    && d.attempt == |d.said| + (if d.pc.Calling? then 1 else 0)
    && (Bound(cfg, d) > 0 ==> d.attempt <= Bound(cfg, d) && (d.pc.Check? || d.pc.Waiting? ==> d.attempt < Bound(cfg, d)))
    && (forall i :: 0 <= i < |d.said| ==> d.said[i].Error? || (i == |d.said| - 1 && !d.pc.Check? && !d.pc.Calling? && !d.pc.Waiting?))
    && (d.inDlq ==> cfg.hasDlq)
    && (d.pc.Answered? || d.pc.Judged? ==> Last(d.said, d.pc.answer) && !d.pc.answer.Panic? && !d.verdict)
    && (d.pc.Check? || d.pc.Calling? || d.pc.Waiting? ==> !d.verdict)
    && (d.pc.Waiting? ==> Last(d.said, Error))
    && (d.pc.Kept? ==> d.said != [] && !Last(d.said, Ok))
    && (Disposed(d.pc) ==> TrueFate(cfg, s, d))
  }

  ghost predicate TrueFate(cfg: Config, s: State, d: Delivery)
    requires Disposed(d.pc)
  {
    && (d.pc.fate.Flushed? <==> Last(d.said, Ok) && !d.inDlq)
    && (d.pc.fate.DeadLettered? <==> Last(d.said, Ok) && d.inDlq)
    && (d.pc.fate.Dropped? ==>
          || d.id < s.floor
          || (&& (d.inDlq || !cfg.hasDlq) && Last(d.said, Error)
              && (d.verdict || 0 < Bound(cfg, d) == |d.said|)))
  }

  ghost predicate AllTold(cfg: Config, s: State) {
    forall i :: 0 <= i < |s.deliveries| ==> Told(cfg, s, s.deliveries[i])
  }

  ghost predicate AllProper(s: State) {
    (s.cancelled ==> s.abort) && forall i :: 0 <= i < |s.deliveries| ==> Proper(s, s.deliveries[i])
  }

  // ---- proofs ---------------------------------------------------------------------

  lemma {:induction false} SumUpdate(ds: seq<Delivery>, i: nat, d: Delivery, kind: Kind)
    requires i < |ds|
    ensures Sum(ds[i := d], kind) == Sum(ds, kind) - Share(ds[i], kind) + Share(d, kind)
  {
    var k := |ds| - 1;
    if i < k {
      assert ds[i := d][..k] == ds[..k][i := d];
      SumUpdate(ds[..k], i, d, kind);
    } else {
      assert ds[i := d][..k] == ds[..k];
    }
  }

  lemma SumAppend(ds: seq<Delivery>, d: Delivery, kind: Kind)
    ensures Sum(ds + [d], kind) == Sum(ds, kind) + Share(d, kind)
  {
    assert (ds + [d])[..|ds|] == ds;
  }

  /** The effect of a step on the sums. */
  lemma SumStep(cfg: Config, s: State, step: Step, kind: Kind)
    requires Enabled(s, step)
    ensures var s' := Apply(cfg, s, step);
            Sum(s'.deliveries, kind) ==
              if step.Dispatch? then Sum(s.deliveries, kind) + Share(s'.deliveries[|s.deliveries|], kind)
              else if s'.deliveries == s.deliveries then Sum(s.deliveries, kind)
              else Sum(s.deliveries, kind) - Share(s.deliveries[Actor(step)], kind) + Share(s'.deliveries[Actor(step)], kind)
  {
    hide Sum, Share, Moved, Fails, Ready;
    var s' := Apply(cfg, s, step);
    if step.Dispatch? {
      SumAppend(s.deliveries, s'.deliveries[|s.deliveries|], kind);
    } else if s'.deliveries != s.deliveries {
      SumUpdate(s.deliveries, Actor(step), s'.deliveries[Actor(step)], kind);
    }
  }

  predicate OfDelivery(step: Step) {
    step.SeeFloor? || step.Return? || step.Classify? || step.Act? || step.EndWait? || step.Count? || step.Complete?
  }

  function Actor(step: Step): nat {
    if OfDelivery(step) then step.i else 0
  }

  /** What a step of a delivery leaves as it is. */
  lemma MovedKeeps(cfg: Config, floor: nat, abort: bool, cancelled: bool, d: Delivery, step: Step)
    requires Ready(d, step, abort, cancelled)
    ensures var d' := Moved(cfg, floor, abort, cancelled, d, step);
            && d'.id == d.id && d'.count == d.count && d'.skip == d.skip
            && (!step.Count? && !step.Complete? ==> !IsCounted(d'.pc) && !IsCounted(d.pc))
            && (step.Count? ==> d.pc.Counting? && d'.pc == Completing(d.pc.fate))
            && (step.Complete? ==> d.pc.Completing? && d'.pc == Finished(d.pc.fate))
  {
  }

  /** Every step keeps the books balanced. */
  lemma BalanceStep(cfg: Config, s: State, step: Step)
    requires Balanced(s) && Enabled(s, step)
    ensures Balanced(Apply(cfg, s, step))
  {
    hide Sum, Apply, Enabled;
    FateStep(cfg, s, step, Flushed);
    FateStep(cfg, s, step, DeadLettered);
    FateStep(cfg, s, step, Dropped);
    DecidedStep(cfg, s, step);
    AckedStep(cfg, s, step);
  }

  /** A counter without what the flusher itself added to it. */
  function Counter(s: State, fate: Fate): int {
    match fate
    case Flushed => s.flushed
    case DeadLettered => s.deadLettered
    case Dropped => s.dropped - s.drops
  }

  lemma FateStep(cfg: Config, s: State, step: Step, fate: Fate)
    requires Enabled(s, step) && Counter(s, fate) == Sum(s.deliveries, As(fate))
    ensures Counter(Apply(cfg, s, step), fate) == Sum(Apply(cfg, s, step).deliveries, As(fate))
  {
    hide Sum, Moved, Fails, Ready, Tallied, Share;
    SumStep(cfg, s, step, As(fate));
    if OfDelivery(step) {
      var d := s.deliveries[step.i];
      MovedKeeps(cfg, s.floor, s.abort, s.cancelled, d, step);
      FateMoved(cfg, s, d, step, fate);
    } else {
      FateOthers(cfg, s, step, fate);
    }
  }

  /** What a delivery adds to a counter is what it comes to be counted as. */
  lemma FateMoved(cfg: Config, s: State, d: Delivery, step: Step, fate: Fate)
    requires Enabled(s, step) && OfDelivery(step) && d == s.deliveries[step.i]
    requires var d' := Moved(cfg, s.floor, s.abort, s.cancelled, d, step);
             && d'.count == d.count && (!step.Count? && !step.Complete? ==> !IsCounted(d'.pc) && !IsCounted(d.pc))
             && (step.Count? ==> d.pc.Counting? && d'.pc == Completing(d.pc.fate))
             && (step.Complete? ==> d.pc.Completing? && d'.pc == Finished(d.pc.fate))
    ensures Counter(Apply(cfg, s, step), fate) - Counter(s, fate)
         == Share(Moved(cfg, s.floor, s.abort, s.cancelled, d, step), As(fate)) - Share(d, As(fate))
  {
    hide Moved, Fails, Ready;
  }

  lemma FateOthers(cfg: Config, s: State, step: Step, fate: Fate)
    requires Enabled(s, step) && !OfDelivery(step)
    ensures Counter(Apply(cfg, s, step), fate) == Counter(s, fate)
    ensures step.Dispatch? ==> Share(Apply(cfg, s, step).deliveries[|s.deliveries|], As(fate)) == 0
    ensures !step.Dispatch? ==> Apply(cfg, s, step).deliveries == s.deliveries
  {
    hide Moved, Fails, Ready;
  }

  lemma DecidedStep(cfg: Config, s: State, step: Step)
    requires Enabled(s, step) && s.decided == s.drops + s.holding + Sum(s.deliveries, All)
    ensures var s' := Apply(cfg, s, step); s'.decided == s'.drops + s'.holding + Sum(s'.deliveries, All)
  {
    hide Sum, Moved, Fails, Ready, Tallied;
    SumStep(cfg, s, step, All);
    if OfDelivery(step) {
      MovedKeeps(cfg, s.floor, s.abort, s.cancelled, s.deliveries[step.i], step);
    }
  }

  lemma AckedStep(cfg: Config, s: State, step: Step)
    requires Enabled(s, step) && s.decided == s.acked + s.skips + s.holding + Sum(s.deliveries, Uncompleted)
    ensures var s' := Apply(cfg, s, step); s'.decided == s'.acked + s'.skips + s'.holding + Sum(s'.deliveries, Uncompleted)
  {
    hide Sum, Moved, Fails, Ready, Tallied;
    SumStep(cfg, s, step, Uncompleted);
    if OfDelivery(step) {
      MovedKeeps(cfg, s.floor, s.abort, s.cancelled, s.deliveries[step.i], step);
    }
  }

  lemma ProperStep(cfg: Config, s: State, step: Step)
    requires AllProper(s) && Enabled(s, step)
    ensures AllProper(Apply(cfg, s, step))
  {
    hide Proper, Moved, Fails, Ready, Tallied;
    var s' := Apply(cfg, s, step);
    forall i | 0 <= i < |s'.deliveries| ensures Proper(s', s'.deliveries[i]) {
      if i < |s.deliveries| {
        assert Proper(s, s.deliveries[i]);
        if OfDelivery(step) && step.i == i {
          ProperMoved(cfg, s, s', s.deliveries[i], step);
        } else {
          ProperStill(s, s', s.deliveries[i]);
        }
      } else {
        ProperNew(s', s'.deliveries[i]);
      }
    }
  }

  lemma ProperStill(s: State, s': State, d: Delivery)
    requires Proper(s, d) && (s.failed ==> s'.failed) && (s.abort ==> s'.abort)
    ensures Proper(s', d)
  {
  }

  lemma ProperNew(s: State, d: Delivery)
    requires d.pc.Check? && d.completions == 0 && !d.cancelSeen
    ensures Proper(s, d)
  {
  }

  lemma ProperMoved(cfg: Config, s: State, s': State, d: Delivery, step: Step)
    requires Proper(s, d) && (s.cancelled ==> s.abort) && Ready(d, step, s.abort, s.cancelled)
    requires s'.abort == s.abort && s'.failed == (s.failed || Fails(d, step, s.abort))
    ensures Proper(s', Moved(cfg, s.floor, s.abort, s.cancelled, d, step))
  {
  }

  lemma ToldStep(cfg: Config, s: State, step: Step)
    requires AllTold(cfg, s) && AllProper(s) && Enabled(s, step)
    ensures AllTold(cfg, Apply(cfg, s, step))
  {
    hide Told, Proper, Moved, Fails, Ready, Tallied;
    var s' := Apply(cfg, s, step);
    forall i | 0 <= i < |s'.deliveries| ensures Told(cfg, s', s'.deliveries[i]) {
      if i < |s.deliveries| {
        assert Told(cfg, s, s.deliveries[i]) && Proper(s, s.deliveries[i]);
        if OfDelivery(step) && step.i == i {
          ToldMoved(cfg, s, s.deliveries[i], step);
          ToldStill(cfg, s, s', s'.deliveries[i]);
        } else {
          ToldStill(cfg, s, s', s.deliveries[i]);
        }
      } else {
        ToldNew(cfg, s', s'.deliveries[i]);
      }
    }
  }

  lemma ToldStill(cfg: Config, s: State, s': State, d: Delivery)
    requires Told(cfg, s, d) && s'.floor >= s.floor
    ensures Told(cfg, s', d)
  {
  }

  lemma ToldNew(cfg: Config, s: State, d: Delivery)
    requires d.pc.Check? && d.said == [] && d.attempt == 0 && !d.inDlq && !d.verdict
    ensures Told(cfg, s, d)
  {
  }

  lemma ToldMoved(cfg: Config, s: State, d: Delivery, step: Step)
    requires Told(cfg, s, d) && Proper(s, d) && Ready(d, step, s.abort, s.cancelled)
    ensures Told(cfg, s, Moved(cfg, s.floor, s.abort, s.cancelled, d, step))
  {
    if step.Act? {
      hide Told, Proper;
      ToldReaction(cfg, s, d);
    } else {
      hide Reaction, Proper;
    }
  }

  /** Reacting to an answer. */
  lemma ToldReaction(cfg: Config, s: State, d: Delivery)
    requires d.pc.Judged? && Told(cfg, s, d) && Proper(s, d)
    ensures Told(cfg, s, Reaction(cfg, d, s.abort))
  {
  }

  ghost predicate Taken(cfg: Config, states: seq<State>, steps: seq<Step>, i: nat)
    requires |states| == |steps| + 1 && i < |steps|
  {
    Enabled(states[i], steps[i]) && states[i + 1] == Apply(cfg, states[i], steps[i])
  }

  ghost predicate IsRun(cfg: Config, states: seq<State>, steps: seq<Step>) {
    && |states| == |steps| + 1 && states[0] == Initial
    && forall i :: 0 <= i < |steps| ==> Taken(cfg, states, steps, i)
  }

  lemma {:induction false} RunOk(cfg: Config, states: seq<State>, steps: seq<Step>, k: nat)
    requires IsRun(cfg, states, steps) && k < |states|
    ensures Balanced(states[k]) && AllProper(states[k]) && AllTold(cfg, states[k])
  {
    hide Enabled, Apply, Balanced, AllProper, AllTold;
    if k == 0 {
      InitialOk(cfg);
    } else {
      RunOk(cfg, states, steps, k - 1);
      assert Taken(cfg, states, steps, k - 1);
      BalanceStep(cfg, states[k - 1], steps[k - 1]);
      ProperStep(cfg, states[k - 1], steps[k - 1]);
      ToldStep(cfg, states[k - 1], steps[k - 1]);
    }
  }

  lemma InitialOk(cfg: Config)
    ensures Balanced(Initial) && AllProper(Initial) && AllTold(cfg, Initial)
  {
    hide Balanced, Proper, Told;
    InitialBalanced();
  }

  lemma InitialBalanced()
    ensures Balanced(Initial)
  {
  }

  lemma {:induction false} SharesAddUp(ds: seq<Delivery>)
    ensures Sum(ds, All) == Sum(ds, Uncounted) + Sum(ds, As(Flushed)) + Sum(ds, As(DeadLettered)) + Sum(ds, As(Dropped))
  {
    if ds != [] {
      SharesAddUp(ds[..|ds| - 1]);
    }
  }

  /** Outcome conservation, in every interleaving: every record the flusher has read is
      counted in exactly one of flushed, dead-lettered, dropped, or is still unacknowledged;
      and completions cover exactly what is not still open, so none is made twice. */
  lemma Conservation(cfg: Config, states: seq<State>, steps: seq<Step>, k: nat)
    requires IsRun(cfg, states, steps) && k < |states|
    ensures var s := states[k];
            && s.flushed + s.deadLettered + s.dropped + Unacknowledged(s) == s.decided
            && s.acked + s.skips + s.holding + Sum(s.deliveries, Uncompleted) == s.decided
            && forall i :: 0 <= i < |s.deliveries| ==> s.deliveries[i].completions <= 1
  {
    hide Enabled, Apply, Sum;
    RunOk(cfg, states, steps, k);
    SharesAddUp(states[k].deliveries);
    assert forall i :: 0 <= i < |states[k].deliveries| ==> Proper(states[k], states[k].deliveries[i]);
  }

  /** Shutdown safety, in every interleaving: a delivery that ends without disposing of its
      batch leaves the buffer failed or aborting, and one that was ever answered with a
      cancellation error never disposes of it. */
  lemma CancelNeverDisposes(cfg: Config, states: seq<State>, steps: seq<Step>, k: nat, i: nat)
    requires IsRun(cfg, states, steps) && k < |states| && i < |states[k].deliveries|
    ensures var s, d := states[k], states[k].deliveries[i];
            && (d.pc.Kept? ==> s.failed || s.abort)
            && (d.cancelSeen ==> s.abort && !d.pc.Counting? && !IsCounted(d.pc) && d.completions == 0)
  {
    hide Enabled, Apply, Sum;
    RunOk(cfg, states, steps, k);
    assert Proper(states[k], states[k].deliveries[i]);
  }

  /** Fates are true, in every interleaving: a batch counts as flushed exactly if the sink
      said yes and as dead-lettered exactly if the dead-letter sink did; it is dropped only if
      the floor is above it or its last sink, with no other behind it, refused it for good or
      for the last time; attempts stay within their bounds. */
  lemma FateTruth(cfg: Config, states: seq<State>, steps: seq<Step>, k: nat, i: nat)
    requires IsRun(cfg, states, steps) && k < |states| && i < |states[k].deliveries|
    ensures var s, d := states[k], states[k].deliveries[i];
            && (Disposed(d.pc) ==> TrueFate(cfg, s, d))
            && (d.pc.Kept? ==> d.said != [] && !Last(d.said, Ok))
            && (Bound(cfg, d) > 0 ==> |d.said| <= Bound(cfg, d))
  {
    hide Enabled, Apply, Sum;
    RunOk(cfg, states, steps, k);
    assert Told(cfg, states[k], states[k].deliveries[i]);
  }

  /** Once the floor is above a batch, no sink is called for it any more. */
  lemma ShedNotCalled(cfg: Config, s: State, step: Step, i: nat)
    requires Enabled(s, step) && i < |s.deliveries| && s.deliveries[i].id < s.floor
    ensures var d, d' := s.deliveries[i], Apply(cfg, s, step).deliveries[i];
            d'.pc.Calling? ==> d.pc.Calling?
  {
    hide Moved, Fails, Ready;
    if OfDelivery(step) && step.i == i {
      ShedMoved(cfg, s.floor, s.abort, s.cancelled, s.deliveries[step.i], step);
    }
  }

  lemma ShedMoved(cfg: Config, floor: nat, abort: bool, cancelled: bool, d: Delivery, step: Step)
    requires Ready(d, step, abort, cancelled) && d.id < floor
    ensures !Moved(cfg, floor, abort, cancelled, d, step).pc.Calling?
  {
  }

  /** When nothing is under way any more, everything read has been counted. */
  lemma {:induction false} AllSettled(cfg: Config, states: seq<State>, steps: seq<Step>, k: nat)
    requires IsRun(cfg, states, steps) && k < |states| && states[k].holding == 0 && states[k].skips == 0
    requires forall i :: 0 <= i < |states[k].deliveries| ==> states[k].deliveries[i].pc.Finished?
    ensures states[k].flushed + states[k].deadLettered + states[k].dropped == states[k].decided == states[k].acked
  {
    Conservation(cfg, states, steps, k);
    FinishedSum(states[k].deliveries);
  }

  lemma {:induction false} FinishedSum(ds: seq<Delivery>)
    requires forall i :: 0 <= i < |ds| ==> ds[i].pc.Finished?
    ensures Sum(ds, Uncounted) == Sum(ds, Uncompleted) == 0
  {
    if ds != [] {
      FinishedSum(ds[..|ds| - 1]);
    }
  }
}
