/** deliver and deadLetter (flush.go): the retry loops that decide what becomes of a
    dispatched batch, run against an environment that acts between any two of their
    steps: other deliveries, DropOldest raising the floor, and Close. What all deliveries and
    the flusher do together is the subject of Outcomes. */
module Delivery {
  import opened Sinks

  /** The batch as dispatched: its first number, its records, and what its range covers. */
  datatype Pending = Pending(id: nat, count: nat, skipCount: nat)

  /** What the buffer's counters and its acknowledgements have seen. */
  datatype Event =
    | Counted(id: nat, fate: Fate, count: nat)
    | Completed(id: nat, count: nat)

  /** Something the rest of the program does. */
  datatype Move =
    | CloseNext                  // Close's next statement: close(b.abort), then b.deliverCancel()
    | RaiseFloor(floor: nat)
    | FailElsewhere
    | Elsewhere(event: Event)

  /** The choices of one attempt, with what happens before each step of it. */
  datatype Attempt = Attempt(
    beforeFloor: seq<Move>, duringCall: seq<Move>, answer: Answer,
    beforeClassify: seq<Move>, action: Action,
    beforeAct: seq<Move>, duringWait: seq<Move>, timerFires: bool)

  datatype Reason = Policy | RetriesExhausted

  datatype End =
    | Delivered
    | Buried                     // the dead-letter sink took it
    | Discarded(why: Reason)
    | Kept                       // unacknowledged: the next Open replays it
    | Trying                     // the choices ran out first

  /** How often a fate was counted, in records. */
  function Tally(trace: seq<Event>, fate: Fate): nat {
    if trace == [] then 0
    else
      var e := trace[|trace| - 1];
      Tally(trace[..|trace| - 1], fate) + (if e.Counted? && e.fate == fate then e.count else 0)
  }

  /** What happened to one batch. */
  function EventsOf(trace: seq<Event>, id: nat): seq<Event> {
    if trace == [] then []
    else
      var e := trace[|trace| - 1];
      EventsOf(trace[..|trace| - 1], id) + (if e.id == id then [e] else [])
  }

  /** The whole history a batch may have: nothing, or one fate and one completion that
      covers exactly its range. */
  function Story(p: Pending, end: End): seq<Event> {
    match end
    case Delivered => [Counted(p.id, Flushed, p.count), Completed(p.id, p.count + p.skipCount)]
    case Buried => [Counted(p.id, DeadLettered, p.count), Completed(p.id, p.count + p.skipCount)]
    case Discarded(_) => [Counted(p.id, Dropped, p.count), Completed(p.id, p.count + p.skipCount)]
    case Kept => []
    case Trying => []
  }

  lemma TraceGrows(trace: seq<Event>, e: Event, id: nat, fate: Fate)
    ensures EventsOf(trace + [e], id) == EventsOf(trace, id) + (if e.id == id then [e] else [])
    ensures Tally(trace + [e], fate) == Tally(trace, fate) + (if e.Counted? && e.fate == fate then e.count else 0)
  {
    assert (trace + [e])[..|trace|] == trace;
  }

  /** None of the moves raises the floor above the batch. */
  predicate Calm(moves: seq<Move>, id: nat) {
    forall i :: 0 <= i < |moves| && moves[i].RaiseFloor? ==> moves[i].floor <= id
  }

  predicate Fails(moves: seq<Move>) {
    exists i :: 0 <= i < |moves| && moves[i].FailElsewhere?
  }

  /** What the sink was going to answer is what was heard, but a cancellation only from a
      cancelled context. */
  predicate Heard(answer: Answer, said: Answer) {
    said == answer || (answer.CancelError? && said.Error?)
  }

  /** The handler's answers that keep the batch alive. */
  predicate Mild(action: Action) {
    action.RetryBatch? || action.DeadLetterBatch?
  }

  /** A sink answered each attempt as scripted; every attempt but the last was refused and
      to be retried. */
  predicate Attempted(script: seq<Attempt>, said: seq<Answer>) {
    && |said| <= |script|
    && (forall i :: 0 <= i < |said| ==> Heard(script[i].answer, said[i]))
    && (forall i :: 0 <= i < |said| - 1 ==> said[i].Error? && script[i].action.RetryBatch?)
  }

  /** The last attempt was refused with this action. */
  predicate Refused(script: seq<Attempt>, said: seq<Answer>, action: Action) {
    0 < |said| <= |script| && said[|said| - 1].Error? && script[|said| - 1].action == action
  }

  /** The last attempt panicked, or the handler failed the buffer over it. */
  predicate Fatal(script: seq<Attempt>, said: seq<Answer>) {
    0 < |said| <= |script| && (said[|said| - 1].Panic? || !Mild(script[|said| - 1].action))
  }

  /** Every attempt so far was refused and is to be retried. */
  predicate Retried(script: seq<Attempt>, said: seq<Answer>) {
    && |said| <= |script|
    && forall i :: 0 <= i < |said| ==> said[i].Error? && script[i].action.RetryBatch? && Heard(script[i].answer, said[i])
  }

  lemma NoneYet(script: seq<Attempt>)
    ensures Retried(script, []) && Attempted(script, [])
    ensures forall x :: !Refused(script, [], x)
  {
  }

  lemma RetriedAll(script: seq<Attempt>, said: seq<Answer>)
    requires Retried(script, said)
    ensures Attempted(script, said) && forall x: Answer :: !x.Error? ==> x !in said
    ensures forall x :: Refused(script, said, x) ==> x.RetryBatch?
  {
  }

  /** What one more attempt adds. */
  lemma OneMore(script: seq<Attempt>, said: seq<Answer>, heard: seq<Answer>)
    requires Retried(script, said) && |said| < |script| && |heard| <= 1
    requires heard != [] ==> Heard(script[|said|].answer, heard[0])
    ensures Attempted(script, said + heard)
    ensures forall x: Answer :: !x.Error? ==> (x in said + heard <==> x in heard)
    ensures var a := script[|said|].action;
            && (heard == [Error] ==> Refused(script, said + heard, a))
            && (heard == [Error] && a.RetryBatch? ==> Retried(script, said + heard))
            && (heard != [] && (heard[0].Panic? || !Mild(a)) ==> Fatal(script, said + heard))
            && (forall x :: heard != [] && Refused(script, said + heard, x) ==> heard == [Error] && x == a)
            && (forall x :: heard == [] && Refused(script, said + heard, x) ==> x.RetryBatch? && |said + heard| == |said|)
  {
    var all := said + heard;
    forall i | 0 <= i < |all| ensures Heard(script[i].answer, all[i]) {
      assert all[i] == if i < |said| then said[i] else heard[0];
    }
  }

  class Buffer {
    const maxAttempts: nat     // 0: unbounded
    const dlqAttempts: nat
    const hasDlq: bool

    var floor: nat
    var abort: bool
    var cancelled: bool
    var failed: bool
    var flushed: nat
    var deadLettered: nat
    var dropped: nat
    ghost var trace: seq<Event>

    /** Close closes abort before it cancels the context; counters are the trace. */
    ghost predicate Valid()
      reads this
    {
      && (cancelled ==> abort)
      && flushed == Tally(trace, Flushed)
      && deadLettered == Tally(trace, DeadLettered)
      && dropped == Tally(trace, Dropped)
    }

    constructor (maxAttempts: nat, dlqAttempts: nat, hasDlq: bool)
      ensures Valid() && trace == [] && !abort && !failed && floor == 0
    {
      this.maxAttempts, this.dlqAttempts, this.hasDlq := maxAttempts, dlqAttempts, hasDlq;
      floor, abort, cancelled, failed := 0, false, false, false;
      flushed, deadLettered, dropped, trace := 0, 0, 0, [];
    }

    method Record(e: Event)
      requires Valid()
      modifies this`flushed, this`deadLettered, this`dropped, this`trace
      ensures Valid() && trace == old(trace) + [e]
    {
      hide Tally, EventsOf;
      TraceGrows(trace, e, 0, Flushed);
      TraceGrows(trace, e, 0, DeadLettered);
      TraceGrows(trace, e, 0, Dropped);
      if e.Counted? {
        match e.fate {
          case Flushed => flushed := flushed + e.count;
          case DeadLettered => deadLettered := deadLettered + e.count;
          case Dropped => dropped := dropped + e.count;
        }
      }
      trace := trace + [e];
    }

    /** Others act: nothing they do touches batch `me`, flags only go up, and Close executes
        its statements in order, so that the context is cancelled only behind a closed abort. */
    method Environment(moves: seq<Move>, me: nat)
      requires Valid()
      modifies this
      ensures Valid() && EventsOf(trace, me) == EventsOf(old(trace), me)
      ensures old(trace) <= trace && floor >= old(floor)
      ensures (old(abort) ==> abort) && (old(cancelled) ==> cancelled) && (old(failed) ==> failed)
      ensures old(floor) <= me && Calm(moves, me) ==> floor <= me
      ensures failed ==> old(failed) || Fails(moves)
      ensures forall i :: 0 <= i < |moves| && moves[i].RaiseFloor? ==> floor >= moves[i].floor
    {
      hide Tally, EventsOf;
      var i := 0;
      while i < |moves|
        invariant Valid() && EventsOf(trace, me) == EventsOf(old(trace), me)
        invariant old(trace) <= trace && floor >= old(floor) && i <= |moves|
        invariant old(floor) <= me && Calm(moves, me) ==> floor <= me
        invariant failed ==> old(failed) || Fails(moves)
        invariant forall k :: 0 <= k < i && moves[k].RaiseFloor? ==> floor >= moves[k].floor
        invariant (old(abort) ==> abort) && (old(cancelled) ==> cancelled) && (old(failed) ==> failed)
      {
        match moves[i] {
          case CloseNext =>
            if !abort {
              abort := true;
            } else {
              cancelled := true;
            }
          case RaiseFloor(n) => floor := if n > floor then n else floor;
          case FailElsewhere => failed := true;
          case Elsewhere(e) =>
            if e.id != me {
              TraceGrows(trace, e, me, Flushed);
              Record(e);
            }
        }
        i := i + 1;
      }
    }

    /** The fate is counted, then the range is completed; others act in between. */
    method Settle(p: Pending, fate: Fate, between: seq<Move>)
      requires Valid() && EventsOf(trace, p.id) == []
      modifies this
      ensures Valid() && old(trace) <= trace && (old(abort) ==> abort) && floor >= old(floor)
      ensures failed ==> old(failed) || Fails(between)
      ensures EventsOf(trace, p.id) == [Counted(p.id, fate, p.count), Completed(p.id, p.count + p.skipCount)]
    {
      hide Tally, EventsOf;
      TraceGrows(trace, Counted(p.id, fate, p.count), p.id, fate);
      Record(Counted(p.id, fate, p.count));
      Environment(between, p.id);
      TraceGrows(trace, Completed(p.id, p.count + p.skipCount), p.id, fate);
      Record(Completed(p.id, p.count + p.skipCount));
    }

    /** One sink call. Only a cancelled context makes it return a cancellation error. */
    method Call(a: Attempt, me: nat) returns (answer: Answer)
      requires Valid()
      modifies this
      ensures Valid() && EventsOf(trace, me) == EventsOf(old(trace), me)
      ensures old(trace) <= trace && (old(abort) ==> abort) && (old(failed) ==> failed) && floor >= old(floor)
      ensures answer.CancelError? ==> abort
      ensures Heard(a.answer, answer) && (failed ==> old(failed) || Fails(a.duringCall))
    {
      Environment(a.duringCall, me);
      answer := if a.answer.CancelError? && !cancelled then Error else a.answer;
    }

    /** classify, asked only while not aborting, and asking the handler only about an error. */
    method Classify(a: Attempt, answer: Answer, me: nat) returns (action: Action)
      requires Valid()
      modifies this
      ensures Valid() && EventsOf(trace, me) == EventsOf(old(trace), me)
      ensures old(trace) <= trace && (old(abort) ==> abort) && (old(failed) ==> failed) && floor >= old(floor)
      ensures answer.Ok? || old(abort) ==> action.RetryBatch?
      ensures action.RetryBatch? || action == a.action
      ensures !answer.Ok? && !abort ==> action == a.action
      ensures action.HandlerPanics? ==> failed
      ensures failed ==> old(failed) || action.HandlerPanics? || Fails(a.beforeClassify) || Fails(a.beforeAct)
    {
      hide Tally, EventsOf;
      Environment(a.beforeClassify, me);
      action := RetryBatch;
      if !abort && !answer.Ok? {
        action := a.action;
        if action.HandlerPanics? {
          failed := true;
        }
      }
      Environment(a.beforeAct, me);
    }

    /** awaitRetry: false when the buffer is aborting. */
    method AwaitRetry(a: Attempt, me: nat) returns (again: bool)
      requires Valid()
      modifies this
      ensures Valid() && EventsOf(trace, me) == EventsOf(old(trace), me)
      ensures old(trace) <= trace && (old(abort) ==> abort) && (old(failed) ==> failed) && floor >= old(floor)
      ensures again <==> me < floor || a.timerFires || !abort
    {
      Environment(a.duringWait, me);
      again := me < floor || a.timerFires || !abort;
    }

    /** One attempt of either loop, up to the decision what to do about its failure.
        Trying means that the batch stays alive, to be treated as `action` says; `said` is
        the sink's answer, nothing if it was not called. The sink is called unless the floor
        is above the batch, and what becomes of the batch follows from the floor, its
        answer, the handler's action and the shutdown, in this order. */
    method Try(a: Attempt, p: Pending, fate: Fate) returns (end: End, action: Action, ghost said: seq<Answer>)
      requires Valid() && EventsOf(trace, p.id) == [] && !fate.Dropped?
      modifies this
      ensures Valid() && old(trace) <= trace && (old(abort) ==> abort) && floor >= old(floor)
      ensures EventsOf(trace, p.id) == Story(p, end) && |said| <= 1
      ensures said != [] ==> Heard(a.answer, said[0])
      ensures end.Discarded? <==> said == []
      ensures end.Discarded? ==> end.why == Policy && p.id < floor
      ensures p.id < old(floor) ==> end.Discarded?
      ensures old(floor) <= p.id && Calm(a.beforeFloor, p.id) ==> said != []
      ensures end.Delivered? <==> said == [Ok] && fate.Flushed?
      ensures end.Buried? <==> said == [Ok] && fate.DeadLettered?
      ensures end.Kept? ==> (failed || abort) && said != []
      ensures end.Kept? && !abort ==> said == [Panic] || !Mild(a.action)
      ensures end.Trying? ==> !abort && said == [Error] && action == a.action && Mild(action)
      ensures said == [Error] && !abort && Mild(a.action) ==> end.Trying?
      ensures CancelError in said || Panic in said ==> end.Kept?
      ensures old(abort) ==> !end.Trying?
      ensures failed ==> old(failed) || end.Kept? || Fails(a.beforeFloor) || Fails(a.duringCall)
                         || Fails(a.beforeClassify) || Fails(a.beforeAct) || Fails(a.duringWait)
    {
      hide Tally, EventsOf;
      said, action := [], RetryBatch;
      Environment(a.beforeFloor, p.id);
      if p.id < floor {
        Settle(p, Dropped, a.duringWait);
        return Discarded(Policy), action, said;
      }
      var answer := Call(a, p.id);
      said := [answer];
      if answer.Panic? {
        failed := true;
        return Kept, action, said;
      }
      action := Classify(a, answer, p.id);
      if answer.Ok? {
        Settle(p, fate, a.duringWait);
        return if fate.Flushed? then Delivered else Buried, action, said;
      }
      if abort {
        return Kept, action, said;
      }
      if action.FailBuffer? || action.HandlerPanics? {
        failed := true;
        return Kept, action, said;
      }
      return Trying, action, said;
    }

    /** deliver. The batch ends in exactly one way, and its events are that way's story:
        one fate and one completion, or nothing. Nothing means that the buffer failed or
        is aborting (or is still trying). The sink is called unless the floor is above the
        batch, and only then is the batch discarded by policy. Attempts go on exactly while
        they are refused and to be retried; a dead-letter verdict, or the last attempt,
        `hands` the batch to the dead-letter loop. It counts as flushed exactly if the
        sink's last answer was yes, and no cancellation error disposes of it, nor any error
        once the buffer is aborting. */
    method Deliver(p: Pending, script: seq<Attempt>, dlqScript: seq<Attempt>)
      returns (end: End, ghost said: seq<Answer>, ghost dlqSaid: seq<Answer>, ghost hands: bool)
      requires Valid() && EventsOf(trace, p.id) == []
      modifies this
      ensures Valid() && old(trace) <= trace
      ensures EventsOf(trace, p.id) == Story(p, end)
      ensures Attempted(script, said) && Attempted(dlqScript, dlqSaid)
      ensures end == Discarded(Policy) ==> p.id < floor
      ensures p.id < old(floor) && script != [] ==> end == Discarded(Policy) && said == []
      ensures old(floor) <= p.id && script != [] && Calm(script[0].beforeFloor, p.id) ==> said != []
      ensures end.Delivered? <==> Ok in said
      ensures end.Buried? <==> Ok in dlqSaid
      ensures CancelError in said || CancelError in dlqSaid ==> end.Kept?
      ensures end.Kept? ==> failed || abort
      ensures end.Kept? && !abort ==> if hands then Fatal(dlqScript, dlqSaid) else Fatal(script, said)
      ensures old(abort) ==> !hands
      ensures maxAttempts > 0 ==> |said| <= maxAttempts
      ensures hands ==> Refused(script, said, DeadLetterBatch) || (Refused(script, said, RetryBatch) && |said| == maxAttempts)
      ensures !abort && (Refused(script, said, DeadLetterBatch) || (Refused(script, said, RetryBatch) && |said| == maxAttempts)) ==> hands
      ensures dlqSaid != [] || end.Buried? || end == Discarded(RetriesExhausted) ==> hands
      ensures hands && !hasDlq ==> end == Discarded(RetriesExhausted)
      ensures dlqSaid != [] ==> hasDlq
      ensures dlqAttempts > 0 ==> |dlqSaid| <= dlqAttempts
      ensures end.Trying? ==> if hands then |dlqSaid| == |dlqScript| else |said| == |script|
      ensures 0 < maxAttempts <= |script| && 0 < dlqAttempts <= |dlqScript| ==> !end.Trying?
    {
      hide Tally, EventsOf, Attempted, Refused, Fatal, Retried;
      said, dlqSaid, hands := [], [], false;
      NoneYet(script);
      NoneYet(dlqScript);
      var attempt := 1;
      while attempt <= |script|
        invariant 1 <= attempt <= |script| + 1 && (attempt > 1 && maxAttempts > 0 ==> attempt <= maxAttempts)
        invariant Valid() && old(trace) <= trace && EventsOf(trace, p.id) == [] && floor >= old(floor)
        invariant |said| == attempt - 1 && Retried(script, said)
        invariant if attempt == 1 then floor == old(floor) else p.id >= old(floor)
        invariant old(abort) ==> abort && attempt == 1
      {
        var a := script[attempt - 1];
        var action;
        ghost var heard;
        end, action, heard := Try(a, p, Flushed);
        OneMore(script, said, heard);
        said := said + heard;
        if !end.Trying? {
          return;
        }
        if action.DeadLetterBatch? || (maxAttempts > 0 && attempt >= maxAttempts) {
          hands := true;
          end, dlqSaid := DeadLetter(p, dlqScript);
          return;
        }
        var again := AwaitRetry(a, p.id);
        if !again {
          end := Kept;
          return;
        }
        attempt := attempt + 1;
      }
      RetriedAll(script, said);
      end := Trying;
    }

    /** deadLetter: the same with the dead-letter sink, behind which there is nothing, so that
        a verdict or the last attempt drops the batch. */
    method DeadLetter(p: Pending, script: seq<Attempt>) returns (end: End, ghost said: seq<Answer>)
      requires Valid() && EventsOf(trace, p.id) == []
      modifies this
      ensures Valid() && old(trace) <= trace && floor >= old(floor) && (old(abort) ==> abort)
      ensures EventsOf(trace, p.id) == Story(p, end) && !end.Delivered?
      ensures Attempted(script, said)
      ensures !hasDlq ==> end == Discarded(RetriesExhausted) && said == []
      ensures end == Discarded(Policy) ==> p.id < floor
      ensures p.id < old(floor) && hasDlq && script != [] ==> end == Discarded(Policy)
      ensures old(floor) <= p.id && hasDlq && script != [] && Calm(script[0].beforeFloor, p.id) ==> said != []
      ensures end.Buried? <==> Ok in said
      ensures CancelError in said ==> end.Kept?
      ensures end.Kept? ==> failed || abort
      ensures end.Kept? && !abort ==> Fatal(script, said)
      ensures end == Discarded(RetriesExhausted) && hasDlq ==>
                Refused(script, said, DeadLetterBatch) || (Refused(script, said, RetryBatch) && |said| == dlqAttempts)
      ensures hasDlq && !abort && (Refused(script, said, DeadLetterBatch) || (Refused(script, said, RetryBatch) && |said| == dlqAttempts)) ==>
                end == Discarded(RetriesExhausted)
      ensures dlqAttempts > 0 ==> |said| <= dlqAttempts
      ensures end.Trying? ==> |said| == |script|
      ensures 0 < dlqAttempts <= |script| ==> !end.Trying?
    {
      hide Tally, EventsOf, Attempted, Refused, Fatal, Retried;
      said := [];
      NoneYet(script);
      if !hasDlq {
        Settle(p, Dropped, []);
        return Discarded(RetriesExhausted), said;
      }
      var attempt := 1;
      while attempt <= |script|
        invariant 1 <= attempt <= |script| + 1 && (attempt > 1 && dlqAttempts > 0 ==> attempt <= dlqAttempts)
        invariant Valid() && old(trace) <= trace && EventsOf(trace, p.id) == [] && floor >= old(floor)
        invariant |said| == attempt - 1 && Retried(script, said)
        invariant if attempt == 1 then floor == old(floor) else p.id >= old(floor)
        invariant old(abort) ==> abort
      {
        var a := script[attempt - 1];
        var action;
        ghost var heard;
        end, action, heard := Try(a, p, DeadLettered);
        OneMore(script, said, heard);
        said := said + heard;
        if !end.Trying? {
          return;
        }
        if action.DeadLetterBatch? || (dlqAttempts > 0 && attempt >= dlqAttempts) {
          Settle(p, Dropped, a.duringWait);
          return Discarded(RetriesExhausted), said;
        }
        var again := AwaitRetry(a, p.id);
        if !again {
          return Kept, said;
        }
        attempt := attempt + 1;
      }
      RetriedAll(script, said);
      end := Trying;
    }
  }
}
