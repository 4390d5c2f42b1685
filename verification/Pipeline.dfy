/** The whole buffer over whole lives: the log, the reader, the flusher's ranges,
    acknowledgement, the stored checkpoint, truncation, crashes and Open's reconciliation
    of checkpoint and log (batch.go, flush.go). */
module Pipeline {
  import opened RecordFormat
  import opened Wal
  import opened WalRuns
  import opened LogReader
  import opened WalSnapshot
  import opened LowWater

  /** How a record stopped being pending. */
  datatype Outcome = Flushed | DeadLettered | Dropped

  /** What was done about which record. */
  datatype Resolution = Resolution(outcome: Outcome, rec: Record)

  /** A batch handed to a delivery: its range, and its records under their numbers. */
  datatype Delivery = Delivery(first: nat, last: nat, recs: map<nat, Record>)

  /** The process's view: ranges completed since Open (above `start`), the low-water mark,
      deliveries in flight, where the next range begins, what the reader has returned and
      where it stands, and persist's progress. */
  datatype Buf = Buf(
    start: nat, mark: nat, acked: seq<Done>, inflight: seq<Delivery>, cursor: nat,
    next: nat, got: map<nat, Record>, lastCP: nat, persisting: bool)

  /** `ckpt` is the CHECKPOINT cell; `resolved` is history. */
  datatype Sys = Sys(wal: State, ckpt: nat, buf: Option<Buf>, resolved: map<nat, Resolution>)

  const Empty := Sys(Fresh, 0, None, map[])

  datatype Act =
    | Log(step: Step)                                     // any step of the log
    | Open                                                // recovery, reconciliation, start
    | Read(lsn: nat, rec: Record)                         // the reader yields a record
    | Assemble(last: nat, recs: map<nat, Record>, skipped: map<nat, Record>, mark: nat)
    | Resolve(i: nat, outcome: Outcome, mark: nat)
    | Abandon(i: nat)                                     // failed or aborted: left unacknowledged
    | Persist                                             // CHECKPOINT is written
    | PersistDone                                         // ... and truncation has succeeded

  function Min(a: nat, b: nat): nat { if a < b then a else b }

  /** Open's mark: the stored checkpoint, brought into the range the log can resume
      from. */
  function OpenMark(ckpt: nat, durable: nat, firstLSN: nat): nat {
    Max(Min(ckpt, durable), firstLSN - 1)
  }

  function RangeOf(d: Delivery): Done {
    Done(d.first, d.last, 0, 0)
  }

  function ResolveAll(resolved: map<nat, Resolution>, recs: map<nat, Record>, outcome: Outcome): map<nat, Resolution> {
    resolved + map n | n in recs :: Resolution(outcome, recs[n])
  }

  ghost predicate Submap(a: map<nat, Record>, b: map<nat, Record>) {
    forall n :: n in a ==> n in b && b[n] == a[n]
  }

  /** The flusher knows the log only through what its reader returned: a range ends at an
      entry or right in front of one, and every entry in it is delivered or dropped. */
  ghost predicate CanAssemble(b: Buf, last: nat, recs: map<nat, Record>, skipped: map<nat, Record>, mark: nat) {
    && b.cursor <= last && (last in b.got || last + 1 in b.got)
    && Submap(recs, b.got) && Submap(skipped, b.got) && recs.Keys !! skipped.Keys
    && (forall n: nat :: n in b.got && b.cursor <= n <= last ==> n in recs || n in skipped)
    && (forall n: nat :: n in recs || n in skipped ==> b.cursor <= n <= last)
    && (recs == map[] ==> IsMark(b.start, b.acked + [Done(b.cursor, last, 0, 0)], mark))
  }

  /** Truncate is only ever called with a mark that is stored: persist's, or Open's. */
  ghost predicate CanLog(cfg: Config, x: Sys, step: Step) {
    && Enabled(cfg, x.wal, step)
    && (step.Stage? ==> x.buf.Some?)
    && (step.TruncateBegin? ==> x.buf.Some? && step.upto <= Min(x.ckpt, x.buf.value.mark) + 1)
  }

  ghost predicate CanOpen(cfg: Config, x: Sys) {
    && Enabled(cfg, x.wal, Recover) && x.buf.None?
    && var m := DoRecover(cfg, x.wal).mem.value;
       m.segs != [] && m.segs[0].prevEnd <= x.ckpt
  }

  ghost predicate Can(cfg: Config, x: Sys, act: Act) {
    match act
    case Log(step) => CanLog(cfg, x, step)
    case Open => CanOpen(cfg, x)
    case Read(lsn, rec) => x.buf.Some? && HasActive(x.wal) && Yields(SnapOf(x.wal), x.buf.value.next, lsn, rec)
    case Assemble(last, recs, skipped, mark) => x.buf.Some? && CanAssemble(x.buf.value, last, recs, skipped, mark)
    case Resolve(i, _, mark) =>
      && x.buf.Some? && i < |x.buf.value.inflight|
      && var b := x.buf.value;
         IsMark(b.start, b.acked + [RangeOf(b.inflight[i])], mark)
    case Abandon(i) => x.buf.Some? && i < |x.buf.value.inflight|
    case Persist => x.buf.Some? && x.buf.value.mark != 0 && x.buf.value.mark != x.buf.value.lastCP
    case PersistDone => x.buf.Some? && x.buf.value.persisting
  }

  function Without(s: seq<Delivery>, i: nat): seq<Delivery>
    requires i < |s|
  {
    s[..i] + s[i + 1..]
  }

  ghost function DoLog(cfg: Config, x: Sys, step: Step): Sys
    requires Enabled(cfg, x.wal, step)
  {
    var wal := Apply(cfg, x.wal, step);
    x.(wal := wal, buf := if wal.mem.None? then None else x.buf)
  }

  ghost function DoOpen(cfg: Config, x: Sys): Sys
    requires DoRecover(cfg, x.wal).mem.value.segs != []
  {
    var wal := DoRecover(cfg, x.wal);
    var mark := OpenMark(x.ckpt, wal.mem.value.durable, wal.mem.value.segs[0].base);
    x.(wal := wal, ckpt := Max(x.ckpt, mark),
       buf := Some(Buf(mark, mark, [], [], mark + 1, mark + 1, map[], mark, false)))
  }

  /** The range is handed to a delivery, or completed at once if nothing in it is. */
  function Assembled(b: Buf, last: nat, recs: map<nat, Record>, mark: nat): Buf {
    if recs == map[] then b.(acked := b.acked + [Done(b.cursor, last, 0, 0)], mark := mark, cursor := last + 1)
    else b.(inflight := b.inflight + [Delivery(b.cursor, last, recs)], cursor := last + 1)
  }

  function Resolved(b: Buf, i: nat, mark: nat): Buf
    requires i < |b.inflight|
  {
    b.(inflight := Without(b.inflight, i), acked := b.acked + [RangeOf(b.inflight[i])], mark := mark)
  }

  ghost function Do(cfg: Config, x: Sys, act: Act): Sys
    requires Can(cfg, x, act)
  {
    match act
    case Log(step) => DoLog(cfg, x, step)
    case Open => DoOpen(cfg, x)
    case Read(lsn, rec) => x.(buf := Some(x.buf.value.(next := lsn + 1, got := x.buf.value.got[lsn := rec])))
    case Assemble(last, recs, skipped, mark) =>
      x.(buf := Some(Assembled(x.buf.value, last, recs, mark)), resolved := ResolveAll(x.resolved, skipped, Dropped))
    case Resolve(i, outcome, mark) =>
      x.(buf := Some(Resolved(x.buf.value, i, mark)),
         resolved := ResolveAll(x.resolved, x.buf.value.inflight[i].recs, outcome))
    case Abandon(i) => x.(buf := Some(x.buf.value.(inflight := Without(x.buf.value.inflight, i))))
    case Persist => x.(ckpt := x.buf.value.mark, buf := Some(x.buf.value.(persisting := true)))
    case PersistDone => x.(buf := Some(x.buf.value.(lastCP := x.ckpt, persisting := false)))
  }

  ghost predicate Leads(cfg: Config, x: Sys, act: Act, x': Sys) {
    Can(cfg, x, act) && x' == Do(cfg, x, act)
  }

  ghost predicate IsLife(cfg: Config, xs: seq<Sys>, acts: seq<Act>) {
    && |xs| == |acts| + 1 && xs[0] == Empty
    && forall i :: 0 <= i < |acts| ==> Leads(cfg, xs[i], acts[i], xs[i + 1])
  }
}
