/** Why the guarantees about numbers end when Close gives RESERVED back on a log whose
    rollback failed (Close, wal.go): the frames that could not be cut off are still in the
    file, above everything the reservation then covers. */
module Reissue {
  import opened RecordFormat
  import opened SegmentScan
  import opened Wal
  import opened WalRuns
  import opened WalDurability
  import opened WalExample
  import opened LogReader
  import opened WalSnapshot
  import opened LowWater
  import opened Pipeline

  const Lost := Rec(7, 0)
  const Acked := Rec(8, 4)
  const Kept := Full(1, 0, 7, 0, 0)

  // ---- paths ---------------------------------------------------------------------

  ghost predicate Path(xs: seq<Sys>, acts: seq<Act>) {
    && |xs| == |acts| + 1
    && forall i :: 0 <= i < |acts| ==> Leads(Cfg, xs[i], acts[i], xs[i + 1])
  }

  lemma PathJoin(xs: seq<Sys>, acts: seq<Act>, ys: seq<Sys>, more: seq<Act>)
    requires Path(xs, acts) && Path(ys, more) && xs[|xs| - 1] == ys[0]
    ensures Path(xs + ys[1..], acts + more)
  {
    hide Leads;
    var zs := xs + ys[1..];
    forall i | 0 <= i < |acts + more| ensures Leads(Cfg, zs[i], (acts + more)[i], zs[i + 1]) {
      if i >= |acts| {
        assert zs[i] == ys[i - |acts|] && zs[i + 1] == ys[i - |acts| + 1];
      }
    }
  }

  function With(x: Sys, s: State): Sys {
    x.(wal := s, buf := if s.mem.None? then None else x.buf)
  }

  lemma LogLeads(x: Sys, step: Step, s': State)
    requires Goes(Cfg, x.wal, step, s') && !step.TruncateBegin? && (step.Stage? ==> x.buf.Some?)
    ensures Leads(Cfg, x, Log(step), With(x, s'))
  {
    hide Enabled, Apply;
  }

  // ---- the first process -----------------------------------------------------------

  /** The record's fsync fails, and so does the cut that should take it away. */
  lemma RollbackFailsToo(s: State) returns (s1: State, s2: State, s3: State)
    requires Flight(s, [], [], Kept, Written, 7, 0) && |s.rounds| == 2 && s.rounds[1] == NewRound && s.mem.value.cur == 1
    ensures Goes(Cfg, s, SyncFails(0), s1) && Goes(Cfg, s1, RollbackFails(false), s2) && Goes(Cfg, s2, SettleErr, s3)
    ensures s1.mem.Some? && s2.mem.Some? && s3.disk == Disk([Kept], s.disk.reserved) && |s3.rounds| == 3
    ensures s3.mem == Some(s.mem.value.(pc := Idle, cur := 2, inflight := None, pending := [], pendingMin := 0,
                                        pendingMax := 0, nextLSN := 1, broken := true))
  {
    hide Frames, Frame;
    s1 := Apply(Cfg, s, SyncFails(0));
    assert ActiveFile(s) == Kept;
    assert s1.disk.files == [Kept];
    s2 := Apply(Cfg, s1, RollbackFails(false));
    assert s2.disk.files == [Kept];
    s3 := Apply(Cfg, s2, SettleErr);
  }

  /** Close gives the whole block back; its own fsync fails. */
  lemma GivesBack(s: State) returns (s1: State, s2: State, s3: State)
    requires s.disk == Disk([Kept], B) && s.mem.Some? && s.mem.value.segs == [Seg(1, 0, 0, 0)] && s.mem.value.removed == 0
    requires s.mem.value.pc.Idle? && s.mem.value.pending == [] && s.mem.value.nextLSN == 1 && s.mem.value.reserved == B
    ensures Goes(Cfg, s, CloseBegin, s1) && Goes(Cfg, s1, CloseReserve(Stored), s2) && Goes(Cfg, s2, CloseEnd(false), s3)
    ensures s1.mem.Some? && s2.mem.Some? && s3.mem.None? && s3.disk == Disk([Kept], 0) && s3.rounds == s.rounds
  {
    hide Enabled, Apply;
    s1 := Closes(s);
    s2 := Lowers(s1);
    s3 := Ends(s2);
  }

  lemma Closes(s: State) returns (s1: State)
    requires s.mem.Some?
    ensures Goes(Cfg, s, CloseBegin, s1) && s1 == s.(mem := Some(s.mem.value.(closed := true)))
  {
    hide Frames, Frame;
    s1 := Apply(Cfg, s, CloseBegin);
  }

  lemma Lowers(s: State) returns (s1: State)
    requires Wal.Drained(s) && s.mem.value.nextLSN == 1 && s.mem.value.reserved == B
    ensures Goes(Cfg, s, CloseReserve(Stored), s1) && s1.disk == s.disk.(reserved := 0) && s1.rounds == s.rounds
    ensures s1.mem == Some(s.mem.value.(reserved := 0))
  {
    hide Frames, Frame;
    s1 := Apply(Cfg, s, CloseReserve(Stored));
  }

  lemma Ends(s: State) returns (s1: State)
    requires Wal.Drained(s) && s.disk.files == [Kept] && s.mem.value.segs == [Seg(1, 0, 0, 0)] && s.mem.value.removed == 0
    ensures Goes(Cfg, s, CloseEnd(false), s1) && s1.disk == s.disk && s1.rounds == s.rounds && s1.mem.None?
  {
    hide Frames, Frame;
    s1 := Apply(Cfg, s, CloseEnd(false));
    assert s1.disk.files == [Kept];
  }

  /** The first process, once it has opened the directory. */
  lemma Strands(s1: State) returns (states: seq<State>, steps: seq<Step>)
    requires s1.disk == Disk([Blank(1, 0)], 0) && s1.rounds == [NewRound]
    requires s1.mem == Some(OpenMem([Seg(1, 0, 0, 0)], 0, 0))
    ensures IsRun(Cfg, states, steps) && |states| == 11 && states[0] == s1 && Plain(steps) && Living(states)
    ensures states[10].mem.None? && states[10].disk == Disk([Kept], 0) && |states[10].rounds| == 3
  {
    hide Enabled, Apply;
    var s2 := StageOne(s1, Disk([Blank(1, 0)], 0), [Seg(1, 0, 0, 0)], 7, 0);
    var s3 := TakeOne(s2, 7, 0);
    assert [Blank(1, 0)] == [] + [Blank(1, 0)] && [Seg(1, 0, 0, 0)] == [] + [Seg(1, 0, 0, 0)];
    var s4, s5 := WriteOne(s3, [], [], 1, 0, 7, 0);
    var s6, s7, s8 := RollbackFailsToo(s5);
    var s9, s10, s11 := GivesBack(s8);
    hide Goes, Flight, Tagged;
    states := [s1, s2, s3, s4, s5, s6, s7, s8, s9, s10, s11];
    steps := [Stage([[7]], Stored), Take, KeepSegment, Write(9, true), SyncFails(0),
              RollbackFails(false), SettleErr, CloseBegin, CloseReserve(Stored), CloseEnd(false)];
  }

  // ---- runs of the log as acts of the whole buffer -----------------------------------

  predicate Plain(steps: seq<Step>) {
    forall i :: 0 <= i < |steps| ==> !steps[i].TruncateBegin?
  }

  /** A process lives until the last state, if it ends at all. */
  predicate Living(states: seq<State>) {
    forall i :: 0 <= i < |states| - 1 ==> states[i].mem.Some?
  }

  function Lifted(x: Sys, states: seq<State>): (xs: seq<Sys>)
    ensures |xs| == |states| && forall i :: 0 <= i < |xs| ==> xs[i] == With(x, states[i])
  {
    seq(|states|, i requires 0 <= i < |states| => With(x, states[i]))
  }

  function Logs(steps: seq<Step>): (acts: seq<Act>)
    ensures |acts| == |steps| && forall i :: 0 <= i < |acts| ==> acts[i] == Log(steps[i])
  {
    seq(|steps|, i requires 0 <= i < |steps| => Log(steps[i]))
  }

  lemma RunPath(x: Sys, states: seq<State>, steps: seq<Step>)
    requires IsRun(Cfg, states, steps) && Plain(steps) && Living(states) && x.buf.Some? && x.wal == states[0]
    ensures Path(Lifted(x, states), Logs(steps))
    ensures x.wal.mem.Some? ==> Lifted(x, states)[0] == x
  {
    hide Goes, Leads;
    var xs := Lifted(x, states);
    forall i | 0 <= i < |steps| ensures Leads(Cfg, xs[i], Log(steps[i]), xs[i + 1]) {
      assert Goes(Cfg, states[i], steps[i], states[i + 1]);
      LogLeads(xs[i], steps[i], states[i + 1]);
    }
  }

  // ---- three openings ----------------------------------------------------------------

  /** The directory as the second process finds it: the stranded record counts. */
  lemma FindsStranded(s: State) returns (s1: State)
    requires s.mem.None? && s.disk == Disk([Kept], 0) && |s.rounds| == 3
    ensures Goes(Cfg, s, Recover, s1) && s1.disk == s.disk && |s1.rounds| == 4 && s1 == DoRecover(Cfg, s)
    ensures s1.mem == Some(OpenMem([Seg(1, 0, 9, 1)], 0, 3)) && s1.mem.value.durable == 1
  {
    hide Frames, Frame, ScanBytes, Contents;
    OneFrame(7, 0);
    Scans(7, 0);
    assert Kept.bytes[..9] == Kept.bytes && Kept.written[..1] == Kept.written;
    assert Wal.Truncated(Kept, 9, 1) == Kept;
    s1 := Apply(Cfg, s, Recover);
    assert s1.disk.files == [Kept];
    assert s1.mem.value.segs == [Seg(1, 0, 9, 1)];
  }

  /** ... as the third finds it after a machine crash: empty, with nothing reserved. */
  lemma FindsNothing(s: State) returns (s1: State)
    requires s.mem.None? && s.disk == Disk([File(1, 0, [], 0, [Lost])], 0) && |s.rounds| == 4
    ensures Goes(Cfg, s, Recover, s1) && s1.disk == Disk([Blank(1, 0)], 0) && s1.rounds == s.rounds + [NewRound]
    ensures s1 == DoRecover(Cfg, s) && s1.mem == Some(OpenMem([Seg(1, 0, 0, 0)], 0, 4)) && s1.mem.value.durable == 0
  {
    hide Frames, Frame, ScanBytes, Contents;
    Scans(7, 0);
    s1 := Apply(Cfg, s, Recover);
    assert s1.disk.files == [Blank(1, 0)];
    assert s1.mem.value.segs == [Seg(1, 0, 0, 0)];
  }

  /** Open of the whole buffer, given what the log's recovery makes. */
  lemma OpenLeads(x: Sys, s': State)
    requires x.buf.None? && Goes(Cfg, x.wal, Recover, s') && s' == DoRecover(Cfg, x.wal)
    requires s'.mem.Some? && s'.mem.value.segs != [] && s'.mem.value.segs[0].prevEnd == 0 && s'.mem.value.segs[0].base == 1
    ensures var mark := Min(x.ckpt, s'.mem.value.durable);
            Leads(Cfg, x, Open, Sys(s', x.ckpt, Some(Buf(mark, mark, [], [], mark + 1, mark + 1, map[], mark, false)), x.resolved))
  {
    hide DoRecover, Enabled;
  }

  // ---- the second process delivers the stranded record --------------------------------

  lemma StrandedVisible(s: State)
    requires s.disk.files == [Kept] && s.mem.Some? && s.mem.value == OpenMem([Seg(1, 0, 9, 1)], 0, 3) && s.mem.value.durable == 1
    ensures HasActive(s) && Visible(s, 1, Lost) && Yields(SnapOf(s), 1, 1, Lost)
  {
    hide Frame;
    assert Alive(s.mem.value) == s.mem.value.segs;
    assert VisibleIn(s, 0, 1, Lost);
    assert ViewsOf(s)[0] == ViewOf(Seg(1, 0, 9, 1), Kept);
    assert HoldsRecord(ViewsOf(s), 1, Lost);
  }

  lemma MarkOne()
    ensures IsMark(0, [Done(1, 1, 0, 0)], 1)
  {
    assert Contains([Done(1, 1, 0, 0)][0], 1);
  }

  const Start := Buf(0, 0, [], [], 1, 1, map[], 0, false)
  const Got := Start.(next := 2, got := map[1 := Lost])
  const Batched := Got.(inflight := [Delivery(1, 1, map[1 := Lost])], cursor := 2)
  const LostAcked := Got.(mark := 1, acked := [Done(1, 1, 0, 0)], cursor := 2)
  const LostFlushed := map[1 := Resolution(Outcome.Flushed, Lost)]

  /** Read, batched, flushed, and the checkpoint stored. */
  lemma Delivers(x: Sys) returns (xs: seq<Sys>, acts: seq<Act>)
    requires x.buf == Some(Start) && x.resolved == map[] && x.ckpt == 0
    requires HasActive(x.wal) && Yields(SnapOf(x.wal), 1, 1, Lost)
    ensures |xs| == 5 && Path(xs, acts) && xs[0] == x
    ensures xs[4] == Sys(x.wal, 1, Some(LostAcked.(persisting := true)), LostFlushed)
  {
    hide Yields, IsMark;
    MarkOne();
    var x1 := x.(buf := Some(Got));
    assert Leads(Cfg, x, Read(1, Lost), x1);
    var recs: map<nat, Record> := map[1 := Lost];
    var x2 := x.(buf := Some(Batched));
    Assembles(x1, x2);
    var x3 := x.(buf := Some(LostAcked), resolved := LostFlushed);
    Flushes(x2, x3);
    var x4 := x3.(ckpt := 1, buf := Some(LostAcked.(persisting := true)));
    assert Leads(Cfg, x3, Persist, x4);
    hide Leads;
    xs := [x, x1, x2, x3, x4];
    acts := [Read(1, Lost), Assemble(1, recs, map[], 0), Resolve(0, Outcome.Flushed, 1), Persist];
  }

  lemma Assembles(x1: Sys, x2: Sys)
    requires x1.buf == Some(Got) && x2 == x1.(buf := Some(Batched))
    ensures Leads(Cfg, x1, Assemble(1, map[1 := Lost], map[], 0), x2)
  {
    hide IsMark;
    var recs: map<nat, Record> := map[1 := Lost];
    var none: map<nat, Record> := map[];
    assert 1 in recs && recs != map[] && recs.Keys == {1} && none.Keys == {};
    assert ResolveAll(x1.resolved, none, Dropped) == x1.resolved;
    assert Got.inflight + [Delivery(1, 1, recs)] == Batched.inflight;
    assert CanAssemble(Got, 1, recs, none, 0);
    assert Assembled(Got, 1, recs, 0) == Batched;
  }

  lemma Flushes(x2: Sys, x3: Sys)
    requires x2.buf == Some(Batched) && x2.resolved == map[] && x3 == x2.(buf := Some(LostAcked), resolved := LostFlushed)
    ensures Leads(Cfg, x2, Resolve(0, Outcome.Flushed, 1), x3)
  {
    hide IsMark;
    MarkOne();
    var d := Batched.inflight[0];
    assert RangeOf(d) == Done(1, 1, 0, 0) && [] + [RangeOf(d)] == [Done(1, 1, 0, 0)];
    assert Without(Batched.inflight, 0) == [];
    assert ResolveAll(map[], d.recs, Outcome.Flushed) == LostFlushed;
  }

  lemma LosesPower(s: State) returns (s1: State)
    requires s.disk == Disk([Kept], 0)
    ensures Goes(Cfg, s, MachineCrash([0]), s1) && s1.mem.None? && s1.rounds == s.rounds
    ensures s1.disk == Disk([File(1, 0, [], 0, [Lost])], 0)
  {
    hide Frame;
    s1 := Apply(Cfg, s, MachineCrash([0]));
    assert s1.disk.files == [File(1, 0, [], 0, [Lost])];
  }

  // ---- the third process acknowledges another record under the same number -------------

  lemma Commits(s1: State) returns (states: seq<State>, steps: seq<Step>)
    requires s1.disk == Disk([Blank(1, 0)], 0) && |s1.rounds| == 5 && s1.rounds[4] == NewRound
    requires s1.mem == Some(OpenMem([Seg(1, 0, 0, 0)], 0, 4))
    ensures IsRun(Cfg, states, steps) && |states| == 8 && states[0] == s1 && Plain(steps) && Living(states)
    ensures states[7].mem.Some? && states[7].mem.value.segs == [Seg(1, 0, 9, 1)] && states[7].mem.value.removed == 0
    ensures states[7].mem.value.durable == 1 && states[7].disk == Disk([Full(1, 0, 8, 4, 9)], B)
    ensures |states[7].rounds| == 6 && states[7].rounds[4] == Round(1, [Acked], Committed)
  {
    hide Enabled, Apply;
    var s2 := StageOne(s1, Disk([Blank(1, 0)], 0), [Seg(1, 0, 0, 0)], 8, 4);
    var s3 := TakeOne(s2, 8, 4);
    assert [Blank(1, 0)] == [] + [Blank(1, 0)] && [Seg(1, 0, 0, 0)] == [] + [Seg(1, 0, 0, 0)];
    var s4, s5 := WriteOne(s3, [], [], 1, 0, 8, 4);
    var s6, s7, s8 := CommitOne(s5, [], [], 1, 0, 8, 4);
    hide Goes, Flight, Tagged;
    states := [s1, s2, s3, s4, s5, s6, s7, s8];
    steps := [Stage([[8]], Stored), Take, KeepSegment, Write(9, true), Sync, PublishSize, SettleOk];
  }

  lemma AckedVisible(s: State)
    requires s.disk.files == [Full(1, 0, 8, 4, 9)] && s.mem.Some? && s.mem.value.segs == [Seg(1, 0, 9, 1)]
    requires s.mem.value.removed == 0 && s.mem.value.durable == 1
    ensures Visible(s, 1, Acked)
  {
    hide Frame;
    assert VisibleIn(s, 0, 1, Acked);
  }

  // ---- the whole life --------------------------------------------------------------------

  lemma First() returns (xs: seq<Sys>, acts: seq<Act>)
    ensures |xs| > 1 && Path(xs, acts) && xs[0] == Empty
    ensures var y := xs[|xs| - 1];
            && y.buf.None? && y.ckpt == 0 && y.resolved == map[] && y.wal.mem.None?
            && y.wal.disk == Disk([Kept], 0) && |y.wal.rounds| == 3
  {
    hide Enabled, Apply;
    var s1 := FirstOpens();
    RecoversFresh(s1);
    OpenLeads(Empty, s1);
    var x := Sys(s1, 0, Some(Start), map[]);
    var states, steps := Strands(s1);
    RunPath(x, states, steps);
    PathJoin([Empty, x], [Open], Lifted(x, states), Logs(steps));
    xs, acts := [Empty, x] + Lifted(x, states)[1..], [Open] + Logs(steps);
  }

  lemma RecoversFresh(s1: State)
    requires Goes(Cfg, Fresh, Recover, s1)
    ensures s1 == DoRecover(Cfg, Fresh)
  {
    hide DoRecover;
  }

  lemma Second(x: Sys) returns (xs: seq<Sys>, acts: seq<Act>)
    requires x.buf.None? && x.ckpt == 0 && x.resolved == map[] && x.wal.mem.None?
    requires x.wal.disk == Disk([Kept], 0) && |x.wal.rounds| == 3
    ensures |xs| > 1 && Path(xs, acts) && xs[0] == x && Visible(xs[1].wal, 1, Lost)
    ensures var y := xs[|xs| - 1];
            && y.buf.None? && y.ckpt == 1 && y.resolved == LostFlushed && y.wal.mem.None?
            && y.wal.disk == Disk([File(1, 0, [], 0, [Lost])], 0) && |y.wal.rounds| == 4
  {
    hide Enabled, Apply, Yields, Visible, DoRecover;
    var s1 := FindsStranded(x.wal);
    OpenLeads(x, s1);
    StrandedVisible(s1);
    var x1 := Sys(s1, 0, Some(Start), map[]);
    var ys, more := Delivers(x1);
    PathJoin([x, x1], [Open], ys, more);
    var s2 := LosesPower(s1);
    LogLeads(ys[4], MachineCrash([0]), s2);
    xs, acts := [x, x1] + ys[1..], [Open] + more;
    PathJoin(xs, acts, [ys[4], With(ys[4], s2)], [Log(MachineCrash([0]))]);
    xs, acts := xs + [ys[4], With(ys[4], s2)][1..], acts + [Log(MachineCrash([0]))];
  }

  lemma Third(x: Sys) returns (xs: seq<Sys>, acts: seq<Act>)
    requires x.buf.None? && x.ckpt == 1 && x.resolved == LostFlushed && x.wal.mem.None?
    requires x.wal.disk == Disk([File(1, 0, [], 0, [Lost])], 0) && |x.wal.rounds| == 4
    ensures |xs| > 1 && Path(xs, acts) && xs[0] == x
    ensures var y := xs[|xs| - 1];
            && y.buf.Some? && y.ckpt == 1 && y.resolved == LostFlushed && Visible(y.wal, 1, Acked)
            && |y.wal.rounds| == 6 && y.wal.rounds[4] == Round(1, [Acked], Committed)
            && y.wal.disk == Disk([Full(1, 0, 8, 4, 9)], B)
  {
    hide Enabled, Apply, Visible, DoRecover;
    var s1 := FindsNothing(x.wal);
    OpenLeads(x, s1);
    var x1 := Sys(s1, 1, Some(Start), LostFlushed);
    var states, steps := Commits(s1);
    AckedVisible(states[7]);
    RunPath(x1, states, steps);
    PathJoin([x, x1], [Open], Lifted(x1, states), Logs(steps));
    xs, acts := [x, x1] + Lifted(x1, states)[1..], [Open] + Logs(steps);
  }

  lemma Fourth(x: Sys) returns (xs: seq<Sys>, acts: seq<Act>)
    requires x.buf.Some? && x.ckpt == 1 && x.wal.disk == Disk([Full(1, 0, 8, 4, 9)], B)
    ensures |xs| == 3 && Path(xs, acts) && xs[0] == x
    ensures xs[2].buf.Some? && xs[2].buf.value.cursor == 2 && xs[2].resolved == x.resolved
  {
    hide Enabled, Apply, DoRecover;
    Crashes(x.wal);
    LogLeads(x, ProcessCrash, x.wal.(mem := None));
    var x1 := With(x, x.wal.(mem := None));
    var s2 := ReopensAbove(x1.wal, 8, 4, 9);
    OpenLeads(x1, s2);
    var x2 := Sys(s2, 1, Some(Buf(1, 1, [], [], 2, 2, map[], 1, false)), x.resolved);
    xs, acts := [x, x1, x2], [Log(ProcessCrash), Open];
    hide Leads;
  }

  /** A life in a mode that fsyncs in which number 1 is visible first as one record and then
      as another, whose round was told nil. That record was never resolved, it lies at the
      checkpoint, and the next Open starts its flusher above it: it is never delivered. The
      I/O errors of the life are one round's fsync, the cut that should have undone it, and
      the fsync of the Close that gave RESERVED back. */
  lemma NumberReissued() returns (xs: seq<Sys>, acts: seq<Act>, i: nat, j: nat)
    ensures ValidConfig(Cfg) && Cfg.fsync && IsLife(Cfg, xs, acts) && i < j < |xs| - 1
    ensures Visible(xs[i].wal, 1, Lost) && Visible(xs[j].wal, 1, Acked) && Lost != Acked
    ensures AckedBy(xs[j].wal, 4, 1) && xs[j].wal.rounds[4].recs == [Acked] && xs[j].ckpt == 1
    ensures xs[j].resolved == map[1 := Resolution(Outcome.Flushed, Lost)]
    ensures var y := xs[|xs| - 1]; y.buf.Some? && y.buf.value.cursor > 1 && y.resolved == xs[j].resolved
  {
    hide Path, Visible;
    var first, a := First();
    var bs, b := Second(first[|first| - 1]);
    var cs, c := Third(bs[|bs| - 1]);
    var ds, d := Fourth(cs[|cs| - 1]);
    i, j := |first|, |first| + |bs| + |cs| - 3;
    JoinAll(first, a, bs, b);
    JoinAll(first + bs[1..], a + b, cs, c);
    JoinAll(first + bs[1..] + cs[1..], a + b + c, ds, d);
    xs, acts := first + bs[1..] + cs[1..] + ds[1..], a + b + c + d;
    assert xs[i] == bs[1];
    assert xs[j] == cs[|cs| - 1];
    PathIsLife(xs, acts);
  }

  lemma JoinAll(xs: seq<Sys>, acts: seq<Act>, ys: seq<Sys>, more: seq<Act>)
    requires Path(xs, acts) && Path(ys, more) && |xs| > 0 && |ys| > 0 && xs[|xs| - 1] == ys[0]
    ensures var zs := xs + ys[1..];
            && Path(zs, acts + more) && zs[|zs| - 1] == ys[|ys| - 1] && zs[0] == xs[0]
  {
    hide Leads;
    PathJoin(xs, acts, ys, more);
  }

  lemma PathIsLife(xs: seq<Sys>, acts: seq<Act>)
    requires Path(xs, acts) && xs != [] && xs[0] == Empty
    ensures IsLife(Cfg, xs, acts)
  {
    hide Leads;
  }
}
