/** The log as the source writes it: an object whose fields the critical sections
    update, and whose loops walk the segments (internal/wal/wal.go). Each method is
    proved to be a run of steps of the state machine, whatever other goroutines do while it
    has the mutex released, and says what that run means for its caller. */
module WalLog {
  import opened RecordFormat
  import opened SegmentScan
  import opened Wal
  import opened WalShape
  import opened WalHistory
  import opened WalRuns
  import opened WalDurability
  import opened WalCommit
  import opened WalStaged
  import WalOpens

  class Log {
    const cfg: Config
    var disk: Disk
    var mem: Option<Mem>     // the log's own fields, while it is open
    var rounds: seq<Round>

    // history no code reads
    var seen: map<nat, Record>
    var gone: nat
    var tainted: bool

    /** The machine state this object stands for. */
    function View(): State
      reads this
    {
      State(disk, mem, seen, rounds, gone, tainted)
    }

    constructor (cfg: Config, disk: Disk)
      ensures this.cfg == cfg && View() == State(disk, None, map[], [], 0, false)
    {
      this.cfg, this.disk, mem, rounds := cfg, disk, None, [];
      seen, gone, tainted := map[], 0, false;
    }

    /** stage: assigns numbers, claiming them durably first when the block is used up. */
    method StageRecords(payloads: seq<Bytes>, claim: CellWrite) returns (first: nat, ok: bool)
      requires mem.Some? && mem.value.cur < |rounds| && payloads != []
      modifies this`disk, this`mem, this`rounds
      ensures View() == DoStage(cfg, old(View()), payloads, claim)
      ensures first == old(mem.value.nextLSN)
      ensures ok ==> mem.Some? && mem.value.nextLSN == first + |payloads| <= mem.value.reserved + 1
      ensures ok && first + |payloads| - 1 <= old(mem.value.reserved) ==> disk == old(disk)
      ensures ok && first + |payloads| - 1 > old(mem.value.reserved) ==> disk.reserved == mem.value.reserved >= first + RESERVE_BLOCK - 1
      ensures ok ==> Adds(old(View()), View(), payloads)
      ensures !ok ==> mem == old(mem) && rounds == old(rounds)
    {
      hide Frames, ScanBytes, Shape, Adds;
      var m := mem.value;
      first := m.nextLSN;
      var n := |payloads|;
      StageAdds(cfg, View(), payloads, claim);
      var claimed;
      ok, claimed := ClaimNumbers(n, claim);
      if !ok {
        return;
      }
      var pendingMin := if |m.pending| == 0 then first else m.pendingMin;
      var recs := Tagged(payloads, m.cur);
      var enc := Encode(payloads, recs);
      var round := rounds[m.cur];
      rounds := rounds[m.cur := round.(first := if round.recs == [] then first else round.first,
                                       recs := round.recs + recs)];
      mem := Some(m.(reserved := claimed, pending := m.pending + enc, pendingMin := pendingMin,
                     pendingMax := first + n - 1, nextLSN := m.nextLSN + n));
    }

    /** AppendBatch: stages the payloads and waits for their round, on a log whose committer is
        idle. Refused without a trace if one is too large or the log takes no more. Told nil,
        each payload is visible under the number it was promised, unless deleted since; told
        an error, readers see what they saw. */
    method AppendBatch(payloads: seq<Bytes>, claim: CellWrite, io: Script) returns (first: nat, ok: bool, ghost run: Run)
      requires ValidConfig(cfg) && Sane(cfg, View()) && mem.value.pc.Idle?
      modifies this
      ensures Ran(cfg, old(View()), run, View()) && Sane(cfg, View()) && mem.value.pc.Idle?
      ensures payloads == [] ==> ok && View() == old(View())
      ensures payloads != [] && !Takes(cfg, old(mem.value), payloads) ==> !ok && View() == old(View())
      ensures ok && payloads != [] ==> first == old(mem.value.nextLSN)
      ensures ok ==> forall i :: 0 <= i < |payloads| && first + i > gone ==> Shown(View(), first + i, payloads[i])
      ensures ok ==> forall n: nat, r :: Visible(old(View()), n, r) && n > gone ==> Visible(View(), n, r)
      ensures !ok ==> forall n: nat, r :: Visible(View(), n, r) <==> Visible(old(View()), n, r) && n > gone
    {
      hide Frames, Good, Visible, Sane, Quiet, Ran, GoneOk, Bears, Adds, DoStage, InRound, Shown;
      ghost var v0 := View();
      RanNothing(cfg, v0);
      SaneVisible(cfg, v0);
      SaneParts(cfg, v0);
      run := Run([v0], []);
      if |payloads| == 0 {
        return 0, true, run;
      }
      for i := 0 to |payloads|
        invariant forall k :: 0 <= k < i ==> |payloads[k]| <= cfg.maxRecord
      {
        if |payloads[i]| > cfg.maxRecord {
          return 0, false, run;
        }
      }
      if mem.value.closed || mem.value.broken {
        return 0, false, run;
      }
      StageRuns(cfg, v0, payloads, claim);
      StageKeepsView(cfg, v0, payloads, claim);
      first, ok := StageRecords(payloads, claim);
      ghost var v1 := View();
      run := Longer(run, Stage(payloads, claim), v1);
      if !ok {
        return;
      }
      StagedPending(cfg, v0, payloads, claim);
      var outcome;
      ghost var rest;
      outcome, rest := Commit(io);
      RanJoin(cfg, v0, run, v1, rest, View());
      run := Join(run, rest);
      ok := outcome.Done?;
      SaneParts(cfg, v1);
      if ok {
        BearsShown(v1, View(), first, payloads);
      }
    }

    /** Writes the reservation down before numbers above it are handed out. */
    method ClaimNumbers(n: nat, claim: CellWrite) returns (ok: bool, claimed: nat)
      requires mem.Some? && n > 0
      modifies this`disk
      ensures var want := Claim(mem.value, n);
              && (want == mem.value.reserved ==> ok && claimed == want && disk == old(disk))
              && (want != mem.value.reserved ==>
                    && ok == claim.Stored? && (ok ==> claimed == want)
                    && disk == if claim.LostBefore? then old(disk) else old(disk).(reserved := want))
    {
      var m := mem.value;
      var last := m.nextLSN + n - 1;
      if last <= m.reserved {
        return true, m.reserved;
      }
      claimed := Max(last, m.nextLSN + RESERVE_BLOCK - 1);
      if !claim.LostBefore? {
        disk := disk.(reserved := claimed);
      }
      ok := claim.Stored?;
    }

    /** The encode callback of AppendBatchAsync: frames the payloads in order. */
    method Encode(payloads: seq<Bytes>, ghost recs: seq<Record>) returns (enc: Bytes)
      requires |recs| == |payloads|
      requires forall i :: 0 <= i < |recs| ==> recs[i].payload == payloads[i]
      ensures enc == Frames(cfg.crc, recs)
    {
      hide Frame;
      enc := [];
      for i := 0 to |payloads|
        invariant enc == Frames(cfg.crc, recs[..i])
      {
        enc := AppendRecord(cfg.crc, enc, payloads[i], recs[..i], recs[i].round);
        assert recs[..i + 1] == recs[..i] + [Record(payloads[i], recs[i].round)];
      }
      assert recs[..|payloads|] == recs;
    }

    /** Other goroutines act while the mutex is released: stagers, Truncate, Close. */
    method Others(moves: seq<Step>, ghost v0: State, ghost run: Run) returns (ghost done: Run)
      requires ValidConfig(cfg) && Busy(cfg, v0, run, View())
      modifies this`disk, this`mem, this`rounds, this`gone
      ensures Busy(cfg, v0, done, View()) && mem.value.pc == old(mem.value.pc)
      ensures Newest(mem.value) == old(Newest(mem.value))
    {
      hide Busy, Apply, Enabled, Newest;
      done := run;
      BusyLives(cfg, v0, run, View());
      for i := 0 to |moves|
        invariant mem.Some? && old(mem).Some? && Busy(cfg, v0, done, View()) && mem.value.pc == old(mem.value.pc)
        invariant Newest(mem.value) == old(Newest(mem.value))
      {
        var step := moves[i];
        if Besides(step) && Enabled(cfg, View(), step) {
          BusyStep(cfg, v0, done, View(), step);
          BesidesOnly(cfg, View(), step);
          var s := Apply(cfg, View(), step);
          disk, mem, rounds, gone := s.disk, s.mem, s.rounds, s.gone;
          done := Longer(done, step, View());
        }
      }
    }

    /** The rotation of writeBatch: the new segment exists before the old one is synced and
        closed, and a failure in between takes it away again. */
    method Rotate(io: Script, ghost v0: State, ghost run: Run) returns (ok: bool, ghost done: Run)
      requires ValidConfig(cfg) && Busy(cfg, v0, run, View()) && AtPoint(View(), Begin)
      modifies this`disk, this`mem, this`rounds, this`gone
      ensures Busy(cfg, v0, done, View())
      ensures var starts := old(Newest(mem.value)).size > 0
                            && old(Newest(mem.value)).size + |old(mem.value.pc.buf)| > cfg.maxSegment;
              && (ok <==> (starts ==> io.createOk && io.linkOk))
              && (ok ==> Newest(mem.value) == if starts then Seg(old(mem.value.pc.first), old(mem.value.pc.first) - 1, 0, 0)
                                              else old(Newest(mem.value)))
      ensures ok ==> AtPoint(View(), Ready) && mem.value.pc == old(mem.value.pc).(at := Ready)
      ensures !ok ==> mem.value.pc.Failed?
    {
      hide Busy, Frames, Good;
      done := run;
      FirstPositive(cfg, v0, done, View());
      var m := mem.value;
      if !MustRotate(cfg, m) {
        BusyStep(cfg, v0, done, View(), KeepSegment);
        mem := Some(m.(pc := m.pc.(at := Ready)));
        done := Longer(done, KeepSegment, View());
        return true, done;
      }
      ok, done := CreateSegment(io, v0, done);
      if ok {
        done := Others(io.at(1), v0, done);
        ok, done := Link(io, v0, done);
      }
    }

    method CreateSegment(io: Script, ghost v0: State, ghost run: Run) returns (ok: bool, ghost done: Run)
      requires ValidConfig(cfg) && Busy(cfg, v0, run, View()) && AtPoint(View(), Begin) && MustRotate(cfg, mem.value)
      modifies this`disk, this`mem
      ensures Busy(cfg, v0, done, View()) && ok == io.createOk
      ensures ok ==> mem.value.pc == old(mem.value.pc).(at := Created)
      ensures !ok ==> mem.value.pc.Failed?
    {
      hide Busy, Frames, Good;
      done := run;
      var m := mem.value;
      ok := io.createOk;
      if !ok {
        BusyStep(cfg, v0, done, View(), CreateFails);
        mem := Some(m.(pc := Failed(m.pc.first, m.pc.last)));
        done := Longer(done, CreateFails, View());
        return;
      }
      FirstPositive(cfg, v0, done, View());
      BusyStep(cfg, v0, done, View(), CreateNext);
      disk := disk.(files := disk.files + [File(m.pc.first, m.pc.first - 1, [], 0, [])]);
      mem := Some(m.(pc := m.pc.(at := Created)));
      done := Longer(done, CreateNext, View());
    }

    method Link(io: Script, ghost v0: State, ghost run: Run) returns (ok: bool, ghost done: Run)
      requires ValidConfig(cfg) && Busy(cfg, v0, run, View()) && mem.value.pc.Writing? && mem.value.pc.at == Created
      modifies this`disk, this`mem
      ensures Busy(cfg, v0, done, View()) && ok == io.linkOk
      ensures ok ==> AtPoint(View(), Ready) && mem.value.pc == old(mem.value.pc).(at := Ready)
      ensures ok ==> Newest(mem.value) == Seg(mem.value.pc.first, mem.value.pc.first - 1, 0, 0)
      ensures !ok ==> mem.value.pc.Failed?
    {
      hide Busy, Frames, Good;
      done := run;
      TwoFiles(cfg, v0, done, View());
      var m := mem.value;
      var k := |disk.files| - 2;
      var prev, next := disk.files[k], disk.files[k + 1];
      ok := io.linkOk;
      if ok {
        BusyStep(cfg, v0, done, View(), LinkNext);
        disk := disk.(files := disk.files[k := SyncTo(prev, |prev.bytes|)]);
        mem := Some(m.(segs := m.segs + [Seg(next.base, next.prevEnd, 0, 0)], pc := m.pc.(at := Ready)));
        done := Longer(done, LinkNext, View());
        StillActive(cfg, v0, done, View());
      } else {
        BusyStep(cfg, v0, done, View(), LinkFails(io.linkUpTo));
        disk := disk.(files := disk.files[..k + 1][k := SyncTo(prev, io.linkUpTo)]);
        mem := Some(m.(pc := Failed(m.pc.first, m.pc.last)));
        done := Longer(done, LinkFails(io.linkUpTo), View());
      }
    }

    /** The write of writeBatch, which lands as a prefix of the batch, and its fsync. */
    method Append(io: Script, ghost v0: State, ghost run: Run) returns (ok: bool, ghost done: Run)
      requires ValidConfig(cfg) && Busy(cfg, v0, run, View()) && mem.value.pc.Writing? && mem.value.pc.at == Ready
      modifies this`disk, this`mem, this`rounds, this`gone
      ensures Busy(cfg, v0, done, View())
      ensures ok <==> io.writeOk && (cfg.fsync ==> io.syncOk)
      ensures ok ==> AtPoint(View(), Flushed) && mem.value.pc == old(mem.value.pc).(at := Flushed)
      ensures ok ==> Newest(mem.value) == old(Newest(mem.value))
      ensures !ok ==> mem.value.pc.Failed?
    {
      hide Busy, Frames, Good;
      done := run;
      StillActive(cfg, v0, done, View());
      var m := mem.value;
      var k := |m.segs| - m.removed - 1;
      var f := disk.files[k];
      var n := if io.writeOk || io.landed > |m.pc.buf| then |m.pc.buf| else io.landed;
      var step := Write(n, io.writeOk);
      BusyStep(cfg, v0, done, View(), step);
      disk := disk.(files := disk.files[k := f.(bytes := f.bytes + m.pc.buf[..n],
                                                written := f.written + rounds[m.inflight.value].recs)]);
      mem := Some(m.(pc := if io.writeOk then m.pc.(at := Written) else Failed(m.pc.first, m.pc.last)));
      done := Longer(done, step, View());
      if !io.writeOk {
        return false, done;
      }
      done := Others(io.at(3), v0, done);
      ok, done := Fsync(io, v0, done);
    }

    method Fsync(io: Script, ghost v0: State, ghost run: Run) returns (ok: bool, ghost done: Run)
      requires ValidConfig(cfg) && Busy(cfg, v0, run, View()) && mem.value.pc.Writing? && mem.value.pc.at == Written
      modifies this`disk, this`mem
      ensures Busy(cfg, v0, done, View())
      ensures ok <==> (cfg.fsync ==> io.syncOk)
      ensures ok ==> AtPoint(View(), Flushed) && mem.value.pc == old(mem.value.pc).(at := Flushed)
      ensures ok ==> Newest(mem.value) == old(Newest(mem.value))
      ensures !ok ==> mem.value.pc.Failed?
    {
      hide Busy, Frames, Good;
      done := run;
      StillActive(cfg, v0, done, View());
      var m := mem.value;
      var k := |m.segs| - m.removed - 1;
      var f := disk.files[k];
      ok := !cfg.fsync || io.syncOk;
      if ok {
        BusyStep(cfg, v0, done, View(), Sync);
        disk := disk.(files := disk.files[k := if cfg.fsync then SyncTo(f, |f.bytes|) else f]);
        mem := Some(m.(pc := m.pc.(at := Flushed)));
        done := Longer(done, Sync, View());
      } else {
        BusyStep(cfg, v0, done, View(), SyncFails(io.syncUpTo));
        disk := disk.(files := disk.files[k := SyncTo(f, io.syncUpTo)]);
        mem := Some(m.(pc := Failed(m.pc.first, m.pc.last)));
        done := Longer(done, SyncFails(io.syncUpTo), View());
      }
    }

    /** writeBatch: rotates if the batch does not fit, writes, syncs, and publishes size and
        count last. On success the active segment ends with the batch, on stable storage in
        the modes that fsync; either way readers have noticed nothing. */
    method WriteBatch(io: Script, ghost v0: State, ghost run: Run) returns (ok: bool, ghost done: Run)
      requires ValidConfig(cfg) && Busy(cfg, v0, run, View()) && mem.value.pc.Writing? && mem.value.pc.at == Begin
      modifies this`disk, this`mem, this`rounds, this`gone
      ensures Busy(cfg, v0, done, View())
      ensures ok ==> AtPoint(View(), Sized) && Holding(cfg, View())
      ensures var was, pc := old(Newest(mem.value)), old(mem.value.pc);
              var starts := was.size > 0 && was.size + |pc.buf| > cfg.maxSegment;
              && (ok <==> Works(cfg, io, starts))
              && (ok ==> Newest(mem.value) ==
                           if starts then Seg(pc.first, pc.first - 1, |pc.buf|, pc.last - pc.first + 1)
                           else was.(size := was.size + |pc.buf|, count := was.count + (pc.last - pc.first + 1)))
      ensures !ok ==> mem.value.pc.Failed?
      ensures forall n: nat, r :: Visible(View(), n, r) <==> Visible(v0, n, r) && n > gone
    {
      hide Busy, Frames, Good, Visible, Newest, Holding;
      done := run;
      StillActive(cfg, v0, done, View());
      BatchNumbered(cfg, v0, done, View());
      FirstPositive(cfg, v0, done, View());
      ok, done := Rotate(io, v0, done);
      if ok {
        done := Others(io.at(2), v0, done);
        ok, done := Append(io, v0, done);
      }
      if ok {
        done := Others(io.at(4), v0, done);
        done := Publish(v0, done);
      }
      BusyQuiet(cfg, v0, done, View());
    }

    method Publish(ghost v0: State, ghost run: Run) returns (ghost done: Run)
      requires ValidConfig(cfg) && Busy(cfg, v0, run, View()) && mem.value.pc.Writing? && mem.value.pc.at == Flushed
      modifies this`mem
      ensures Busy(cfg, v0, done, View()) && AtPoint(View(), Sized) && Holding(cfg, View())
      ensures var was, pc := old(Newest(mem.value)), old(mem.value.pc);
              && pc.first <= pc.last
              && Newest(mem.value) == was.(size := was.size + |pc.buf|, count := was.count + (pc.last - pc.first + 1))
    {
      hide Busy, Frames, Good;
      StillActive(cfg, v0, run, View());
      BatchNumbered(cfg, v0, run, View());
      BusyStep(cfg, v0, run, View(), PublishSize);
      var m := mem.value;
      var active := m.segs[|m.segs| - 1];
      active := active.(size := active.size + |m.pc.buf|);
      active := active.(count := active.count + (m.pc.last - m.pc.first + 1));
      mem := Some(m.(segs := m.segs[|m.segs| - 1 := active], pc := m.pc.(at := Sized)));
      done := Longer(run, PublishSize, View());
      HoldsBatch(cfg, v0, done, View());
    }

    /** rollback: cuts the active segment back to its last published byte and syncs it. */
    method Rollback(io: Script, ghost v0: State, ghost run: Run) returns (ok: bool, ghost done: Run)
      requires ValidConfig(cfg) && Busy(cfg, v0, run, View()) && mem.value.pc.Failed?
      modifies this`disk, this`mem
      ensures Busy(cfg, v0, done, View()) && mem.value.pc.Undone? && mem.value.pc.ok == ok == (io.cut && io.cutSynced)
      ensures ok ==> |ActiveFile(View()).bytes| == Active(mem.value).size && |ActiveFile(View()).written| == Active(mem.value).count
      ensures ok ==> ActiveFile(View()).synced == |ActiveFile(View()).bytes|
    {
      hide Busy, Frames, Good;
      StillActive(cfg, v0, run, View());
      CutFits(cfg, v0, run, View());
      var m := mem.value;
      var k := |m.segs| - m.removed - 1;
      var active := m.segs[|m.segs| - 1];
      ok := io.cut && io.cutSynced;
      var step := if ok then Step.Rollback else RollbackFails(io.cut);
      BusyStep(cfg, v0, run, View(), step);
      var f := disk.files[k];
      if io.cut {
        f := Truncated(f, active.size, active.count);
      }
      if ok {
        f := SyncTo(f, |f.bytes|);
      }
      disk := disk.(files := disk.files[k := f]);
      mem := Some(m.(pc := Undone(m.pc.first, m.pc.last, ok)));
      done := Longer(run, step, View());
    }

    /** commit: writes everything staged since the last round. If that succeeds the durable
        mark is the batch's last number and what readers see has grown by exactly the batch.
        If it fails readers see what they saw, the numbers are handed out again, and both
        the round and the one filled meanwhile are told so. */
    method Commit(io: Script) returns (outcome: Outcome, ghost run: Run)
      requires ValidConfig(cfg) && Sane(cfg, View()) && mem.value.pc.Idle?
      modifies this
      ensures Ran(cfg, old(View()), run, View()) && Sane(cfg, View()) && mem.value.pc.Idle?
      ensures mem.value.firstRound == old(mem.value.firstRound)
      ensures old(mem.value.closed) && !outcome.Nothing? ==> mem.value.closed && mem.value.pending == []
      ensures outcome.Nothing? <==> old(mem.value.pending) == [] || old(mem.value.broken)
      ensures outcome.Nothing? ==> View() == old(View())
      ensures !outcome.Nothing? ==>
                var was := old(Newest(mem.value));
                (outcome.Done? <==> Works(cfg, io, was.size > 0 && was.size + |old(mem.value.pending)| > cfg.maxSegment))
      ensures !outcome.Nothing? ==> old(mem.value.cur) < |rounds| && |old(rounds)| < |rounds|
      ensures outcome.Done? ==>
                && mem.value.durable == old(mem.value.pendingMax) && rounds[old(mem.value.cur)].verdict.Committed?
                && forall n: nat, r :: Visible(View(), n, r) <==>
                     (Visible(old(View()), n, r) || InRound(old(rounds[mem.value.cur]), n, r)) && n > gone
      ensures outcome.GaveUp? ==>
                && mem.value.nextLSN == old(mem.value.pendingMin) && mem.value.pending == []
                && rounds[old(mem.value.cur)].verdict == (if io.cut && io.cutSynced then RolledBack else Stranded)
                && rounds[|old(rounds)|].verdict.RolledBack?
                && (mem.value.broken <==> !(io.cut && io.cutSynced))
                && forall n: nat, r :: Visible(View(), n, r) <==> Visible(old(View()), n, r) && n > gone
    {
      hide Busy, Frames, Good, Visible, Sane, Quiet, Works;
      ghost var v0 := View();
      SaneParts(cfg, v0);
      run := Run([v0], []);
      var m := mem.value;
      if |m.pending| == 0 || m.broken {
        return Nothing, run;
      }
      TakeBusy(cfg, v0);
      mem := Some(m.(pc := Writing(m.pending, m.pendingMin, m.pendingMax, Begin), inflight := Some(m.cur),
                     cur := |rounds|, pending := [], pendingMin := 0, pendingMax := 0));
      rounds := rounds + [NewRound];
      run := Longer(run, Take, View());
      run := Others(io.at(0), v0, run);
      var ok;
      ok, run := WriteBatch(io, v0, run);
      if !ok {
        run := Others(io.at(5), v0, run);
        ok, run := Rollback(io, v0, run);
        run := Others(io.at(6), v0, run);
        run := Settle(v0, run);
        return GaveUp, run;
      }
      run := Others(io.at(6), v0, run);
      run := Settle(v0, run);
      return Done, run;
    }

    /** The second critical section of commit. */
    method Settle(ghost v0: State, ghost run: Run) returns (ghost done: Run)
      requires ValidConfig(cfg) && Busy(cfg, v0, run, View())
      requires mem.value.pc.Undone? || (mem.value.pc.Writing? && mem.value.pc.at == Sized)
      modifies this`mem, this`rounds, this`seen
      ensures Ran(cfg, v0, done, View()) && Sane(cfg, View()) && mem.value.pc.Idle?
      ensures Concluded(v0, old(mem.value.pc), View())
    {
      hide Busy, Frames, Good, Numbered, Visible, Sane;
      StillActive(cfg, v0, run, View());
      var m := mem.value;
      var r := m.inflight.value;
      ghost var step := if m.pc.Writing? then SettleOk else SettleErr;
      SettleEnds(cfg, v0, run, View());
      if m.pc.Writing? {
        seen := seen + Numbered(m.pc.first, rounds[r].recs);
        rounds := rounds[r := rounds[r].(verdict := Committed)];
        m := m.(durable := m.pc.last);
      } else {
        rounds := rounds[r := rounds[r].(verdict := if m.pc.ok then RolledBack else Stranded)]
                        [m.cur := rounds[m.cur].(verdict := RolledBack)];
        m := m.(cur := |rounds|, pending := [], pendingMin := 0, pendingMax := 0, nextLSN := m.pc.first);
        rounds := rounds + [NewRound];
        if !m.pc.ok {
          m := m.(broken := true);
        }
      }
      mem := Some(m.(inflight := None, pc := Idle));
      done := Longer(run, step, View());
    }

    /** Close: staging stops, the round the committer may be in (`busy`, whose script says
        at which moment Close sets `closed`) ends, a final round drains what is staged, the
        unused part of the reserved block is given back. Every round of this process that holds a
        record has been told its fate, and RESERVED still covers every number that was ever
        visible or is on disk. */
    method CloseLog(busy: Option<Script>, io: Script, claim: CellWrite, synced: bool) returns (ghost run: Run)
      requires ValidConfig(cfg) && Sane(cfg, View()) && mem.value.pc.Idle?
      modifies this
      ensures Ran(cfg, old(View()), run, View()) && mem.None? && Good(cfg, View())
      ensures forall r :: old(mem.value.firstRound) <= r < |rounds| && rounds[r].recs != [] ==> !rounds[r].verdict.Undecided?
      ensures !tainted ==> (forall n :: n in seen ==> n <= disk.reserved)
      ensures !tainted ==> forall i :: 0 <= i < |disk.files| ==> End(disk.files[i]) <= disk.reserved + 1
      ensures synced ==> TailSynced(disk.files)
    {
      hide Frames, Good, Sane, Visible, Ran, Quiet;
      ghost var v0 := View();
      run := StopStaging(busy);
      ghost var v1 := View();
      var outcome;
      ghost var rest;
      outcome, rest := Commit(io);
      RanJoin(cfg, v0, run, v1, rest, View());
      run := Join(run, rest);
      IsDrained(cfg, View());
      run := EndClose(claim, synced, v0, run);
      ClosedTruth(cfg, View());
    }

    /** The beginning of Close: closed is set at the latest when the round in progress is over. */
    method StopStaging(busy: Option<Script>) returns (ghost run: Run)
      requires ValidConfig(cfg) && Sane(cfg, View()) && mem.value.pc.Idle?
      modifies this
      ensures Ran(cfg, old(View()), run, View()) && Sane(cfg, View()) && mem.value.pc.Idle? && mem.value.closed
      ensures mem.value.firstRound == old(mem.value.firstRound)
    {
      hide Frames, Good, Sane, Visible, Ran, Quiet;
      ghost var v0 := View();
      RanNothing(cfg, v0);
      run := Run([v0], []);
      if busy.Some? {
        var outcome;
        outcome, run := Commit(busy.value);
      }
      SaneParts(cfg, View());
      if !mem.value.closed {
        ghost var v1 := View();
        CloseBegins(cfg, v1);
        mem := Some(mem.value.(closed := true));
        RanJoin(cfg, v0, run, v1, Run([v1, View()], [CloseBegin]), View());
        run := Join(run, Run([v1, View()], [CloseBegin]));
      }
    }

    /** The end of Close, on a log nobody writes to any more. */
    method EndClose(claim: CellWrite, synced: bool, ghost v0: State, ghost run: Run) returns (ghost done: Run)
      requires ValidConfig(cfg) && Sane(cfg, View()) && Ran(cfg, v0, run, View()) && Drained(View())
      modifies this`disk, this`mem, this`tainted
      ensures Ran(cfg, v0, done, View()) && Good(cfg, View()) && mem.None?
      ensures rounds == old(rounds) && seen == old(seen)
      ensures tainted <==>
                old(tainted) || (old(mem.value.broken) && disk.reserved < old(mem.value.reserved))
      ensures disk.reserved == (if old(mem.value.reserved) >= old(mem.value.nextLSN) && !claim.LostBefore?
                                then old(mem.value.nextLSN) - 1 else old(disk.reserved))
      ensures synced ==> TailSynced(disk.files)
    {
      hide Frames, Good, GoneOk, Ran;
      done := GiveBack(claim, v0, run);
      var m := mem.value;
      IdleTail(cfg, View());
      RanLonger(cfg, v0, done, View(), CloseEnd(synced));
      GoodStep(cfg, View(), CloseEnd(synced));
      var k := |m.segs| - m.removed - 1;
      var f := disk.files[k];
      disk := disk.(files := disk.files[k := if synced then SyncTo(f, |f.bytes|) else f]);
      mem := None;
      done := Longer(done, CloseEnd(synced), View());
    }

    /** The unused part of the reserved block is given back, as the source does it even
        after a failed rollback. */
    method GiveBack(claim: CellWrite, ghost v0: State, ghost run: Run) returns (ghost done: Run)
      requires ValidConfig(cfg) && Sane(cfg, View()) && Ran(cfg, v0, run, View()) && Drained(View())
      modifies this`disk, this`mem, this`tainted
      ensures Ran(cfg, v0, done, View()) && Sane(cfg, View()) && Drained(View())
      ensures rounds == old(rounds) && seen == old(seen)
      ensures tainted <==>
                old(tainted) || (old(mem.value.broken) && disk.reserved < old(mem.value.reserved))
      ensures disk.reserved == (if old(mem.value.reserved) >= old(mem.value.nextLSN) && !claim.LostBefore?
                                then old(mem.value.nextLSN) - 1 else old(disk.reserved))
    {
      hide Frames, Good, GoneOk, Ran;
      NextPositive(cfg, View());
      RanLonger(cfg, v0, run, View(), CloseReserve(claim));
      SaneStep(cfg, View(), CloseReserve(claim));
      var m := mem.value;
      var handedOut := m.nextLSN - 1;
      if m.reserved > handedOut && !claim.LostBefore? {
        disk := disk.(reserved := handedOut);
        tainted := tainted || m.broken;
        m := m.(reserved := handedOut);
        mem := Some(m);
      }
      done := Longer(run, CloseReserve(claim), View());
    }

    /** Truncate's first critical section: how many leading segments lie below upto. */
    method ChooseDoomed(upto: nat)
      requires Enabled(cfg, View(), TruncateBegin(upto))
      modifies this`mem
      ensures View() == Apply(cfg, old(View()), TruncateBegin(upto))
    {
      hide Frames;
      var segs := mem.value.segs;
      var drop := 0;
      assert segs[0..] == segs;
      while drop < |segs| - 1 && LastLSN(segs[drop]) < upto
        invariant 0 <= drop <= |segs| - 1
        invariant Drop(segs, upto) == drop + Drop(segs[drop..], upto)
        decreases |segs| - drop
      {
        assert segs[drop..][1..] == segs[drop + 1..];
        drop := drop + 1;
      }
      mem := Some(mem.value.(doomed := drop));
    }

    /** Truncate's removal loop and its second critical section: files go first, and a
        segment leaves the list only once its file is gone, however many removals the
        file system allows. */
    method DeleteDoomed(allowed: nat) returns (ghost path: seq<State>)
      requires mem.Some? && mem.value.removed == 0 && mem.value.doomed < |mem.value.segs| <= |disk.files|
      requires forall i :: 0 <= i < |disk.files| ==> disk.files[i].base > 0
      modifies this`disk, this`mem, this`gone
      ensures var m := old(mem).value;
              var k := if allowed < m.doomed then allowed else m.doomed;
              && disk == old(disk).(files := old(disk.files)[k..])
              && mem == Some(m.(segs := m.segs[k..], doomed := 0))
              && gone == (if k == 0 then old(gone) else End(old(disk.files)[k - 1]) - 1)
              && |path| == k + 2 && path[0] == old(View()) && path[k + 1] == View()
              && (forall i :: 0 <= i < k ==> Removes(cfg, path, i))
              && Goes(cfg, path[k], TruncateEnd, path[k + 1])
    {
      hide Goes, Enabled, Apply;
      var m := mem.value;
      ghost var files := disk.files;
      path := [View()];
      while m.removed < m.doomed && m.removed < allowed
        invariant m == old(mem).value.(removed := m.removed)
        invariant m.removed <= m.doomed && m.removed <= allowed
        invariant disk == old(disk).(files := files[m.removed..])
        invariant gone == if m.removed == 0 then old(gone) else End(files[m.removed - 1]) - 1
        invariant |path| == m.removed + 1 && path[0] == old(View())
        invariant path[m.removed] == State(disk, Some(m), seen, rounds, gone, tainted)
        invariant forall i :: 0 <= i < m.removed ==> Removes(cfg, path, i)
        decreases m.doomed - m.removed
      {
        ghost var before := path;
        RemoveGoes(cfg, path[m.removed]);
        gone := End(disk.files[0]) - 1;
        disk := disk.(files := disk.files[1..]);
        m := m.(removed := m.removed + 1);
        path := path + [State(disk, Some(m), seen, rounds, gone, tainted)];
        PathGrows(cfg, before, path);
      }
      EndGoes(cfg, path[m.removed]);
      m := m.(segs := m.segs[m.removed..]);
      mem := Some(m.(removed := 0, doomed := 0));
      ghost var before := path;
      path := path + [View()];
      PathGrows(cfg, before, path);
    }

    /** lastRecordLSN: walks back over empty segments. */
    method NewestRecord(all: seq<Seg>) returns (lsn: nat)
      ensures lsn == LastRecord(all)
    {
      var i := |all|;
      assert all[..i] == all;
      while i > 0
        invariant 0 <= i <= |all|
        invariant LastRecord(all) == LastRecord(all[..i])
      {
        i := i - 1;
        assert all[..i + 1][..i] == all[..i];
        if all[i].count > 0 {
          return all[i].base + all[i].count - 1;
        }
      }
      return 0;
    }

    /** The loop of recover: scans every segment in order, cuts a torn tail off the last
        one, and refuses damage and a broken chain. */
    method WalkSegments() returns (ok: bool, found: seq<Seg>)
      requires ValidConfig(cfg)
      modifies this`disk
      ensures ok ==> OpenableUpTo(cfg, old(disk.files), |old(disk.files)|)
      ensures !ok ==> !Openable(cfg, old(disk.files))
      ensures ok ==> found == SegsOf(cfg, old(disk.files))
      ensures disk == old(disk) || disk == old(disk).(files := Trimmed(cfg, old(disk.files)))
      ensures ok ==> disk == old(disk).(files := Trimmed(cfg, old(disk.files)))
      ensures (exists i :: 0 <= i < |old(disk.files)| && WalOpens.Damaged(cfg, old(disk.files)[i])) ==> !ok && disk == old(disk)
    {
      hide ScanBytes, Openable, WalOpens.Damaged, Trimmed;
      var files := disk.files;
      TrimmedNone(cfg, files);
      ok, found := true, [];
      for i := 0 to |files|
        invariant ok && disk == old(disk).(files := if i == |files| then Trimmed(cfg, files) else files)
        invariant found == SegsOf(cfg, files[..i])
        invariant OpenableUpTo(cfg, files, i)
        invariant i == |files| ==> forall k :: 0 <= k < |files| ==> !WalOpens.Damaged(cfg, files[k])
      {
        var s;
        ok, s := Examine(i);
        if !ok {
          return false, [];
        }
        NotOpenable(cfg, files, i);
        if i > 0 && LastLSN(found[i - 1]) != s.prevEnd {
          return false, [];
        }
        found := found + [s];
      }
      assert files[..|files|] == files;
    }

    /** One segment: scanned, refused if it is damaged, and cut at a torn tail if it is the
        last one. */
    method Examine(i: nat) returns (ok: bool, s: Seg)
      requires ValidConfig(cfg) && i < |disk.files| && OpenableUpTo(cfg, disk.files, i)
      modifies this`disk
      ensures ok <==> Accepted(cfg, old(disk.files), i)
      ensures !ok ==> disk == old(disk) && !Openable(cfg, old(disk.files))
      ensures ok ==> s == SegOf(cfg, old(disk.files)[i])
      ensures ok && i < |old(disk.files)| - 1 ==> disk == old(disk)
      ensures ok && i == |old(disk.files)| - 1 ==>
                && disk == old(disk).(files := Trimmed(cfg, old(disk.files)))
                && forall k :: 0 <= k <= i ==> !WalOpens.Damaged(cfg, old(disk.files)[k])
    {
      hide ScanBytes, Openable, WalOpens.Damaged;
      var files := disk.files;
      var report := ScanSegment(cfg.crc, cfg.maxRecord, files[i].bytes);
      var last := i == |files| - 1;
      NotOpenable(cfg, files, i);
      s := Seg(files[i].base, files[i].prevEnd, 0, 0);
      if report.TooLarge? || report.Corrupt? || (report.Torn? && !last) {
        return false, s;
      }
      s := Seg(files[i].base, files[i].prevEnd, report.good, report.count);
      if last {
        NoneDamaged(cfg, files);
        // A clean file loses nothing here.
        disk := disk.(files := files[i := Truncated(files[i], report.good, report.count)]);
      }
      ok := true;
    }

    /** recover's switch: resume above the reservation, or in the last segment. */
    method ResumeAt(found: seq<Seg>) returns (all: seq<Seg>)
      requires found == SegsOf(cfg, disk.files)
      modifies this`disk
      ensures disk == old(disk).(files := Resumed(cfg, old(disk.files), old(disk.reserved)))
      ensures all == SegsOf(cfg, disk.files) && all != []
    {
      hide FirstFrame;
      assert ScanBytes(cfg.crc, cfg.maxRecord, []) == Clean(0, 0);
      all := found;
      if |all| == 0 {
        disk := disk.(files := [File(disk.reserved + 1, 0, [], 0, [])]);
        all := [Seg(disk.reserved + 1, 0, 0, 0)];
      } else {
        var tail := LastLSN(all[|all| - 1]);
        if disk.reserved > tail && tail >= 0 {
          disk := disk.(files := disk.files + [File(disk.reserved + 1, tail, [], 0, [])]);
          all := all + [Seg(disk.reserved + 1, tail, 0, 0)];
        }
      }
    }

    /** The fields a freshly opened log starts with. */
    method Install(all: seq<Seg>)
      requires mem.None? && all != []
      modifies this`mem, this`rounds, this`seen
      ensures View() == old(View()).(seen := old(seen) + Contents(disk.files), rounds := old(rounds) + [NewRound],
                                     mem := Some(OpenMem(all, disk.reserved, |old(rounds)|)))
    {
      hide Contents, LastRecord;
      var active := all[|all| - 1];
      var durable := NewestRecord(all);
      mem := Some(Mem(all, active.base + active.count, disk.reserved, [], 0, 0, durable, false, |rounds|, None, false,
                      Idle, 0, 0, |rounds|));
      seen := seen + Contents(disk.files);
      rounds := rounds + [NewRound];
    }

    /** recover: walks the segments and resumes above both the tail and the reservation. It
        succeeds exactly on directories whose files are nothing but intact records, the last
        one up to a torn write, linked; a damaged one is refused and left as it was. */
    method RecoverLog() returns (ok: bool)
      requires ValidConfig(cfg) && mem.None?
      modifies this
      ensures ok <==> exists runs :: WalOpens.OpensAs(cfg, old(disk.files), runs)
      ensures (exists i :: 0 <= i < |old(disk.files)| && WalOpens.Damaged(cfg, old(disk.files)[i])) ==> !ok && View() == old(View())
      ensures ok <==> Openable(cfg, old(disk.files))
      ensures ok ==> View() == DoRecover(cfg, old(View()))
      ensures !ok ==>
                || View() == old(View())
                || View() == old(View()).(disk := old(disk).(files := Trimmed(cfg, old(disk.files))))
    {
      hide Frames, ScanBytes, Contents, LastRecord, Trimmed, Resumed, Openable, OpenableUpTo, SegsOf, WalOpens.OpensAs, WalOpens.Damaged;
      ghost var files := disk.files;
      WalOpens.OpenableIff(cfg, files);
      var found;
      ok, found := WalkSegments();
      if !ok {
        return;
      }
      OpenableAll(cfg, files);
      var all := ResumeAt(found);
      Install(all);
    }
  }

  // ---- appending ------------------------------------------------------------------

  /** stage and AppendBatchAsync accept the payloads. */
  predicate Takes(cfg: Config, m: Mem, payloads: seq<Bytes>) {
    !m.closed && !m.broken && forall i :: 0 <= i < |payloads| ==> |payloads[i]| <= cfg.maxRecord
  }

  /** The current round has grown by exactly these payloads, in order, and no other round
      has changed. */
  ghost predicate Adds(s: State, s': State, payloads: seq<Bytes>) {
    && s.mem.Some? && s'.mem.Some? && s'.mem.value.cur == s.mem.value.cur < |s.rounds| == |s'.rounds|
    && var c := s.mem.value.cur;
       var before, after := s.rounds[c].recs, s'.rounds[c].recs;
       && (forall r :: 0 <= r < |s.rounds| && r != c ==> s'.rounds[r] == s.rounds[r])
       && |after| == |before| + |payloads| && before <= after
       && forall i :: 0 <= i < |payloads| ==> after[|before| + i].payload == payloads[i]
  }

  lemma StageAdds(cfg: Config, s: State, payloads: seq<Bytes>, claim: CellWrite)
    requires s.mem.Some? && s.mem.value.cur < |s.rounds| && payloads != []
    ensures var s' := DoStage(cfg, s, payloads, claim);
            s'.mem == s.mem || Adds(s, s', payloads)
  {
    hide Frames, Tagged;
  }

  /** A reader can be given this payload under n. */
  ghost predicate Shown(s: State, n: nat, payload: Bytes) {
    exists r :: Visible(s, n, r) && r.payload == payload
  }

  lemma SaneVisible(cfg: Config, s: State)
    requires Sane(cfg, s)
    ensures forall n: nat, r :: Visible(s, n, r) ==> n > s.gone
  {
    hide Good, GoneOk, Visible;
    forall n: nat, r | Visible(s, n, r) ensures n > s.gone {
      VisibleAboveGone(cfg, s, n, r);
    }
  }

  lemma StageRuns(cfg: Config, s: State, payloads: seq<Bytes>, claim: CellWrite)
    requires ValidConfig(cfg) && Sane(cfg, s) && Enabled(cfg, s, Stage(payloads, claim))
    ensures var s' := DoStage(cfg, s, payloads, claim);
            Ran(cfg, s, Longer(Run([s], []), Stage(payloads, claim), s'), s') && Sane(cfg, s')
  {
    hide Good, GoneOk, Enabled, DoStage, Ran;
    RanNothing(cfg, s);
    RanLonger(cfg, s, Run([s], []), s, Stage(payloads, claim));
    StageLives(cfg, s, payloads, claim);
    SaneStep(cfg, s, Stage(payloads, claim));
  }

  lemma StageLives(cfg: Config, s: State, payloads: seq<Bytes>, claim: CellWrite)
    requires Enabled(cfg, s, Stage(payloads, claim))
    ensures DoStage(cfg, s, payloads, claim).mem.Some?
  {
    hide Frames, Tagged;
  }

  lemma StageKeepsView(cfg: Config, s: State, payloads: seq<Bytes>, claim: CellWrite)
    requires ValidConfig(cfg) && Sane(cfg, s) && Enabled(cfg, s, Stage(payloads, claim))
    ensures var s' := DoStage(cfg, s, payloads, claim);
            && s'.gone == s.gone && s'.mem.Some? && s'.mem.value.pc == s.mem.value.pc
            && forall n: nat, r :: Visible(s', n, r) <==> Visible(s, n, r)
  {
    hide Good, GoneOk, Visible, Frames, Tagged;
    var s' := DoStage(cfg, s, payloads, claim);
    forall n: nat, r ensures Visible(s', n, r) <==> Visible(s, n, r) {
      FlatMapStep(cfg, s, Stage(payloads, claim), n, r);
    }
  }

  /** Once staged, the payloads wait in the current round. */
  lemma StagedPending(cfg: Config, s: State, payloads: seq<Bytes>, claim: CellWrite)
    requires ValidConfig(cfg) && Sane(cfg, s) && Enabled(cfg, s, Stage(payloads, claim))
    requires Staged(s, Stage(payloads, claim), DoStage(cfg, s, payloads, claim))
    ensures var s' := DoStage(cfg, s, payloads, claim);
            && Bears(s', s.mem.value.cur, s.mem.value.nextLSN, payloads) && s'.mem.value.cur == s.mem.value.cur
            && s'.mem.value.pending != [] && !s'.mem.value.broken
  {
    hide Good, GoneOk, Tagged, Bears, ScanBytes;
    var m := s.mem.value;
    StagedBears(cfg, s, Stage(payloads, claim));
    FramesLowerBound(cfg.crc, Tagged(payloads, m.cur));
    hide Frames;
  }

  /** What a committed round bears is shown. */
  lemma BearsShown(s: State, s': State, first: nat, payloads: seq<Bytes>)
    requires s.mem.Some? && s.mem.value.cur < |s.rounds| && Bears(s, s.mem.value.cur, first, payloads)
    requires forall n: nat, r :: Visible(s', n, r) <==>
               (Visible(s, n, r) || InRound(s.rounds[s.mem.value.cur], n, r)) && n > s'.gone
    ensures forall i :: 0 <= i < |payloads| && first + i > s'.gone ==> Shown(s', first + i, payloads[i])
  {
    hide Visible;
    var round := s.rounds[s.mem.value.cur];
    forall i | 0 <= i < |payloads| && first + i > s'.gone ensures Shown(s', first + i, payloads[i]) {
      var rec := round.recs[first - round.first + i];
      assert InRound(round, first + i, rec);
      assert Visible(s', first + i, rec);
    }
  }

  // ---- truncation and recovery ---------------------------------------------------------

  /** Step i of the path removes a file. */
  ghost predicate Removes(cfg: Config, path: seq<State>, i: nat) {
    i + 1 < |path| && Goes(cfg, path[i], TruncateRemove, path[i + 1])
  }

  /** Removing the first file is the machine's step. */
  lemma RemoveGoes(cfg: Config, s: State)
    requires s.mem.Some? && s.mem.value.removed < s.mem.value.doomed < |s.mem.value.segs|
    requires |s.mem.value.segs| - s.mem.value.removed <= |s.disk.files| && s.disk.files[0].base > 0
    ensures var f := s.disk.files[0];
            Goes(cfg, s, TruncateRemove,
                 s.(disk := s.disk.(files := s.disk.files[1..]), gone := End(f) - 1,
                    mem := Some(s.mem.value.(removed := s.mem.value.removed + 1))))
  {
    hide Frames, ScanBytes;
  }

  lemma EndGoes(cfg: Config, s: State)
    requires s.mem.Some? && s.mem.value.removed < |s.mem.value.segs|
    requires |s.mem.value.segs| - s.mem.value.removed <= |s.disk.files|
    ensures var m := s.mem.value;
            Goes(cfg, s, TruncateEnd, s.(mem := Some(m.(segs := m.segs[m.removed..], removed := 0, doomed := 0))))
  {
    hide Frames, ScanBytes;
  }

  lemma PathGrows(cfg: Config, before: seq<State>, after: seq<State>)
    requires before <= after
    ensures forall i :: 0 <= i && Removes(cfg, before, i) ==> Removes(cfg, after, i)
  {
    hide Goes;
  }

  /** The checks made so far by the walk over the first n files. */
  ghost predicate OpenableUpTo(cfg: Config, files: seq<File>, n: nat)
    requires n <= |files|
  {
    && (forall i :: 0 <= i < n ==>
          (ScanFile(cfg, files[i]).Clean? || (ScanFile(cfg, files[i]).Torn? && i == |files| - 1)))
    && (forall i, j :: 0 <= i < n && 0 <= j < n && j == i + 1 ==>
          files[i].base + ScanFile(cfg, files[i]).count == files[j].prevEnd + 1)
  }

  lemma TrimmedNone(cfg: Config, files: seq<File>)
    ensures files == [] ==> Trimmed(cfg, files) == files
  {
  }

  /** The walk can go on behind file i. */
  ghost predicate Accepted(cfg: Config, files: seq<File>, i: nat)
    requires i < |files|
  {
    ScanFile(cfg, files[i]).Clean? || (ScanFile(cfg, files[i]).Torn? && i == |files| - 1)
  }

  /** What a failed check at file i says about the whole directory. */
  lemma NotOpenable(cfg: Config, files: seq<File>, i: nat)
    requires i < |files|
    ensures var r := ScanFile(cfg, files[i]);
            r.TooLarge? || r.Corrupt? || (r.Torn? && i != |files| - 1) ==> !Openable(cfg, files)
    ensures i > 0 && !ScanFile(cfg, files[i - 1]).TooLarge? ==>
              files[i - 1].base + ScanFile(cfg, files[i - 1]).count != files[i].prevEnd + 1 ==> !Openable(cfg, files)
  {
    hide ScanBytes;
    if i > 0 {
      var k := i - 1;
      assert Openable(cfg, files) ==> files[k].base + ScanFile(cfg, files[k]).count == files[i].prevEnd + 1;
    }
  }

  lemma OpenableAll(cfg: Config, files: seq<File>)
    requires ValidConfig(cfg) && OpenableUpTo(cfg, files, |files|)
    ensures Openable(cfg, files) && SegsOf(cfg, Trimmed(cfg, files)) == SegsOf(cfg, files)
  {
    hide ScanBytes, Frames, Parse, WalOpens.Holding;
    if files != [] {
      var k := |files| - 1;
      var rs := Parse(cfg.crc, cfg.maxRecord, files[k].bytes);
      WalOpens.ScansHold(cfg, files[k], true);
      WalOpens.HoldingScans(cfg, files[k], rs, true);
      WalOpens.RunScans(cfg, Trimmed(cfg, files)[k], rs);
    }
  }

  /** Once the walk accepts the last file, no file is damaged. */
  lemma NoneDamaged(cfg: Config, files: seq<File>)
    requires ValidConfig(cfg) && files != [] && OpenableUpTo(cfg, files, |files| - 1)
    requires !ScanFile(cfg, files[|files| - 1]).Corrupt? && !ScanFile(cfg, files[|files| - 1]).TooLarge?
    ensures forall i :: 0 <= i < |files| ==> !WalOpens.Damaged(cfg, files[i])
  {
    hide ScanBytes, WalOpens.Damaged;
    forall i | 0 <= i < |files| ensures !WalOpens.Damaged(cfg, files[i]) {
      if WalOpens.Damaged(cfg, files[i]) {
        WalOpens.DamageRefused(cfg, files, i);
      }
    }
  }
}
