/** The write-ahead log as a state machine (internal/wal/wal.go).

    A state holds the directory (`disk`), the memory of the process that has it open
    (`mem`, absent while nobody does), and history that no code reads. Every step is
    one critical section of the log's mutex or one effect on a file, so steps of the
    committer, of stagers, of Truncate and of Close interleave freely, and a crash can
    fall between any two of them. I/O outcomes are part of the step. */
module Wal {
  import opened RecordFormat
  import opened SegmentScan

  datatype Option<+T> = None | Some(value: T)

  /** reserveBlock (reservation.go) */
  const RESERVE_BLOCK: nat := 1048576

  datatype Config = Config(crc: Checksum, maxRecord: nat, maxSegment: nat, fsync: bool)

  ghost predicate ValidConfig(cfg: Config) {
    cfg.maxRecord <= MAX_RECORD_LIMIT
  }

  /** A segment file. The first `synced` bytes are on stable storage. `written` is
      history: the records whose frames the bytes are a prefix of. */
  datatype File = File(base: nat, prevEnd: nat, bytes: Bytes, synced: nat, written: seq<Record>)

  /** The directory: segment files in base order and the RESERVED cell. */
  datatype Disk = Disk(files: seq<File>, reserved: nat)

  /** segment (segment.go): what the process knows of a file. */
  datatype Seg = Seg(base: nat, prevEnd: nat, size: nat, count: nat)

  /** lastLSN (segment.go): the final record's number, base-1 when empty. */
  function LastLSN(g: Seg): int {
    g.base + g.count - 1
  }

  /** What the appenders of a round were told: nothing yet, nil, or an error. After an
      error the round's frames have been cut off, or are stranded in the file because
      the rollback failed. */
  datatype Verdict = Undecided | Committed | RolledBack | Stranded

  predicate ToldError(v: Verdict) {
    v.RolledBack? || v.Stranded?
  }

  /** A commit round: the records staged into it, numbered from `first`. */
  datatype Round = Round(first: nat, recs: seq<Record>, verdict: Verdict)

  /** How far writeBatch has come. */
  datatype Point = Begin | Created | Ready | Written | Flushed | Sized

  /** Where the committer goroutine is. */
  datatype Committer =
    | Idle
    | Writing(buf: Bytes, first: nat, last: nat, at: Point)
    | Failed(first: nat, last: nat)             // writeBatch returned an error
    | Undone(first: nat, last: nat, ok: bool)   // rollback has run

  datatype Mem = Mem(
    segs: seq<Seg>, nextLSN: nat, reserved: nat,
    pending: Bytes, pendingMin: nat, pendingMax: nat,
    durable: nat, closed: bool, cur: nat, inflight: Option<nat>, broken: bool,
    pc: Committer,
    doomed: nat, removed: nat,   // Truncate: segments to delete, and files already gone
    firstRound: nat)             // rounds before this one belong to earlier processes

  /** `seen` holds every record a reader could ever see, under its number; `gone` is
      the last number Truncate has deleted; `tainted` says that some Close of a log whose
      rollback had failed gave RESERVED back. */
  datatype State = State(
    disk: Disk, mem: Option<Mem>,
    seen: map<nat, Record>, rounds: seq<Round>, gone: nat, tainted: bool)

  const Fresh := State(Disk([], 0), None, map[], [], 0, false)

  /** What became of a rename-replaced cell. */
  datatype CellWrite = Stored | LostBefore | LostAfter

  datatype Step =
    | Stage(payloads: seq<Bytes>, claim: CellWrite)
    | Take
    | CreateFails
    | CreateNext
    | LinkNext
    | LinkFails(upTo: nat)
    | KeepSegment
    | Write(n: nat, ok: bool)
    | Sync
    | SyncFails(upTo: nat)
    | PublishSize
    | SettleOk
    | Rollback
    | RollbackFails(cut: bool)
    | SettleErr
    | TruncateBegin(upto: nat)
    | TruncateRemove
    | TruncateEnd
    | CloseBegin
    | CloseReserve(claim: CellWrite)
    | CloseEnd(synced: bool)
    | ProcessCrash
    | MachineCrash(kept: seq<nat>)
    | TrimTail
    | Recover

  // ---- staging -----------------------------------------------------------

  function Tagged(payloads: seq<Bytes>, round: nat): (rs: seq<Record>)
    ensures |rs| == |payloads|
    ensures forall i :: 0 <= i < |rs| ==> rs[i] == Record(payloads[i], round)
  {
    seq(|payloads|, i requires 0 <= i < |payloads| => Record(payloads[i], round))
  }

  function Max(a: int, b: int): int { if a < b then b else a }

  /** stage claims numbers durably before handing them out, a block at a time. */
  function Claim(m: Mem, n: nat): nat {
    var last := m.nextLSN + n - 1;
    if last > m.reserved then Max(last, m.nextLSN + RESERVE_BLOCK - 1) else m.reserved
  }

  function DoStage(cfg: Config, s: State, payloads: seq<Bytes>, claim: CellWrite): State
    requires s.mem.Some? && s.mem.value.cur < |s.rounds| && payloads != []
  {
    var m := s.mem.value;
    var n := |payloads|;
    var want := Claim(m, n);
    var claims := want != m.reserved;
    if claims && !claim.Stored? then
      s.(disk := s.disk.(reserved := if claim.LostAfter? then want else s.disk.reserved))
    else
      var recs := Tagged(payloads, m.cur);
      var round := s.rounds[m.cur];
      s.(disk := s.disk.(reserved := if claims then want else s.disk.reserved),
         rounds := s.rounds[m.cur := round.(first := if round.recs == [] then m.nextLSN else round.first,
                                            recs := round.recs + recs)],
         mem := Some(m.(reserved := want,
                        pending := m.pending + Frames(cfg.crc, recs),
                        pendingMin := if m.pending == [] then m.nextLSN else m.pendingMin,
                        pendingMax := m.nextLSN + n - 1,
                        nextLSN := m.nextLSN + n)))
  }

  // ---- the committer -----------------------------------------------------

  const NewRound := Round(0, [], Undecided)

  /** The first critical section of commit. */
  function DoTake(s: State): State
    requires s.mem.Some?
  {
    var m := s.mem.value;
    s.(rounds := s.rounds + [NewRound],
       mem := Some(m.(pc := Writing(m.pending, m.pendingMin, m.pendingMax, Begin),
                      inflight := Some(m.cur), cur := |s.rounds|,
                      pending := [], pendingMin := 0, pendingMax := 0)))
  }

  function Active(m: Mem): Seg
    requires m.segs != []
  {
    m.segs[|m.segs| - 1]
  }

  /** The segments whose files are still in the directory. */
  function Alive(m: Mem): seq<Seg>
    requires m.removed <= |m.segs|
  {
    m.segs[m.removed..]
  }

  /** Position of the active segment's file in the directory. */
  function ActiveIndex(m: Mem): int {
    |m.segs| - m.removed - 1
  }

  predicate MustRotate(cfg: Config, m: Mem)
    requires m.segs != [] && m.pc.Writing?
  {
    Active(m).size > 0 && Active(m).size + |m.pc.buf| > cfg.maxSegment
  }

  function At(m: Mem, point: Point): Mem
    requires m.pc.Writing?
  {
    m.(pc := m.pc.(at := point))
  }

  function Fail(m: Mem): Mem
    requires m.pc.Writing?
  {
    m.(pc := Failed(m.pc.first, m.pc.last))
  }

  function DoCreateNext(s: State): State
    requires s.mem.Some? && s.mem.value.pc.Writing? && s.mem.value.pc.first > 0
  {
    var m := s.mem.value;
    var next := File(m.pc.first, m.pc.first - 1, [], 0, []);
    s.(disk := s.disk.(files := s.disk.files + [next]), mem := Some(At(m, Created)))
  }

  function SyncTo(f: File, n: nat): File {
    f.(synced := if f.synced <= n <= |f.bytes| then n else f.synced)
  }

  /** The old segment is synced and closed, then the new one becomes active. */
  function DoLinkNext(s: State): State
    requires s.mem.Some? && s.mem.value.pc.Writing? && |s.disk.files| >= 2
  {
    var m := s.mem.value;
    var prev := s.disk.files[|s.disk.files| - 2];
    var next := s.disk.files[|s.disk.files| - 1];
    s.(disk := s.disk.(files := s.disk.files[|s.disk.files| - 2 := SyncTo(prev, |prev.bytes|)]),
       mem := Some(At(m, Ready).(segs := m.segs + [Seg(next.base, next.prevEnd, 0, 0)])))
  }

  /** A rotation that fails half-way takes the new file away again. */
  function DoLinkFails(s: State, upTo: nat): State
    requires s.mem.Some? && s.mem.value.pc.Writing? && |s.disk.files| >= 2
  {
    var files := s.disk.files[..|s.disk.files| - 1];
    s.(disk := s.disk.(files := files[|files| - 1 := SyncTo(files[|files| - 1], upTo)]),
       mem := Some(Fail(s.mem.value)))
  }

  function WithActive(s: State, f: File): State
    requires s.mem.Some? && 0 <= ActiveIndex(s.mem.value) < |s.disk.files|
  {
    s.(disk := s.disk.(files := s.disk.files[ActiveIndex(s.mem.value) := f]))
  }

  function ActiveFile(s: State): File
    requires s.mem.Some? && 0 <= ActiveIndex(s.mem.value) < |s.disk.files|
  {
    s.disk.files[ActiveIndex(s.mem.value)]
  }

  predicate HasActive(s: State) {
    && s.mem.Some?
    && s.mem.value.segs != []
    && 0 <= ActiveIndex(s.mem.value) < |s.disk.files|
  }

  predicate Flying(s: State) {
    && HasActive(s)
    && s.mem.value.inflight.Some? && s.mem.value.inflight.value < |s.rounds|
  }

  function InFlight(s: State): Round
    requires Flying(s)
  {
    s.rounds[s.mem.value.inflight.value]
  }

  /** The write lands as a prefix of the batch; short of all of it is an error. */
  function DoWrite(s: State, n: nat, ok: bool): State
    requires Flying(s) && s.mem.value.pc.Writing? && n <= |s.mem.value.pc.buf|
  {
    var m := s.mem.value;
    var f := ActiveFile(s);
    WithActive(s, f.(bytes := f.bytes + m.pc.buf[..n], written := f.written + InFlight(s).recs))
      .(mem := Some(if ok then At(m, Written) else Fail(m)))
  }

  function DoSync(cfg: Config, s: State): State
    requires HasActive(s) && s.mem.value.pc.Writing?
  {
    var f := ActiveFile(s);
    WithActive(s, if cfg.fsync then SyncTo(f, |f.bytes|) else f).(mem := Some(At(s.mem.value, Flushed)))
  }

  /** Publishing size and count is the last thing writeBatch does. */
  function DoPublishSize(s: State): State
    requires HasActive(s) && s.mem.value.pc.Writing? && s.mem.value.pc.first <= s.mem.value.pc.last
  {
    var m := s.mem.value;
    var a := Active(m);
    var grown := a.(size := a.size + |m.pc.buf|, count := a.count + (m.pc.last - m.pc.first + 1));
    s.(mem := Some(At(m, Sized).(segs := m.segs[|m.segs| - 1 := grown])))
  }

  function Numbered(first: nat, recs: seq<Record>): (r: map<nat, Record>)
    ensures forall n :: n in r <==> first <= n < first + |recs|
    ensures forall n :: n in r ==> r[n] == recs[n - first]
  {
    if recs == [] then map[]
    else
      var k := |recs| - 1;
      Numbered(first, recs[..k])[first + k := recs[k]]
  }

  /** commit's second critical section after a successful write. */
  function DoSettleOk(s: State): State
    requires Flying(s) && s.mem.value.pc.Writing?
  {
    var m := s.mem.value;
    s.(seen := s.seen + Numbered(m.pc.first, InFlight(s).recs),
       rounds := s.rounds[m.inflight.value := InFlight(s).(verdict := Committed)],
       mem := Some(m.(durable := m.pc.last, inflight := None, pc := Idle)))
  }

  function Truncated(f: File, size: nat, count: nat): File {
    f.(bytes := if size <= |f.bytes| then f.bytes[..size] else f.bytes,
       synced := if f.synced <= size then f.synced else size,
       written := if count <= |f.written| then f.written[..count] else f.written)
  }

  function DoRollback(s: State): State
    requires HasActive(s) && s.mem.value.pc.Failed?
  {
    var m := s.mem.value;
    var cut := Truncated(ActiveFile(s), Active(m).size, Active(m).count);
    WithActive(s, SyncTo(cut, |cut.bytes|)).(mem := Some(m.(pc := Undone(m.pc.first, m.pc.last, true))))
  }

  /** The cut or its fsync failed: the segment may still hold a fragment. */
  function DoRollbackFails(s: State, cut: bool): State
    requires HasActive(s) && s.mem.value.pc.Failed?
  {
    var m := s.mem.value;
    var f := ActiveFile(s);
    WithActive(s, if cut then Truncated(f, Active(m).size, Active(m).count) else f)
      .(mem := Some(m.(pc := Undone(m.pc.first, m.pc.last, false))))
  }

  /** commit's second critical section after a failed write: everything staged
      meanwhile goes too, and the numbers are handed out again. */
  function DoSettleErr(s: State): State
    requires Flying(s) && s.mem.value.pc.Undone? && s.mem.value.cur < |s.rounds|
  {
    var m := s.mem.value;
    var told := if m.pc.ok then RolledBack else Stranded;
    var decided := s.rounds[m.inflight.value := InFlight(s).(verdict := told)]
                           [m.cur := s.rounds[m.cur].(verdict := RolledBack)];
    s.(rounds := decided + [NewRound],
       mem := Some(m.(cur := |s.rounds|, inflight := None,
                      pending := [], pendingMin := 0, pendingMax := 0,
                      nextLSN := m.pc.first, broken := m.broken || !m.pc.ok, pc := Idle)))
  }

  // ---- truncation --------------------------------------------------------

  /** How many leading segments, never the active one, lie wholly below upto. */
  function Drop(segs: seq<Seg>, upto: nat): (d: nat)
    ensures d <= |segs| && (segs != [] ==> d < |segs|)
    ensures forall i :: 0 <= i < d ==> LastLSN(segs[i]) < upto
    ensures segs != [] && d < |segs| - 1 ==> LastLSN(segs[d]) >= upto
  {
    if |segs| <= 1 || LastLSN(segs[0]) >= upto then 0 else 1 + Drop(segs[1..], upto)
  }

  function DoTruncateRemove(s: State): State
    requires s.mem.Some? && s.disk.files != [] && s.disk.files[0].base > 0
  {
    var f := s.disk.files[0];
    s.(disk := s.disk.(files := s.disk.files[1..]),
       gone := f.base + |f.written| - 1,
       mem := Some(s.mem.value.(removed := s.mem.value.removed + 1)))
  }

  function DoTruncateEnd(s: State): State
    requires s.mem.Some? && s.mem.value.removed <= |s.mem.value.segs|
  {
    var m := s.mem.value;
    s.(mem := Some(m.(segs := m.segs[m.removed..], removed := 0, doomed := 0)))
  }

  // ---- shutdown ----------------------------------------------------------

  /** A clean shutdown gives the unused part of the block back. */
  function DoCloseReserve(s: State, claim: CellWrite): State
    requires s.mem.Some? && s.mem.value.nextLSN > 0
  {
    var m := s.mem.value;
    var handedOut := m.nextLSN - 1;
    if m.reserved > handedOut && !claim.LostBefore? then
      s.(disk := s.disk.(reserved := handedOut), mem := Some(m.(reserved := handedOut)),
         tainted := s.tainted || m.broken)
    else
      s
  }

  function DoCloseEnd(s: State, synced: bool): State
    requires HasActive(s)
  {
    var f := ActiveFile(s);
    WithActive(s, if synced then SyncTo(f, |f.bytes|) else f).(mem := None)
  }

  // ---- crashes and recovery ----------------------------------------------

  function Survive(f: File, n: nat): File {
    f.(bytes := if n <= |f.bytes| then f.bytes[..n] else f.bytes,
       synced := if n <= |f.bytes| then n else f.synced)
  }

  /** A machine crash keeps at least what is on stable storage of each file. */
  predicate CrashKeeps(files: seq<File>, kept: seq<nat>) {
    && |kept| == |files|
    && forall i :: 0 <= i < |kept| ==> files[i].synced <= kept[i] <= |files[i].bytes|
  }

  function Survivors(files: seq<File>, kept: seq<nat>): (r: seq<File>)
    ensures |r| == |files|
    ensures forall i :: 0 <= i < |files| && i < |kept| ==> r[i] == Survive(files[i], kept[i])
  {
    seq(|files|, i requires 0 <= i < |files| => if i < |kept| then Survive(files[i], kept[i]) else files[i])
  }

  function DoMachineCrash(s: State, kept: seq<nat>): State {
    s.(mem := None, disk := s.disk.(files := Survivors(s.disk.files, kept)))
  }

  function ScanFile(cfg: Config, f: File): Report {
    ScanBytes(cfg.crc, cfg.maxRecord, f.bytes)
  }

  /** The checks recover makes while it walks the segments. */
  predicate Openable(cfg: Config, files: seq<File>) {
    && (forall i :: 0 <= i < |files| ==>
          (ScanFile(cfg, files[i]).Clean? || (ScanFile(cfg, files[i]).Torn? && i == |files| - 1)))
    && (forall i, j :: 0 <= i < |files| && 0 <= j < |files| && j == i + 1 ==>
          files[i].base + ScanFile(cfg, files[i]).count == files[j].prevEnd + 1)
  }

  function SegOf(cfg: Config, f: File): Seg {
    var r := ScanFile(cfg, f);
    if r.TooLarge? then Seg(f.base, f.prevEnd, 0, 0) else Seg(f.base, f.prevEnd, r.good, r.count)
  }

  function SegsOf(cfg: Config, files: seq<File>): (segs: seq<Seg>)
    ensures |segs| == |files|
    ensures forall i :: 0 <= i < |segs| ==> segs[i] == SegOf(cfg, files[i])
  {
    seq(|files|, i requires 0 <= i < |files| => SegOf(cfg, files[i]))
  }

  /** A torn tail is cut off the last segment. */
  function Trimmed(cfg: Config, files: seq<File>): seq<File> {
    if files == [] then []
    else
      var last := files[|files| - 1];
      var g := SegOf(cfg, last);
      files[|files| - 1 := Truncated(last, g.size, g.count)]
  }

  /** recover's last act on the directory: if the reservation reaches above the
      surviving tail, resume above it in a new segment that records where the old
      tail ended. */
  function Resumed(cfg: Config, files: seq<File>, reserved: nat): (r: seq<File>)
    ensures r != []
  {
    if files == [] then [File(reserved + 1, 0, [], 0, [])]
    else
      var tail := LastLSN(SegOf(cfg, files[|files| - 1]));
      if reserved > tail && tail >= 0 then files + [File(reserved + 1, tail, [], 0, [])] else files
  }

  /** lastRecordLSN (segment.go): the newest record's number, 0 when there is none. */
  function LastRecord(segs: seq<Seg>): nat {
    if segs == [] then 0
    else
      var g := segs[|segs| - 1];
      if g.count > 0 then g.base + g.count - 1 else LastRecord(segs[..|segs| - 1])
  }

  /** Every record the files hold, under its number. */
  function Contents(files: seq<File>): map<nat, Record> {
    if files == [] then map[]
    else
      var f := files[|files| - 1];
      Contents(files[..|files| - 1]) + Numbered(f.base, f.written)
  }

  function OpenMem(segs: seq<Seg>, reserved: nat, round: nat): Mem
    requires segs != []
  {
    var a := segs[|segs| - 1];
    Mem(segs, a.base + a.count, reserved, [], 0, 0, LastRecord(segs), false, round, None, false, Idle, 0, 0, round)
  }

  function DoRecover(cfg: Config, s: State): State {
    var files := Resumed(cfg, Trimmed(cfg, s.disk.files), s.disk.reserved);
    s.(disk := s.disk.(files := files),
       seen := s.seen + Contents(files),
       rounds := s.rounds + [NewRound],
       mem := Some(OpenMem(SegsOf(cfg, files), s.disk.reserved, |s.rounds|)))
  }

  // ---- the machine -------------------------------------------------------

  predicate Enabled(cfg: Config, s: State, step: Step) {
    match step
    case Stage(payloads, _) =>
      && s.mem.Some? && s.mem.value.cur < |s.rounds|
      && !s.mem.value.closed && !s.mem.value.broken && payloads != []
      && forall i :: 0 <= i < |payloads| ==> |payloads[i]| <= cfg.maxRecord
    case Take =>
      s.mem.Some? && s.mem.value.pc.Idle? && s.mem.value.pending != [] && !s.mem.value.broken
    case CreateFails => AtPoint(s, Begin) && MustRotate(cfg, s.mem.value)
    case CreateNext => AtPoint(s, Begin) && MustRotate(cfg, s.mem.value) && s.mem.value.pc.first > 0
    case KeepSegment => AtPoint(s, Begin) && !MustRotate(cfg, s.mem.value)
    case LinkNext => AtPoint(s, Created) && |s.disk.files| >= 2
    case LinkFails(_) => AtPoint(s, Created) && |s.disk.files| >= 2
    case Write(n, ok) =>
      AtPoint(s, Ready) && Flying(s) && n <= |s.mem.value.pc.buf| && (ok ==> n == |s.mem.value.pc.buf|)
    case Sync => AtPoint(s, Written)
    case SyncFails(_) => AtPoint(s, Written) && cfg.fsync
    case PublishSize => AtPoint(s, Flushed) && s.mem.value.pc.first <= s.mem.value.pc.last
    case SettleOk => AtPoint(s, Sized) && Flying(s)
    case Rollback => HasActive(s) && s.mem.value.pc.Failed?
    case RollbackFails(_) => HasActive(s) && s.mem.value.pc.Failed?
    case SettleErr => Flying(s) && s.mem.value.pc.Undone? && s.mem.value.cur < |s.rounds|
    case TruncateBegin(_) => HasActive(s) && s.mem.value.doomed == 0 == s.mem.value.removed
    case TruncateRemove =>
      HasActive(s) && s.mem.value.removed < s.mem.value.doomed && s.disk.files[0].base > 0
    case TruncateEnd => HasActive(s)
    case CloseBegin => s.mem.Some?
    case CloseReserve(_) => Drained(s) && s.mem.value.nextLSN > 0
    case CloseEnd(_) => Drained(s) && HasActive(s)
    case ProcessCrash => true
    case MachineCrash(kept) => CrashKeeps(s.disk.files, kept)
    case TrimTail => s.mem.None?
    case Recover => s.mem.None? && Openable(cfg, s.disk.files)
  }

  predicate AtPoint(s: State, point: Point) {
    HasActive(s) && s.mem.value.pc.Writing? && s.mem.value.pc.at == point
  }

  /** Close has stopped staging and the committer's final round is over. */
  predicate Drained(s: State) {
    s.mem.Some? && s.mem.value.closed && s.mem.value.pc.Idle? && s.mem.value.pending == []
  }

  function Apply(cfg: Config, s: State, step: Step): State
    requires Enabled(cfg, s, step)
  {
    match step
    case Stage(payloads, claim) => DoStage(cfg, s, payloads, claim)
    case Take => DoTake(s)
    case CreateFails => s.(mem := Some(Fail(s.mem.value)))
    case CreateNext => DoCreateNext(s)
    case KeepSegment => s.(mem := Some(At(s.mem.value, Ready)))
    case LinkNext => DoLinkNext(s)
    case LinkFails(upTo) => DoLinkFails(s, upTo)
    case Write(n, ok) => DoWrite(s, n, ok)
    case Sync => DoSync(cfg, s)
    case SyncFails(upTo) => WithActive(s, SyncTo(ActiveFile(s), upTo)).(mem := Some(Fail(s.mem.value)))
    case PublishSize => DoPublishSize(s)
    case SettleOk => DoSettleOk(s)
    case Rollback => DoRollback(s)
    case RollbackFails(cut) => DoRollbackFails(s, cut)
    case SettleErr => DoSettleErr(s)
    case TruncateBegin(upto) => s.(mem := Some(s.mem.value.(doomed := Drop(s.mem.value.segs, upto))))
    case TruncateRemove => DoTruncateRemove(s)
    case TruncateEnd => DoTruncateEnd(s)
    case CloseBegin => s.(mem := Some(s.mem.value.(closed := true)))
    case CloseReserve(claim) => DoCloseReserve(s, claim)
    case CloseEnd(synced) => DoCloseEnd(s, synced)
    case ProcessCrash => s.(mem := None)
    case MachineCrash(kept) => DoMachineCrash(s, kept)
    case TrimTail => s.(disk := s.disk.(files := Trimmed(cfg, s.disk.files)))
    case Recover => DoRecover(cfg, s)
  }

  ghost predicate Goes(cfg: Config, s: State, step: Step, s': State) {
    Enabled(cfg, s, step) && s' == Apply(cfg, s, step)
  }

  /** A run visits states by enabled steps. */
  ghost predicate IsRun(cfg: Config, states: seq<State>, steps: seq<Step>) {
    && |states| == |steps| + 1
    && forall i :: 0 <= i < |steps| ==> Goes(cfg, states[i], steps[i], states[i + 1])
  }
}
