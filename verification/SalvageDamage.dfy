/** What salvage makes of a linked chain of segments that was damaged in place: it
    always opens, survivors keep their numbers, only a damaged segment's suffix goes,
    and it says exactly when a lost number could be handed out again. */
module SalvageDamage {
  import opened RecordFormat
  import opened SegmentScan
  import opened Wal
  import WalShape
  import WalHistory
  import WalRuns
  import opened Salvage

  /** A segment as it was written. */
  datatype Segment = Segment(base: nat, prevEnd: nat, recs: seq<Record>)

  ghost predicate Chain(cfg: Config, o: seq<Segment>) {
    && (forall i :: 0 <= i < |o| ==> o[i].base > o[i].prevEnd && Within(cfg.maxRecord, o[i].recs))
    && (forall i, j :: 0 <= i < |o| && 0 <= j < |o| && j == i + 1 ==>
          o[j].prevEnd == o[i].base + |o[i].recs| - 1)
  }

  function Scan(cfg: Config, f: SegFile): Report {
    ScanBytes(cfg.crc, cfg.maxRecord, f.bytes)
  }

  /** The segment's bytes were overwritten in place, and the checksum notices: what the
      scan accepts is what was written. Nothing is said about the rest. */
  ghost predicate Hurt(cfg: Config, g: Segment, f: SegFile) {
    && f.base == g.base && f.prevEnd == g.prevEnd
    && |f.bytes| == |Frames(cfg.crc, g.recs)|
    && !Scan(cfg, f).TooLarge?
    && f.bytes[..Scan(cfg, f).good] <= Frames(cfg.crc, g.recs)
  }

  ghost predicate Damaged(cfg: Config, o: seq<Segment>, d: Dir) {
    && |d.files| == |o|
    && forall i :: 0 <= i < |o| ==> Hurt(cfg, o[i], d.files[i])
  }

  /** What the scan accepts is a run of whole records from the start of the segment,
      all of them if it is clean, and no more are lost than headers fit in the rest. */
  lemma HurtPrefix(cfg: Config, g: Segment, f: SegFile)
    requires ValidConfig(cfg) && Hurt(cfg, g, f) && Within(cfg.maxRecord, g.recs)
    ensures var r := Scan(cfg, f);
            && r.count <= |g.recs|
            && f.bytes[..r.good] == Frames(cfg.crc, g.recs[..r.count])
            && |g.recs| - r.count <= (|f.bytes| - r.good) / HEADER_SIZE
            && (r.Clean? ==> r.count == |g.recs|)
  {
    hide ScanBytes, Frames;
    var r := Scan(cfg, f);
    var b := f.bytes[..r.good];
    ScanAnyBytes(cfg.crc, cfg.maxRecord, f.bytes);
    ScanAfterCut(cfg.crc, cfg.maxRecord, g.recs, b);
    FramesSplit(cfg.crc, g.recs, r.count);
    FramesLowerBound(cfg.crc, g.recs[r.count..]);
  }

  /** Every record whose frame ends in front of the first overwritten byte survives. */
  lemma BeforeDamageSurvives(cfg: Config, g: Segment, f: SegFile, at: nat)
    requires ValidConfig(cfg) && Hurt(cfg, g, f) && Within(cfg.maxRecord, g.recs)
    requires at <= |f.bytes| && f.bytes[..at] == Frames(cfg.crc, g.recs)[..at]
    ensures Scan(cfg, f).count >= Whole(cfg.crc, g.recs, at)
  {
    hide ScanBytes, Frames;
    var w := Whole(cfg.crc, g.recs, at);
    var head := Frames(cfg.crc, g.recs[..w]);
    WholeExact(cfg.crc, g.recs, at, w);
    FramesSplit(cfg.crc, g.recs, w);
    assert head == f.bytes[..at][..|head|];
    var rest := f.bytes[|head|..];
    assert f.bytes == head + rest;
    ScanWritten(cfg.crc, cfg.maxRecord, g.recs[..w], rest);
  }

  // ---- the walk over the damaged chain -----------------------------------

  function Survivors(cfg: Config, f: SegFile): (r: Report)
    ensures !r.TooLarge? && r.good <= |f.bytes|
  {
    var r := Scan(cfg, f);
    if r.TooLarge? then Clean(0, 0) else r
  }

  /** Where segment i's predecessor ends after the repair. */
  function NewPrev(cfg: Config, d: Dir, i: nat): int
    requires i < |d.files|
  {
    if i == 0 then d.files[0].prevEnd else d.files[i - 1].base + Survivors(cfg, d.files[i - 1]).count - 1
  }

  function Relinked(cfg: Config, d: Dir, i: nat): SegFile
    requires i < |d.files|
  {
    var p := NewPrev(cfg, d, i);
    d.files[i].(prevEnd := if p >= 0 then p else 0)
  }

  function Shortened(cfg: Config, d: Dir, i: nat): SegFile
    requires i < |d.files|
  {
    Relinked(cfg, d, i).(bytes := d.files[i].bytes[..Survivors(cfg, d.files[i]).good])
  }

  function RepairedFile(cfg: Config, d: Dir, i: nat, j: nat): SegFile
    requires j < |d.files|
  {
    if j < i then Shortened(cfg, d, j) else if j == i then Relinked(cfg, d, j) else d.files[j]
  }

  function Bound(cfg: Config, d: Dir): int
    requires d.files != []
  {
    var f := d.files[|d.files| - 1];
    var r := Survivors(cfg, f);
    f.base + r.count - 1 + (|f.bytes| - r.good) / HEADER_SIZE + 1
  }

  function RepairedReserved(cfg: Config, d: Dir): nat
    requires d.files != []
  {
    if Scan(cfg, d.files[|d.files| - 1]).Corrupt? then Max(d.reserved, Bound(cfg, d)) else d.reserved
  }

  /** The directory when the walk reaches segment i. */
  function Repaired(cfg: Config, d: Dir, i: nat): (r: Dir)
    requires i <= |d.files| && d.files != []
    ensures |r.files| == |d.files|
    ensures forall j :: 0 <= j < |d.files| ==> r.files[j] == RepairedFile(cfg, d, i, j)
  {
    Dir(seq(|d.files|, j requires 0 <= j < |d.files| => RepairedFile(cfg, d, i, j)),
        if i == |d.files| then RepairedReserved(cfg, d) else d.reserved)
  }

  lemma NewPrevBelow(cfg: Config, o: seq<Segment>, d: Dir, i: nat)
    requires ValidConfig(cfg) && Chain(cfg, o) && Damaged(cfg, o, d) && i < |o|
    ensures 0 <= NewPrev(cfg, d, i) <= o[i].prevEnd
    ensures i > 0 && Scan(cfg, d.files[i - 1]).Clean? ==> NewPrev(cfg, d, i) == o[i].prevEnd
  {
    if i > 0 {
      assert Hurt(cfg, o[i - 1], d.files[i - 1]);
      HurtPrefix(cfg, o[i - 1], d.files[i - 1]);
    } else {
      assert Hurt(cfg, o[0], d.files[0]);
    }
  }

  lemma RepairedNamed(cfg: Config, o: seq<Segment>, d: Dir, i: nat)
    requires Chain(cfg, o) && Damaged(cfg, o, d) && o != [] && i <= |o|
    ensures Named(d) && Named(Repaired(cfg, d, i))
  {
    hide Frames, ScanBytes;
    forall j | 0 <= j < |o|
      ensures d.files[j].base > 0 && Repaired(cfg, d, i).files[j].base > 0
    {
      assert Hurt(cfg, o[j], d.files[j]);
    }
  }

  /** One turn of the walk repairs one segment and links its successor. */
  lemma MendNext(cfg: Config, o: seq<Segment>, d: Dir, i: nat)
    requires ValidConfig(cfg) && Chain(cfg, o) && Damaged(cfg, o, d) && i < |o|
    requires Named(Repaired(cfg, d, i))
    ensures !Examine(cfg, Repaired(cfg, d, i), i).Fatal?
    ensures Mended(cfg, Repaired(cfg, d, i), i) == Repaired(cfg, d, i + 1)
  {
    hide ScanBytes, Frames, Chain;
    var cur := Repaired(cfg, d, i);
    var f := d.files[i];
    assert cur.files[i] == Relinked(cfg, d, i);
    assert cur.files[i].bytes == f.bytes;
    assert Hurt(cfg, o[i], f);
    var after := Mended(cfg, cur, i);
    if i + 1 < |o| {
      NewPrevBelow(cfg, o, d, i + 1);
      assert Hurt(cfg, o[i + 1], d.files[i + 1]);
    }
    assert f.bytes[..|f.bytes|] == f.bytes;
    forall j | 0 <= j < |o|
      ensures after.files[j] == Repaired(cfg, d, i + 1).files[j]
    {
    }
    assert after.files == Repaired(cfg, d, i + 1).files;
  }

  lemma ShortenedScans(cfg: Config, d: Dir, i: nat)
    requires ValidConfig(cfg) && i < |d.files| && !Scan(cfg, d.files[i]).TooLarge?
    ensures var r := Survivors(cfg, d.files[i]);
            Scan(cfg, Shortened(cfg, d, i)) == Clean(r.count, r.good)
  {
    ScanAnyBytes(cfg.crc, cfg.maxRecord, d.files[i].bytes);
  }

  lemma RepairedFollows(cfg: Config, o: seq<Segment>, d: Dir, i: nat, k: nat)
    requires ValidConfig(cfg) && Chain(cfg, o) && Damaged(cfg, o, d) && i < k <= |o|
    requires Named(Repaired(cfg, d, k))
    ensures Examine(cfg, Repaired(cfg, d, k), i) == Fine(Scan(cfg, d.files[i]).count, Scan(cfg, d.files[i]).good)
    ensures Follows(cfg, Repaired(cfg, d, k), i)
  {
    hide ScanBytes, Frames, Chain;
    assert Hurt(cfg, o[i], d.files[i]);
    ShortenedScans(cfg, d, i);
    if i > 0 {
      assert Hurt(cfg, o[i - 1], d.files[i - 1]);
      ShortenedScans(cfg, d, i - 1);
      NewPrevBelow(cfg, o, d, i);
    }
  }

  lemma {:induction false} WalkDamaged(cfg: Config, o: seq<Segment>, d: Dir, i: nat)
    requires ValidConfig(cfg) && Chain(cfg, o) && Damaged(cfg, o, d) && o != [] && i <= |o|
    ensures forall k :: 0 <= k <= |o| ==> Named(Repaired(cfg, d, k))
    ensures Walk(cfg, Repaired(cfg, d, i), i) == Some(ResumedDir(cfg, Repaired(cfg, d, |o|)))
    decreases |o| - i
  {
    hide ScanBytes, Walk, Chain, Hurt, Examine, Mended, Follows, ResumedDir, Repaired, Named;
    forall k | 0 <= k <= |o| ensures Named(Repaired(cfg, d, k)) {
      RepairedNamed(cfg, o, d, k);
    }
    if i == |o| {
      WalkEnd(cfg, Repaired(cfg, d, i));
    } else {
      MendNext(cfg, o, d, i);
      WalkStep(cfg, Repaired(cfg, d, i), i);
      RepairedFollows(cfg, o, d, i, i + 1);
      WalkDamaged(cfg, o, d, i + 1);
    }
  }

  lemma WalkWhole(cfg: Config, o: seq<Segment>, d: Dir)
    requires ValidConfig(cfg) && Chain(cfg, o) && Damaged(cfg, o, d) && o != []
    ensures Named(d) && Named(Repaired(cfg, d, |o|))
    ensures Walk(cfg, d, 0) == Some(ResumedDir(cfg, Repaired(cfg, d, |o|)))
  {
    hide ScanBytes, Walk;
    RepairedNamed(cfg, o, d, 0);
    WalkDamaged(cfg, o, d, 0);
    forall j | 0 <= j < |o| ensures Repaired(cfg, d, 0).files[j] == d.files[j] {
      assert Hurt(cfg, o[j], d.files[j]);
    }
    assert Repaired(cfg, d, 0).files == d.files;
  }

  /** The whole repair: it opens, every segment keeps its base and a run of its records
      from the front, all of them unless it was damaged, and the chain is linked. */
  lemma SalvageRestores(cfg: Config, o: seq<Segment>, d: Dir)
    requires ValidConfig(cfg) && Chain(cfg, o) && Damaged(cfg, o, d) && o != []
    ensures Named(d) && Walk(cfg, d, 0).Some?
    ensures var r := Walk(cfg, d, 0).value.files;
            && |o| <= |r|
            && (forall i :: 0 <= i < |o| ==> KeepsFront(cfg, o[i], d.files[i], r[i]))
            && (forall i :: |o| <= i < |r| ==> r[i].bytes == [])
            && Linked(cfg, r)
  {
    hide ScanBytes, Walk;
    WalkWhole(cfg, o, d);
    var m := Repaired(cfg, d, |o|);
    var r := ResumedDir(cfg, m).files;
    forall i | 0 <= i < |o| ensures KeepsFront(cfg, o[i], d.files[i], r[i]) {
      assert r[i] == m.files[i] == Shortened(cfg, d, i);
      assert Hurt(cfg, o[i], d.files[i]);
      HurtPrefix(cfg, o[i], d.files[i]);
    }
    RepairedLinked(cfg, o, d);
  }

  /** f, once g, has become h: a prefix of g's records under g's numbers. */
  ghost predicate KeepsFront(cfg: Config, g: Segment, f: SegFile, h: SegFile) {
    var c := Survivors(cfg, f).count;
    && h.base == g.base && c <= |g.recs|
    && h.bytes == Frames(cfg.crc, g.recs[..c])
    && (Scan(cfg, f).Clean? ==> c == |g.recs|)
  }

  /** Every segment is clean, starts above its gap, and follows its predecessor. */
  ghost predicate Linked(cfg: Config, files: seq<SegFile>) {
    && (forall i :: 0 <= i < |files| ==> files[i].base > files[i].prevEnd && Scan(cfg, files[i]).Clean?)
    && (forall i, j :: 0 <= i < |files| && 0 <= j < |files| && j == i + 1 ==>
          files[j].prevEnd == files[i].base + Scan(cfg, files[i]).count - 1)
  }

  lemma RepairedLinked(cfg: Config, o: seq<Segment>, d: Dir)
    requires ValidConfig(cfg) && Chain(cfg, o) && Damaged(cfg, o, d) && o != []
    requires Named(Repaired(cfg, d, |o|))
    ensures Linked(cfg, ResumedDir(cfg, Repaired(cfg, d, |o|)).files)
  {
    hide Frames, ScanBytes, Chain, Hurt, Repaired, Follows, LinkedAt, ResumedDir;
    var m := Repaired(cfg, d, |o|);
    forall i | 0 <= i < |o| ensures LinkedAt(cfg, d, m.files[i], i) {
      LinkAt(cfg, o, d, i);
    }
    AllLinked(cfg, d, m.files);
    ResumedLinked(cfg, m);
  }

  lemma AllLinked(cfg: Config, d: Dir, files: seq<SegFile>)
    requires |files| == |d.files|
    requires forall i :: 0 <= i < |files| ==> LinkedAt(cfg, d, files[i], i)
    ensures Linked(cfg, files)
  {
    hide ScanBytes;
    forall i, j | 0 <= i < |files| && 0 <= j < |files| && j == i + 1
      ensures files[j].prevEnd == files[i].base + Scan(cfg, files[i]).count - 1
    {
      assert LinkedAt(cfg, d, files[i], i) && LinkedAt(cfg, d, files[j], j);
    }
  }

  lemma ResumedLinked(cfg: Config, m: Dir)
    requires Named(m) && Linked(cfg, m.files) && m.files != []
    ensures Linked(cfg, ResumedDir(cfg, m).files)
  {
    hide ScanBytes;
    var r := ResumedDir(cfg, m).files;
    var n := |m.files|;
    if |r| > n {
      EmptyIsFine(cfg, ResumedDir(cfg, m), n);
      assert Scan(cfg, m.files[n - 1]).Clean?;
      assert r[n - 1] == m.files[n - 1];
    }
  }

  ghost predicate LinkedAt(cfg: Config, d: Dir, f: SegFile, i: nat)
    requires i < |d.files|
  {
    && f.base == d.files[i].base > f.prevEnd == NewPrev(cfg, d, i)
    && Scan(cfg, f) == Clean(Survivors(cfg, d.files[i]).count, Survivors(cfg, d.files[i]).good)
  }

  lemma LinkAt(cfg: Config, o: seq<Segment>, d: Dir, i: nat)
    requires ValidConfig(cfg) && Chain(cfg, o) && Damaged(cfg, o, d) && i < |o|
    ensures LinkedAt(cfg, d, Repaired(cfg, d, |o|).files[i], i)
  {
    assert Hurt(cfg, o[i], d.files[i]);
    ShortenedScans(cfg, d, i);
    NewPrevBelow(cfg, o, d, i);
    hide ScanBytes, Frames;
    assert Repaired(cfg, d, |o|).files[i] == Shortened(cfg, d, i);
  }

  /** A lost number is handed out again exactly when the last segment was damaged so
      that it looks torn, records went with it, and RESERVED no longer covers them. */
  lemma LostNumbersNotReused(cfg: Config, o: seq<Segment>, d: Dir)
    requires ValidConfig(cfg) && Chain(cfg, o) && Damaged(cfg, o, d) && o != []
    ensures Named(d) && Walk(cfg, d, 0).Some?
    ensures var last := o[|o| - 1];
            var scan := Scan(cfg, d.files[|o| - 1]);
            var next := NextNumber(cfg, Walk(cfg, d, 0).value);
            (forall i :: 0 <= i < |o| ==> next > o[i].base + |o[i].recs| - 1)
            <==> (scan.Torn? ==> scan.count == |last.recs| || d.reserved >= last.base + |last.recs| - 1)
  {
    hide ScanBytes, Walk, Frames, Damaged, Chain;
    WalkWhole(cfg, o, d);
    RepairedTail(cfg, o, d);
    LastIsHighest(cfg, o, |o| - 1);
  }

  /** What decides the next number: the last segment's survivors and the reservation. */
  lemma RepairedTail(cfg: Config, o: seq<Segment>, d: Dir)
    requires ValidConfig(cfg) && Chain(cfg, o) && Damaged(cfg, o, d) && o != []
    requires Named(Repaired(cfg, d, |o|))
    ensures var last, f := o[|o| - 1], d.files[|o| - 1];
            var scan := Scan(cfg, f);
            && !scan.TooLarge? && scan.count <= |last.recs| && last.base > 0
            && (scan.Clean? ==> scan.count == |last.recs|)
            && (scan.Corrupt? ==> RepairedReserved(cfg, d) >= last.base + |last.recs|)
            && (!scan.Corrupt? ==> RepairedReserved(cfg, d) == d.reserved)
            && NextNumber(cfg, ResumedDir(cfg, Repaired(cfg, d, |o|)))
               == Max(RepairedReserved(cfg, d), last.base + scan.count - 1) + 1
  {
    hide ScanBytes, Frames, ResumedDir;
    var m := Repaired(cfg, d, |o|);
    var n := |o| - 1;
    assert Hurt(cfg, o[n], d.files[n]);
    HurtPrefix(cfg, o[n], d.files[n]);
    forall i | 0 <= i < |o| ensures Examine(cfg, m, i).Fine? && Follows(cfg, m, i) {
      RepairedFollows(cfg, o, d, i, |o|);
    }
    RepairedFollows(cfg, o, d, n, |o|);
    NextAfterResume(cfg, m);
    assert m.files[n] == Shortened(cfg, d, n);
  }

  lemma {:induction false} LastIsHighest(cfg: Config, o: seq<Segment>, n: nat)
    requires Chain(cfg, o) && n < |o|
    ensures forall i :: 0 <= i <= n ==> o[i].base + |o[i].recs| <= o[n].base + |o[n].recs|
  {
    if n > 0 {
      LastIsHighest(cfg, o, n - 1);
      assert o[n].prevEnd == o[n - 1].base + |o[n - 1].recs| - 1;
    }
  }

  // ---- RESERVED decides ------------------------------------------------------------

  /** While RESERVED is intact no number is handed out twice, however the directory of any run
      was damaged in which no Close of a log whose rollback failed gave RESERVED back: whatever
      opening with salvage makes of it, the next number is above every number ever visible and
      every record in the files. */
  lemma ReservedGuards(cfg: Config, states: seq<State>, steps: seq<Step>, i: nat, d: Dir)
    requires ValidConfig(cfg) && IsRun(cfg, states, steps) && states[0] == Fresh && i < |states| && !states[i].tainted
    requires Named(d) && d.reserved == states[i].disk.reserved && Walk(cfg, d, 0).Some?
    ensures var next, s := NextNumber(cfg, Walk(cfg, d, 0).value), states[i];
            && (forall n :: n in s.seen ==> n < next)
            && (forall j :: 0 <= j < |s.disk.files| ==> WalShape.End(s.disk.files[j]) <= next)
  {
    hide Walk, Enabled, Apply, NextNumber;
    WalRuns.RunGood(cfg, states, steps, i);
    WalkAbove(cfg, d, 0);
    ReservedCovers(cfg, states[i]);
  }

  lemma ReservedCovers(cfg: Config, s: State)
    requires WalRuns.Good(cfg, s) && !s.tainted
    ensures forall n :: n in s.seen ==> n <= s.disk.reserved
    ensures forall j :: 0 <= j < |s.disk.files| ==> WalShape.End(s.disk.files[j]) <= s.disk.reserved + 1
  {
    hide WalShape.Shape, WalHistory.TagsOk, WalHistory.DurableOk, WalHistory.SeenOk, WalHistory.VerdictsOk;
  }

  const TwoRecords := [Record([7], 0), Record([8], 0)]
  const TwoConfig := Config((_, _) => 0, 16, 4096, true)
  const Looks := Frame(TwoConfig.crc, [7]) + [255, 0, 0, 0, 0, 0, 0, 0, 8]

  lemma LooksHurt()
    ensures var o, d := [Segment(1, 0, TwoRecords)], Dir([SegFile(1, 0, Looks)], 0);
            Chain(TwoConfig, o) && Damaged(TwoConfig, o, d) && Named(d)
  {
    LooksTorn();
    assert Hurt(TwoConfig, Segment(1, 0, TwoRecords), SegFile(1, 0, Looks));
  }

  /** With RESERVED lost too, a last segment damaged so that it looks torn does hand a lost
      number out again: of records 1 and 2 the second one's length is overwritten, the tail
      is cut off as torn, and 2 is the next number. */
  lemma LostReservedReuses()
    ensures var o, d := [Segment(1, 0, TwoRecords)], Dir([SegFile(1, 0, Looks)], 0);
            && ValidConfig(TwoConfig) && Chain(TwoConfig, o) && Damaged(TwoConfig, o, d)
            && Named(d) && Walk(TwoConfig, d, 0).Some?
            && NextNumber(TwoConfig, Walk(TwoConfig, d, 0).value) == 2
  {
    hide Walk, NextNumber, Chain, Damaged;
    var o, d := [Segment(1, 0, TwoRecords)], Dir([SegFile(1, 0, Looks)], 0);
    LooksTorn();
    LooksHurt();
    WalkWhole(TwoConfig, o, d);
    RepairedTail(TwoConfig, o, d);
  }

  lemma LooksTorn()
    ensures ScanBytes(TwoConfig.crc, TwoConfig.maxRecord, Looks) == Torn(1, 9) && |Looks| == 18
    ensures |Frames(TwoConfig.crc, TwoRecords)| == 18 && Looks[..9] <= Frames(TwoConfig.crc, TwoRecords)
  {
    hide ScanBytes;
    var rest := [255, 0, 0, 0, 0, 0, 0, 0, 8];
    RestTorn(rest);
    ScanWritten(TwoConfig.crc, TwoConfig.maxRecord, TwoRecords[..1], rest);
    OneFrame(TwoRecords[..1]);
    assert TwoRecords == TwoRecords[..1] + TwoRecords[1..];
    FramesConcat(TwoConfig.crc, TwoRecords[..1], TwoRecords[1..]);
    OneFrame(TwoRecords[1..]);
  }

  lemma OneFrame(rs: seq<Record>)
    requires |rs| == 1
    ensures Frames(TwoConfig.crc, rs) == Frame(TwoConfig.crc, rs[0].payload)
  {
    assert Frames(TwoConfig.crc, rs) == Frame(TwoConfig.crc, rs[0].payload) + Frames(TwoConfig.crc, []);
  }

  lemma RestTorn(rest: Bytes)
    requires rest == [255, 0, 0, 0, 0, 0, 0, 0, 8]
    ensures ScanBytes(TwoConfig.crc, TwoConfig.maxRecord, rest) == Torn(0, 0)
  {
    assert rest[..4] == [255, 0, 0, 0];
    assert FromLe32(rest[..4]) == 255;
  }
}
