/** Opening a damaged directory with salvage enabled (internal/wal/salvage.go and the
    segment walk of recover in internal/wal/wal.go).

    `Walk` says what a complete pass makes of a directory. The class carries the pass
    out one file effect at a time; a crash can fall after any of them, and the next
    Open starts over on whatever directory it finds. */
module Salvage {
  import opened RecordFormat
  import opened SegmentScan
  import opened Wal

  /** A segment file: its name holds base and prevEnd. */
  datatype SegFile = SegFile(base: nat, prevEnd: nat, bytes: Bytes)

  datatype Dir = Dir(files: seq<SegFile>, reserved: nat)

  /** What recover decides about one segment. */
  datatype Finding =
    | Fine(count: nat, good: nat)
    | TornTail(count: nat, good: nat)   // cut off without further ado
    | Damage(count: nat, good: nat)     // handed to salvage
    | Fatal                             // refused even with salvage

  ghost predicate Named(d: Dir) {
    forall i :: 0 <= i < |d.files| ==> d.files[i].base > 0
  }

  function Examine(cfg: Config, d: Dir, i: nat): (e: Finding)
    requires i < |d.files|
    ensures !e.Fatal? ==> e.good <= |d.files[i].bytes|
  {
    match ScanBytes(cfg.crc, cfg.maxRecord, d.files[i].bytes)
    case Clean(c, g) => Fine(c, g)
    case Torn(c, g) => if i == |d.files| - 1 then TornTail(c, g) else Damage(c, g)
    case Corrupt(c, g) => Damage(c, g)
    case TooLarge => Fatal
  }

  /** The number of the last record that is kept, base-1 when there is none. */
  function LastGood(d: Dir, i: nat, count: nat): nat
    requires i < |d.files| && d.files[i].base > 0
  {
    d.files[i].base + count - 1
  }

  /** The lost numbers become a gap: the next segment is renamed to follow what is
      kept, or the reservation is raised past all the cut bytes could have held. */
  function Bridge(d: Dir, i: nat, count: nat, good: nat): (r: Dir)
    requires i < |d.files| && d.files[i].base > 0 && good <= |d.files[i].bytes|
    ensures |r.files| == |d.files|
  {
    var last := LastGood(d, i, count);
    if i < |d.files| - 1 then
      d.(files := d.files[i + 1 := d.files[i + 1].(prevEnd := last)])
    else
      var bound := last + (|d.files[i].bytes| - good) / HEADER_SIZE + 1;
      d.(reserved := if bound > d.reserved then bound else d.reserved)
  }

  function CutBack(d: Dir, i: nat, good: nat): (r: Dir)
    requires i < |d.files| && good <= |d.files[i].bytes|
    ensures |r.files| == |d.files|
  {
    d.(files := d.files[i := d.files[i].(bytes := d.files[i].bytes[..good])])
  }

  /** Segment i repaired. */
  function Mended(cfg: Config, d: Dir, i: nat): (r: Dir)
    requires i < |d.files| && Named(d) && !Examine(cfg, d, i).Fatal?
    ensures |r.files| == |d.files| && Named(r)
  {
    match Examine(cfg, d, i)
    case Fine(_, _) => d
    case TornTail(_, g) => CutBack(d, i, g)
    case Damage(c, g) => CutBack(Bridge(d, i, c, g), i, g)
  }

  function CountAt(cfg: Config, d: Dir, i: nat): nat
    requires i < |d.files|
  {
    var e := Examine(cfg, d, i);
    if e.Fatal? then 0 else e.count
  }

  /** The numbering resumes above the tail and above the reservation. */
  function ResumedDir(cfg: Config, d: Dir): (r: Dir)
    requires Named(d)
    ensures Named(r) && r.files != [] && r.reserved == d.reserved && d.files <= r.files
  {
    if d.files == [] then d.(files := [SegFile(d.reserved + 1, 0, [])])
    else
      var n := |d.files| - 1;
      var tail := LastGood(d, n, CountAt(cfg, d, n));
      if d.reserved > tail then d.(files := d.files + [SegFile(d.reserved + 1, tail, [])]) else d
  }

  predicate Follows(cfg: Config, d: Dir, i: nat)
    requires i < |d.files| && Named(d)
  {
    i > 0 ==> LastGood(d, i - 1, CountAt(cfg, d, i - 1)) == d.files[i].prevEnd
  }

  /** A complete pass from segment i on: the directory it leaves, None if refused. */
  function Walk(cfg: Config, d: Dir, i: nat): (r: Option<Dir>)
    requires i <= |d.files| && Named(d)
    ensures r.Some? ==> Named(r.value) && r.value.files != []
    decreases |d.files| - i
  {
    if i == |d.files| then Some(ResumedDir(cfg, d))
    else if Examine(cfg, d, i).Fatal? then None
    else
      var d' := Mended(cfg, d, i);
      if Follows(cfg, d', i) then Walk(cfg, d', i + 1) else None
  }

  /** The number the opened log hands out next. */
  function NextNumber(cfg: Config, d: Dir): nat
    requires d.files != []
  {
    d.files[|d.files| - 1].base + CountAt(cfg, d, |d.files| - 1)
  }

  // ---- a pass can be repeated from any point -----------------------------

  /** Segments before i need no repair and are linked. */
  ghost predicate Settled(cfg: Config, d: Dir, i: nat) {
    && i <= |d.files| && Named(d)
    && forall j :: 0 <= j < i ==> Examine(cfg, d, j).Fine? && Follows(cfg, d, j)
  }

  lemma {:induction false} WalkSkips(cfg: Config, d: Dir, j: nat, i: nat)
    requires Settled(cfg, d, i) && j <= i
    ensures Walk(cfg, d, j) == Walk(cfg, d, i)
    decreases i - j
  {
    hide ScanBytes, Walk, Follows, Examine;
    if j < i {
      assert Examine(cfg, d, j).Fine? && Follows(cfg, d, j);
      WalkStep(cfg, d, j);
      WalkSkips(cfg, d, j + 1, i);
    }
  }

  /** Changing nothing before segment i, except that it may get a new link, keeps the
      settled part settled. */
  lemma SettledKept(cfg: Config, d: Dir, e: Dir, i: nat)
    requires Settled(cfg, d, i) && Named(e) && |e.files| >= |d.files|
    requires e.files[..i] == d.files[..i]
    requires |e.files| > |d.files| ==> i == |d.files|
    ensures Settled(cfg, e, i)
  {
    hide ScanBytes;
    forall j | 0 <= j < i
      ensures Examine(cfg, e, j).Fine? && Follows(cfg, e, j)
    {
      assert e.files[j] == e.files[..i][j] == d.files[j];
      if j > 0 {
        assert e.files[j - 1] == e.files[..i][j - 1] == d.files[j - 1];
        assert Examine(cfg, d, j - 1).Fine?;
      }
      assert Examine(cfg, d, j).Fine? && Follows(cfg, d, j);
    }
  }

  /** After the bridge the damaged segment still fails its scan the same way, and the
      second salvage finds the bridge already built. */
  lemma BridgeRepeats(cfg: Config, d: Dir, i: nat)
    requires Settled(cfg, d, i) && i < |d.files| && Examine(cfg, d, i).Damage?
    ensures var e := Examine(cfg, d, i);
            var b := Bridge(d, i, e.count, e.good);
            Settled(cfg, b, i) && Examine(cfg, b, i) == e && Walk(cfg, b, 0) == Walk(cfg, d, 0)
  {
    hide ScanBytes, Walk;
    var e := Examine(cfg, d, i);
    var b := Bridge(d, i, e.count, e.good);
    assert b.files[..i] == d.files[..i] && b.files[i] == d.files[i];
    SettledKept(cfg, d, b, i);
    WalkSkips(cfg, d, 0, i);
    WalkSkips(cfg, b, 0, i);
    assert Mended(cfg, b, i) == Mended(cfg, d, i);
    WalkStep(cfg, d, i);
    WalkStep(cfg, b, i);
  }

  lemma FatalRefuses(cfg: Config, d: Dir, i: nat)
    requires Settled(cfg, d, i) && i < |d.files|
    ensures Examine(cfg, d, i).Fatal? ==> Walk(cfg, d, 0) == None
  {
    WalkSkips(cfg, d, 0, i);
    hide ScanBytes;
  }

  lemma WalkStep(cfg: Config, d: Dir, i: nat)
    requires i < |d.files| && Named(d) && !Examine(cfg, d, i).Fatal?
    ensures var d' := Mended(cfg, d, i);
            Walk(cfg, d, i) == if Follows(cfg, d', i) then Walk(cfg, d', i + 1) else None
  {
  }

  /** Once cut, the segment scans clean with the same records. */
  lemma MendedIsFine(cfg: Config, d: Dir, i: nat)
    requires ValidConfig(cfg) && Named(d) && i < |d.files| && !Examine(cfg, d, i).Fatal?
    ensures var e := Examine(cfg, d, i);
            Examine(cfg, Mended(cfg, d, i), i) == Fine(e.count, e.good)
  {
    ScanAnyBytes(cfg.crc, cfg.maxRecord, d.files[i].bytes);
    hide ScanBytes;
    var b := d.files[i].bytes;
    if Examine(cfg, d, i).Fine? {
      assert b[..|b|] == b;
    }
  }

  /** After the cut, a new pass takes the segment as it is. */
  lemma CutRepeats(cfg: Config, d: Dir, i: nat)
    requires ValidConfig(cfg) && Settled(cfg, d, i) && i < |d.files| && !Examine(cfg, d, i).Fatal?
    ensures var m := Mended(cfg, d, i);
            && Settled(cfg, m, i) && Examine(cfg, m, i).Fine?
            && Walk(cfg, m, 0) == Walk(cfg, d, 0)
            && Walk(cfg, d, 0) == if Follows(cfg, m, i) then Walk(cfg, m, i + 1) else None
  {
    var m := Mended(cfg, d, i);
    MendedIsFine(cfg, d, i);
    WalkStep(cfg, d, i);
    WalkStep(cfg, m, i);
    WalkSkips(cfg, d, 0, i);
    hide ScanBytes, Walk;
    assert m.files[..i] == d.files[..i];
    SettledKept(cfg, d, m, i);
    WalkSkips(cfg, m, 0, i);
  }

  lemma WalkEnd(cfg: Config, d: Dir)
    requires Named(d)
    ensures Walk(cfg, d, |d.files|) == Some(ResumedDir(cfg, d))
  {
  }

  lemma EmptyIsFine(cfg: Config, d: Dir, i: nat)
    requires i < |d.files| && d.files[i].bytes == []
    ensures Examine(cfg, d, i) == Fine(0, 0)
  {
  }

  /** The link check on the repaired segment, and where the segment ends. */
  lemma MendedLink(cfg: Config, d: Dir, i: nat)
    requires ValidConfig(cfg) && Settled(cfg, d, i) && i < |d.files| && !Examine(cfg, d, i).Fatal?
    ensures var m := Mended(cfg, d, i);
            && m.files[i].base == d.files[i].base > 0 && CountAt(cfg, m, i) == Examine(cfg, d, i).count
            && (Follows(cfg, m, i) <==> (i > 0 ==> LastGood(d, i - 1, CountAt(cfg, d, i - 1)) == m.files[i].prevEnd))
            && (Follows(cfg, m, i) ==> Settled(cfg, m, i + 1))
  {
    hide ScanBytes;
    var m := Mended(cfg, d, i);
    MendedIsFine(cfg, d, i);
    assert m.files[..i] == d.files[..i];
    SettledKept(cfg, d, m, i);
    if i > 0 {
      assert m.files[i - 1] == m.files[..i][i - 1] == d.files[i - 1];
      assert Examine(cfg, d, i - 1).Fine? && Examine(cfg, m, i - 1).Fine?;
    }
  }

  /** Once the new segment stands, another pass adds none. */
  lemma ResumeRepeats(cfg: Config, d: Dir)
    requires ValidConfig(cfg) && Settled(cfg, d, |d.files|)
    ensures var r := ResumedDir(cfg, d);
            Settled(cfg, r, |r.files|) && Walk(cfg, r, 0) == Walk(cfg, d, 0) == Some(r)
  {
    hide ScanBytes, Walk;
    var r := ResumedDir(cfg, d);
    ResumeSettles(cfg, d);
    WalkSkips(cfg, d, 0, |d.files|);
    WalkEnd(cfg, d);
    WalkSkips(cfg, r, 0, |r.files|);
    WalkEnd(cfg, r);
    if |r.files| > |d.files| {
      EmptyIsFine(cfg, r, |d.files|);
    }
    assert ResumedDir(cfg, r) == r;
  }

  lemma ResumeSettles(cfg: Config, d: Dir)
    requires Settled(cfg, d, |d.files|)
    ensures Settled(cfg, ResumedDir(cfg, d), |ResumedDir(cfg, d).files|)
  {
    hide ScanBytes;
    var r := ResumedDir(cfg, d);
    var n := |d.files|;
    assert r.files[..n] == d.files == d.files[..n];
    SettledKept(cfg, d, r, n);
    if |r.files| > n {
      EmptyIsFine(cfg, r, n);
      if n > 0 {
        assert Examine(cfg, r, n - 1).Fine? && Examine(cfg, d, n - 1).Fine?;
        assert r.files[n - 1] == d.files[n - 1];
      }
      assert Follows(cfg, r, n);
    }
  }

  /** Numbers go on above both the tail and the reservation. */
  lemma NextAfterResume(cfg: Config, d: Dir)
    requires Settled(cfg, d, |d.files|)
    ensures var r := ResumedDir(cfg, d);
            && NextNumber(cfg, r) > d.reserved
            && (d.files == [] ==> NextNumber(cfg, r) == d.reserved + 1)
            && (d.files != [] ==>
                  NextNumber(cfg, r) == Max(d.reserved, LastGood(d, |d.files| - 1, CountAt(cfg, d, |d.files| - 1))) + 1)
  {
    hide ScanBytes;
    var r := ResumedDir(cfg, d);
    if |r.files| > |d.files| {
      EmptyIsFine(cfg, r, |d.files|);
    }
  }

  /** Whatever a directory looks like, a pass that opens it hands out only numbers above the
      reservation it found. */
  lemma {:induction false} WalkAbove(cfg: Config, d: Dir, i: nat)
    requires i <= |d.files| && Named(d)
    ensures var r := Walk(cfg, d, i);
            r.Some? ==> r.value.reserved >= d.reserved && NextNumber(cfg, r.value) > r.value.reserved
    decreases |d.files| - i
  {
    hide ScanBytes;
    if i == |d.files| {
      ResumeAbove(cfg, d);
    } else if !Examine(cfg, d, i).Fatal? {
      hide Examine, Follows;
      MendedReserved(cfg, d, i);
      WalkAbove(cfg, Mended(cfg, d, i), i + 1);
    }
  }

  lemma MendedReserved(cfg: Config, d: Dir, i: nat)
    requires i < |d.files| && Named(d) && !Examine(cfg, d, i).Fatal?
    ensures Mended(cfg, d, i).reserved >= d.reserved
  {
    hide ScanBytes;
  }

  lemma ResumeAbove(cfg: Config, d: Dir)
    requires Named(d)
    ensures NextNumber(cfg, ResumedDir(cfg, d)) > d.reserved
  {
    hide ScanBytes;
    var r := ResumedDir(cfg, d);
    if |r.files| > |d.files| {
      EmptyIsFine(cfg, r, |d.files|);
    }
  }

  // ---- the pass itself ---------------------------------------------------

  /** A copy of discarded bytes: `<segment>.corrupt-<offset>-<time>`. */
  datatype Kept = Kept(base: nat, offset: nat, bytes: Bytes)

  /** Compared with `was`, segment i has lost nothing, or a torn tail of the last segment, or
      bytes of which a copy is kept. */
  ghost predicate Accounted(cfg: Config, was: seq<SegFile>, now: seq<SegFile>, kept: seq<Kept>, i: nat)
    requires i < |was| && i < |now|
  {
    var b, b' := was[i].bytes, now[i].bytes;
    && now[i].base == was[i].base && b' <= b
    && (|| b' == b
        || (i == |was| - 1 && ScanBytes(cfg.crc, cfg.maxRecord, b).Torn?)
        || Kept(was[i].base, |b'|, b[|b'|..]) in kept)
  }

  /** Nothing but segment i has changed its bytes, and that is accounted for. */
  ghost predicate OnlyCuts(cfg: Config, was: seq<SegFile>, had: seq<Kept>, now: seq<SegFile>, kept: seq<Kept>, i: nat) {
    && |now| == |was| && had <= kept && i < |was|
    && (forall j :: 0 <= j < |now| && j != i ==> now[j].bytes == was[j].bytes && now[j].base == was[j].base)
    && Accounted(cfg, was, now, kept, i)
  }

  lemma AccountedOn(cfg: Config, first: seq<SegFile>, was: seq<SegFile>, had: seq<Kept>, now: seq<SegFile>, kept: seq<Kept>, i: nat, j: nat)
    requires |first| == |was| && OnlyCuts(cfg, was, had, now, kept, i) && j < |first|
    requires Accounted(cfg, first, was, had, j) && (j == i ==> was[i].bytes == first[i].bytes)
    ensures Accounted(cfg, first, now, kept, j)
  {
    hide ScanBytes;
  }

  lemma AllThere(cfg: Config, files: seq<SegFile>, kept: seq<Kept>)
    ensures forall j :: 0 <= j < |files| ==> Accounted(cfg, files, files, kept, j)
  {
    hide ScanBytes;
  }

  lemma NoneCut(cfg: Config, files: seq<SegFile>, kept: seq<Kept>, i: nat)
    requires i < |files|
    ensures OnlyCuts(cfg, files, kept, files, kept, i)
  {
    hide ScanBytes;
  }

  lemma CutsGoOn(cfg: Config, first: seq<SegFile>, was: seq<SegFile>, had: seq<Kept>, now: seq<SegFile>, kept: seq<Kept>, i: nat)
    requires |first| == |was| && OnlyCuts(cfg, was, had, now, kept, i) && was[i].bytes == first[i].bytes
    requires forall j :: 0 <= j < |first| ==> Accounted(cfg, first, was, had, j)
    ensures |now| == |first| && forall j :: 0 <= j < |first| ==> Accounted(cfg, first, now, kept, j)
    ensures forall j :: i < j < |now| ==> now[j].bytes == was[j].bytes
  {
    hide ScanBytes, Accounted;
    forall j | 0 <= j < |first| ensures Accounted(cfg, first, now, kept, j) {
      AccountedOn(cfg, first, was, had, now, kept, i, j);
    }
  }

  lemma Extended(cfg: Config, first: seq<SegFile>, was: seq<SegFile>, now: seq<SegFile>, kept: seq<Kept>)
    requires |first| == |was| && was <= now && forall j :: 0 <= j < |first| ==> Accounted(cfg, first, was, kept, j)
    ensures forall j :: 0 <= j < |first| ==> Accounted(cfg, first, now, kept, j)
  {
    hide ScanBytes;
    forall j | 0 <= j < |first| ensures Accounted(cfg, first, now, kept, j) {
      assert Accounted(cfg, first, was, kept, j) && now[j] == was[j];
    }
  }

  lemma KeptCopy(cfg: Config, was: seq<SegFile>, had: seq<Kept>, now: seq<SegFile>, kept: seq<Kept>, i: nat, good: nat)
    requires i < |was| == |now| && good <= |was[i].bytes| && kept == had + [Kept(was[i].base, good, was[i].bytes[good..])]
    requires now[i].base == was[i].base && now[i].bytes == was[i].bytes[..good]
    requires forall j :: 0 <= j < |now| && j != i ==> now[j].bytes == was[j].bytes && now[j].base == was[j].base
    ensures OnlyCuts(cfg, was, had, now, kept, i)
  {
    hide ScanBytes;
    assert kept[|had|] == Kept(was[i].base, good, was[i].bytes[good..]);
  }

  class Opening {
    var files: seq<SegFile>
    var reserved: nat
    var kept: seq<Kept>
    ghost var trace: seq<Dir>   // the directory after every effect on it

    constructor (d: Dir)
      ensures View() == d && kept == [] && trace == [d]
    {
      files, reserved, kept, trace := d.files, d.reserved, [], [d];
    }

    ghost function View(): Dir
      reads this
    {
      Dir(files, reserved)
    }

    /** Wherever a crash stops the pass, opening again ends where it would have. */
    ghost predicate Repeatable(cfg: Config, goal: Option<Dir>)
      reads this
    {
      && trace != [] && trace[|trace| - 1] == View()
      && forall k :: 0 <= k < |trace| ==> Named(trace[k]) && Walk(cfg, trace[k], 0) == goal
    }

    /** salvage: keep the damaged bytes, bridge the lost numbers, cut. */
    method SalvageSegment(cfg: Config, i: nat, count: nat, good: nat)
      requires ValidConfig(cfg) && Settled(cfg, View(), i) && i < |files|
      requires Examine(cfg, View(), i) == Damage(count, good)
      requires Repeatable(cfg, Walk(cfg, View(), 0))
      modifies this
      ensures View() == old(Mended(cfg, View(), i))
      ensures Repeatable(cfg, old(Walk(cfg, View(), 0)))
      ensures old(trace) <= trace && OnlyCuts(cfg, old(files), old(kept), files, kept, i)
      ensures kept == old(kept) + [Kept(old(files[i].base), good, old(files[i].bytes[good..]))]
    {
      hide ScanBytes, Walk, ResumedDir, OnlyCuts, Settled, Bridge, Examine;
      ghost var before := View();
      ghost var had := kept;
      CutRepeats(cfg, before, i);
      var f := files[i];
      kept := kept + [Kept(f.base, good, f.bytes[good..])];
      BridgeLost(cfg, i, count, good);
      files := files[i := f.(bytes := f.bytes[..good])];
      assert View() == Mended(cfg, before, i);
      trace := trace + [View()];
      KeptCopy(cfg, before.files, had, files, kept, i, good);
    }

    /** The lost numbers become a gap in front of the next segment, or are reserved. */
    method BridgeLost(cfg: Config, i: nat, count: nat, good: nat)
      requires ValidConfig(cfg) && Settled(cfg, View(), i) && i < |files|
      requires Examine(cfg, View(), i) == Damage(count, good)
      requires Repeatable(cfg, Walk(cfg, View(), 0))
      modifies this`files, this`reserved, this`trace
      ensures View() == old(Bridge(View(), i, count, good)) && files[i] == old(files[i])
      ensures forall j :: 0 <= j < |files| ==> files[j].bytes == old(files)[j].bytes && files[j].base == old(files)[j].base
      ensures Repeatable(cfg, old(Walk(cfg, View(), 0)))
      ensures old(trace) <= trace
    {
      hide ScanBytes, Walk, ResumedDir, Settled;
      ghost var before := View();
      BridgeRepeats(cfg, before, i);
      var f := files[i];
      var discarded := |f.bytes| - good;
      var lastGood := f.base + count - 1;
      if i < |files| - 1 && files[i + 1].prevEnd != lastGood {
        files := files[i + 1 := files[i + 1].(prevEnd := lastGood)];
      }
      if i == |files| - 1 {
        var bound := lastGood + discarded / HEADER_SIZE + 1;
        if bound > reserved {
          reserved := bound;
        }
      }
      assert View() == Bridge(before, i, count, good);
      trace := trace + [View()];
    }

    /** A torn tail of the last segment is cut off. */
    method CutTail(cfg: Config, i: nat, count: nat, good: nat)
      requires ValidConfig(cfg) && Settled(cfg, View(), i) && i < |files|
      requires Examine(cfg, View(), i) == TornTail(count, good)
      requires Repeatable(cfg, Walk(cfg, View(), 0))
      modifies this
      ensures View() == old(Mended(cfg, View(), i))
      ensures Repeatable(cfg, old(Walk(cfg, View(), 0)))
      ensures old(trace) <= trace && kept == old(kept) && OnlyCuts(cfg, old(files), old(kept), files, kept, i)
    {
      hide ScanBytes, Walk, ResumedDir;
      CutRepeats(cfg, View(), i);
      files := files[i := files[i].(bytes := files[i].bytes[..good])];
      trace := trace + [View()];
    }

    /** recover: walks the segments in order, repairs, checks each link, resumes. */
    method Recover(cfg: Config) returns (next: Option<nat>)
      requires ValidConfig(cfg) && Named(View()) && trace == [View()] && kept == []
      modifies this
      ensures next.Some? <==> old(Walk(cfg, View(), 0)).Some?
      ensures next.Some? ==> View() == old(Walk(cfg, View(), 0)).value
      ensures next.Some? ==> next.value == NextNumber(cfg, View())
      ensures Repeatable(cfg, old(Walk(cfg, View(), 0)))
      ensures old(trace) <= trace
      ensures |files| >= old(|files|) && forall j :: 0 <= j < old(|files|) ==> Accounted(cfg, old(files), files, kept, j)
    {
      hide ScanBytes, Walk, Follows, ResumedDir, Mended, Examine, Accounted, OnlyCuts;
      AllThere(cfg, files, kept);
      ghost var goal := Walk(cfg, View(), 0);
      var i, tail := 0, 0;
      while i < |files|
        invariant i <= |files| && Settled(cfg, View(), i)
        invariant Repeatable(cfg, goal) && goal == Walk(cfg, View(), 0)
        invariant old(trace) <= trace && |files| == old(|files|)
        invariant forall j :: 0 <= j < |files| ==> Accounted(cfg, old(files), files, kept, j)
        invariant forall j :: i <= j < |files| ==> files[j].bytes == old(files)[j].bytes
        invariant i > 0 ==> tail == LastGood(View(), i - 1, CountAt(cfg, View(), i - 1))
        decreases |files| - i
      {
        ghost var before, had := View(), kept;
        next := Step(cfg, i, tail);
        CutsGoOn(cfg, old(files), before.files, had, files, kept, i);
        if next.None? {
          return;
        }
        tail := next.value;
        i := i + 1;
      }
      ghost var d := View();
      ResumeRepeats(cfg, d);
      ghost var walked := files;
      next := Resume(cfg, tail);
      Extended(cfg, old(files), walked, files, kept);
    }

    /** What recover does about a segment its scan reports on. */
    method Mend(cfg: Config, i: nat, report: Report)
      requires ValidConfig(cfg) && i < |files| && Settled(cfg, View(), i)
      requires report == ScanBytes(cfg.crc, cfg.maxRecord, files[i].bytes) && !report.TooLarge?
      requires Repeatable(cfg, Walk(cfg, View(), 0))
      modifies this
      ensures View() == old(Mended(cfg, View(), i))
      ensures Repeatable(cfg, old(Walk(cfg, View(), 0)))
      ensures old(trace) <= trace && OnlyCuts(cfg, old(files), old(kept), files, kept, i)
    {
      hide ScanBytes, Walk, Repeatable, Settled, ResumedDir;
      if report.Corrupt? || (report.Torn? && i < |files| - 1) {
        SalvageSegment(cfg, i, report.count, report.good);
      } else if report.Torn? {
        CutTail(cfg, i, report.count, report.good);
      }
    }

    /** One turn of the walk: the number the segment ends at, or None if refused. */
    method Step(cfg: Config, i: nat, tail: nat) returns (last: Option<nat>)
      requires ValidConfig(cfg) && i < |files| && Settled(cfg, View(), i)
      requires Repeatable(cfg, Walk(cfg, View(), 0))
      requires i > 0 ==> tail == LastGood(View(), i - 1, CountAt(cfg, View(), i - 1))
      modifies this
      ensures |files| == old(|files|)
      ensures Repeatable(cfg, old(Walk(cfg, View(), 0)))
      ensures old(trace) <= trace && OnlyCuts(cfg, old(files), old(kept), files, kept, i)
      ensures last.None? ==> old(Walk(cfg, View(), 0)) == None
      ensures last.Some? ==> Settled(cfg, View(), i + 1)
      ensures last.Some? ==> last.value == LastGood(View(), i, CountAt(cfg, View(), i))
    {
      hide ScanBytes, ResumedDir, Walk, Repeatable, Settled, Follows, CountAt, Mended, Accounted;
      ghost var before := View();
      FatalRefuses(cfg, before, i);
      var report := ScanSegment(cfg.crc, cfg.maxRecord, files[i].bytes);
      NoneCut(cfg, files, kept, i);
      if report.TooLarge? {
        return None;
      }
      CutRepeats(cfg, before, i);
      MendedLink(cfg, before, i);
      Mend(cfg, i, report);
      if i > 0 && tail != files[i].prevEnd {
        return None;
      }
      return Some(files[i].base + report.count - 1);
    }

    /** The switch at the end of recover. */
    method Resume(cfg: Config, tail: nat) returns (next: Option<nat>)
      requires ValidConfig(cfg) && Settled(cfg, View(), |files|)
      requires Repeatable(cfg, Walk(cfg, View(), 0))
      requires files != [] ==> tail == LastGood(View(), |files| - 1, CountAt(cfg, View(), |files| - 1))
      modifies this
      ensures old(Walk(cfg, View(), 0)) == Some(View())
      ensures next == Some(NextNumber(cfg, View()))
      ensures Repeatable(cfg, old(Walk(cfg, View(), 0)))
      ensures old(trace) <= trace && old(files) <= files && kept == old(kept)
    {
      hide Walk, ScanBytes, Examine, Follows, CountAt, NextNumber, Settled;
      ghost var d := View();
      ghost var r := ResumedDir(cfg, d);
      ResumeRepeats(cfg, d);
      NextAfterResume(cfg, d);
      if files == [] || reserved > tail {
        var prevEnd := if files == [] then 0 else tail;
        files := files + [SegFile(reserved + 1, prevEnd, [])];
        next := Some(reserved + 1);
        assert View() == r;
        hide ResumedDir;
        trace := trace + [View()];
      } else {
        next := Some(tail + 1);
        assert d == r;
      }
    }
  }
}
