/** What a reader's snapshot of the running log looks like (snapshot, wal.go). */
module WalSnapshot {
  import opened RecordFormat
  import opened SegmentScan
  import opened Wal
  import opened WalShape
  import opened WalHistory
  import opened WalRuns
  import opened WalDurability
  import opened LogReader

  /** A segment still in the directory counts a record numbered n. */
  ghost predicate Counted(m: Mem, n: nat)
    requires m.removed <= |m.segs|
  {
    exists i :: 0 <= i < |Alive(m)| && Alive(m)[i].base <= n < Alive(m)[i].base + Alive(m)[i].count
  }

  /** The durable mark names a record that is listed, or one that has been deleted. */
  ghost predicate DurableReal(s: State) {
    HasActive(s) ==> s.mem.value.durable <= s.gone || Counted(s.mem.value, s.mem.value.durable)
  }

  lemma CountedKept(m: Mem, m': Mem, n: nat)
    requires m.removed <= |m.segs| && m'.removed <= |m'.segs| && |Alive(m)| <= |Alive(m')| && Counted(m, n)
    requires forall i :: 0 <= i < |Alive(m)| ==> Alive(m')[i].base == Alive(m)[i].base && Alive(m)[i].count <= Alive(m')[i].count
    ensures Counted(m', n)
  {
    var i :| 0 <= i < |Alive(m)| && Alive(m)[i].base <= n < Alive(m)[i].base + Alive(m)[i].count;
    assert Alive(m')[i].base <= n < Alive(m')[i].base + Alive(m')[i].count;
  }

  lemma RealQuiet(cfg: Config, s: State, step: Step)
    requires Good(cfg, s) && DurableReal(s) && Enabled(cfg, s, step)
    requires Silent(step) && s.mem.Some?
    ensures DurableReal(Apply(cfg, s, step))
  {
    hide Frames, ScanBytes, Good, Enabled, Apply;
    var s' := Apply(cfg, s, step);
    QuietLives(cfg, s, step);
    var m, m' := s.mem.value, s'.mem.value;
    DurableStays(cfg, s, step);
    HeadStays(cfg, s, step);
    if m.durable > s.gone {
      SegsGrow(cfg, s, step);
      CountedKept(m, m', m.durable);
    }
  }

  lemma QuietLives(cfg: Config, s: State, step: Step)
    requires Good(cfg, s) && Enabled(cfg, s, step) && Silent(step) && s.mem.Some?
    ensures HasActive(s) && Apply(cfg, s, step).mem.Some?
  {
    hide Frames, ScanBytes, DiskOk, RoundsOk, NumbersOk, ActiveOk, History, Matches, Complete, Tagged, Drop, Aligned;
  }

  /** No segment in the directory shrinks or leaves the list. */
  lemma SegsGrow(cfg: Config, s: State, step: Step)
    requires HasActive(s) && Enabled(cfg, s, step) && (Silent(step) || step.SettleOk?) && Apply(cfg, s, step).mem.Some?
    ensures var m, m' := s.mem.value, Apply(cfg, s, step).mem.value;
            && m.removed <= |m.segs| && m'.removed <= |m'.segs| && |Alive(m)| <= |Alive(m')|
            && forall i :: 0 <= i < |Alive(m)| ==>
                 && Alive(m')[i].base == Alive(m)[i].base && Alive(m')[i].prevEnd == Alive(m)[i].prevEnd
                 && Alive(m)[i].count <= Alive(m')[i].count
  {
    hide Frames, ScanBytes, Tagged, Drop, Numbered;
    if !step.LinkNext? && !step.PublishSize? && !step.TruncateEnd? {
      hide Enabled, Apply;
      SegsSame(cfg, s, step);
    }
  }

  lemma SegsSame(cfg: Config, s: State, step: Step)
    requires HasActive(s) && Enabled(cfg, s, step) && (Silent(step) || step.SettleOk?) && Apply(cfg, s, step).mem.Some?
    requires !step.LinkNext? && !step.PublishSize? && !step.TruncateEnd?
    ensures var m, m' := s.mem.value, Apply(cfg, s, step).mem.value; m'.segs == m.segs && m'.removed == m.removed
  {
    hide Frames, ScanBytes, Tagged, Drop, Numbered;
  }

  lemma RealSettle(cfg: Config, s: State)
    requires Good(cfg, s) && AtPoint(s, Sized) && Flying(s)
    ensures DurableReal(DoSettleOk(s))
  {
    hide Frames, ScanBytes, DiskOk, RoundsOk, History, Matches, Complete;
    var m := DoSettleOk(s).mem.value;
    assert Alive(m)[|Alive(m)| - 1] == Active(m);
  }

  lemma RealRemove(cfg: Config, s: State)
    requires Good(cfg, s) && GoneOk(s) && DurableReal(s) && Enabled(cfg, s, TruncateRemove)
    ensures DurableReal(DoTruncateRemove(s))
  {
    hide Frames, ScanBytes, RoundsOk, NumbersOk, ActiveOk, History;
    var s' := DoTruncateRemove(s);
    var m, m' := s.mem.value, s'.mem.value;
    assert FileOk(cfg, s.disk.files[0]);
    assert Matches(cfg, Alive(m)[0], s.disk.files[0]);
    assert Alive(m') == Alive(m)[1..];
    if m.durable > s'.gone {
      var i :| 0 <= i < |Alive(m)| && Alive(m)[i].base <= m.durable < Alive(m)[i].base + Alive(m)[i].count;
      assert Alive(m')[i - 1] == Alive(m)[i];
    }
  }

  lemma {:induction false} LastRecordListed(segs: seq<Seg>)
    ensures LastRecord(segs) == 0
            || exists i :: 0 <= i < |segs| && segs[i].base <= LastRecord(segs) < segs[i].base + segs[i].count
  {
    if segs != [] && segs[|segs| - 1].count == 0 {
      LastRecordListed(segs[..|segs| - 1]);
    }
  }

  lemma RealRecover(cfg: Config, s: State)
    ensures DurableReal(DoRecover(cfg, s))
  {
    hide Frames, ScanBytes, Contents, Trimmed, Resumed, SegOf, LastRecord;
    var m := DoRecover(cfg, s).mem.value;
    assert Alive(m) == m.segs;
    LastRecordListed(m.segs);
  }

  lemma RealStep(cfg: Config, s: State, step: Step)
    requires ValidConfig(cfg) && Good(cfg, s) && GoneOk(s) && DurableReal(s) && Enabled(cfg, s, step)
    ensures DurableReal(Apply(cfg, s, step))
  {
    hide Good, DurableReal, GoneOk;
    match step {
      case SettleOk => RealSettle(cfg, s);
      case TruncateRemove => RealRemove(cfg, s);
      case Recover => RealRecover(cfg, s);
      case CloseEnd(_) => RealStopped(Apply(cfg, s, step));
      case ProcessCrash => RealStopped(Apply(cfg, s, step));
      case MachineCrash(_) => RealStopped(Apply(cfg, s, step));
      case TrimTail => RealStopped(Apply(cfg, s, step));
      case _ => RealQuiet(cfg, s, step);
    }
  }

  lemma RealStopped(s: State)
    requires s.mem.None?
    ensures DurableReal(s)
  {
  }

  /** The views a reader copies under the log's mutex. */
  ghost function ViewsOf(s: State): seq<View>
    requires HasActive(s)
  {
    var m := s.mem.value;
    seq(|Alive(m)|, i requires 0 <= i < |Alive(m)| => ViewOf(Alive(m)[i], if i < |s.disk.files| then s.disk.files[i] else s.disk.files[0]))
  }

  function ViewOf(g: Seg, f: File): View {
    View(g.base, g.prevEnd, if g.count <= |f.written| then f.written[..g.count] else f.written)
  }

  ghost function SnapOf(s: State): Snap
    requires HasActive(s)
  {
    Snap(ViewsOf(s), s.mem.value.durable)
  }

  // ---- no two segments start at the same number ------------------------------

  /** Along the directory, bases strictly increase. */
  ghost predicate Rising(files: seq<File>) {
    forall i, j :: 0 <= i < |files| && 0 <= j < |files| && j == i + 1 ==> files[i].base < files[j].base
  }

  lemma RisingSame(files: seq<File>, files': seq<File>)
    requires Rising(files) && |files'| <= |files|
    requires forall i :: 0 <= i < |files'| ==> files'[i].base == files[i].base
    ensures Rising(files')
  {
  }

  lemma RisingAppend(files: seq<File>, f: File)
    requires Rising(files) && (files != [] ==> files[|files| - 1].base < f.base)
    ensures Rising(files + [f])
  {
  }

  lemma RisingCreate(cfg: Config, s: State)
    requires Good(cfg, s) && Rising(s.disk.files) && Enabled(cfg, s, CreateNext)
    ensures Rising(DoCreateNext(s).disk.files)
  {
    hide Frames, ScanBytes, DiskOk, RoundsOk, History, Rising;
    var a := Active(s.mem.value);
    ActiveMatches(cfg, s);
    NonEmptyCounts(cfg, a, ActiveFile(s));
    RisingAppend(s.disk.files, File(s.mem.value.pc.first, s.mem.value.pc.first - 1, [], 0, []));
  }

  lemma NonEmptyCounts(cfg: Config, g: Seg, f: File)
    requires Matches(cfg, g, f) && g.size > 0
    ensures g.count > 0
  {
    hide ScanBytes;
    assert f.written[..0] == [];
  }

  lemma RisingRecover(cfg: Config, s: State)
    requires ValidConfig(cfg) && Good(cfg, s) && Rising(s.disk.files) && Enabled(cfg, s, Recover)
    ensures Rising(DoRecover(cfg, s).disk.files)
  {
    hide Frames, ScanBytes, RoundsOk, History, Contents, Openable, Rising;
    var t := Trimmed(cfg, s.disk.files);
    TrimmedFiles(cfg, s.disk.files);
    RisingSame(s.disk.files, t);
    if t == [] {
      var f := File(s.disk.reserved + 1, 0, [], 0, []);
      RisingAppend(t, f);
      assert t + [f] == [f];
    } else if Resumed(cfg, t, s.disk.reserved) != t {
      RisingAppend(t, File(s.disk.reserved + 1, LastLSN(SegOf(cfg, t[|t| - 1])), [], 0, []));
    }
  }

  /** Other steps keep the bases of the files they keep. */
  lemma RisingStays(cfg: Config, s: State, step: Step)
    requires Rising(s.disk.files) && Enabled(cfg, s, step)
    requires !step.CreateNext? && !step.Recover? && !step.TruncateRemove?
    ensures Rising(Apply(cfg, s, step).disk.files)
  {
    hide Frames, ScanBytes, Tagged, Drop, Numbered, Openable, SegOf, Rising;
    RisingSame(s.disk.files, Apply(cfg, s, step).disk.files);
  }

  lemma RisingStep(cfg: Config, s: State, step: Step)
    requires ValidConfig(cfg) && Good(cfg, s) && Rising(s.disk.files) && Enabled(cfg, s, step)
    ensures Rising(Apply(cfg, s, step).disk.files)
  {
    hide Good, Frames, ScanBytes, DoRecover, DoCreateNext;
    match step {
      case CreateNext => RisingCreate(cfg, s);
      case Recover => RisingRecover(cfg, s);
      case TruncateRemove =>
      case _ => hide Apply, Enabled, Rising; RisingStays(cfg, s, step);
    }
  }

  // ---- snapshots --------------------------------------------------------------

  /** A snapshot of a reachable state is what the reader expects: linked segments and a
      durable mark that names a record or lies below the head. */
  lemma SnapshotOk(cfg: Config, s: State)
    requires ValidConfig(cfg) && Good(cfg, s) && GoneOk(s) && DurableReal(s) && Rising(s.disk.files) && HasActive(s)
    ensures SnapOk(cfg.maxRecord, SnapOf(s))
  {
    hide Frames, ScanBytes, RoundsOk, NumbersOk, ActiveOk, History, FileOk;
    var m, views := s.mem.value, ViewsOf(s);
    forall i | 0 <= i < |views|
      ensures views[i].base == Alive(m)[i].base == s.disk.files[i].base
      ensures views[i].prevEnd == s.disk.files[i].prevEnd < views[i].base && Within(cfg.maxRecord, views[i].recs)
      ensures |views[i].recs| == Alive(m)[i].count
    {
      assert Matches(cfg, Alive(m)[i], s.disk.files[i]);
      FileParts(cfg, s.disk.files[i]);
    }
    forall i, j | 0 <= i < |views| && 0 <= j < |views| && j == i + 1
      ensures views[j].prevEnd + 1 == views[i].base + |views[i].recs| && views[i].base < views[j].base
    {
      assert Complete(Alive(m)[i], s.disk.files[i]);
      assert Follows(s.disk.files[i], s.disk.files[j]);
    }
    if m.durable > s.gone {
      var i :| 0 <= i < |Alive(m)| && Alive(m)[i].base <= m.durable < Alive(m)[i].base + Alive(m)[i].count;
      assert Has(views[i], m.durable);
    }
  }

  lemma FileParts(cfg: Config, f: File)
    requires FileOk(cfg, f)
    ensures f.prevEnd < f.base && Within(cfg.maxRecord, f.written)
  {
  }

  /** What the snapshot holds up to the durable mark is exactly what is visible. */
  lemma SnapshotVisible(cfg: Config, s: State, n: nat, r: Record)
    requires Good(cfg, s) && HasActive(s)
    ensures Visible(s, n, r) <==> HoldsRecord(ViewsOf(s), n, r) && n <= s.mem.value.durable
  {
    hide Frames, ScanBytes, Good, ViewsOf;
    var m, views := s.mem.value, ViewsOf(s);
    ViewsMatch(cfg, s);
    if Visible(s, n, r) {
      var i :| VisibleIn(s, i, n, r);
      assert Has(views[i], n) && views[i].recs[n - views[i].base] == r;
    }
    if HoldsRecord(views, n, r) && n <= m.durable {
      var i :| 0 <= i < |views| && Has(views[i], n) && views[i].recs[n - views[i].base] == r;
      assert VisibleIn(s, i, n, r);
    }
  }

  lemma ViewsMatch(cfg: Config, s: State)
    requires Good(cfg, s) && HasActive(s)
    ensures var m, views := s.mem.value, ViewsOf(s);
            && m.removed <= |m.segs| && |views| == |Alive(m)| <= |s.disk.files|
            && forall i :: 0 <= i < |views| ==>
                 && Alive(m)[i].count <= |s.disk.files[i].written|
                 && views[i].base == Alive(m)[i].base == s.disk.files[i].base
                 && views[i].recs == s.disk.files[i].written[..Alive(m)[i].count]
  {
    hide Frames, ScanBytes, RoundsOk, NumbersOk, ActiveOk, History, DiskOk, Complete;
    var m := s.mem.value;
    forall i | 0 <= i < |Alive(m)|
      ensures Matches(cfg, Alive(m)[i], s.disk.files[i])
    {
    }
  }

  // ---- what later snapshots of one process look like -----------------------------

  /** The invariants behind snapshots. */
  ghost predicate Snappable(cfg: Config, s: State) {
    Good(cfg, s) && GoneOk(s) && DurableReal(s) && Rising(s.disk.files)
  }

  lemma SnappableStep(cfg: Config, s: State, step: Step)
    requires ValidConfig(cfg) && Snappable(cfg, s) && Enabled(cfg, s, step)
    ensures Snappable(cfg, Apply(cfg, s, step))
  {
    hide Shape, History, DurableReal, GoneOk, Enabled, Apply, Rising;
    ShapeStep(cfg, s, step);
    HistoryStep(cfg, s, step);
    GoneMonotone(cfg, s, step);
    RealStep(cfg, s, step);
    RisingStep(cfg, s, step);
  }

  /** The records a segment counts stay where they are until its file is deleted. */
  lemma CountedStay(cfg: Config, s: State, step: Step)
    requires Good(cfg, s) && Enabled(cfg, s, step) && HasActive(s) && Apply(cfg, s, step).mem.Some? && !step.TruncateRemove?
    ensures var m, files, files' := s.mem.value, s.disk.files, Apply(cfg, s, step).disk.files;
            forall i :: 0 <= i < |Alive(m)| && i < |files| ==>
              && i < |files'| && Alive(m)[i].count <= |files[i].written| && Alive(m)[i].count <= |files'[i].written|
              && files'[i].written[..Alive(m)[i].count] == files[i].written[..Alive(m)[i].count]
  {
    hide Good, Enabled, Apply;
    var m, files, files' := s.mem.value, s.disk.files, Apply(cfg, s, step).disk.files;
    AliveMatch(cfg, s);
    FilesStay(cfg, s, step);
    forall i | 0 <= i < |Alive(m)| && i < |files|
      ensures files'[i].written[..Alive(m)[i].count] == files[i].written[..Alive(m)[i].count]
    {
      var c := Alive(m)[i].count;
      if files'[i].written != files[i].written && files[i].written <= files'[i].written {
        assert files'[i].written[..c] == files[i].written[..c];
      }
    }
  }

  lemma AliveMatch(cfg: Config, s: State)
    requires Good(cfg, s) && HasActive(s)
    ensures var m := s.mem.value;
            && |Alive(m)| > 0 && Alive(m)[|Alive(m)| - 1] == Active(m)
            && (AtPoint(s, Created) ==> |Alive(m)| < |s.disk.files|)
            && forall i :: 0 <= i < |Alive(m)| ==> i < |s.disk.files| && Alive(m)[i].count <= |s.disk.files[i].written|
  {
    hide Frames, ScanBytes, DiskOk, RoundsOk, NumbersOk, ActiveOk, History, Complete;
    var m := s.mem.value;
    assert forall i :: 0 <= i < |Alive(m)| ==> Matches(cfg, Alive(m)[i], s.disk.files[i]);
  }

  /** A living process only appends to the active file or cuts it back to what it counts. */
  lemma FilesStay(cfg: Config, s: State, step: Step)
    requires Enabled(cfg, s, step) && HasActive(s) && Apply(cfg, s, step).mem.Some? && !step.TruncateRemove?
    requires AtPoint(s, Created) ==> |Alive(s.mem.value)| < |s.disk.files|
    ensures var m, files, files' := s.mem.value, s.disk.files, Apply(cfg, s, step).disk.files;
            forall i :: 0 <= i < |Alive(m)| && i < |files| && Alive(m)[i].count <= |files[i].written| ==>
              && i < |files'|
              && (files[i].written <= files'[i].written || files'[i].written == files[i].written[..Alive(m)[i].count])
  {
    hide Frames, ScanBytes, Tagged, Drop, Numbered, Openable, SegOf, Contents;
    var m := s.mem.value;
    if step.Write? || step.Rollback? || step.RollbackFails? {
      assert Alive(m)[|Alive(m)| - 1] == Active(m);
    } else {
      hide Enabled, Apply;
      WrittenStays(cfg, s, step);
    }
  }

  lemma WrittenStays(cfg: Config, s: State, step: Step)
    requires Enabled(cfg, s, step) && HasActive(s) && Apply(cfg, s, step).mem.Some? && !step.TruncateRemove?
    requires !step.Write? && !step.Rollback? && !step.RollbackFails?
    requires AtPoint(s, Created) ==> |Alive(s.mem.value)| < |s.disk.files|
    ensures var m, files, files' := s.mem.value, s.disk.files, Apply(cfg, s, step).disk.files;
            forall i :: 0 <= i < |Alive(m)| && i < |files| ==> i < |files'| && files'[i].written == files[i].written
  {
    hide Frames, ScanBytes, Tagged, Drop, Numbered, Openable, SegOf, Contents;
  }

  lemma ViewsGrow(cfg: Config, s: State, step: Step)
    requires ValidConfig(cfg) && Good(cfg, s) && Enabled(cfg, s, step) && HasActive(s) && Apply(cfg, s, step).mem.Some?
    requires !step.TruncateRemove? && Good(cfg, Apply(cfg, s, step)) && HasActive(Apply(cfg, s, step))
    ensures var v, v' := ViewsOf(s), ViewsOf(Apply(cfg, s, step));
            && |v| <= |v'|
            && forall i :: 0 <= i < |v| ==> SamePath(v[i], v'[i]) && v[i].recs <= v'[i].recs
  {
    hide Good, Enabled, Apply;
    var s' := Apply(cfg, s, step);
    LivingQuiet(cfg, s, step);
    SegsGrow(cfg, s, step);
    CountedStay(cfg, s, step);
    ViewsMatch(cfg, s);
    ViewsMatch(cfg, s');
    ViewPaths(s);
    ViewPaths(s');
    var m, m' := s.mem.value, s'.mem.value;
    forall i | 0 <= i < |ViewsOf(s)|
      ensures SamePath(ViewsOf(s)[i], ViewsOf(s')[i]) && ViewsOf(s)[i].recs <= ViewsOf(s')[i].recs
    {
      var c := Alive(m)[i].count;
      assert s'.disk.files[i].written[..c] == ViewsOf(s)[i].recs;
    }
  }

  lemma LivingQuiet(cfg: Config, s: State, step: Step)
    requires Enabled(cfg, s, step) && HasActive(s) && Apply(cfg, s, step).mem.Some? && !step.TruncateRemove?
    ensures Silent(step) || step.SettleOk?
  {
    hide Frames, ScanBytes, Contents, Trimmed, Resumed, Tagged, Drop;
  }

  lemma ViewPaths(s: State)
    requires HasActive(s)
    ensures forall i :: 0 <= i < |ViewsOf(s)| ==>
              ViewsOf(s)[i].base == Alive(s.mem.value)[i].base && ViewsOf(s)[i].prevEnd == Alive(s.mem.value)[i].prevEnd
  {
  }

  /** Index by index, b continues a without its first d segments. */
  lemma LaterFrom(max: nat, a: Snap, b: Snap, d: nat)
    requires SnapOk(max, a) && SnapOk(max, b) && a.durable <= b.durable && d < |a.views| && |a.views| - d <= |b.views|
    requires forall i :: d <= i < |a.views| ==> SamePath(a.views[i], b.views[i - d]) && a.views[i].recs <= b.views[i - d].recs
    requires forall j :: |a.views| - d <= j < |b.views| ==> b.views[j].base > LastBase(a) && b.views[j].base > a.durable
    requires forall n: nat, r :: n > Head(b) && n <= a.durable ==> (HoldsRecord(a.views, n, r) <==> HoldsRecord(b.views, n, r))
    ensures Later(a, b)
  {
    hide Chained, HoldsRecord;
    var k := |a.views| - 1;
    AboveHead(max, a, d);
    if k - d < |b.views| - 1 {
      ViewsOrdered(max, b, k - d, |b.views| - 1);
    }
    forall i | 0 <= i < |a.views| ensures Grown(a.views[i], b.views) {
      forall j | 0 <= j < |b.views| && SamePath(a.views[i], b.views[j]) ensures a.views[i].recs <= b.views[j].recs {
        BaseBelowLast(max, a, i);
        if j + d < |a.views| {
          assert SamePath(a.views[j + d], b.views[j]);
          SamePathSame(max, a, i, j + d);
        }
      }
    }
    forall j | 0 <= j < |b.views|
      ensures Listed(a.views, b.views[j]) || (b.views[j].base > LastBase(a) && b.views[j].base > a.durable)
    {
      if j + d < |a.views| {
        assert SamePath(a.views[j + d], b.views[j]);
      }
    }
  }

  lemma BaseBelowLast(max: nat, e: Snap, i: nat)
    requires SnapOk(max, e) && i < |e.views|
    ensures e.views[i].base <= LastBase(e)
  {
    if i < |e.views| - 1 {
      ViewsOrdered(max, e, i, |e.views| - 1);
    }
  }

  /** What was visible up to the durable mark and is not deleted is what stays visible. */
  lemma VisibleStays(cfg: Config, s: State, step: Step, n: nat, r: Record)
    requires ValidConfig(cfg) && Snappable(cfg, s) && Enabled(cfg, s, step) && HasActive(s)
    requires Apply(cfg, s, step).mem.Some? && HasActive(Apply(cfg, s, step)) && Snappable(cfg, Apply(cfg, s, step))
    requires n <= s.mem.value.durable && n > Apply(cfg, s, step).gone
    ensures HoldsRecord(ViewsOf(s), n, r) <==> HoldsRecord(ViewsOf(Apply(cfg, s, step)), n, r)
  {
    hide Good, Enabled, Apply, Visible, HoldsRecord, ViewsOf, DurableReal, GoneOk, Rising;
    var s' := Apply(cfg, s, step);
    SnapshotVisible(cfg, s, n, r);
    SnapshotVisible(cfg, s', n, r);
    DurableMonotone(cfg, s, step);
    FlatMapStep(cfg, s, step, n, r);
    if !step.TruncateRemove? {
      LivingQuiet(cfg, s, step);
      if step.SettleOk? && InBatch(s, n, r) {
        BatchAbove(cfg, s, n, r);
      }
    }
  }

  lemma BatchAbove(cfg: Config, s: State, n: nat, r: Record)
    requires Good(cfg, s) && HasActive(s) && InBatch(s, n, r)
    ensures n > s.mem.value.durable
  {
    hide Frames, ScanBytes, DiskOk, Aligned, ActiveOk, RoundsOk, TagsOk, PastOk;
  }

  /** Snapshots of one process only ever move on. */
  lemma LaterStep(cfg: Config, s: State, step: Step)
    requires ValidConfig(cfg) && Snappable(cfg, s) && Enabled(cfg, s, step) && HasActive(s) && Apply(cfg, s, step).mem.Some?
    ensures Snappable(cfg, Apply(cfg, s, step)) && HasActive(Apply(cfg, s, step))
    ensures SnapOk(cfg.maxRecord, SnapOf(s)) && SnapOk(cfg.maxRecord, SnapOf(Apply(cfg, s, step)))
    ensures Later(SnapOf(s), SnapOf(Apply(cfg, s, step)))
  {
    hide Good, Enabled, Apply, HoldsRecord, ViewsOf, DurableReal, GoneOk, Rising, Chained, Later;
    var s' := Apply(cfg, s, step);
    SnappableStep(cfg, s, step);
    GoodActive(cfg, s');
    SnapshotOk(cfg, s);
    SnapshotOk(cfg, s');
    DurableMonotone(cfg, s, step);
    HeadIsGone(cfg, s');
    forall n: nat, r | n > Head(SnapOf(s')) && n <= s.mem.value.durable
      ensures HoldsRecord(ViewsOf(s), n, r) <==> HoldsRecord(ViewsOf(s'), n, r)
    {
      VisibleStays(cfg, s, step, n, r);
    }
    if step.TruncateRemove? {
      RemovedViews(cfg, s);
      LaterFrom(cfg.maxRecord, SnapOf(s), SnapOf(s'), 1);
    } else {
      ViewsGrow(cfg, s, step);
      NewViews(cfg, s, step);
      LaterFrom(cfg.maxRecord, SnapOf(s), SnapOf(s'), 0);
    }
  }

  lemma HeadIsGone(cfg: Config, s: State)
    requires Good(cfg, s) && GoneOk(s) && HasActive(s) && ViewsOf(s) != []
    ensures s.gone <= Head(SnapOf(s))
  {
    hide Frames, ScanBytes, RoundsOk, NumbersOk, ActiveOk, History, DiskOk, Complete;
    assert Matches(cfg, Alive(s.mem.value)[0], s.disk.files[0]);
  }

  lemma RemovedViews(cfg: Config, s: State)
    requires Good(cfg, s) && Enabled(cfg, s, TruncateRemove) && HasActive(s)
    ensures Apply(cfg, s, TruncateRemove) == DoTruncateRemove(s) && HasActive(DoTruncateRemove(s))
    ensures |ViewsOf(s)| >= 2 && ViewsOf(DoTruncateRemove(s)) == ViewsOf(s)[1..]
  {
    hide Frames, ScanBytes, RoundsOk, NumbersOk, ActiveOk, History, DiskOk, Complete, Matches;
    var s' := DoTruncateRemove(s);
    assert Alive(s'.mem.value) == Alive(s.mem.value)[1..];
  }

  /** A segment that is linked starts above everything settled. */
  lemma NewViews(cfg: Config, s: State, step: Step)
    requires Good(cfg, s) && Enabled(cfg, s, step) && HasActive(s) && Apply(cfg, s, step).mem.Some? && !step.TruncateRemove?
    requires Good(cfg, Apply(cfg, s, step)) && HasActive(Apply(cfg, s, step)) && ViewsOf(s) != []
    requires Rising(Apply(cfg, s, step).disk.files)
    ensures var v, v' := ViewsOf(s), ViewsOf(Apply(cfg, s, step));
            forall j :: |v| <= j < |v'| ==> v'[j].base > LastBase(SnapOf(s)) && v'[j].base > s.mem.value.durable
  {
    hide Good, Rising;
    if step.LinkNext? {
      LinkedView(cfg, s);
    } else {
      hide Enabled, Apply;
      LivingQuiet(cfg, s, step);
      NoNewSegs(cfg, s, step);
    }
  }

  lemma NoNewSegs(cfg: Config, s: State, step: Step)
    requires HasActive(s) && Enabled(cfg, s, step) && (Silent(step) || step.SettleOk?) && Apply(cfg, s, step).mem.Some? && !step.LinkNext?
    requires HasActive(Apply(cfg, s, step))
    ensures |ViewsOf(Apply(cfg, s, step))| == |ViewsOf(s)|
  {
    hide Frames, ScanBytes, Tagged, Drop, Numbered, ViewOf;
  }

  lemma LinkedView(cfg: Config, s: State)
    requires Good(cfg, s) && Enabled(cfg, s, LinkNext) && HasActive(s) && Rising(Apply(cfg, s, LinkNext).disk.files)
    requires HasActive(Apply(cfg, s, LinkNext)) && ViewsOf(s) != []
    ensures var v, v' := ViewsOf(s), ViewsOf(Apply(cfg, s, LinkNext));
            forall j :: |v| <= j < |v'| ==> v'[j].base > LastBase(SnapOf(s)) && v'[j].base > s.mem.value.durable
  {
    hide Frames, ScanBytes, RoundsOk, TagsOk, PastOk, DiskOk, Complete;
    var m := s.mem.value;
    var k := ActiveIndex(m);
    ActiveMatches(cfg, s);
    assert Alive(m)[|Alive(m)| - 1] == Active(m);
    assert s.disk.files[k + 1] == File(m.pc.first, m.pc.first - 1, [], 0, []);
    var files' := Apply(cfg, s, LinkNext).disk.files;
    assert files'[k].base < files'[k + 1].base;
  }

  lemma {:induction false} RunReal(cfg: Config, states: seq<State>, steps: seq<Step>, i: nat)
    requires ValidConfig(cfg) && IsRun(cfg, states, steps) && states[0] == Fresh && i < |states|
    ensures Snappable(cfg, states[i])
  {
    hide Good, DurableReal, GoneOk, Enabled, Apply, Rising;
    if i == 0 {
      SnappableFresh(cfg);
    } else {
      hide Snappable;
      RunReal(cfg, states, steps, i - 1);
      assert Goes(cfg, states[i - 1], steps[i - 1], states[i]);
      SnappableStep(cfg, states[i - 1], steps[i - 1]);
    }
  }

  lemma SnappableFresh(cfg: Config)
    ensures Snappable(cfg, Fresh)
  {
    GoodFresh(cfg);
    RealStopped(Fresh);
    AckedFresh(cfg);
  }

  /** Steps i..j of the run are steps of one process. */
  ghost predicate OneProcess(states: seq<State>, i: nat, j: nat) {
    i <= j < |states| && forall k :: i <= k <= j ==> states[k].mem.Some?
  }

  /** Over whole runs: of two snapshots one process takes, the later one continues the
      earlier one, so a reader may be asked whenever one likes (LogReader.Reader.Next). */
  lemma {:induction false} RunLater(cfg: Config, states: seq<State>, steps: seq<Step>, i: nat, j: nat)
    requires ValidConfig(cfg) && IsRun(cfg, states, steps) && states[0] == Fresh && OneProcess(states, i, j)
    ensures HasActive(states[i]) && HasActive(states[j])
    ensures SnapOk(cfg.maxRecord, SnapOf(states[i])) && SnapOk(cfg.maxRecord, SnapOf(states[j]))
    ensures Later(SnapOf(states[i]), SnapOf(states[j]))
    decreases j - i
  {
    hide Good, DurableReal, GoneOk, Enabled, Apply, Rising, Chained, Later, ViewsOf;
    RunReal(cfg, states, steps, i);
    GoodActive(cfg, states[i]);
    if i == j {
      SnapshotOk(cfg, states[i]);
      LaterRefl(cfg.maxRecord, SnapOf(states[i]));
    } else {
      RunLater(cfg, states, steps, i, j - 1);
      RunReal(cfg, states, steps, j - 1);
      assert states[j - 1].mem.Some? && states[j].mem.Some?;
      assert Goes(cfg, states[j - 1], steps[j - 1], states[j]);
      LaterStep(cfg, states[j - 1], steps[j - 1]);
      LaterTrans(cfg.maxRecord, SnapOf(states[i]), SnapOf(states[j - 1]), SnapOf(states[j]));
    }
  }

  /** Over whole runs: whenever a process has the log open, the snapshot a reader takes is
      linked, names a real durable record, and shows exactly what is visible. */
  lemma RunSnapshot(cfg: Config, states: seq<State>, steps: seq<Step>, i: nat)
    requires ValidConfig(cfg) && IsRun(cfg, states, steps) && states[0] == Fresh && i < |states| && HasActive(states[i])
    ensures SnapOk(cfg.maxRecord, SnapOf(states[i]))
    ensures forall n: nat, r ::
              Visible(states[i], n, r) <==> HoldsRecord(ViewsOf(states[i]), n, r) && n <= states[i].mem.value.durable
  {
    hide Good, DurableReal, GoneOk, Enabled, Apply, Rising, Chained, ViewsOf, Visible, HoldsRecord;
    RunReal(cfg, states, steps, i);
    SnapshotOk(cfg, states[i]);
    forall n: nat, r
      ensures Visible(states[i], n, r) <==> HoldsRecord(ViewsOf(states[i]), n, r) && n <= states[i].mem.value.durable
    {
      SnapshotVisible(cfg, states[i], n, r);
    }
  }
}
