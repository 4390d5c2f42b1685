/** ageTracker (internal_support.go): a small queue of marks that stands for the whole
    history of accepted records. */
module AgeQueue {

  const GRANULARITY: int := 100_000_000   // 100 ms in nanoseconds
  const MAX_MARKS: nat := 512

  /** "No record covered by this mark was accepted before `at`." */
  datatype Mark = Mark(lsn: nat, at: int)

  /** One call of note: every number up to lsn had been accepted by `at`. */
  datatype Note = Note(lsn: nat, at: int)

  /** Mark i covers the numbers above Floor and up to its own. */
  ghost function Floor(marks: seq<Mark>, i: nat): int
    requires i < |marks|
  {
    if i > 0 then marks[i - 1].lsn else -1
  }

  /** Mark i is the one that covers h, and does not make h younger than it is. */
  ghost predicate Covers(marks: seq<Mark>, i: nat, h: Note)
    requires i < |marks|
  {
    Floor(marks, i) < h.lsn <= marks[i].lsn && marks[i].at <= h.at
  }

  /** Note h is where mark i has its time from, and lies in the mark's own range. */
  ghost predicate DatedBy(marks: seq<Mark>, i: nat, h: Note)
    requires i < |marks|
  {
    Floor(marks, i) < h.lsn <= marks[i].lsn && marks[i].at == h.at
  }

  ghost predicate Sorted(marks: seq<Mark>) {
    forall i, j :: 0 <= i < j < |marks| ==>
      marks[i].lsn < marks[j].lsn && marks[i].at + GRANULARITY <= marks[j].at
  }

  ghost predicate Reaches(hist: seq<Note>, lsn: nat) {
    exists k :: 0 <= k < |hist| && hist[k].lsn == lsn
  }

  ghost predicate Dated(marks: seq<Mark>, hist: seq<Note>, i: nat)
    requires i < |marks|
  {
    Reaches(hist, marks[i].lsn) && exists k :: 0 <= k < |hist| && DatedBy(marks, i, hist[k])
  }

  ghost predicate Covered(marks: seq<Mark>, h: Note) {
    exists i :: 0 <= i < |marks| && Covers(marks, i, h)
  }

  /** Every mark carries the number and the time of notes that were really made. */
  ghost predicate AllReal(marks: seq<Mark>, trimmed: nat, hist: seq<Note>) {
    forall i :: 0 <= i < |marks| ==> marks[i].lsn > trimmed && Dated(marks, hist, i)
  }

  ghost predicate PendingCovered(marks: seq<Mark>, trimmed: nat, hist: seq<Note>) {
    forall k :: 0 <= k < |hist| && hist[k].lsn > trimmed ==> Covered(marks, hist[k])
  }

  /** The queue stands for the history of notes. */
  ghost predicate Stands(marks: seq<Mark>, trimmed: nat, hist: seq<Note>) {
    Sorted(marks) && AllReal(marks, trimmed, hist) && PendingCovered(marks, trimmed, hist)
  }

  ghost predicate ClockReads(hist: seq<Note>, now: int) {
    forall k :: 0 <= k < |hist| ==> hist[k].at <= now
  }

  // ---- what each change of the queue keeps -------------------------------

  /** Mark i of m covers at least what mark j of marks did, at the same time. */
  ghost predicate Widens(marks: seq<Mark>, j: nat, m: seq<Mark>, i: nat)
    requires j < |marks| && i < |m|
  {
    Floor(m, i) <= Floor(marks, j) && marks[j].lsn <= m[i].lsn && m[i].at <= marks[j].at
  }

  lemma CoveredInWider(marks: seq<Mark>, m: seq<Mark>, h: Note, j: nat, i: nat)
    requires j < |marks| && i < |m| && Covers(marks, j, h) && Widens(marks, j, m, i)
    ensures Covered(m, h)
  {
    assert Covers(m, i, h);
  }

  lemma DatedInWider(marks: seq<Mark>, m: seq<Mark>, hist: seq<Note>, more: seq<Note>, j: nat, i: nat)
    requires j < |marks| && i < |m| && Dated(marks, hist, j) && Widens(marks, j, m, i)
    requires m[i].at == marks[j].at && hist <= more && Reaches(more, m[i].lsn)
    ensures Dated(m, more, i)
  {
    hide Floor;
    var b :| 0 <= b < |hist| && DatedBy(marks, j, hist[b]);
    assert DatedBy(m, i, more[b]);
  }

  lemma ReachesMore(hist: seq<Note>, more: seq<Note>, lsn: nat)
    requires Reaches(hist, lsn) && hist <= more
    ensures Reaches(more, lsn)
  {
    var a :| 0 <= a < |hist| && hist[a].lsn == lsn;
    assert more[a].lsn == lsn;
  }

  /** The first mark that reaches lsn. */
  function FirstReaching(marks: seq<Mark>, lsn: nat): (i: nat)
    requires marks != [] && lsn <= marks[|marks| - 1].lsn
    ensures i < |marks| && Floor(marks, i) < lsn <= marks[i].lsn
  {
    if |marks| == 1 || marks[|marks| - 2].lsn < lsn then |marks| - 1
    else FirstReaching(marks[..|marks| - 1], lsn)
  }

  lemma MarksPast(marks: seq<Mark>, trimmed: nat, hist: seq<Note>, now: int, i: nat)
    requires AllReal(marks, trimmed, hist) && ClockReads(hist, now) && i < |marks|
    ensures marks[i].at <= now
  {
    hide Floor, Reaches;
    assert Dated(marks, hist, i);
  }

  /** A note that needs no change to the queue. */
  lemma NoteAbsorbed(marks: seq<Mark>, trimmed: nat, hist: seq<Note>, h: Note)
    requires Stands(marks, trimmed, hist) && ClockReads(hist, h.at)
    requires h.lsn <= trimmed || (marks != [] && h.lsn <= marks[|marks| - 1].lsn)
    ensures Stands(marks, trimmed, hist + [h])
  {
    hide Sorted, Floor, Dated, Reaches, Covered;
    forall i | 0 <= i < |marks| ensures Dated(marks, hist + [h], i) {
      DatedStays(marks, hist, h, i);
    }
    if h.lsn > trimmed {
      var i := FirstReaching(marks, h.lsn);
      MarksPast(marks, trimmed, hist, h.at, i);
      CoveredBy(marks, i, h);
    }
  }

  lemma CoveredBy(marks: seq<Mark>, i: nat, h: Note)
    requires i < |marks| && Covers(marks, i, h)
    ensures Covered(marks, h)
  {
  }

  lemma DatedStays(marks: seq<Mark>, hist: seq<Note>, h: Note, i: nat)
    requires i < |marks| && Dated(marks, hist, i)
    ensures Dated(marks, hist + [h], i)
  {
    ReachesMore(hist, hist + [h], marks[i].lsn);
    DatedInWider(marks, marks, hist, hist + [h], i, i);
  }

  /** The newest mark is stretched to a later number. */
  lemma NoteExtends(marks: seq<Mark>, trimmed: nat, hist: seq<Note>, h: Note)
    requires Stands(marks, trimmed, hist) && ClockReads(hist, h.at) && marks != []
    requires h.lsn > trimmed && h.lsn > marks[|marks| - 1].lsn
    ensures Stands(marks[|marks| - 1 := marks[|marks| - 1].(lsn := h.lsn)], trimmed, hist + [h])
  {
    hide Sorted, AllReal, PendingCovered, ClockReads;
    var n := |marks| - 1;
    var m := marks[n := marks[n].(lsn := h.lsn)];
    SortedExtended(marks, h.lsn);
    FloorBelow(marks, n);
    MarksPast(marks, trimmed, hist, h.at, n);
    StretchedCovers(marks, m, trimmed, hist, h, n);
    StretchedReal(marks, m, trimmed, hist, h, n);
  }

  lemma SortedExtended(marks: seq<Mark>, lsn: nat)
    requires Sorted(marks) && marks != [] && lsn > marks[|marks| - 1].lsn
    ensures Sorted(marks[|marks| - 1 := marks[|marks| - 1].(lsn := lsn)])
  {
  }

  lemma SortedAppended(marks: seq<Mark>, m: Mark)
    requires Sorted(marks)
    requires marks != [] ==> m.lsn > marks[|marks| - 1].lsn && m.at - marks[|marks| - 1].at >= GRANULARITY
    ensures Sorted(marks + [m])
  {
  }

  lemma SortedDropped(marks: seq<Mark>, i: nat, mark: nat)
    requires Sorted(marks) && i <= |marks|
    requires i < |marks| ==> marks[i].lsn > mark
    ensures Sorted(marks[i..])
    ensures forall j :: i <= j < |marks| ==> marks[j].lsn > mark
  {
  }

  lemma FloorBelow(marks: seq<Mark>, i: nat)
    requires Sorted(marks) && i < |marks|
    ensures Floor(marks, i) < marks[i].lsn
  {
  }

  lemma SameFloor(marks: seq<Mark>, m: seq<Mark>, i: nat)
    requires i < |marks| && i < |m| && marks[..i] == m[..i]
    ensures Floor(marks, i) == Floor(m, i)
  {
    if i > 0 {
      assert marks[i - 1] == marks[..i][i - 1] == m[i - 1];
    }
  }

  /** m keeps every mark but possibly the last, which reaches the new note h. */
  ghost predicate Stretched(marks: seq<Mark>, m: seq<Mark>, h: Note, n: nat) {
    && |m| == n + 1 && n <= |marks| <= n + 1
    && m[..n] == marks[..n]
    && m[n].lsn == h.lsn && m[n].at <= h.at && Floor(m, n) < h.lsn
    && (if |marks| == n + 1 then m[n].at == marks[n].at && marks[n].lsn <= h.lsn else m[n].at == h.at)
  }

  lemma StretchedWidens(marks: seq<Mark>, m: seq<Mark>, h: Note, n: nat, i: nat)
    requires Stretched(marks, m, h, n) && i < |marks|
    ensures Widens(marks, i, m, i) && m[i].at == marks[i].at && (i < n ==> m[i] == marks[i])
  {
    assert m[..i] == m[..n][..i] == marks[..n][..i] == marks[..i];
    SameFloor(marks, m, i);
    if i < n {
      assert m[i] == m[..n][i] == marks[..n][i] == marks[i];
    }
  }

  lemma StretchedCovers(marks: seq<Mark>, m: seq<Mark>, trimmed: nat, hist: seq<Note>, h: Note, n: nat)
    requires PendingCovered(marks, trimmed, hist) && Stretched(marks, m, h, n)
    ensures PendingCovered(m, trimmed, hist + [h])
  {
    hide Floor, Widens;
    var more := hist + [h];
    forall k | 0 <= k < |more| && more[k].lsn > trimmed ensures Covered(m, more[k]) {
      if k == |hist| {
        CoveredBy(m, n, h);
      } else {
        assert more[k] == hist[k] && Covered(marks, hist[k]);
        var i :| 0 <= i < |marks| && Covers(marks, i, hist[k]);
        StretchedWidens(marks, m, h, n, i);
        CoveredInWider(marks, m, hist[k], i, i);
      }
    }
  }

  lemma StretchedReal(marks: seq<Mark>, m: seq<Mark>, trimmed: nat, hist: seq<Note>, h: Note, n: nat)
    requires AllReal(marks, trimmed, hist) && Stretched(marks, m, h, n) && h.lsn > trimmed
    ensures AllReal(m, trimmed, hist + [h])
  {
    hide Floor, Widens, Dated, Reaches;
    var more := hist + [h];
    assert more[|hist|] == h;
    forall i | 0 <= i < |m| ensures m[i].lsn > trimmed && Dated(m, more, i) {
      if i < |marks| {
        assert Dated(marks, hist, i);
        StretchedWidens(marks, m, h, n, i);
        if i < n {
          DatedReaches(marks, hist, i);
          ReachesMore(hist, more, m[i].lsn);
        } else {
          ReachesAt(more, |hist|);
        }
        DatedInWider(marks, m, hist, more, i, i);
      } else {
        DatedAt(m, more, i, |hist|);
      }
    }
  }

  lemma ReachesAt(hist: seq<Note>, k: nat)
    requires k < |hist|
    ensures Reaches(hist, hist[k].lsn)
  {
  }

  lemma DatedReaches(marks: seq<Mark>, hist: seq<Note>, i: nat)
    requires i < |marks| && Dated(marks, hist, i)
    ensures Reaches(hist, marks[i].lsn)
  {
  }

  lemma DatedAt(marks: seq<Mark>, hist: seq<Note>, i: nat, k: nat)
    requires i < |marks| && k < |hist| && DatedBy(marks, i, hist[k]) && hist[k].lsn == marks[i].lsn
    ensures Dated(marks, hist, i)
  {
  }

  /** A new mark is appended. */
  lemma NoteAppends(marks: seq<Mark>, trimmed: nat, hist: seq<Note>, h: Note)
    requires Stands(marks, trimmed, hist)
    requires h.lsn > trimmed
    requires marks != [] ==> h.lsn > marks[|marks| - 1].lsn && h.at - marks[|marks| - 1].at >= GRANULARITY
    ensures Stands(marks + [Mark(h.lsn, h.at)], trimmed, hist + [h])
  {
    var m := marks + [Mark(h.lsn, h.at)];
    hide Sorted, AllReal, PendingCovered;
    SortedAppended(marks, Mark(h.lsn, h.at));
    assert m[..|marks|] == marks[..|marks|];
    StretchedCovers(marks, m, trimmed, hist, h, |marks|);
    StretchedReal(marks, m, trimmed, hist, h, |marks|);
  }

  /** The later of the two marks that are joined into mark i. */
  function Top(marks: seq<Mark>, i: nat): (t: nat)
    requires 2 * i < |marks|
    ensures t < |marks|
  {
    if 2 * i + 1 < |marks| then 2 * i + 1 else 2 * i
  }

  /** Adjacent pairs joined: the later number, the earlier time. */
  function Paired(marks: seq<Mark>): (r: seq<Mark>)
    ensures |r| == (|marks| + 1) / 2
  {
    seq((|marks| + 1) / 2, i requires 0 <= i < (|marks| + 1) / 2 => Mark(marks[Top(marks, i)].lsn, marks[2 * i].at))
  }

  lemma PairAt(marks: seq<Mark>, i: nat)
    requires 2 * i < |marks|
    ensures i < |Paired(marks)|
    ensures Paired(marks)[i] == if 2 * i + 1 < |marks| then Mark(marks[2 * i + 1].lsn, marks[2 * i].at) else marks[2 * i]
  {
  }

  lemma PairWidens(marks: seq<Mark>, j: nat)
    requires Sorted(marks) && j < |marks|
    ensures Widens(marks, j, Paired(marks), j / 2)
  {
    var i := j / 2;
    var m := Paired(marks);
    assert m[i] == Mark(marks[Top(marks, i)].lsn, marks[2 * i].at);
    if i > 0 {
      assert m[i - 1] == Mark(marks[Top(marks, i - 1)].lsn, marks[2 * (i - 1)].at);
    }
  }

  lemma PairedSorted(marks: seq<Mark>)
    requires Sorted(marks)
    ensures Sorted(Paired(marks))
  {
    var m := Paired(marks);
    forall i, j | 0 <= i < j < |m|
      ensures m[i].lsn < m[j].lsn && m[i].at + GRANULARITY <= m[j].at
    {
      assert Top(marks, i) < Top(marks, j) && 2 * i < 2 * j;
    }
  }

  /** Halving the resolution loses no pending note and invents no time. */
  lemma PairedStands(marks: seq<Mark>, trimmed: nat, hist: seq<Note>)
    requires Stands(marks, trimmed, hist)
    ensures Stands(Paired(marks), trimmed, hist)
  {
    hide Sorted, Widens, Dated, Reaches;
    var m := Paired(marks);
    PairedSorted(marks);
    forall k | 0 <= k < |hist| && hist[k].lsn > trimmed ensures Covered(m, hist[k]) {
      assert Covered(marks, hist[k]);
      var i :| 0 <= i < |marks| && Covers(marks, i, hist[k]);
      PairWidens(marks, i);
      CoveredInWider(marks, m, hist[k], i, i / 2);
    }
    forall i | 0 <= i < |m| ensures m[i].lsn > trimmed && Dated(m, hist, i) {
      var top := Top(marks, i);
      assert m[i] == Mark(marks[top].lsn, marks[2 * i].at);
      assert Dated(marks, hist, top) && Dated(marks, hist, 2 * i);
      DatedReaches(marks, hist, top);
      PairWidens(marks, 2 * i);
      DatedInWider(marks, m, hist, hist, 2 * i, i);
    }
  }

  /** Dropping the marks at or below the acknowledged number. */
  lemma TrimStands(marks: seq<Mark>, trimmed: nat, hist: seq<Note>, mark: nat, i: nat)
    requires Stands(marks, trimmed, hist) && i <= |marks|
    requires forall j :: 0 <= j < i ==> marks[j].lsn <= mark
    requires i < |marks| ==> marks[i].lsn > mark
    ensures Stands(marks[i..], if trimmed < mark then mark else trimmed, hist)
  {
    hide Sorted, AllReal, PendingCovered;
    var t := if trimmed < mark then mark else trimmed;
    SortedDropped(marks, i, mark);
    DropReal(marks, marks[i..], trimmed, t, hist, i);
    DropCovers(marks, marks[i..], trimmed, t, hist, i);
  }

  lemma DropReal(marks: seq<Mark>, m: seq<Mark>, trimmed: nat, t: nat, hist: seq<Note>, i: nat)
    requires AllReal(marks, trimmed, hist) && i <= |marks| && m == marks[i..]
    requires forall j :: i <= j < |marks| && marks[j].lsn > trimmed ==> marks[j].lsn > t
    ensures AllReal(m, t, hist)
  {
    hide Dated, Widens;
    forall j | 0 <= j < |m| ensures m[j].lsn > t && Dated(m, hist, j) {
      assert m[j] == marks[i + j] && Dated(marks, hist, i + j);
      DatedReaches(marks, hist, i + j);
      DropWidens(marks, i, i + j);
      DatedInWider(marks, m, hist, hist, i + j, j);
    }
  }

  lemma DropCovers(marks: seq<Mark>, m: seq<Mark>, trimmed: nat, t: nat, hist: seq<Note>, i: nat)
    requires PendingCovered(marks, trimmed, hist) && i <= |marks| && m == marks[i..] && t >= trimmed
    requires forall j :: 0 <= j < i ==> marks[j].lsn <= t
    ensures PendingCovered(m, t, hist)
  {
    hide Widens, Floor;
    forall k | 0 <= k < |hist| && hist[k].lsn > t ensures Covered(m, hist[k]) {
      assert Covered(marks, hist[k]);
      var j :| 0 <= j < |marks| && Covers(marks, j, hist[k]);
      assert j >= i;
      DropWidens(marks, i, j);
      CoveredInWider(marks, m, hist[k], j, j - i);
    }
  }

  lemma DropWidens(marks: seq<Mark>, i: nat, j: nat)
    requires i <= j < |marks|
    ensures Widens(marks, j, marks[i..], j - i)
  {
  }

  /** The last pair keeps the queue's newest number and no later time. */
  lemma PairedTail(marks: seq<Mark>)
    requires Sorted(marks) && marks != []
    ensures var last := Paired(marks)[|Paired(marks)| - 1];
            last.lsn == marks[|marks| - 1].lsn && last.at <= marks[|marks| - 1].at
  {
    var i := |Paired(marks)| - 1;
    assert Paired(marks)[i] == Mark(marks[Top(marks, i)].lsn, marks[2 * i].at);
    assert Top(marks, i) == |marks| - 1;
  }

  ghost predicate AllTrimmed(hist: seq<Note>, trimmed: nat) {
    forall k :: 0 <= k < |hist| ==> hist[k].lsn <= trimmed
  }

  /** The queue is empty exactly when nothing noted is pending; otherwise its head is
      dated by a note really made, and no pending note is older. */
  lemma HeadIsOldest(marks: seq<Mark>, trimmed: nat, hist: seq<Note>)
    requires Stands(marks, trimmed, hist)
    ensures marks == [] <==> AllTrimmed(hist, trimmed)
    ensures marks != [] ==>
      forall k :: 0 <= k < |hist| && hist[k].lsn > trimmed ==> marks[0].at <= hist[k].at
    ensures marks != [] ==> exists k :: 0 <= k < |hist| && DatedBy(marks, 0, hist[k])
  {
    hide Floor, Reaches;
    if marks != [] {
      assert Dated(marks, hist, 0);
      DatedReaches(marks, hist, 0);
      HeadPending(marks, trimmed, hist);
    }
    forall k | 0 <= k < |hist| && hist[k].lsn > trimmed
      ensures marks != [] && marks[0].at <= hist[k].at
    {
      assert Covered(marks, hist[k]);
      var i :| 0 <= i < |marks| && Covers(marks, i, hist[k]);
      assert marks[0].at <= marks[i].at;
    }
  }

  lemma HeadPending(marks: seq<Mark>, trimmed: nat, hist: seq<Note>)
    requires marks != [] && marks[0].lsn > trimmed && Reaches(hist, marks[0].lsn)
    ensures !AllTrimmed(hist, trimmed)
  {
  }

  // ---- how far an age is overstated ---------------------------------------------

  /** No earlier note reached as far. */
  ghost predicate Leading(hist: seq<Note>, k: nat)
    requires k < |hist|
  {
    forall j :: 0 <= j < k ==> hist[j].lsn < hist[k].lsn
  }

  /** The mark's number is that of a note made less than the granularity after its time. */
  ghost predicate Close(mark: Mark, hist: seq<Note>) {
    exists k :: 0 <= k < |hist| && Leading(hist, k) && hist[k].lsn == mark.lsn && mark.at <= hist[k].at < mark.at + GRANULARITY
  }

  ghost predicate Tight(marks: seq<Mark>, hist: seq<Note>) {
    forall i :: 0 <= i < |marks| ==> Close(marks[i], hist)
  }

  lemma CloseMore(mark: Mark, hist: seq<Note>, h: Note)
    requires Close(mark, hist)
    ensures Close(mark, hist + [h])
  {
    var k :| 0 <= k < |hist| && Leading(hist, k) && hist[k].lsn == mark.lsn && mark.at <= hist[k].at < mark.at + GRANULARITY;
    assert Leading(hist + [h], k) && (hist + [h])[k] == hist[k];
  }

  lemma TightMore(marks: seq<Mark>, hist: seq<Note>, h: Note)
    requires Tight(marks, hist)
    ensures Tight(marks, hist + [h])
  {
    forall i | 0 <= i < |marks| ensures Close(marks[i], hist + [h]) {
      CloseMore(marks[i], hist, h);
    }
  }

  /** A note above everything trimmed and marked leads. */
  lemma NewLeads(marks: seq<Mark>, trimmed: nat, hist: seq<Note>, h: Note)
    requires Stands(marks, trimmed, hist) && h.lsn > trimmed && (marks != [] ==> h.lsn > marks[|marks| - 1].lsn)
    ensures Leading(hist + [h], |hist|)
  {
    forall j | 0 <= j < |hist| ensures hist[j].lsn < h.lsn {
      if hist[j].lsn > trimmed {
        assert Covered(marks, hist[j]);
        var i :| 0 <= i < |marks| && Covers(marks, i, hist[j]);
        assert i < |marks| - 1 ==> marks[i].lsn < marks[|marks| - 1].lsn;
      }
    }
  }

  /** The mark such a note extends or starts is close to it. */
  lemma NewClose(mark: Mark, hist: seq<Note>, h: Note)
    requires Leading(hist + [h], |hist|) && mark.lsn == h.lsn && mark.at <= h.at < mark.at + GRANULARITY
    ensures Close(mark, hist + [h])
  {
    assert (hist + [h])[|hist|] == h;
  }

  lemma HeadClose(marks: seq<Mark>, trimmed: nat, hist: seq<Note>)
    requires Stands(marks, trimmed, hist) && marks != [] && Tight(marks, hist)
    ensures exists k :: 0 <= k < |hist| && hist[k].lsn > trimmed && hist[k].at < marks[0].at + GRANULARITY
  {
    hide Dated;
    assert Close(marks[0], hist);
  }

  /** Joining marks gives the second one's records the first one's time, also at the head:
      once the first one's records are acknowledged the head reports them older than they are,
      by as much as the two marks were apart. */
  lemma JoinedHead(marks: seq<Mark>, now: int)
    requires Sorted(marks) && |marks| >= 2
    ensures var joined := Paired(marks);
            && joined != [] && joined[0] == Mark(marks[1].lsn, marks[0].at) && joined[0].lsn > marks[0].lsn
            && (now - joined[0].at) - (now - marks[1].at) == marks[1].at - marks[0].at >= GRANULARITY
  {
    PairAt(marks, 0);
  }

  class AgeTracker {
    var marks: seq<Mark>
    var trimmed: nat
    ghost var hist: seq<Note>

    ghost predicate Valid()
      reads this
    {
      |marks| <= MAX_MARKS && Stands(marks, trimmed, hist)
    }

    constructor ()
      ensures Valid() && hist == [] && trimmed == 0
    {
      marks, trimmed, hist := [], 0, [];
    }

    /** note */
    method Take(lsn: nat, now: int)
      requires Valid() && ClockReads(hist, now)
      modifies this
      ensures Valid() && ClockReads(hist, now)
      ensures hist == old(hist) + [Note(lsn, now)] && trimmed == old(trimmed)
      ensures old(|marks|) < MAX_MARKS ==>
                || marks == old(marks)
                || marks == old(marks) + [Mark(lsn, now)]
                || (old(marks) != [] && marks == old(marks)[|old(marks)| - 1 := old(marks)[|old(marks)| - 1].(lsn := lsn)])
      ensures old(|marks|) < MAX_MARKS && Tight(old(marks), old(hist)) ==> Tight(marks, hist)
    {
      hide AllReal, PendingCovered, Sorted, Paired, Tight;
      NewTight(lsn, now);
      ghost var h := Note(lsn, now);
      hist := hist + [h];
      if lsn <= trimmed {
        NoteAbsorbed(marks, trimmed, old(hist), h);
        return;
      }
      var n := |marks|;
      if n > 0 {
        if lsn <= marks[n - 1].lsn {
          NoteAbsorbed(marks, trimmed, old(hist), h);
          return;
        }
        if now - marks[n - 1].at < GRANULARITY {
          NoteExtends(marks, trimmed, old(hist), h);
          marks := marks[n - 1 := marks[n - 1].(lsn := lsn)];
          return;
        }
      }
      if n >= MAX_MARKS {
        PairedStands(marks, trimmed, old(hist));
        PairedTail(marks);
        Halve();
      }
      NoteAppends(marks, trimmed, old(hist), h);
      marks := marks + [Mark(lsn, now)];
    }

    /** Until marks are joined every mark stays close to a note of its own. */
    lemma NewTight(lsn: nat, now: int)
      requires Valid() && ClockReads(hist, now)
      ensures var h := Note(lsn, now);
              Tight(marks, hist) ==>
                && Tight(marks, hist + [h])
                && (lsn > trimmed && (marks != [] ==> lsn > marks[|marks| - 1].lsn) ==>
                      && Tight(marks + [Mark(lsn, now)], hist + [h])
                      && (marks != [] && now - marks[|marks| - 1].at < GRANULARITY ==>
                            Tight(marks[|marks| - 1 := marks[|marks| - 1].(lsn := lsn)], hist + [h])))
    {
      hide Stands, Close, Leading;
      var h := Note(lsn, now);
      if Tight(marks, hist) {
        TightMore(marks, hist, h);
        if lsn > trimmed && (marks != [] ==> lsn > marks[|marks| - 1].lsn) {
          NewLeads(marks, trimmed, hist, h);
          NewClose(Mark(lsn, now), hist, h);
          if marks != [] && now - marks[|marks| - 1].at < GRANULARITY {
            HeadTimes(now);
            NewClose(marks[|marks| - 1].(lsn := lsn), hist, h);
          }
        }
      }
    }

    lemma HeadTimes(now: int)
      requires Valid() && ClockReads(hist, now) && marks != []
      ensures marks[|marks| - 1].at <= now
    {
      MarksPast(marks, trimmed, hist, now, |marks| - 1);
    }

    /** The compaction loop of note, in place. */
    method Halve()
      modifies this`marks
      ensures marks == Paired(old(marks))
    {
      hide Paired, Top;
      var k, i := 0, 0;
      while i < |marks|
        invariant |marks| == |old(marks)| && i == 2 * k
        invariant k <= |Paired(old(marks))| <= |marks|
        invariant marks[..k] == Paired(old(marks))[..k]
        invariant forall j :: i <= j < |marks| ==> marks[j] == old(marks)[j]
      {
        PairAt(old(marks), k);
        var m := marks[i];
        if i + 1 < |marks| {
          m := m.(lsn := marks[i + 1].lsn);
        }
        marks := marks[k := m];
        k := k + 1;
        i := i + 2;
      }
      marks := marks[..k];
    }

    /** trim */
    method Trim(mark: nat)
      requires Valid()
      modifies this`marks, this`trimmed
      ensures Valid() && trimmed == if old(trimmed) < mark then mark else old(trimmed)
      ensures Tight(old(marks), hist) ==> Tight(marks, hist)
    {
      hide Sorted, AllReal, PendingCovered;
      if trimmed < mark {
        trimmed := mark;
      }
      var i := 0;
      while i < |marks| && marks[i].lsn <= mark
        invariant i <= |marks| && forall j :: 0 <= j < i ==> marks[j].lsn <= mark
      {
        i := i + 1;
      }
      TrimStands(marks, old(trimmed), hist, mark, i);
      hide Stands;
      if i > 0 {
        marks := marks[i..];
      } else {
        assert marks[i..] == marks;
      }
    }

    /** oldest: zero when nothing noted is pending; otherwise the time since a real
        note, and at least the age of every pending note. */
    method Oldest(now: int) returns (age: int)
      requires Valid()
      ensures AllTrimmed(hist, trimmed) ==> age == 0
      ensures !AllTrimmed(hist, trimmed) ==> exists k :: 0 <= k < |hist| && age == now - hist[k].at
      ensures forall k :: 0 <= k < |hist| && hist[k].lsn > trimmed ==> age >= now - hist[k].at
      ensures !AllTrimmed(hist, trimmed) && Tight(marks, hist) ==>
                exists k :: 0 <= k < |hist| && hist[k].lsn > trimmed && age < now - hist[k].at + GRANULARITY
    {
      hide Stands, Tight;
      HeadIsOldest(marks, trimmed, hist);
      if marks != [] && Tight(marks, hist) {
        HeadClose(marks, trimmed, hist);
      }
      if |marks| == 0 {
        return 0;
      }
      return now - marks[0].at;
    }
  }
}
