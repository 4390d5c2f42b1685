/** The sequential cursor over the log (internal/wal/reader.go): segments opened by
    position, bytes read through a window, gaps stepped over. */
module LogReader {
  import opened RecordFormat
  import opened Wal

  /** READ_WINDOW (reader.go): how much one read pulls in. */
  const READ_WINDOW: nat := 262144

  /** segView (wal.go) with the segment's durable bytes as the records they frame. */
  datatype View = View(base: nat, prevEnd: nat, recs: seq<Record>)

  /** What snapshot (wal.go) copies under the log's mutex. */
  datatype Snap = Snap(views: seq<View>, durable: nat)

  function BytesOf(crc: Checksum, v: View): Bytes { Frames(crc, v.recs) }

  predicate GapBefore(v: View, n: nat) {
    v.prevEnd < n < v.base
  }

  predicate Has(v: View, n: nat) {
    v.base <= n < v.base + |v.recs|
  }

  predicate SamePath(v: View, w: View) {
    v.base == w.base && v.prevEnd == w.prevEnd
  }

  /** Linked segments, and a durable mark that is the number of a record in them or lies
      below them all. */
  ghost predicate Chained(max: nat, e: Snap)
    requires e.views != []
  {
    && (forall i :: 0 <= i < |e.views| ==> e.views[i].prevEnd < e.views[i].base && Within(max, e.views[i].recs))
    && (forall i, j :: 0 <= i < |e.views| && 0 <= j < |e.views| && j == i + 1 ==>
          e.views[j].prevEnd + 1 == e.views[i].base + |e.views[i].recs| && e.views[i].base < e.views[j].base)
    && (e.durable <= e.views[0].prevEnd || exists i :: 0 <= i < |e.views| && Has(e.views[i], e.durable))
  }

  ghost predicate SnapOk(max: nat, e: Snap) {
    e.views != [] && Chained(max, e)
  }

  /** Everything up to here has been deleted. */
  function Head(e: Snap): nat
    requires e.views != []
  {
    e.views[0].prevEnd
  }

  function LastBase(e: Snap): nat
    requires e.views != []
  {
    e.views[|e.views| - 1].base
  }

  /** The segments hold record r under number n. */
  ghost predicate HoldsRecord(views: seq<View>, n: nat, r: Record) {
    exists i :: 0 <= i < |views| && Has(views[i], n) && views[i].recs[n - views[i].base] == r
  }

  /** A reader may be given r under n. */
  ghost predicate Shows(e: Snap, n: nat, r: Record) {
    HoldsRecord(e.views, n, r) && n <= e.durable
  }

  /** n lies in the gap in front of a segment that holds no record. */
  ghost predicate InEmptyGap(views: seq<View>, n: nat) {
    exists i :: 0 <= i < |views| && GapBefore(views[i], n) && views[i].recs == []
  }

  /** What a cursor at n yields: the record at n, or behind n's gap the first record of the
      segment the gap belongs to. */
  ghost predicate Gives(e: Snap, n: nat, lsn: nat, r: Record) {
    && Shows(e, lsn, r)
    && (lsn == n || exists i :: 0 <= i < |e.views| && GapBefore(e.views[i], n) && e.views[i].base == lsn)
  }

  /** The same for a reader created at n: NewReader steps over the head's gap at once. */
  ghost predicate Yields(e: Snap, n: nat, lsn: nat, r: Record) {
    || Gives(e, n, lsn, r)
    || (e.views != [] && GapBefore(e.views[0], n) && Gives(e, e.views[0].base, lsn, r))
  }

  // ---- how a log changes under a reader ------------------------------------------------

  /** v is how the segment of that path once looked, if it is still listed. */
  ghost predicate Grown(v: View, views: seq<View>) {
    forall i :: 0 <= i < |views| && SamePath(v, views[i]) ==> v.recs <= views[i].recs
  }

  ghost predicate Listed(views: seq<View>, v: View) {
    exists i :: 0 <= i < |views| && SamePath(views[i], v)
  }

  /** b is a snapshot of the same process taken no earlier than a: segments grow, new ones
      start above everything, deletion moves the head, and what was visible and is not
      deleted is what is visible up to the old durable mark. */
  ghost predicate Later(a: Snap, b: Snap)
    requires a.views != [] && b.views != []
  {
    && a.durable <= b.durable && Head(a) <= Head(b) && LastBase(a) <= LastBase(b)
    && (forall i :: 0 <= i < |a.views| ==> Grown(a.views[i], b.views))
    && (forall j :: 0 <= j < |b.views| ==>
          Listed(a.views, b.views[j]) || (b.views[j].base > LastBase(a) && b.views[j].base > a.durable))
    && (forall n: nat, r :: n > Head(b) && n <= a.durable ==> (HoldsRecord(a.views, n, r) <==> HoldsRecord(b.views, n, r)))
  }

  lemma LaterRefl(max: nat, a: Snap)
    requires SnapOk(max, a)
    ensures Later(a, a)
  {
    hide Chained, HoldsRecord, Grown;
    forall i | 0 <= i < |a.views| ensures Grown(a.views[i], a.views) && Listed(a.views, a.views[i]) {
      GrownSelf(max, a, i);
    }
  }

  lemma GrownSelf(max: nat, a: Snap, i: nat)
    requires SnapOk(max, a) && i < |a.views|
    ensures Grown(a.views[i], a.views)
  {
    hide Chained;
    forall j | 0 <= j < |a.views| && SamePath(a.views[i], a.views[j]) ensures a.views[i].recs <= a.views[j].recs {
      SamePathSame(max, a, i, j);
    }
  }

  lemma SamePathSame(max: nat, a: Snap, i: nat, j: nat)
    requires SnapOk(max, a) && i < |a.views| && j < |a.views| && SamePath(a.views[i], a.views[j])
    ensures a.views[i] == a.views[j]
  {
    if i < j {
      ViewsOrdered(max, a, i, j);
    } else if j < i {
      ViewsOrdered(max, a, j, i);
    }
  }

  /** A segment seen in a snapshot looks like that or longer in every later one. */
  ghost predicate Known(v: View, e: Snap)
    requires e.views != []
  {
    v.base <= LastBase(e) && Grown(v, e.views)
  }

  lemma KnownLater(v: View, a: Snap, b: Snap)
    requires a.views != [] && b.views != [] && Known(v, a) && Later(a, b)
    ensures Known(v, b)
  {
    forall j | 0 <= j < |b.views| && SamePath(v, b.views[j]) ensures v.recs <= b.views[j].recs {
      assert Listed(a.views, b.views[j]);
      var i :| 0 <= i < |a.views| && SamePath(a.views[i], b.views[j]);
      assert Grown(a.views[i], b.views);
    }
  }

  lemma ListedKnown(max: nat, e: Snap, i: nat)
    requires SnapOk(max, e) && i < |e.views|
    ensures Known(e.views[i], e)
  {
    hide Chained, Grown;
    GrownSelf(max, e, i);
    if i < |e.views| - 1 {
      ViewsOrdered(max, e, i, |e.views| - 1);
    }
  }

  lemma LaterTrans(max: nat, a: Snap, b: Snap, c: Snap)
    requires SnapOk(max, a) && SnapOk(max, b) && SnapOk(max, c) && Later(a, b) && Later(b, c)
    ensures Later(a, c)
  {
    hide Chained, Known, Grown, Listed, HoldsRecord;
    forall i | 0 <= i < |a.views| ensures Grown(a.views[i], c.views) {
      ListedKnown(max, a, i);
      KnownLater(a.views[i], a, b);
      KnownLater(a.views[i], b, c);
      KnownIsGrown(a.views[i], c);
    }
    forall j | 0 <= j < |c.views|
      ensures Listed(a.views, c.views[j]) || (c.views[j].base > LastBase(a) && c.views[j].base > a.durable)
    {
      ListedBefore(a, b, c, j);
    }
    forall n: nat, r | n > Head(c) && n <= a.durable
      ensures HoldsRecord(a.views, n, r) <==> HoldsRecord(c.views, n, r)
    {
      assert HoldsRecord(a.views, n, r) <==> HoldsRecord(b.views, n, r);
      assert HoldsRecord(b.views, n, r) <==> HoldsRecord(c.views, n, r);
    }
  }

  lemma KnownIsGrown(v: View, e: Snap)
    requires e.views != [] && Known(v, e)
    ensures Grown(v, e.views)
  {
  }

  lemma ListedBefore(a: Snap, b: Snap, c: Snap, j: nat)
    requires a.views != [] && b.views != [] && c.views != [] && Later(a, b) && Later(b, c) && j < |c.views|
    ensures Listed(a.views, c.views[j]) || (c.views[j].base > LastBase(a) && c.views[j].base > a.durable)
  {
    hide HoldsRecord, Grown;
    if Listed(b.views, c.views[j]) {
      var i :| 0 <= i < |b.views| && SamePath(b.views[i], c.views[j]);
      if Listed(a.views, b.views[i]) {
        var k :| 0 <= k < |a.views| && SamePath(a.views[k], b.views[i]);
        assert SamePath(a.views[k], c.views[j]);
      }
    }
  }

  /** A listed segment that holds a number still wanted has not been deleted. */
  lemma StillThere(max: nat, a: Snap, b: Snap, i: nat, n: nat)
    requires SnapOk(max, a) && SnapOk(max, b) && Later(a, b)
    requires i < |a.views| && Has(a.views[i], n) && n <= a.durable && n > Head(b)
    ensures a.views[i].base > Head(b)
  {
    hide Chained, Grown;
    var j := StillHeld(a, b, i, n);
    assert Listed(a.views, b.views[j]);
    var k :| 0 <= k < |a.views| && SamePath(a.views[k], b.views[j]);
    AboveHead(max, b, j);
    if k != i && k < i {
      ViewsOrdered(max, a, k, i);
    } else if i < k {
      ViewsOrdered(max, a, i, k);
    }
  }

  /** A number visible before and not deleted since is still held. */
  lemma StillHeld(a: Snap, b: Snap, i: nat, n: nat) returns (j: nat)
    requires a.views != [] && b.views != [] && Later(a, b)
    requires i < |a.views| && Has(a.views[i], n) && n <= a.durable && n > Head(b)
    ensures j < |b.views| && Has(b.views[j], n)
  {
    hide Grown, Listed;
    var r := a.views[i].recs[n - a.views[i].base];
    assert HoldsRecord(a.views, n, r);
    assert HoldsRecord(b.views, n, r);
    j :| 0 <= j < |b.views| && Has(b.views[j], n) && b.views[j].recs[n - b.views[j].base] == r;
  }

  // ---- what has been read --------------------------------------------------------------

  datatype Got = Entry(lsn: nat, payload: Bytes) | NoData | Truncated

  ghost predicate ReadHas(read: seq<Got>, n: nat) {
    exists k :: 0 <= k < |read| && read[k].Entry? && read[k].lsn == n
  }

  ghost predicate TrueEntry(e: Snap, g: Got) {
    g.Entry? && exists r :: Shows(e, g.lsn, r) && r.payload == g.payload
  }

  /** The entries read are strictly increasing and are exactly the visible records from
      start up to next, as far as they have not been deleted since. */
  ghost predicate ReadExactly(start: nat, next: nat, read: seq<Got>, e: Snap)
    requires e.views != []
  {
    && start <= next && (next == start || next <= e.durable + 1)
    && (forall k :: 0 <= k < |read| ==> read[k].Entry? && start <= read[k].lsn < next)
    && (forall k, l :: 0 <= k < l < |read| ==> read[k].Entry? && read[l].Entry? && read[k].lsn < read[l].lsn)
    && (forall k :: 0 <= k < |read| && read[k].Entry? && read[k].lsn > Head(e) ==> TrueEntry(e, read[k]))
    && (forall n: nat, r :: start <= n < next && n > Head(e) && Shows(e, n, r) ==> ReadHas(read, n))
  }

  lemma ReadNothing(start: nat, e: Snap)
    requires e.views != []
    ensures ReadExactly(start, start, [], e)
  {
  }

  /** Nothing the log does later makes what was read wrong or incomplete. */
  lemma ReadLater(start: nat, next: nat, read: seq<Got>, a: Snap, b: Snap)
    requires a.views != [] && b.views != [] && ReadExactly(start, next, read, a) && Later(a, b)
    ensures ReadExactly(start, next, read, b)
  {
    hide HoldsRecord, Grown, Listed;
    forall k | 0 <= k < |read| && read[k].lsn > Head(b) ensures TrueEntry(b, read[k]) {
      assert TrueEntry(a, read[k]);
      var r :| Shows(a, read[k].lsn, r) && r.payload == read[k].payload;
      assert Shows(b, read[k].lsn, r);
    }
    forall n: nat, r | start <= n < next && n > Head(b) && Shows(b, n, r) ensures ReadHas(read, n) {
      assert Shows(a, n, r);
    }
  }

  // ---- segments tile the numbers -----------------------------------------------------

  lemma {:induction false} ViewsOrdered(max: nat, e: Snap, i: nat, j: nat)
    requires SnapOk(max, e) && i < j < |e.views|
    ensures e.views[i].base + |e.views[i].recs| <= e.views[j].prevEnd + 1 <= e.views[j].base
    ensures e.views[i].base < e.views[j].base
    decreases j - i
  {
    if i + 1 < j {
      ViewsOrdered(max, e, i, j - 1);
      assert e.views[j].prevEnd + 1 == e.views[j - 1].base + |e.views[j - 1].recs|;
    }
  }

  /** Every number from the head to the last segment's end is a record or in one gap. */
  lemma {:induction false} Located(max: nat, e: Snap, n: nat, k: nat) returns (i: nat)
    requires SnapOk(max, e) && k < |e.views|
    requires e.views[0].prevEnd < n < e.views[k].base + |e.views[k].recs|
    ensures i <= k && (Has(e.views[i], n) || GapBefore(e.views[i], n))
    decreases k
  {
    if e.views[k].prevEnd < n {
      i := k;
    } else {
      assert e.views[k].prevEnd + 1 == e.views[k - 1].base + |e.views[k - 1].recs|;
      i := Located(max, e, n, k - 1);
    }
  }

  /** No number is both in a gap and in a record, or in two gaps. */
  lemma Separate(max: nat, e: Snap, i: nat, j: nat, n: nat)
    requires SnapOk(max, e) && i < |e.views| && j < |e.views|
    requires (Has(e.views[i], n) || GapBefore(e.views[i], n)) && (Has(e.views[j], n) || GapBefore(e.views[j], n))
    ensures i == j
  {
    if i < j {
      ViewsOrdered(max, e, i, j);
    } else if j < i {
      ViewsOrdered(max, e, j, i);
    }
  }

  lemma SliceOfSlice(all: Bytes, from: nat, win: Bytes, o: nat, n: nat)
    requires from + |win| <= |all| && win == all[from..from + |win|]
    requires from <= o && o + n <= from + |win|
    ensures win[o - from..o - from + n] == all[o..o + n]
  {
    var a, b := win[o - from..o - from + n], all[o..o + n];
    forall k | 0 <= k < n ensures a[k] == b[k] {
      assert a[k] == win[o - from + k] == all[from + (o - from + k)];
    }
  }

  class Reader {
    const crc: Checksum
    const max: nat

    var views: seq<View>
    var durable: nat
    var nextLSN: nat
    var isOpen: bool
    var file: View      // the open file, as far as it has been read or sized
    var off: nat        // byte offset of the record at posLSN
    var posLSN: nat
    var win: Bytes
    var winOff: int

    ghost var env: Snap        // the log as it was last looked at
    ghost var start: nat
    ghost var read: seq<Got>   // everything returned so far

    /** The cursor's offset is where its record starts; the window is a true copy. */
    ghost predicate CursorOk()
      reads `isOpen, `file, `off, `posLSN, `win, `winOff
    {
      isOpen ==>
        && Within(max, file.recs) && max <= MAX_RECORD_LIMIT
        && file.base <= posLSN <= file.base + |file.recs|
        && off == |Frames(crc, file.recs[..posLSN - file.base])|
        && WindowOk()
    }

    ghost predicate WindowOk()
      reads `file, `win, `winOff
    {
      if winOff < 0 then winOff == -1 && win == []
      else winOff + |win| <= |BytesOf(crc, file)| && win == BytesOf(crc, file)[winOff..winOff + |win|]
    }

    ghost function Held(): Snap
      reads `views, `durable
    {
      Snap(views, durable)
    }

    /** The snapshot held is an earlier one of the log as it was last looked at, the open
        file is known to both, and what has been read is exactly what was to be read. */
    ghost predicate Valid()
      reads this
    {
      && SnapOk(max, Held()) && SnapOk(max, env) && Later(Held(), env)
      && max <= MAX_RECORD_LIMIT && CursorOk() && (isOpen ==> Known(file, Held()))
      && ReadExactly(start, nextLSN, read, env)
    }

    constructor At(crc: Checksum, max: nat, e: Snap, from: nat)
      requires e.views != []
      ensures this.crc == crc && this.max == max && views == e.views && durable == e.durable && env == e
      ensures nextLSN == start == from && read == [] && !isOpen
    {
      this.crc, this.max, views, durable := crc, max, e.views, e.durable;
      nextLSN, start, read, env := from, from, [], e;
      isOpen, file, off, posLSN, win, winOff := false, e.views[0], 0, 0, [], -1;
    }

    lemma StartsValid()
      requires SnapOk(max, env) && max <= MAX_RECORD_LIMIT && Held() == env
      requires nextLSN == start && read == [] && !isOpen
      ensures Valid()
    {
      hide Chained, Later, ReadExactly, Frames, BytesOf;
      LaterRefl(max, env);
      ReadNothing(start, env);
    }

    /** NewReader: a cursor at fromLSN, or at the head when that is 0 or inside the head's
        gap; below the head otherwise there is nothing to read any more (ErrTruncated). */
    static method NewReader(crc: Checksum, max: nat, e: Snap, fromLSN: nat) returns (r: Reader?)
      requires SnapOk(max, e) && max <= MAX_RECORD_LIMIT
      ensures r == null <==> 0 < fromLSN <= Head(e)
      ensures r != null ==> fresh(r) && r.Valid() && r.crc == crc && r.max == max && r.env == e && r.read == []
      ensures r != null ==> r.nextLSN == r.start == (if fromLSN < e.views[0].base then e.views[0].base else fromLSN)
    {
      var from := if fromLSN == 0 then e.views[0].base else fromLSN;
      if from < e.views[0].base {
        if !GapBefore(e.views[0], from) {
          return null;
        }
        from := e.views[0].base;
      }
      var at := new Reader.At(crc, max, e, from);
      at.StartsValid();
      return at;
    }

    /** at and fill: n bytes of the open file from o, through the window. */
    method BytesAt(o: nat, n: nat) returns (b: Bytes)
      requires isOpen && WindowOk() && o + n <= |BytesOf(crc, file)|
      modifies this`win, this`winOff
      ensures WindowOk() && b == BytesOf(crc, file)[o..o + n]
    {
      hide BytesOf;
      if o < winOff || o + n > winOff + |win| {
        Fill(o, n);
      }
      SliceOfSlice(BytesOf(crc, file), winOff, win, o, n);
      b := win[o - winOff..o - winOff + n];
    }

    /** fill: one read, as large as the window and the segment's durable bytes allow. */
    method Fill(o: nat, need: nat)
      requires isOpen && o + need <= |BytesOf(crc, file)|
      modifies this`win, this`winOff
      ensures WindowOk() && winOff == o && need <= |win|
    {
      hide BytesOf;
      var limit := |BytesOf(crc, file)|;
      var size := if READ_WINDOW > need then READ_WINDOW else need;
      if o + size > limit {
        size := limit - o;
      }
      win, winOff := BytesOf(crc, file)[o..o + size], o;
    }

    /** skipTo: walks record headers to the offset of target. */
    method SkipTo(target: nat) returns (o: nat)
      requires isOpen && WindowOk() && Within(max, file.recs) && max <= MAX_RECORD_LIMIT
      requires file.base <= target <= file.base + |file.recs|
      modifies this`win, this`winOff
      ensures WindowOk() && o == |Frames(crc, file.recs[..target - file.base])|
    {
      hide Frame;
      o := 0;
      var lsn := file.base;
      while lsn < target
        invariant file.base <= lsn <= target && WindowOk()
        invariant o == |Frames(crc, file.recs[..lsn - file.base])|
      {
        HeaderAt(crc, max, file.recs, lsn - file.base);
        var hdr := BytesAt(o, HEADER_SIZE);
        o := o + HEADER_SIZE + FromLe32(hdr[..4]);
        lsn := lsn + 1;
      }
    }

    /** openAt: makes view i the open file, at the record nextLSN. A file that is not open
        yet must still exist: everything up to `head` has been deleted. */
    method OpenAt(i: nat, head: nat) returns (ok: bool)
      requires SnapOk(max, Held()) && CursorOk() && (isOpen ==> Known(file, Held())) && max <= MAX_RECORD_LIMIT
      requires i < |views| && Has(views[i], nextLSN)
      modifies this`isOpen, this`file, this`off, this`posLSN, this`win, this`winOff
      ensures CursorOk() && (isOpen ==> Known(file, Held()))
      ensures ok ==> isOpen && file == views[i] && posLSN == nextLSN
      ensures ok <==> views[i].base > head || old(isOpen && SamePath(file, views[i]) && posLSN == nextLSN)
    {
      hide Frames, Chained, BytesOf, Within, Known;
      var v := views[i];
      ViewWithin(max, Held(), i);
      ListedKnown(max, Held(), i);
      if isOpen && SamePath(file, v) && posLSN == nextLSN {
        KnownGrown(file, Held(), i);
        WindowGrows(crc, file, v, winOff, win);
        assert file.recs[..posLSN - file.base] == v.recs[..posLSN - file.base];
        file := v;
        return true;
      }
      isOpen := false;
      if v.base <= head {
        return false;
      }
      isOpen, file, win, winOff := true, v, [], -1;
      off := SkipTo(nextLSN);
      posLSN := nextLSN;
      ok := true;
    }

    /** find: the view holding lsn. */
    method Find(lsn: nat) returns (i: nat, ok: bool)
      ensures ok ==> i < |views| && Has(views[i], lsn)
      ensures !ok ==> forall j :: 0 <= j < |views| ==> !Has(views[j], lsn)
    {
      i := 0;
      while i < |views|
        invariant i <= |views|
        invariant forall j :: 0 <= j < i ==> !Has(views[j], lsn)
      {
        if Has(views[i], lsn) {
          return i, true;
        }
        i := i + 1;
      }
      ok := false;
    }

    /** The gap loop of position: the segment with records whose own gap contains lsn. */
    method FindGap(lsn: nat) returns (i: nat, ok: bool)
      ensures ok ==> i < |views| && GapBefore(views[i], lsn) && views[i].recs != []
      ensures !ok ==> forall j :: 0 <= j < |views| ==> !(GapBefore(views[j], lsn) && views[j].recs != [])
    {
      i := 0;
      while i < |views|
        invariant i <= |views|
        invariant forall j :: 0 <= j < i ==> !(GapBefore(views[j], lsn) && views[j].recs != [])
      {
        if GapBefore(views[i], lsn) && |views[i].recs| > 0 {
          return i, true;
        }
        i := i + 1;
      }
      ok := false;
    }

    /** The object between calls, as far as moving the cursor is concerned. */
    ghost predicate Placed(now: Snap)
      reads this
    {
      && SnapOk(max, Held()) && SnapOk(max, now) && Later(Held(), now)
      && max <= MAX_RECORD_LIMIT && CursorOk() && (isOpen ==> Known(file, Held()))
    }

    /** The cursor stands at the first byte of record nextLSN, which the held snapshot shows. */
    ghost predicate Ready()
      reads this
    {
      isOpen && Has(file, nextLSN) && file in views && posLSN == nextLSN <= durable
    }

    /** The file that is open stands at the record, and the held snapshot shows it there:
        no deletion can keep it from being read. */
    ghost predicate StillOpen()
      reads this
    {
      && isOpen && posLSN == nextLSN <= durable
      && exists i :: 0 <= i < |views| && SamePath(file, views[i]) && Has(views[i], nextLSN)
    }

    /** The view that holds the cursor's number is the one it is still open at. */
    lemma StillOpenAt(i: nat)
      requires SnapOk(max, Held()) && i < |views| && Has(views[i], nextLSN) && nextLSN <= durable
      ensures StillOpen() <==> isOpen && SamePath(file, views[i]) && posLSN == nextLSN
    {
      hide Chained;
      if StillOpen() {
        var j :| 0 <= j < |views| && SamePath(file, views[j]) && Has(views[j], nextLSN);
        Separate(max, Held(), i, j, nextLSN);
      }
    }

    /** refresh */
    method Refresh(now: Snap)
      requires Placed(now)
      modifies this`views, this`durable
      ensures Placed(now) && Held() == now
    {
      hide Chained, CursorOk, Later, Known;
      if isOpen {
        KnownLater(file, Held(), now);
      }
      LaterRefl(max, now);
      views, durable := now.views, now.durable;
    }

    /** position: opens the right segment at nextLSN, stepping over a gap if need be. Above
        what has been deleted it fails exactly in the gap of a segment without records. */
    method Position(now: Snap) returns (ready: bool, g: Got)
      requires Placed(now) && nextLSN <= durable
      modifies this`views, this`durable, this`nextLSN, this`isOpen, this`file, this`off, this`posLSN, this`win, this`winOff
      ensures Placed(now)
      ensures ready ==> Ready()
      ensures nextLSN >= old(nextLSN)
      ensures ready ==> nextLSN == old(nextLSN) || (Held() == now && StepsOver(now, old(nextLSN), nextLSN))
      ensures !ready ==> nextLSN == old(nextLSN) && !g.Entry?
      ensures old(nextLSN) > Head(now) ==> (ready <==> !InEmptyGap(now.views, old(nextLSN)))
      ensures old(nextLSN) <= Head(now) ==> nextLSN == old(nextLSN) && (ready <==> old(StillOpen()))
      ensures !ready ==> (g.Truncated? <==> old(nextLSN) < now.views[0].base)
    {
      hide Frames, CursorOk, Known, Later, Chained;
      ghost var n := nextLSN;
      g := Truncated;
      var i, ok := Find(nextLSN);
      if ok {
        StillOpenAt(i);
        HeldStill(max, Held(), now, i, n);
        ready := OpenAt(i, Head(now));
        return;
      }
      LaterDurable(Held(), now);
      Refresh(now);
      i, ok := Find(nextLSN);
      if ok {
        AboveHead(max, now, i);
        HoldingNoGap(max, now, i, n);
        ready := OpenAt(i, Head(now));
        return;
      }
      i, ok := FindGap(nextLSN);
      if ok {
        AboveHead(max, now, i);
        GapBelowDurable(max, now, nextLSN, i);
        OneGap(max, now, i, nextLSN);
        nextLSN := views[i].base;
        ready := OpenAt(i, Head(now));
        return;
      }
      ready := false;
      NowhereIsEmptyGap(max, now, n);
      if nextLSN >= views[0].base {
        g := NoData;
      }
    }

    /** The record at the cursor, read and checked. It is never reported corrupt, cut
        short, or beyond the segment's durable bytes. */
    method ReadEntry() returns (payload: Bytes)
      requires CursorOk() && isOpen && Has(file, nextLSN) && posLSN == nextLSN
      modifies `off, `nextLSN, `posLSN, `win, `winOff
      ensures CursorOk() && nextLSN == old(nextLSN) + 1
      ensures payload == file.recs[old(nextLSN) - file.base].payload
    {
      hide Chained, Frames, Frame, FromLe32, Le32;
      var k := nextLSN - file.base;
      ghost var r := file.recs[k];
      HeaderAt(crc, max, file.recs, k);
      var hdr := BytesAt(off, HEADER_SIZE);
      var length, sum := FromLe32(hdr[..4]), FromLe32(hdr[4..8]);
      var end := off + HEADER_SIZE + length;
      var rec := BytesAt(off, HEADER_SIZE + length);
      payload := rec[HEADER_SIZE..];
      HeaderSum(crc, r.payload, rec, hdr);
      assert length <= max && end <= |BytesOf(crc, file)| && crc(length, payload) == sum;
      off := end;
      nextLSN := nextLSN + 1;
      posLSN := nextLSN;
    }

    /** Next: the next record and its number, or why there is none; `now` is what the log
        would show, however long ago the reader last looked. What is read is exactly what
        is visible from the start on, in order (Valid). ErrNoData means caught up, or
        standing in the gap of an empty segment that is not the head; ErrTruncated means
        deleted and not readable through the file still open, or standing in the gap of an
        empty head. */
    method Next(now: Snap) returns (g: Got)
      requires Valid() && SnapOk(max, now) && Later(env, now)
      modifies this
      ensures Valid() && env == now && start == old(start)
      ensures read == old(read) + (if g.Entry? then [g] else [])
      ensures nextLSN == if g.Entry? then g.lsn + 1 else old(nextLSN)
      ensures g.NoData? <==>
                old(nextLSN) > now.durable || (InEmptyGap(now.views, old(nextLSN)) && old(nextLSN) >= now.views[0].base)
      ensures g.Truncated? ==> old(nextLSN) <= now.durable && old(nextLSN) < now.views[0].base
      ensures old(nextLSN) > Head(now) ==>
                (g.Truncated? <==> old(nextLSN) <= now.durable && old(nextLSN) < now.views[0].base && now.views[0].recs == [])
      ensures g.Entry? && old(nextLSN) > Head(now) ==> exists r :: Gives(now, old(nextLSN), g.lsn, r) && r.payload == g.payload
      ensures old(nextLSN) <= Head(now) && old(nextLSN) <= now.durable ==>
                if old(StillOpen()) then g.Entry? && g.lsn == old(nextLSN) else g.Truncated?
      ensures g.Entry? && old(nextLSN) <= Head(now) ==> g.lsn == old(nextLSN)
      ensures g.Entry? ==> exists r :: HoldsRecord(views, g.lsn, r) && r.payload == g.payload
    {
      hide Chained, Frames, CursorOk, Known, Later, ReadExactly, Gives, InEmptyGap, StepsOver, HoldsRecord, Grown;
      LaterTrans(max, Held(), env, now);
      ReadLater(start, nextLSN, read, env, now);
      env := now;
      ghost var n := nextLSN;
      HeadGap(max, now, n);
      AboveHead(max, now, 0);
      if nextLSN > durable {
        Refresh(now);
        if nextLSN > durable {
          return NoData;
        }
        NoneBelowHead(max, now, n);
      }
      LaterDurable(Held(), now);
      var ready;
      ready, g := Position(now);
      if ready {
        g := ReadHere(now, n);
      }
    }

    /** The last part of Next: the cursor stands at the record to return. */
    method ReadHere(now: Snap, ghost n: nat) returns (g: Got)
      requires Placed(now) && env == now && Ready() && n <= nextLSN && ReadExactly(start, n, read, now)
      requires nextLSN == n || (Held() == now && StepsOver(now, n, nextLSN))
      requires n <= Head(now) ==> nextLSN == n
      modifies this`off, this`nextLSN, this`posLSN, this`win, this`winOff, this`read
      ensures Valid() && g.Entry? && g.lsn == old(nextLSN) && nextLSN == g.lsn + 1 && read == old(read) + [g]
      ensures n > Head(now) ==> exists r :: Gives(now, n, g.lsn, r) && r.payload == g.payload
      ensures exists r :: HoldsRecord(views, g.lsn, r) && r.payload == g.payload
    {
      hide Chained, Frames, CursorOk, Known, Later, ReadExactly, Gives, StepsOver, HoldsRecord, Grown;
      var lsn := nextLSN;
      ghost var r := file.recs[lsn - file.base];
      HeldRecord(views, file, lsn);
      LaterDurable(Held(), now);
      var payload := ReadEntry();
      g := Entry(lsn, payload);
      if n > Head(now) {
        GivesIt(max, Held(), now, n, lsn, r);
      }
      ReadMore(max, start, n, read, now, g, r);
      read := read + [g];
    }
  }

  /** A reader's life: it may be asked at any later moments, any number of times. */
  ghost predicate Unfolds(max: nat, e: Snap, snaps: seq<Snap>) {
    forall i :: 0 <= i < |snaps| ==> Succeeds(max, Before(e, snaps, i), snaps[i])
  }

  ghost predicate Succeeds(max: nat, a: Snap, b: Snap) {
    SnapOk(max, a) && SnapOk(max, b) && Later(a, b)
  }

  function Before(e: Snap, snaps: seq<Snap>, i: nat): Snap
    requires i <= |snaps|
  {
    if i == 0 then e else snaps[i - 1]
  }

  /** Calls Next once at each of the given moments. */
  method Follow(r: Reader, snaps: seq<Snap>) returns (answers: seq<Got>)
    requires r.Valid() && Unfolds(r.max, r.env, snaps)
    modifies r
    ensures r.Valid() && |answers| == |snaps| && r.start == old(r.start)
    ensures snaps != [] ==> r.env == snaps[|snaps| - 1]
    ensures r.read == old(r.read) + Entries(answers)
  {
    hide Later, Chained, ReadExactly;
    answers := [];
    for i := 0 to |snaps|
      invariant r.Valid() && |answers| == i && r.start == old(r.start)
      invariant r.env == Before(old(r.env), snaps, i)
      invariant r.read == old(r.read) + Entries(answers)
    {
      assert Succeeds(r.max, Before(old(r.env), snaps, i), snaps[i]);
      var g := r.Next(snaps[i]);
      assert (answers + [g])[..i] == answers;
      answers := answers + [g];
    }
  }

  function Entries(answers: seq<Got>): seq<Got> {
    if answers == [] then []
    else
      var k := |answers| - 1;
      Entries(answers[..k]) + (if answers[k].Entry? then [answers[k]] else [])
  }

  /** The gap of a segment with records is stepped over to its first record. */
  ghost predicate StepsOver(e: Snap, n: nat, lsn: nat) {
    exists i :: 0 <= i < |e.views| && GapBefore(e.views[i], n) && e.views[i].base == lsn && e.views[i].recs != []
  }

  lemma HeldRecord(views: seq<View>, v: View, n: nat)
    requires v in views && Has(v, n)
    ensures HoldsRecord(views, n, v.recs[n - v.base])
  {
    var i :| 0 <= i < |views| && views[i] == v;
  }

  lemma LaterDurable(a: Snap, b: Snap)
    requires a.views != [] && b.views != [] && Later(a, b)
    ensures a.durable <= b.durable
  {
  }

  lemma KnownGrown(v: View, e: Snap, i: nat)
    requires e.views != [] && Known(v, e) && i < |e.views| && SamePath(v, e.views[i])
    ensures v.recs <= e.views[i].recs
  {
  }

  lemma AboveHead(max: nat, e: Snap, i: nat)
    requires SnapOk(max, e) && i < |e.views|
    ensures Head(e) <= e.views[i].prevEnd < e.views[i].base && e.views[0].base <= e.views[i].base
  {
    if i > 0 {
      ViewsOrdered(max, e, 0, i);
    }
  }

  lemma HoldingNoGap(max: nat, e: Snap, i: nat, n: nat)
    requires SnapOk(max, e) && i < |e.views| && Has(e.views[i], n)
    ensures !InEmptyGap(e.views, n)
  {
    hide Chained;
    EmptyGapNoRecord(max, e, n);
  }

  /** A record found in the held snapshot and not deleted since can be opened. */
  lemma HeldStill(max: nat, a: Snap, b: Snap, i: nat, n: nat)
    requires SnapOk(max, a) && SnapOk(max, b) && Later(a, b)
    requires i < |a.views| && Has(a.views[i], n) && n <= a.durable
    ensures n > Head(b) ==> a.views[i].base > Head(b) && !InEmptyGap(b.views, n)
    ensures n <= Head(b) ==> n < b.views[0].base
    ensures a.views[i].base <= Head(b) ==> n <= Head(b)
  {
    hide Chained;
    AboveHead(max, b, 0);
    if n > Head(b) {
      StillThere(max, a, b, i, n);
      var j := StillHeld(a, b, i, n);
      HoldingNoGap(max, b, j, n);
    }
  }

  /** With no record at n and no gap to step over, n is deleted or in an empty gap. */
  lemma NowhereIsEmptyGap(max: nat, e: Snap, n: nat)
    requires SnapOk(max, e) && n <= e.durable
    requires forall j :: 0 <= j < |e.views| ==> !Has(e.views[j], n)
    requires forall j :: 0 <= j < |e.views| ==> !(GapBefore(e.views[j], n) && e.views[j].recs != [])
    ensures n > Head(e) ==> InEmptyGap(e.views, n)
    ensures n <= Head(e) ==> n < e.views[0].base
  {
    if n > Head(e) {
      var i := InSomeGap(max, e, n);
    }
  }

  lemma NoneBelowHead(max: nat, e: Snap, n: nat)
    requires SnapOk(max, e)
    ensures n <= Head(e) ==> forall i :: 0 <= i < |e.views| ==> !Has(e.views[i], n)
  {
    hide Chained;
    forall i | 0 <= i < |e.views| ensures n <= Head(e) ==> !Has(e.views[i], n) {
      AboveHead(max, e, i);
    }
  }

  /** Above the deleted numbers, what lies below the head's base is the head's gap. */
  lemma HeadGap(max: nat, e: Snap, n: nat)
    requires SnapOk(max, e)
    ensures Head(e) < n < e.views[0].base ==> (InEmptyGap(e.views, n) <==> e.views[0].recs == [])
    ensures InEmptyGap(e.views, n) ==> n > Head(e)
  {
    hide Chained;
    if InEmptyGap(e.views, n) {
      var i :| 0 <= i < |e.views| && GapBefore(e.views[i], n) && e.views[i].recs == [];
      AboveHead(max, e, i);
      if Head(e) < n < e.views[0].base {
        Separate(max, e, 0, i, n);
      }
    }
    if Head(e) < n < e.views[0].base && e.views[0].recs == [] {
      assert GapBefore(e.views[0], n);
    }
  }

  lemma GivesIt(max: nat, a: Snap, b: Snap, n: nat, lsn: nat, r: Record)
    requires SnapOk(max, a) && SnapOk(max, b) && Later(a, b) && n > Head(b) && n <= lsn <= a.durable
    requires HoldsRecord(a.views, lsn, r)
    requires lsn == n || (a == b && StepsOver(b, n, lsn))
    ensures Gives(b, n, lsn, r)
  {
    hide Chained, HoldsRecord, Grown, Listed;
    assert HoldsRecord(b.views, lsn, r);
  }

  /** One more entry, with everything in between in a gap. */
  lemma ReadMore(max: nat, start: nat, n: nat, read: seq<Got>, e: Snap, g: Got, r: Record)
    requires SnapOk(max, e) && ReadExactly(start, n, read, e) && g.Entry? && n <= g.lsn <= e.durable
    requires if n > Head(e) then Gives(e, n, g.lsn, r) && r.payload == g.payload else g.lsn == n
    ensures ReadExactly(start, g.lsn + 1, read + [g], e)
  {
    hide Chained, HoldsRecord;
    var more := read + [g];
    forall k | 0 <= k < |more| && more[k].lsn > Head(e) ensures TrueEntry(e, more[k]) {
      if k < |read| {
        assert TrueEntry(e, read[k]);
      }
    }
    forall m: nat, q | start <= m < g.lsn + 1 && m > Head(e) && Shows(e, m, q) ensures ReadHas(more, m) {
      if m < n {
        assert ReadHas(read, m);
        var k :| 0 <= k < |read| && read[k].Entry? && read[k].lsn == m;
        assert more[k] == read[k];
      } else if m < g.lsn {
        GapShowsNothing(max, e, n, g.lsn, r, m, q);
      } else {
        assert more[|read|] == g;
      }
    }
  }

  /** Nothing visible lies between a cursor and what it yields. */
  lemma YieldsNext(max: nat, e: Snap, n: nat, lsn: nat, r: Record, m: nat, q: Record)
    requires SnapOk(max, e) && Yields(e, n, lsn, r)
    ensures n <= lsn <= e.durable && (n <= m < lsn ==> !Shows(e, m, q))
  {
    hide Chained, HoldsRecord;
    if n <= m < lsn {
      if Gives(e, n, lsn, r) {
        GapShowsNothing(max, e, n, lsn, r, m, q);
      } else if m >= e.views[0].base {
        GapShowsNothing(max, e, e.views[0].base, lsn, r, m, q);
      } else {
        HeadGapEmpty(max, e, m, q);
      }
    }
  }

  lemma HeadGapEmpty(max: nat, e: Snap, m: nat, q: Record)
    requires SnapOk(max, e) && m < e.views[0].base
    ensures !Shows(e, m, q)
  {
    hide Chained;
    forall j | 0 <= j < |e.views| ensures !Has(e.views[j], m) {
      AboveHead(max, e, j);
    }
  }

  lemma GapShowsNothing(max: nat, e: Snap, n: nat, lsn: nat, r: Record, m: nat, q: Record)
    requires SnapOk(max, e) && Gives(e, n, lsn, r) && n <= m < lsn
    ensures !Shows(e, m, q)
  {
    hide Chained;
    var i :| 0 <= i < |e.views| && GapBefore(e.views[i], n) && e.views[i].base == lsn;
    if Shows(e, m, q) {
      var j :| 0 <= j < |e.views| && Has(e.views[j], m) && e.views[j].recs[m - e.views[j].base] == q;
      Separate(max, e, i, j, m);
    }
  }

  /** A reader that is in the gap of a segment with records, and below the durable mark,
      steps to a number that is not above that mark. */
  lemma GapBelowDurable(max: nat, e: Snap, n: nat, i: nat)
    requires SnapOk(max, e) && i < |e.views| && GapBefore(e.views[i], n) && n <= e.durable
    ensures e.views[i].base <= e.durable
  {
    if i > 0 {
      ViewsOrdered(max, e, 0, i);
    }
    var j :| 0 <= j < |e.views| && Has(e.views[j], e.durable);
    if e.durable < e.views[i].base {
      Separate(max, e, i, j, e.durable);
    }
  }

  /** Below the durable mark and above the head, a number without a record lies in one
      segment's gap. */
  lemma InSomeGap(max: nat, e: Snap, n: nat) returns (i: nat)
    requires SnapOk(max, e) && e.views[0].prevEnd < n <= e.durable
    requires forall j :: 0 <= j < |e.views| ==> !Has(e.views[j], n)
    ensures i < |e.views| && GapBefore(e.views[i], n)
  {
    var k :| 0 <= k < |e.views| && Has(e.views[k], e.durable);
    i := Located(max, e, n, k);
  }

  lemma ViewWithin(max: nat, e: Snap, i: nat)
    requires SnapOk(max, e) && i < |e.views|
    ensures Within(max, e.views[i].recs)
  {
  }

  /** The header in front of record k says how long record k is. */
  lemma HeaderAt(crc: Checksum, max: nat, recs: seq<Record>, k: nat)
    requires Within(max, recs) && max <= MAX_RECORD_LIMIT && k < |recs|
    ensures var o := |Frames(crc, recs[..k])|;
            var size := HEADER_SIZE + |recs[k].payload|;
            && o + size <= |Frames(crc, recs)|
            && |Frames(crc, recs[..k + 1])| == o + size
            && FromLe32(Frames(crc, recs)[o..o + 8][..4]) == |recs[k].payload|
            && Frames(crc, recs)[o..o + size] == Frame(crc, recs[k].payload)
  {
    hide Frames, Frame, Le32, FromLe32;
    var o := |Frames(crc, recs[..k])|;
    var f := Frame(crc, recs[k].payload);
    FrameAt(crc, recs, k);
    var rest := Frames(crc, recs)[o..];
    assert rest[..|f|] == f;
    assert Frames(crc, recs)[o..o + |f|] == rest[..|f|];
    assert Frames(crc, recs)[o..o + 8][..4] == f[..4];
  }

  /** A framed record passes the reader's checks. */
  lemma HeaderSum(crc: Checksum, payload: Bytes, rec: Bytes, hdr: Bytes)
    requires |payload| <= MAX_RECORD_LIMIT && rec == Frame(crc, payload) && hdr == rec[..8]
    ensures FromLe32(hdr[..4]) == |payload| && rec[HEADER_SIZE..] == payload
    ensures FromLe32(hdr[4..8]) == crc(|payload|, payload)
  {
    hide Le32, FromLe32;
    assert hdr[..4] == rec[..4] && hdr[4..8] == rec[4..8];
  }

  lemma EmptyGapNoRecord(max: nat, e: Snap, n: nat)
    requires SnapOk(max, e)
    ensures InEmptyGap(e.views, n) ==> forall i :: 0 <= i < |e.views| ==> !Has(e.views[i], n)
  {
    if InEmptyGap(e.views, n) {
      var j :| 0 <= j < |e.views| && GapBefore(e.views[j], n) && e.views[j].recs == [];
      forall i | 0 <= i < |e.views|
        ensures !Has(e.views[i], n)
      {
        if Has(e.views[i], n) {
          Separate(max, e, i, j, n);
        }
      }
    }
  }

  lemma OneGap(max: nat, e: Snap, i: nat, n: nat)
    requires SnapOk(max, e) && i < |e.views| && GapBefore(e.views[i], n) && e.views[i].recs != []
    ensures !InEmptyGap(e.views, n)
  {
    if InEmptyGap(e.views, n) {
      var j :| 0 <= j < |e.views| && GapBefore(e.views[j], n) && e.views[j].recs == [];
      Separate(max, e, i, j, n);
    }
  }

  /** A window onto a file stays true when the file grows. */
  lemma WindowGrows(crc: Checksum, file: View, v: View, winOff: int, win: Bytes)
    requires file.recs <= v.recs
    requires winOff >= 0 ==> winOff + |win| <= |BytesOf(crc, file)| && win == BytesOf(crc, file)[winOff..winOff + |win|]
    ensures winOff >= 0 ==> winOff + |win| <= |BytesOf(crc, v)| && win == BytesOf(crc, v)[winOff..winOff + |win|]
  {
    hide Frames;
    assert v.recs[..|file.recs|] == file.recs;
    FramesSplit(crc, v.recs, |file.recs|);
    var a, b := BytesOf(crc, file), BytesOf(crc, v);
    assert b[..|a|] == a;
  }
}
