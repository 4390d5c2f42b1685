/** The recovery scan of one segment file (internal/wal/segment.go) as the inverse
    of the frame writer. */
module SegmentScan {
  import opened RecordFormat

  /** What scanSegment reports: the intact records in front of the first problem,
      where they end, and what the problem is. */
  datatype Report =
    | Clean(count: nat, good: nat)     // the file ends at a record boundary
    | Torn(count: nat, good: nat)      // a bad record reaches the end of the file
    | Corrupt(count: nat, good: nat)   // a bad record with bytes after it
    | TooLarge                         // an intact record above the configured limit

  /** What the first frame of a byte run turns out to be. */
  datatype First = AtEnd | Intact(size: nat) | Cut | Damaged | Oversize

  function FirstFrame(crc: Checksum, max: nat, b: Bytes): (f: First)
    ensures f.Intact? ==> HEADER_SIZE <= f.size <= |b|
    ensures f.AtEnd? <==> b == []
  {
    if b == [] then AtEnd
    else if |b| < HEADER_SIZE then Cut
    else
      var length := FromLe32(b[..4]);
      var end := HEADER_SIZE + length;
      var fits := end <= |b|;
      var matches := fits && crc(length, b[8..end]) == FromLe32(b[4..8]);
      if length > max then (if matches then Oversize else Cut)
      else if !fits then Cut
      else if matches then Intact(end)
      else if end < |b| then Damaged
      else Cut
  }

  /** A report about b[good..], restated for b when count records end at good. */
  function Shift(r: Report, count: nat, good: nat): Report {
    match r
    case Clean(c, g) => Clean(count + c, good + g)
    case Torn(c, g) => Torn(count + c, good + g)
    case Corrupt(c, g) => Corrupt(count + c, good + g)
    case TooLarge => TooLarge
  }

  /** The report for a whole file. */
  function ScanBytes(crc: Checksum, max: nat, b: Bytes): (r: Report)
    ensures !r.TooLarge? ==> r.good <= |b| && HEADER_SIZE * r.count <= r.good
    ensures r.Clean? ==> r.good == |b|
    ensures r.Torn? || r.Corrupt? ==> r.good < |b|
    decreases |b|
  {
    match FirstFrame(crc, max, b)
    case AtEnd => Clean(0, 0)
    case Cut => Torn(0, 0)
    case Damaged => Corrupt(0, 0)
    case Oversize => TooLarge
    case Intact(size) => Shift(ScanBytes(crc, max, b[size..]), 1, size)
  }

  /** One turn of scanSegment's loop: reads and judges the record at offset good. */
  method ReadRecord(crc: Checksum, max: nat, b: Bytes, good: nat) returns (f: First)
    requires max <= MAX_RECORD_LIMIT && good <= |b|
    ensures f == FirstFrame(crc, max, b[good..])
  {
    var total := |b| - good;
    var rest := b[good..];
    if total == 0 {
      return AtEnd;
    }
    if total < HEADER_SIZE {
      return Cut;
    }
    var length, sum := FromLe32(rest[..4]), FromLe32(rest[4..8]);
    var end := HEADER_SIZE + length;
    if length > max {
      if end <= total && crc(length, rest[8..end]) == sum {
        return Oversize;
      }
      return Cut;
    }
    if end > total {
      return Cut;
    }
    if crc(length, rest[8..end]) != sum {
      return if end < total then Damaged else Cut;
    }
    return Intact(end);
  }

  lemma ShiftTwice(r: Report, c1: nat, g1: nat, c2: nat, g2: nat)
    ensures Shift(Shift(r, c2, g2), c1, g1) == Shift(r, c1 + c2, g1 + g2)
  {
  }

  /** scanSegment: one pass over the file, keeping the count and end of what verified. */
  method ScanSegment(crc: Checksum, max: nat, b: Bytes) returns (r: Report)
    requires max <= MAX_RECORD_LIMIT
    ensures r == ScanBytes(crc, max, b)
  {
    hide FirstFrame;
    var count, good := 0, 0;
    assert b[0..] == b;
    while true
      invariant good <= |b|
      invariant ScanBytes(crc, max, b) == Shift(ScanBytes(crc, max, b[good..]), count, good)
      decreases |b| - good
    {
      var first := ReadRecord(crc, max, b, good);
      match first {
        case AtEnd => return Clean(count, good);
        case Cut => return Torn(count, good);
        case Damaged => return Corrupt(count, good);
        case Oversize => return TooLarge;
        case Intact(size) =>
          assert b[good..][size..] == b[good + size..];
          ShiftTwice(ScanBytes(crc, max, b[good + size..]), count, good, 1, size);
          count, good := count + 1, good + size;
      }
    }
  }

  /** An appended frame is recognised whatever follows it. */
  lemma FirstOfFrame(crc: Checksum, max: nat, payload: Bytes, rest: Bytes)
    requires |payload| <= max <= MAX_RECORD_LIMIT
    ensures FirstFrame(crc, max, Frame(crc, payload) + rest) == Intact(HEADER_SIZE + |payload|)
    ensures (Frame(crc, payload) + rest)[HEADER_SIZE + |payload|..] == rest
  {
    var f := Frame(crc, payload);
    var b := f + rest;
    assert b[..4] == f[..4] && b[4..8] == f[4..8];
    assert b[8..8 + |payload|] == f[8..];
  }

  /** Records that were appended are counted, and the scan goes on behind them. */
  lemma {:induction false} ScanWritten(crc: Checksum, max: nat, rs: seq<Record>, rest: Bytes)
    requires Within(max, rs) && max <= MAX_RECORD_LIMIT
    ensures ScanBytes(crc, max, Frames(crc, rs) + rest)
         == Shift(ScanBytes(crc, max, rest), |rs|, |Frames(crc, rs)|)
  {
    hide FirstFrame, Frame;
    if rs == [] {
      assert Frames(crc, rs) + rest == rest;
    } else {
      var f, tail := Frame(crc, rs[0].payload), Frames(crc, rs[1..]);
      FirstOfFrame(crc, max, rs[0].payload, tail + rest);
      assert Frames(crc, rs) + rest == f + (tail + rest);
      ScanWritten(crc, max, rs[1..], rest);
    }
  }

  /** A strict prefix of a frame is a torn tail, unless it is empty. */
  lemma FirstOfCutFrame(crc: Checksum, max: nat, payload: Bytes, k: nat)
    requires |payload| <= max <= MAX_RECORD_LIMIT
    requires k < HEADER_SIZE + |payload|
    ensures FirstFrame(crc, max, Frame(crc, payload)[..k]) == (if k == 0 then AtEnd else Cut)
  {
    var f := Frame(crc, payload);
    if k >= HEADER_SIZE {
      assert f[..k][..4] == f[..4];
    }
  }

  /** Recovery parses exactly what was written: complete frames followed by a strict
      prefix of another give precisely those frames, torn iff the prefix is non-empty. */
  lemma ScanTornTail(crc: Checksum, max: nat, rs: seq<Record>, payload: Bytes, k: nat)
    requires Within(max, rs) && |payload| <= max <= MAX_RECORD_LIMIT
    requires k < HEADER_SIZE + |payload|
    ensures ScanBytes(crc, max, Frames(crc, rs) + Frame(crc, payload)[..k])
         == if k == 0 then Clean(|rs|, |Frames(crc, rs)|) else Torn(|rs|, |Frames(crc, rs)|)
  {
    FirstOfCutFrame(crc, max, payload, k);
    ScanWritten(crc, max, rs, Frame(crc, payload)[..k]);
  }

  /** How many whole frames of rs the first n bytes hold. */
  function Whole(crc: Checksum, rs: seq<Record>, n: nat): (w: nat)
    ensures w <= |rs|
  {
    if rs == [] then 0
    else
      var size := |Frame(crc, rs[0].payload)|;
      if n < size then 0 else 1 + Whole(crc, rs[1..], n - size)
  }

  /** Whole is the largest count whose frames end within n bytes. */
  lemma {:induction false} WholeExact(crc: Checksum, rs: seq<Record>, n: nat, k: nat)
    requires k <= |rs|
    ensures |Frames(crc, rs[..Whole(crc, rs, n)])| <= n
    ensures |Frames(crc, rs[..k])| <= n <==> k <= Whole(crc, rs, n)
  {
    if rs != [] {
      var w := Whole(crc, rs, n);
      var f := Frame(crc, rs[0].payload);
      if k > 0 {
        assert rs[..k][0] == rs[0] && rs[..k][1..] == rs[1..][..k - 1];
      }
      if n >= |f| {
        assert rs[..w][0] == rs[0] && rs[..w][1..] == rs[1..][..w - 1];
        WholeExact(crc, rs[1..], n - |f|, if k > 0 then k - 1 else 0);
      }
    }
  }

  /** However a crash cuts what was written, the scan finds the records that fit. */
  lemma ScanAfterCut(crc: Checksum, max: nat, rs: seq<Record>, b: Bytes)
    requires Within(max, rs) && max <= MAX_RECORD_LIMIT
    requires b <= Frames(crc, rs)
    ensures var w := Whole(crc, rs, |b|);
            var good := |Frames(crc, rs[..w])|;
            && good <= |b| && b[..good] == Frames(crc, rs[..w])
            && ScanBytes(crc, max, b) == (if good == |b| then Clean(w, good) else Torn(w, good))
  {
    var w := Whole(crc, rs, |b|);
    WholeExact(crc, rs, |b|, w);
    FramesSplit(crc, rs, w);
    var head := Frames(crc, rs[..w]);
    if w < |rs| {
      WholeExact(crc, rs, |b|, w + 1);
      FrameAt(crc, rs, w);
      var f := Frame(crc, rs[w].payload);
      var k := |b| - |head|;
      assert k < |f|;
      assert b == head + f[..k];
      ScanTornTail(crc, max, rs[..w], rs[w].payload, k);
    } else {
      assert rs[..w] == rs && b == head + [];
      ScanWritten(crc, max, rs, []);
    }
  }

  /** The whole file survives iff every record does. */
  lemma {:induction false} WholeAll(crc: Checksum, rs: seq<Record>, b: Bytes)
    requires b <= Frames(crc, rs)
    ensures Whole(crc, rs, |b|) == |rs| <==> b == Frames(crc, rs)
  {
    assert rs[..|rs|] == rs;
    WholeExact(crc, rs, |b|, |rs|);
  }

  /** The payloads the scan accepted, read back from arbitrary bytes. */
  function Parse(crc: Checksum, max: nat, b: Bytes): (rs: seq<Record>)
    decreases |b|
  {
    match FirstFrame(crc, max, b)
    case Intact(size) => [Record(b[8..size], 0)] + Parse(crc, max, b[size..])
    case _ => []
  }

  lemma IntactIsFrame(crc: Checksum, max: nat, b: Bytes)
    requires max <= MAX_RECORD_LIMIT && FirstFrame(crc, max, b).Intact?
    ensures var size := FirstFrame(crc, max, b).size;
            b[..size] == Frame(crc, b[8..size]) && size - HEADER_SIZE <= max
  {
    var size := FirstFrame(crc, max, b).size;
    var payload := b[8..size];
    var length := FromLe32(b[..4]);
    assert LengthField(payload) == length;
    Le32Inverse(b[..4]);
    Le32Inverse(b[4..8]);
    assert b[..size] == b[..4] + b[4..8] + payload;
  }

  // ---- what the verdicts mean, over bytes ------------------------------------------

  /** The record that t begins with: its length field, whether it fits into t, and whether
      its checksum verifies. */
  function LengthAt(t: Bytes): nat
    requires HEADER_SIZE <= |t|
  {
    FromLe32(t[..4])
  }

  predicate Fits(t: Bytes) {
    HEADER_SIZE <= |t| && HEADER_SIZE + LengthAt(t) <= |t|
  }

  predicate Verifies(crc: Checksum, t: Bytes) {
    Fits(t) && crc(LengthAt(t), t[8..HEADER_SIZE + LengthAt(t)]) == FromLe32(t[4..8])
  }

  /** A record of allowed length fails its checksum with bytes behind it: interior damage. */
  predicate Damage(crc: Checksum, max: nat, t: Bytes) {
    Fits(t) && LengthAt(t) <= max && HEADER_SIZE + LengthAt(t) < |t| && !Verifies(crc, t)
  }

  /** A record above the limit that verifies: written while the limit was larger. */
  predicate AboveLimit(crc: Checksum, max: nat, t: Bytes) {
    Fits(t) && LengthAt(t) > max && Verifies(crc, t)
  }

  /** What a torn write may leave: less than a header, a record that does not fit, one that
      ends the file and fails its checksum, or a length above the limit that is not real. */
  predicate Tear(crc: Checksum, max: nat, t: Bytes) {
    && t != []
    && (|t| < HEADER_SIZE || !Fits(t) || (!Verifies(crc, t) && (LengthAt(t) > max || HEADER_SIZE + LengthAt(t) == |t|)))
  }

  lemma FirstVerdict(crc: Checksum, max: nat, t: Bytes)
    ensures Damage(crc, max, t) ==> FirstFrame(crc, max, t).Damaged?
    ensures AboveLimit(crc, max, t) ==> FirstFrame(crc, max, t).Oversize?
    ensures Tear(crc, max, t) ==> FirstFrame(crc, max, t).Cut?
    ensures FirstFrame(crc, max, t).Intact? || t == [] || Damage(crc, max, t) || AboveLimit(crc, max, t) || Tear(crc, max, t)
  {
    hide FromLe32;
  }

  /** The verdict on intact records followed by anything that is not one. */
  lemma ScanVerdict(crc: Checksum, max: nat, rs: seq<Record>, t: Bytes)
    requires Within(max, rs) && max <= MAX_RECORD_LIMIT
    ensures var r, good := ScanBytes(crc, max, Frames(crc, rs) + t), |Frames(crc, rs)|;
            && (t == [] ==> r == Clean(|rs|, good))
            && (Damage(crc, max, t) ==> r == Corrupt(|rs|, good))
            && (AboveLimit(crc, max, t) ==> r == TooLarge)
            && (Tear(crc, max, t) ==> r == Torn(|rs|, good))
  {
    hide FirstFrame, Frames, Damage, AboveLimit, Tear;
    FirstVerdict(crc, max, t);
    ScanWritten(crc, max, rs, t);
  }

  /** Any bytes are the records parsed from them, followed by nothing, by damage, by a
      record above the limit, or by a tear. */
  lemma {:induction false} ParseSplits(crc: Checksum, max: nat, b: Bytes) returns (t: Bytes)
    requires max <= MAX_RECORD_LIMIT
    ensures Within(max, Parse(crc, max, b)) && b == Frames(crc, Parse(crc, max, b)) + t
    ensures t == [] || Damage(crc, max, t) || AboveLimit(crc, max, t) || Tear(crc, max, t)
    decreases |b|
  {
    hide FirstFrame, Frame, Damage, AboveLimit, Tear, Frames;
    var first := FirstFrame(crc, max, b);
    FirstVerdict(crc, max, b);
    t := b;
    if first.Intact? {
      t := ParseSplits(crc, max, b[first.size..]);
      ParseMore(crc, max, b, first.size);
      assert b == b[..first.size] + b[first.size..];
    } else {
      FramesNone(crc);
    }
  }

  lemma FramesNone(crc: Checksum)
    ensures Frames(crc, []) == []
  {
  }

  /** The first record parsed, and the rest. */
  lemma ParseMore(crc: Checksum, max: nat, b: Bytes, size: nat)
    requires max <= MAX_RECORD_LIMIT && FirstFrame(crc, max, b) == Intact(size)
    ensures var rs, rest := Parse(crc, max, b), Parse(crc, max, b[size..]);
            && |rs| == |rest| + 1 && rs[1..] == rest && |rs[0].payload| <= max
            && Frames(crc, rs) == b[..size] + Frames(crc, rest)
            && (Within(max, rest) ==> Within(max, rs))
  {
    hide FirstFrame, Frame;
    IntactIsFrame(crc, max, b);
    var rs := Parse(crc, max, b);
    assert rs[1..] == Parse(crc, max, b[size..]);
    forall i | 0 <= i < |rs| ensures i > 0 ==> rs[i] == rs[1..][i - 1] {
    }
  }

  /** For arbitrary bytes, the reported good prefix is exactly the framing of as many
      records as were counted, and scanning it again is clean with the same count. */
  lemma ScanAnyBytes(crc: Checksum, max: nat, b: Bytes)
    requires max <= MAX_RECORD_LIMIT && !ScanBytes(crc, max, b).TooLarge?
    ensures var r := ScanBytes(crc, max, b);
            var rs := Parse(crc, max, b);
            && |rs| == r.count && Within(max, rs) && b[..r.good] == Frames(crc, rs)
            && ScanBytes(crc, max, b[..r.good]) == Clean(r.count, r.good)
  {
    hide ScanBytes, Parse, Damage, AboveLimit, Tear;
    var r := ScanBytes(crc, max, b);
    var rs := Parse(crc, max, b);
    var t := ParseSplits(crc, max, b);
    ScanVerdict(crc, max, rs, t);
    ScanVerdict(crc, max, rs, []);
    assert Frames(crc, rs) + [] == b[..r.good];
  }

  ghost predicate Prefixed(crc: Checksum, max: nat, b: Bytes, rs: seq<Record>, t: Bytes) {
    Within(max, rs) && b == Frames(crc, rs) + t
  }

  /** Each verdict is given exactly for the files it is meant for: a file is clean iff it is
      nothing but intact records, corrupt iff a record of allowed length behind them fails
      its checksum with bytes after it, too large iff a record above the limit verifies, and
      torn iff what follows can be a torn write. */
  lemma ScanExact(crc: Checksum, max: nat, b: Bytes)
    requires max <= MAX_RECORD_LIMIT
    ensures var r := ScanBytes(crc, max, b);
            && (r.Clean? <==> exists rs :: Prefixed(crc, max, b, rs, []))
            && (r.Corrupt? <==> exists rs, t :: Prefixed(crc, max, b, rs, t) && Damage(crc, max, t))
            && (r.TooLarge? <==> exists rs, t :: Prefixed(crc, max, b, rs, t) && AboveLimit(crc, max, t))
            && (r.Torn? <==> exists rs, t :: Prefixed(crc, max, b, rs, t) && Tear(crc, max, t))
  {
    hide ScanBytes, Parse, Damage, AboveLimit, Tear;
    var rs0 := Parse(crc, max, b);
    var t0 := ParseSplits(crc, max, b);
    assert Prefixed(crc, max, b, rs0, t0);
    ScanVerdict(crc, max, rs0, t0);
    forall rs, t | Prefixed(crc, max, b, rs, t)
      ensures t == [] ==> ScanBytes(crc, max, b).Clean?
      ensures Damage(crc, max, t) ==> ScanBytes(crc, max, b).Corrupt?
      ensures AboveLimit(crc, max, t) ==> ScanBytes(crc, max, b).TooLarge?
      ensures Tear(crc, max, t) ==> ScanBytes(crc, max, b).Torn?
    {
      ScanVerdict(crc, max, rs, t);
    }
  }

  lemma Le32Inverse(b: Bytes)
    requires |b| == 4
    ensures Le32(FromLe32(b)) == b
  {
    var b0: int, b1: int, b2: int, b3: int := b[0], b[1], b[2], b[3];
    var n := FromLe32(b);
    var q1 := n / 256;
    assert n % 256 == b0 && q1 == b1 + 256 * (b2 + 256 * b3);
    var q2 := q1 / 256;
    assert q1 % 256 == b1 && q2 == b2 + 256 * b3;
    assert q2 % 256 == b2 && q2 / 256 == b3;
  }
}
