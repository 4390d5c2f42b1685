/** Segment file names (internal/wal/segment.go): `<base>.<prevEnd>.log`, both numbers
    zero-padded to 20 digits. */
module SegmentName {
  import opened Wal

  type U64 = x: int | 0 <= x < 0x1_0000_0000_0000_0000

  const WIDTH: nat := 20
  const SUFFIX: string := ".log"

  function Digit(d: nat): (c: char)
    requires d < 10
    ensures '0' <= c <= '9'
  {
    '0' + d as char
  }

  predicate IsDigit(c: char) {
    '0' <= c <= '9'
  }

  function Pow10(w: nat): nat {
    if w == 0 then 1 else 10 * Pow10(w - 1)
  }

  /** n in exactly w digits. */
  function Padded(n: nat, w: nat): (s: string)
    ensures |s| == w && forall i :: 0 <= i < w ==> IsDigit(s[i])
  {
    if w == 0 then "" else Padded(n / 10, w - 1) + [Digit(n % 10)]
  }

  function Decimal(n: nat): (s: string)
    ensures s != "" && forall i :: 0 <= i < |s| ==> IsDigit(s[i])
  {
    if n < 10 then [Digit(n)] else Decimal(n / 10) + [Digit(n % 10)]
  }

  /** segmentName */
  function Name(base: U64, prevEnd: U64): string {
    Padded(base, WIDTH) + "." + Padded(prevEnd, WIDTH) + SUFFIX
  }

  /** The name salvage copies discarded bytes to. */
  function KeptName(base: U64, prevEnd: U64, good: nat, nanos: nat): string {
    Name(base, prevEnd) + ".corrupt-" + Decimal(good) + "-" + Decimal(nanos)
  }

  function Value(s: string): nat
    requires forall i :: 0 <= i < |s| ==> IsDigit(s[i])
  {
    if s == "" then 0
    else
      var last := s[|s| - 1];
      assert IsDigit(last);
      10 * Value(s[..|s| - 1]) + (last - '0') as nat
  }

  /** strconv.ParseUint(s, 10, 64) */
  function ParseUint(s: string): Option<U64> {
    if s == "" || !(forall i :: 0 <= i < |s| ==> IsDigit(s[i])) then None
    else if Value(s) < 0x1_0000_0000_0000_0000 then Some(Value(s))
    else None
  }

  /** Position of the first '.', |s| when there is none. */
  function FirstDot(s: string): (i: nat)
    ensures i <= |s| && (i < |s| ==> s[i] == '.')
    ensures forall j :: 0 <= j < i ==> s[j] != '.'
  {
    if s == "" || s[0] == '.' then 0 else 1 + FirstDot(s[1..])
  }

  predicate HasSuffix(s: string, suffix: string) {
    |s| >= |suffix| && s[|s| - |suffix|..] == suffix
  }

  /** parseSegmentName */
  function Parse(name: string): Option<(U64, U64)> {
    if !HasSuffix(name, SUFFIX) then None
    else
      var stem := name[..|name| - |SUFFIX|];
      var dot := FirstDot(stem);
      if dot == |stem| then None
      else
        match (ParseUint(stem[..dot]), ParseUint(stem[dot + 1..]))
        case (Some(b), Some(p)) => Some((b, p))
        case _ => None
  }

  lemma {:induction false} PaddedValue(n: nat, w: nat)
    requires n < Pow10(w)
    ensures Value(Padded(n, w)) == n
  {
    if w > 0 {
      PaddedValue(n / 10, w - 1);
      var s := Padded(n, w);
      assert s[..w - 1] == Padded(n / 10, w - 1) && s[w - 1] == Digit(n % 10);
    }
  }

  lemma FitsWidth()
    ensures Pow10(WIDTH) == 100_000_000_000_000_000_000
  {
    assert Pow10(4) == 10_000;
    assert Pow10(8) == 10_000 * Pow10(4);
    assert Pow10(12) == 10_000 * Pow10(8);
    assert Pow10(16) == 10_000 * Pow10(12);
    assert Pow10(20) == 10_000 * Pow10(16);
  }

  /** A printed name reads back as the same pair. */
  lemma NameRoundTrip(base: U64, prevEnd: U64)
    ensures Parse(Name(base, prevEnd)) == Some((base, prevEnd))
  {
    hide Padded, Value, Pow10;
    FitsWidth();
    PaddedValue(base, WIDTH);
    PaddedValue(prevEnd, WIDTH);
    var b, p := Padded(base, WIDTH), Padded(prevEnd, WIDTH);
    var name := Name(base, prevEnd);
    var stem := b + "." + p;
    assert name[|name| - |SUFFIX|..] == SUFFIX;
    assert name[..|name| - |SUFFIX|] == stem;
    assert stem[WIDTH] == '.';
    assert forall i :: 0 <= i < WIDTH ==> stem[i] == b[i];
    assert FirstDot(stem) == WIDTH;
    assert stem[..WIDTH] == b && stem[WIDTH + 1..] == p;
  }

  /** Byte-wise order of strings, a proper prefix first. */
  predicate Before(a: string, b: string) {
    if b == "" then false
    else if a == "" then true
    else a[0] < b[0] || (a[0] == b[0] && Before(a[1..], b[1..]))
  }

  lemma {:induction false} BeforeConcat(a: string, x: string, b: string, y: string)
    requires |a| == |b|
    ensures Before(a + x, b + y) <==> Before(a, b) || (a == b && Before(x, y))
  {
    if a == "" {
      assert a + x == x && b + y == y;
    } else {
      assert (a + x)[1..] == a[1..] + x && (b + y)[1..] == b[1..] + y;
      BeforeConcat(a[1..], x, b[1..], y);
      assert a == b <==> a[0] == b[0] && a[1..] == b[1..] by {
        assert a == [a[0]] + a[1..] && b == [b[0]] + b[1..];
      }
    }
  }

  lemma {:induction false} PaddedOrder(m: nat, n: nat, w: nat)
    requires m < Pow10(w) && n < Pow10(w)
    ensures Before(Padded(m, w), Padded(n, w)) <==> m < n
    ensures Padded(m, w) == Padded(n, w) <==> m == n
  {
    if w > 0 {
      PaddedOrder(m / 10, n / 10, w - 1);
      BeforeConcat(Padded(m / 10, w - 1), [Digit(m % 10)], Padded(n / 10, w - 1), [Digit(n % 10)]);
      PaddedValue(m, w);
      PaddedValue(n, w);
    }
  }

  /** Sorting names sorts segments: by base, then by prevEnd. */
  lemma NameOrder(b1: U64, p1: U64, b2: U64, p2: U64)
    ensures Before(Name(b1, p1), Name(b2, p2)) <==> b1 < b2 || (b1 == b2 && p1 < p2)
  {
    hide Padded, Before, Pow10;
    FitsWidth();
    PaddedOrder(b1, b2, WIDTH);
    PaddedOrder(p1, p2, WIDTH);
    var x1, x2 := Padded(p1, WIDTH) + SUFFIX, Padded(p2, WIDTH) + SUFFIX;
    assert Name(b1, p1) == Padded(b1, WIDTH) + ("." + x1);
    assert Name(b2, p2) == Padded(b2, WIDTH) + ("." + x2);
    BeforeConcat(Padded(b1, WIDTH), "." + x1, Padded(b2, WIDTH), "." + x2);
    BeforeConcat(".", x1, ".", x2);
    BeforeConcat(Padded(p1, WIDTH), SUFFIX, Padded(p2, WIDTH), SUFFIX);
    BeforeIrreflexive(SUFFIX);
    BeforeIrreflexive(".");
  }

  lemma {:induction false} BeforeIrreflexive(a: string)
    ensures !Before(a, a)
  {
    if a != "" {
      BeforeIrreflexive(a[1..]);
    }
  }

  /** A copy of discarded bytes is never taken for a segment. */
  lemma KeptNeverParses(base: U64, prevEnd: U64, good: nat, nanos: nat)
    ensures Parse(KeptName(base, prevEnd, good, nanos)) == None
  {
    var name := KeptName(base, prevEnd, good, nanos);
    var tail := Decimal(nanos);
    assert name[|name| - 1] == tail[|tail| - 1] && IsDigit(tail[|tail| - 1]);
    assert name[|name| - 4..][3] == name[|name| - 1] && SUFFIX[3] == 'g';
  }
}
