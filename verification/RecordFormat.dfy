/** The on-disk record format: a 32-bit little-endian payload length, a 32-bit
    checksum over length and payload, then the payload (internal/wal/record.go).

    The checksum is an arbitrary deterministic function, so nothing proved here
    relies on how strong CRC-32C is. */
module RecordFormat {

  type Byte = x: int | 0 <= x < 256
  type U32 = x: int | 0 <= x < 0x1_0000_0000
  type Bytes = seq<Byte>

  /** checksum(length, payload) */
  type Checksum = (U32, Bytes) -> U32

  const HEADER_SIZE: nat := 8
  /** The largest payload bound a log may be opened with. */
  const MAX_RECORD_LIMIT: nat := 0xFFFF_FFFF - HEADER_SIZE

  /** A record as the writer staged it. Only the payload reaches the disk; `round`
      is the commit round it was staged into, which identifies it: a number can be
      handed to another record after a rollback, a round cannot. */
  datatype Record = Record(payload: Bytes, round: nat)

  function Le32(n: U32): (b: Bytes)
    ensures |b| == 4 && FromLe32(b) == n
  {
    var q1 := n / 256;
    var q2 := q1 / 256;
    var q3 := q2 / 256;
    [n % 256, q1 % 256, q2 % 256, q3]
  }

  function FromLe32(b: Bytes): U32
    requires |b| == 4
  {
    var b0: int, b1: int, b2: int, b3: int := b[0], b[1], b[2], b[3];
    b0 + 256 * (b1 + 256 * (b2 + 256 * b3))
  }

  /** The length field a payload is framed with; Go's conversion to uint32 wraps. */
  function LengthField(payload: Bytes): U32 {
    |payload| % 0x1_0000_0000
  }

  /** One framed record. */
  function Frame(crc: Checksum, payload: Bytes): (b: Bytes)
    ensures |b| == HEADER_SIZE + |payload|
    ensures b[..4] == Le32(LengthField(payload))
    ensures b[4..8] == Le32(crc(LengthField(payload), payload))
    ensures b[8..] == payload
  {
    var n := LengthField(payload);
    Le32(n) + Le32(crc(n, payload)) + payload
  }

  /** The bytes of consecutive records. */
  function Frames(crc: Checksum, rs: seq<Record>): Bytes {
    if rs == [] then [] else Frame(crc, rs[0].payload) + Frames(crc, rs[1..])
  }

  /** Every payload is within the configured limit. */
  ghost predicate Within(max: nat, rs: seq<Record>) {
    forall i :: 0 <= i < |rs| ==> |rs[i].payload| <= max
  }

  lemma {:induction false} FramesConcat(crc: Checksum, a: seq<Record>, b: seq<Record>)
    ensures Frames(crc, a + b) == Frames(crc, a) + Frames(crc, b)
  {
    if a == [] {
      assert a + b == b;
    } else {
      assert (a + b)[0] == a[0] && (a + b)[1..] == a[1..] + b;
      FramesConcat(crc, a[1..], b);
    }
  }

  /** Cutting a run of records at index k cuts its bytes at a frame boundary. */
  lemma FramesSplit(crc: Checksum, rs: seq<Record>, k: nat)
    requires k <= |rs|
    ensures Frames(crc, rs) == Frames(crc, rs[..k]) + Frames(crc, rs[k..])
    ensures |Frames(crc, rs[..k])| <= |Frames(crc, rs)|
  {
    assert rs == rs[..k] + rs[k..];
    FramesConcat(crc, rs[..k], rs[k..]);
  }

  /** Every record costs at least its header, so bytes bound record counts. */
  lemma {:induction false} FramesLowerBound(crc: Checksum, rs: seq<Record>)
    ensures |Frames(crc, rs)| >= HEADER_SIZE * |rs|
    ensures |Frames(crc, rs)| == 0 <==> rs == []
  {
    if rs != [] {
      FramesLowerBound(crc, rs[1..]);
    }
  }

  /** Longer prefixes of a run take more bytes, strictly. */
  lemma FramesMonotone(crc: Checksum, rs: seq<Record>, j: nat, k: nat)
    requires j <= k <= |rs|
    ensures |Frames(crc, rs[..j])| <= |Frames(crc, rs[..k])|
    ensures j < k ==> |Frames(crc, rs[..j])| < |Frames(crc, rs[..k])|
  {
    assert rs[..k][..j] == rs[..j];
    FramesSplit(crc, rs[..k], j);
    FramesLowerBound(crc, rs[..k][j..]);
  }

  /** The frame at index k starts where the first k frames end. */
  lemma FrameAt(crc: Checksum, rs: seq<Record>, k: nat)
    requires k < |rs|
    ensures |Frames(crc, rs[..k + 1])| == |Frames(crc, rs[..k])| + HEADER_SIZE + |rs[k].payload|
    ensures Frame(crc, rs[k].payload) <= Frames(crc, rs[k..])
    ensures |Frames(crc, rs[..k + 1])| <= |Frames(crc, rs)|
    ensures Frames(crc, rs)[|Frames(crc, rs[..k])|..] == Frames(crc, rs[k..])
  {
    FramesSplit(crc, rs, k);
    FramesSplit(crc, rs, k + 1);
    assert rs[..k + 1] == rs[..k] + [rs[k]];
    FramesConcat(crc, rs[..k], [rs[k]]);
    assert Frames(crc, [rs[k]]) == Frame(crc, rs[k].payload) + Frames(crc, []);
  }

  /** appendRecord (record.go): appends a framed payload to a buffer. */
  method AppendRecord(crc: Checksum, dst: Bytes, payload: Bytes, ghost before: seq<Record>, ghost round: nat)
    returns (out: Bytes)
    requires dst == Frames(crc, before)
    ensures out == Frames(crc, before + [Record(payload, round)])
    ensures |out| == |dst| + HEADER_SIZE + |payload|
  {
    var n := LengthField(payload);
    out := dst + Le32(n) + Le32(crc(n, payload));
    out := out + payload;
    FramesConcat(crc, before, [Record(payload, round)]);
    assert Frames(crc, [Record(payload, round)]) == Frame(crc, payload) + Frames(crc, []);
    assert out == dst + Frame(crc, payload);
  }
}
