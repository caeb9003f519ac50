/**
 * The private pipe protocol of the owned helper
 * (apps/reb-native-vm-fixture/owned_vm_helper_protocol.hpp).
 */
module HelperProtocol {
  import opened LittleEndian

  const MAGIC: nat := 0x314d5652   // "RVM1"
  const VERSION: nat := 1
  const REQUEST_BYTES: nat := 40
  const HEADER_BYTES: nat := 24

  datatype Operation = Inspect | ExecuteOne | Close
  datatype Status = Ok | Malformed | StaleGeneration | CountMismatch | RequestId | Expired | Halted | ResourceLimit
                  | FixtureError | Closed
  datatype Request = Request(operation: Operation, requestId: nat, generation: nat, executedCount: nat)

  function OperationCode(o: Operation): nat {
    match o
    case Inspect => 1
    case ExecuteOne => 2
    case Close => 3
  }

  function StatusCode(s: Status): nat {
    match s
    case Ok => 0
    case Malformed => 1
    case StaleGeneration => 2
    case CountMismatch => 3
    case RequestId => 4
    case Expired => 5
    case Halted => 6
    case ResourceLimit => 7
    case FixtureError => 8
    case Closed => 9
  }

  /** A frame as its sender packs it: magic, version, operation, three uint64 fields and a reserved one. */
  function Frame(magic: nat, version: nat, operation: nat, id: nat, generation: nat, count: nat,
        reserved: nat): seq<Byte> {
    Digits(magic, 4) + Digits(version, 2) + Digits(operation, 2) + Digits(id, 8) + Digits(generation, 8)
        + Digits(count, 8)
    + Digits(reserved, 8)
  }

  function Field(bytes: seq<Byte>, offset: nat, width: nat): nat
    requires offset + width <= |bytes|
  {
    Number(bytes[offset..offset + width])
  }

  /** The request a frame carries. A malformed frame still yields the identifiers its reply echoes. */
  function Decoded(bytes: seq<Byte>): (r: (Request, bool))
    requires |bytes| == REQUEST_BYTES
  {
    var code := Field(bytes, 6, 2);
    var ok := Field(bytes, 0, 4) == MAGIC && Field(bytes, 4, 2) == VERSION && Field(bytes, 32, 8) == 0
        && 1 <= code <= 3;
    (Request(if ok && code == 2 then ExecuteOne else if ok && code == 3 then Close else Inspect,
             Field(bytes, 8, 8), Field(bytes, 16, 8), Field(bytes, 24, 8)), ok)
  }

  method DecodeRequest(bytes: seq<Byte>) returns (request: Request, ok: bool)
    requires |bytes| == REQUEST_BYTES
    ensures (request, ok) == Decoded(bytes)
  {
    var id := ReadLe(bytes, 8, 8);
    var generation := ReadLe(bytes, 16, 8);
    var count := ReadLe(bytes, 24, 8);
    request := Request(Inspect, id, generation, count);
    var operation := ReadLe(bytes, 6, 2);
    var magic := ReadLe(bytes, 0, 4);
    var version := ReadLe(bytes, 4, 2);
    var reserved := ReadLe(bytes, 32, 8);
    if magic != MAGIC || version != VERSION || reserved != 0 || operation < 1 || operation > 3 {
      return request, false;
    }
    request := request.(operation := if operation == 1 then Inspect else if operation == 2 then ExecuteOne else Close);
    ok := true;
  }

  lemma FrameFields(a: seq<Byte>, b: seq<Byte>, c: seq<Byte>, d: seq<Byte>, e: seq<Byte>, f: seq<Byte>, g: seq<Byte>)
    requires |a| == 4 && |b| == 2 && |c| == 2 && |d| == 8 && |e| == 8 && |f| == 8 && |g| == 8
    ensures var all := a + b + c + d + e + f + g;
            && |all| == REQUEST_BYTES
            && all[0..4] == a && all[4..6] == b && all[6..8] == c && all[8..16] == d && all[16..24] == e
            && all[24..32] == f && all[32..40] == g
  {
  }

  /** Fields of any width survive the frame, and only well-formed frames are accepted. */
  lemma {:induction false} DecodeOfFrame(magic: nat, version: nat, operation: nat, id: nat, generation: nat, count: nat,
        reserved: nat)
    requires magic < U32_LIMIT && version < U16_LIMIT && operation < U16_LIMIT
    requires id < U64_LIMIT && generation < U64_LIMIT && count < U64_LIMIT && reserved < U64_LIMIT
    ensures var (request, ok) := Decoded(Frame(magic, version, operation, id, generation, count, reserved));
            && (ok <==> magic == MAGIC && version == VERSION && reserved == 0 && 1 <= operation <= 3)
            && (ok ==> OperationCode(request.operation) == operation)
            && request.requestId == id && request.generation == generation && request.executedCount == count
  {
    FrameFields(Digits(magic, 4), Digits(version, 2), Digits(operation, 2), Digits(id, 8), Digits(generation, 8),
        Digits(count, 8),
                Digits(reserved, 8));
    Powers();
    FieldRoundTrip(magic, 4);
    FieldRoundTrip(version, 2);
    FieldRoundTrip(operation, 2);
    FieldRoundTrip(id, 8);
    FieldRoundTrip(generation, 8);
    FieldRoundTrip(count, 8);
    FieldRoundTrip(reserved, 8);
  }

  /** Every forty bytes are the frame of their fields, so nothing else can be decoded. */
  lemma FrameOfBytes(bytes: seq<Byte>)
    requires |bytes| == REQUEST_BYTES
    ensures bytes == Frame(Field(bytes, 0, 4), Field(bytes, 4, 2), Field(bytes, 6, 2), Field(bytes, 8, 8),
                           Field(bytes, 16, 8), Field(bytes, 24, 8), Field(bytes, 32, 8))
    ensures Decoded(bytes).0.requestId < U64_LIMIT && Decoded(bytes).0.generation < U64_LIMIT
            && Decoded(bytes).0.executedCount < U64_LIMIT
  {
    WriteOfRead(bytes[0..4]);
    WriteOfRead(bytes[4..6]);
    WriteOfRead(bytes[6..8]);
    WriteOfRead(bytes[8..16]);
    WriteOfRead(bytes[16..24]);
    WriteOfRead(bytes[24..32]);
    WriteOfRead(bytes[32..40]);
    Powers();
    NumberBound(bytes[8..16]);
    NumberBound(bytes[16..24]);
    NumberBound(bytes[24..32]);
    assert bytes == bytes[0..4] + bytes[4..6] + bytes[6..8] + bytes[8..16] + bytes[16..24] + bytes[24..32]
        + bytes[32..40];
  }

  function HeaderBytes(status: Status, id: nat, payload: nat): seq<Byte> {
    Digits(MAGIC, 4) + Digits(VERSION, 2) + Digits(StatusCode(status), 2) + Digits(id, 8) + Digits(payload, 4)
        + Digits(0, 4)
  }

  method ResponseHeader(status: Status, id: nat, payload: nat) returns (header: seq<Byte>)
    ensures header == HeaderBytes(status, id, payload)
  {
    var bytes := new Byte[HEADER_BYTES](_ => 0);
    WriteLe(bytes, 0, 4, MAGIC);
    assert bytes[..4] == Digits(MAGIC, 4) && bytes[4..] == seq(20, _ => 0 as Byte);
    WriteLe(bytes, 4, 2, VERSION);
    assert bytes[..6] == Digits(MAGIC, 4) + Digits(VERSION, 2) && bytes[6..] == seq(18, _ => 0 as Byte);
    WriteLe(bytes, 6, 2, StatusCode(status));
    ghost var three := Digits(MAGIC, 4) + Digits(VERSION, 2) + Digits(StatusCode(status), 2);
    assert bytes[..8] == three && bytes[8..] == seq(16, _ => 0 as Byte);
    WriteLe(bytes, 8, 8, id);
    assert bytes[..16] == three + Digits(id, 8) && bytes[16..] == seq(8, _ => 0 as Byte);
    WriteLe(bytes, 16, 4, payload);
    assert bytes[..20] == three + Digits(id, 8) + Digits(payload, 4) && bytes[20..] == seq(4, _ => 0 as Byte);
    ZeroDigits(4);
    header := bytes[..];
    assert header == bytes[..20] + bytes[20..];
  }

  lemma {:induction false} ZeroDigits(width: nat)
    ensures Digits(0, width) == seq(width, _ => 0 as Byte)
  {
    if width > 0 {
      ZeroDigits(width - 1);
    }
  }

  lemma HeaderFields(a: seq<Byte>, b: seq<Byte>, c: seq<Byte>, d: seq<Byte>, e: seq<Byte>, f: seq<Byte>)
    requires |a| == 4 && |b| == 2 && |c| == 2 && |d| == 8 && |e| == 4 && |f| == 4
    ensures var h := a + b + c + d + e + f;
            && |h| == HEADER_BYTES
            && h[0..4] == a && h[4..6] == b && h[6..8] == c && h[8..16] == d && h[16..20] == e && h[20..24] == f
  {
  }

  /** A reader of the header finds the status, the echoed identifier and the payload size. */
  lemma HeaderReadsBack(status: Status, id: nat, payload: nat)
    requires id < U64_LIMIT && payload < U32_LIMIT
    ensures var h := HeaderBytes(status, id, payload);
            && |h| == HEADER_BYTES
            && Field(h, 0, 4) == MAGIC && Field(h, 4, 2) == VERSION && Field(h, 6, 2) == StatusCode(status)
            && Field(h, 8, 8) == id && Field(h, 16, 4) == payload && Field(h, 20, 4) == 0
  {
    HeaderFields(Digits(MAGIC, 4), Digits(VERSION, 2), Digits(StatusCode(status), 2), Digits(id, 8), Digits(payload, 4),
        Digits(0, 4));
    Powers();
    FieldRoundTrip(MAGIC, 4);
    FieldRoundTrip(VERSION, 2);
    FieldRoundTrip(StatusCode(status), 2);
    FieldRoundTrip(id, 8);
    FieldRoundTrip(payload, 4);
    FieldRoundTrip(0, 4);
  }

  /** A clock that stopped, went back or reached the deadline. */
  predicate ClockExpired(now: nat, previous: nat, deadline: nat) {
    now == 0 || now < previous || now >= deadline
  }
}
