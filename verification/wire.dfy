/** Bytes, little-endian integers and the fixed packet header. */
module Wire {
  type Byte = b: int | 0 <= b < 0x100

  const UINT_LIMIT := 0x1_0000_0000
  const USHORT_LIMIT := 0x1_0000

  const EVENT_TYPE_AT := 4
  const ERROR_CODE_AT := 8
  const HANDLER_ID_AT := 12
  const SERVER_ID_AT := 16
  const SEQUENCE_ID_AT := 18
  const HEADER_SIZE := 20

  function GetUint(b: seq<Byte>, at: nat): (n: nat)
    requires at + 4 <= |b|
    ensures n < UINT_LIMIT
  {
    var b0: int, b1: int, b2: int, b3: int := b[at], b[at + 1], b[at + 2], b[at + 3];
    b0 + 0x100 * b1 + 0x1_0000 * b2 + 0x100_0000 * b3
  }

  function GetUshort(b: seq<Byte>, at: nat): (n: nat)
    requires at + 2 <= |b|
    ensures n < USHORT_LIMIT
  {
    var b0: int, b1: int := b[at], b[at + 1];
    b0 + 0x100 * b1
  }

  function UintBytes(n: nat): (b: seq<Byte>)
    requires n < UINT_LIMIT
    ensures |b| == 4
  {
    [n % 0x100, n / 0x100 % 0x100, n / 0x1_0000 % 0x100, n / 0x100_0000]
  }

  function UshortBytes(n: nat): (b: seq<Byte>)
    requires n < USHORT_LIMIT
    ensures |b| == 2
  {
    [n % 0x100, n / 0x100]
  }

  lemma BytesAddUp(n: nat)
    requires n < UINT_LIMIT
    ensures n % 0x100 + 0x100 * (n / 0x100 % 0x100) + 0x1_0000 * (n / 0x1_0000 % 0x100) +
            0x100_0000 * (n / 0x100_0000) == n
  {
    assert n == 0x100 * (n / 0x100) + n % 0x100;
    assert n / 0x100 == 0x100 * (n / 0x1_0000) + n / 0x100 % 0x100;
    assert n / 0x1_0000 == 0x100 * (n / 0x100_0000) + n / 0x1_0000 % 0x100;
  }

  /** The integer at a place where its bytes have been stored. */
  lemma UintRoundTrip(b: seq<Byte>, at: nat, n: nat)
    requires n < UINT_LIMIT && at + 4 <= |b| && b[at..at + 4] == UintBytes(n)
    ensures GetUint(b, at) == n
  {
    var s := b[at..at + 4];
    assert b[at] == s[0] && b[at + 1] == s[1] && b[at + 2] == s[2] && b[at + 3] == s[3];
    BytesAddUp(n);
  }

  lemma UshortRoundTrip(b: seq<Byte>, at: nat, n: nat)
    requires n < USHORT_LIMIT && at + 2 <= |b| && b[at..at + 2] == UshortBytes(n)
    ensures GetUshort(b, at) == n
  {
    var s := b[at..at + 2];
    assert b[at] == s[0] && b[at + 1] == s[1];
  }

  /** The bytes of an integer are the only ones that read as it. */
  lemma UintBytesUnique(b: seq<Byte>)
    requires |b| == 4
    ensures UintBytes(GetUint(b, 0)) == b
  {
    var n := GetUint(b, 0);
    var b1: int, b2: int, b3: int := b[1], b[2], b[3];
    assert n / 0x100 == b1 + 0x100 * b2 + 0x1_0000 * b3;
    assert n / 0x1_0000 == b2 + 0x100 * b3;
  }

  function HandlerId(b: seq<Byte>): nat
    requires |b| >= HEADER_SIZE
  {
    GetUint(b, HANDLER_ID_AT)
  }

  function ServerId(b: seq<Byte>): nat
    requires |b| >= HEADER_SIZE
  {
    GetUshort(b, SERVER_ID_AT)
  }

  datatype Header = Header(size: nat, eventType: nat, errorCode: nat, handlerId: nat, serverId: nat, sequenceId: nat)

  predicate GoodHeader(h: Header) {
    && h.size < UINT_LIMIT && h.eventType < UINT_LIMIT && h.errorCode < UINT_LIMIT && h.handlerId < UINT_LIMIT
    && h.serverId < USHORT_LIMIT && h.sequenceId < USHORT_LIMIT
  }

  function ReadHeader(b: seq<Byte>): Header
    requires |b| >= HEADER_SIZE
  {
    Header(GetUint(b, 0), GetUint(b, EVENT_TYPE_AT), GetUint(b, ERROR_CODE_AT), HandlerId(b), ServerId(b),
           GetUshort(b, SEQUENCE_ID_AT))
  }

  function Body(b: seq<Byte>): seq<Byte>
    requires |b| >= HEADER_SIZE
  {
    b[HEADER_SIZE..]
  }

  function HeaderBytes(h: Header): (b: seq<Byte>)
    requires GoodHeader(h)
    ensures |b| == HEADER_SIZE
  {
    UintBytes(h.size) + UintBytes(h.eventType) + UintBytes(h.errorCode) + UintBytes(h.handlerId)
    + UshortBytes(h.serverId) + UshortBytes(h.sequenceId)
  }

  /** Every field and the body of a packet read back as they were written. */
  lemma HeaderRoundTrip(h: Header, param: seq<Byte>)
    requires GoodHeader(h)
    ensures ReadHeader(HeaderBytes(h) + param) == h && Body(HeaderBytes(h) + param) == param
  {
    var b := HeaderBytes(h) + param;
    assert b[0..4] == UintBytes(h.size);
    assert b[4..8] == UintBytes(h.eventType);
    assert b[8..12] == UintBytes(h.errorCode);
    assert b[12..16] == UintBytes(h.handlerId);
    assert b[16..18] == UshortBytes(h.serverId);
    assert b[18..20] == UshortBytes(h.sequenceId);
    UintRoundTrip(b, 0, h.size);
    UintRoundTrip(b, EVENT_TYPE_AT, h.eventType);
    UintRoundTrip(b, ERROR_CODE_AT, h.errorCode);
    UintRoundTrip(b, HANDLER_ID_AT, h.handlerId);
    UshortRoundTrip(b, SERVER_ID_AT, h.serverId);
    UshortRoundTrip(b, SEQUENCE_ID_AT, h.sequenceId);
  }

  function PowerOf256(k: nat): (p: nat)
    ensures p > 0
  {
    if k == 0 then 1 else 256 * PowerOf256(k - 1)
  }

  /** From this place on the bytes hold the number, the lowest byte first. */
  predicate Stores(b: seq<Byte>, at: nat, width: nat, n: nat) {
    at + width <= |b| && forall i: nat :: i < width ==> b[at + i] == n / PowerOf256(i) % 256
  }

  lemma FirstPowers()
    ensures PowerOf256(0) == 1 && PowerOf256(1) == 256 && PowerOf256(2) == 65536 && PowerOf256(3) == 16777216
  {
    assert PowerOf256(2) == 256 * PowerOf256(1);
    assert PowerOf256(3) == 256 * PowerOf256(2);
  }

  lemma UintStored(b: seq<Byte>, at: nat, n: nat)
    requires n < UINT_LIMIT && at + 4 <= |b| && b[at..at + 4] == UintBytes(n)
    ensures Stores(b, at, 4, n)
  {
    FirstPowers();
    var s := b[at..at + 4];
    assert b[at + 0] == s[0] == n / 1 % 256;
    assert b[at + 1] == s[1] && b[at + 2] == s[2] && b[at + 3] == s[3];
    EachByte(b, at, 4, n);
  }

  lemma UshortStored(b: seq<Byte>, at: nat, n: nat)
    requires n < USHORT_LIMIT && at + 2 <= |b| && b[at..at + 2] == UshortBytes(n)
    ensures Stores(b, at, 2, n)
  {
    FirstPowers();
    var s := b[at..at + 2];
    assert b[at + 0] == s[0] == n / 1 % 256;
    assert b[at + 1] == s[1];
    EachByte(b, at, 2, n);
  }

  lemma EachByte(b: seq<Byte>, at: nat, width: nat, n: nat)
    requires width <= 4 && at + width <= |b|
    requires width > 0 ==> b[at + 0] == n / PowerOf256(0) % 256
    requires width > 1 ==> b[at + 1] == n / PowerOf256(1) % 256
    requires width > 2 ==> b[at + 2] == n / PowerOf256(2) % 256
    requires width > 3 ==> b[at + 3] == n / PowerOf256(3) % 256
    ensures Stores(b, at, width, n)
  {
    forall i: nat | i < width
      ensures b[at + i] == n / PowerOf256(i) % 256
    {
      assert i == 0 || i == 1 || i == 2 || i == 3;
    }
  }

  /** Where each field stands in a packet: in host order, that is with the lowest byte first. */
  lemma HeaderLayout(h: Header, param: seq<Byte>)
    requires GoodHeader(h)
    ensures var b := HeaderBytes(h) + param;
            && Stores(b, 0, 4, h.size) && Stores(b, 4, 4, h.eventType) && Stores(b, 8, 4, h.errorCode)
            && Stores(b, 12, 4, h.handlerId) && Stores(b, 16, 2, h.serverId) && Stores(b, 18, 2, h.sequenceId)
            && b[20..] == param
  {
    var b := HeaderBytes(h) + param;
    UintStored(b, 0, h.size);
    UintStored(b, 4, h.eventType);
    UintStored(b, 8, h.errorCode);
    UintStored(b, 12, h.handlerId);
    UshortStored(b, 16, h.serverId);
    UshortStored(b, 18, h.sequenceId);
  }

  /** Copies bytes into a buffer. */
  method CopyInto(buffer: array<Byte>, at: nat, bytes: seq<Byte>)
    requires at + |bytes| <= buffer.Length
    modifies buffer
    ensures buffer[..] == old(buffer[..at]) + bytes + old(buffer[at + |bytes|..])
  {
    forall i | 0 <= i < |bytes| {
      buffer[at + i] := bytes[i];
    }
  }

  /** Builds a packet field by field. */
  method CreateNetBuffer(eventType: nat, errorCode: nat, handlerId: nat, serverId: nat, sequenceId: nat,
                         param: seq<Byte>) returns (buffer: array<Byte>)
    requires GoodHeader(Header(HEADER_SIZE + |param|, eventType, errorCode, handlerId, serverId, sequenceId))
    ensures fresh(buffer)
    ensures buffer[..] ==
            HeaderBytes(Header(HEADER_SIZE + |param|, eventType, errorCode, handlerId, serverId, sequenceId)) + param
  {
    var size := HEADER_SIZE + |param|;
    buffer := new Byte[size](_ => 0);
    CopyInto(buffer, 0, UintBytes(size));
    CopyInto(buffer, EVENT_TYPE_AT, UintBytes(eventType));
    CopyInto(buffer, ERROR_CODE_AT, UintBytes(errorCode));
    assert buffer[..HANDLER_ID_AT] == UintBytes(size) + UintBytes(eventType) + UintBytes(errorCode);
    ghost var third := buffer[..HANDLER_ID_AT];
    CopyInto(buffer, HANDLER_ID_AT, UintBytes(handlerId));
    CopyInto(buffer, SERVER_ID_AT, UshortBytes(serverId));
    CopyInto(buffer, SEQUENCE_ID_AT, UshortBytes(sequenceId));
    CopyInto(buffer, HEADER_SIZE, param);
    assert buffer[..] == third + UintBytes(handlerId) + UshortBytes(serverId) + UshortBytes(sequenceId) + param;
  }

  /** A packet with another handler id.  A packet that is nothing but a header is left alone. */
  function Stamp(b: seq<Byte>, handlerId: nat): seq<Byte>
    requires handlerId < UINT_LIMIT
  {
    if |b| > HEADER_SIZE then b[..HANDLER_ID_AT] + UintBytes(handlerId) + b[HANDLER_ID_AT + 4..] else b
  }

  /** Stamping changes the handler id of a packet with a body, and nothing else; without a body, nothing at
      all. */
  lemma StampChangesHandlerOnly(b: seq<Byte>, handlerId: nat)
    requires handlerId < UINT_LIMIT
    ensures var s := Stamp(b, handlerId);
            if |b| > 20 then
              |s| == |b| && ReadHeader(s) == ReadHeader(b).(handlerId := handlerId) && Body(s) == Body(b)
            else s == b
  {
    var s := Stamp(b, handlerId);
    if |b| > 20 {
      UintRoundTrip(s, HANDLER_ID_AT, handlerId);
      assert forall i :: 0 <= i < |b| && !(HANDLER_ID_AT <= i < HANDLER_ID_AT + 4) ==> s[i] == b[i];
    }
  }

  method AddHandlerIdToBuffer(handlerId: nat, buffer: array<Byte>)
    requires handlerId < UINT_LIMIT
    modifies buffer
    ensures buffer[..] == Stamp(old(buffer[..]), handlerId)
  {
    if buffer.Length > HEADER_SIZE {
      CopyInto(buffer, HANDLER_ID_AT, UintBytes(handlerId));
    }
  }
}
