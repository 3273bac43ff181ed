/** The reply that carries several values: written on the Redis side, read on the Lua side. */
module MultiData {
  import opened Options
  import opened Sequences
  import opened Wire

  /** A value of the reply; a key that has none is nil. */
  type Element = Option<seq<Byte>>

  /** A length is stored as a signed integer. */
  const INT_LIMIT := 0x8000_0000
  const NIL_LENGTH := 0xFFFF_FFFF

  /** What comes before the number of values in the reply's head: ids, event and flags. */
  const HEAD_SIZE := 32
  const COUNT_AT := 1 + HEAD_SIZE
  const DATA_AT := COUNT_AT + 4

  predicate Storable(e: Element) {
    e.Some? ==> |e.value| < INT_LIMIT
  }

  predicate AllStorable(elements: seq<Element>) {
    |elements| < INT_LIMIT && forall i :: 0 <= i < |elements| ==> Storable(elements[i])
  }

  /** The length of an element as it is written: -1 stands for nil. */
  function LengthOf(e: Element): (n: nat)
    requires Storable(e)
    ensures n < UINT_LIMIT
  {
    match e
    case None => NIL_LENGTH
    case Some(b) => |b|
  }

  function Content(e: Element): seq<Byte> {
    match e
    case None => []
    case Some(b) => b
  }

  function Lengths(elements: seq<Element>): (b: seq<Byte>)
    requires AllStorable(elements)
    ensures |b| == 4 * |elements|
  {
    if elements == [] then [] else UintBytes(LengthOf(elements[0])) + Lengths(elements[1..])
  }

  function Contents(elements: seq<Element>): seq<Byte> {
    if elements == [] then [] else Content(elements[0]) + Contents(elements[1..])
  }

  /** The whole reply: protocol, head, number of values, their lengths, their contents. */
  function Packed(protocol: Byte, head: seq<Byte>, elements: seq<Element>): seq<Byte>
    requires |head| == HEAD_SIZE && AllStorable(elements)
  {
    [protocol] + head + UintBytes(|elements|) + Lengths(elements) + Contents(elements)
  }

  /** What the reader finds from the i-th length on, with contents from position `at`; None if a length is
      negative or the data end too early, which the reader does not check. */
  function UnpackFrom(data: seq<Byte>, count: nat, i: nat, at: nat): Option<seq<seq<Byte>>>
    requires i <= count
    decreases count - i
  {
    if i == count then Some([])
    else if 4 * i + 4 > |data| then None
    else
      var n := GetUint(data, 4 * i);
      if n >= INT_LIMIT || at + n > |data| then None
      else Join([data[at..at + n]], UnpackFrom(data, count, i + 1, at + n))
  }

  function Unpack(data: seq<Byte>, count: nat): Option<seq<seq<Byte>>> {
    UnpackFrom(data, count, 0, 4 * count)
  }

  predicate NoNil(elements: seq<Element>) {
    elements == [] || (elements[0].Some? && NoNil(elements[1..]))
  }

  function Strings(elements: seq<Element>): seq<seq<Byte>> {
    if elements == [] then [] else [Content(elements[0])] + Strings(elements[1..])
  }

  lemma UnpackOne(data: seq<Byte>, count: nat, i: nat, at: nat, v: seq<Byte>)
    requires i < count && 4 * i + 4 <= |data| && GetUint(data, 4 * i) == |v| < INT_LIMIT
    requires at + |v| <= |data| && data[at..at + |v|] == v
    ensures UnpackFrom(data, count, i, at) == Join([v], UnpackFrom(data, count, i + 1, at + |v|))
  {
  }

  /** The data hold a part `p` from position `at` on. */
  predicate Holds(data: seq<Byte>, at: nat, p: seq<Byte>) {
    at + |p| <= |data| && data[at..at + |p|] == p
  }

  lemma HoldsParts(data: seq<Byte>, at: nat, a: seq<Byte>, b: seq<Byte>)
    requires Holds(data, at, a + b)
    ensures Holds(data, at, a) && Holds(data, at + |a|, b)
  {
    assert a == (a + b)[..|a|] && b == (a + b)[|a|..];
  }

  /** From position `at` on, and from the i-th length on, the data hold these elements. */
  predicate HoldsAll(data: seq<Byte>, i: nat, at: nat, rest: seq<Element>) {
    AllStorable(rest) && Holds(data, 4 * i, Lengths(rest)) && Holds(data, at, Contents(rest))
  }

  lemma HoldsFirstLength(data: seq<Byte>, at: nat, rest: seq<Element>)
    requires AllStorable(rest) && rest != [] && Holds(data, at, Lengths(rest))
    ensures at + 4 <= |data| && GetUint(data, at) == LengthOf(rest[0]) && Holds(data, at + 4, Lengths(rest[1..]))
  {
    var length, more := UintBytes(LengthOf(rest[0])), Lengths(rest[1..]);
    assert Lengths(rest) == length + more;
    HoldsParts(data, at, length, more);
    UintRoundTrip(data, at, LengthOf(rest[0]));
  }

  lemma HoldsFirstContent(data: seq<Byte>, at: nat, rest: seq<Element>)
    requires rest != [] && Holds(data, at, Contents(rest))
    ensures Holds(data, at, Content(rest[0])) && Holds(data, at + |Content(rest[0])|, Contents(rest[1..]))
  {
    var first, more := Content(rest[0]), Contents(rest[1..]);
    assert Contents(rest) == first + more;
    HoldsParts(data, at, first, more);
  }

  lemma HoldsFirst(data: seq<Byte>, i: nat, at: nat, rest: seq<Element>)
    requires HoldsAll(data, i, at, rest) && rest != []
    ensures 4 * i + 4 <= |data| && GetUint(data, 4 * i) == LengthOf(rest[0]) && Holds(data, at, Content(rest[0]))
    ensures HoldsAll(data, i + 1, at + |Content(rest[0])|, rest[1..])
  {
    HoldsFirstLength(data, 4 * i, rest);
    HoldsFirstContent(data, at, rest);
  }

  /** Reading the remaining elements. */
  lemma {:induction false} UnpackPacked(rest: seq<Element>, data: seq<Byte>, count: nat, i: nat, at: nat)
    requires HoldsAll(data, i, at, rest) && count == i + |rest|
    ensures UnpackFrom(data, count, i, at) == if NoNil(rest) then Some(Strings(rest)) else None
    decreases |rest|
  {
    if rest != [] {
      HoldsFirst(data, i, at, rest);
      if rest[0].Some? {
        var v := rest[0].value;
        UnpackOne(data, count, i, at, v);
        UnpackPacked(rest[1..], data, count, i + 1, at + |v|);
      }
    }
  }

  lemma HoldsWhole(a: seq<Byte>, b: seq<Byte>)
    ensures Holds(a + b, 0, a) && Holds(a + b, |a|, b)
  {
  }

  /** The count and the data that the reader is given are those of the reply. */
  lemma PackedParts(protocol: Byte, head: seq<Byte>, elements: seq<Element>)
    requires |head| == HEAD_SIZE && AllStorable(elements)
    ensures var b := Packed(protocol, head, elements);
            |b| >= DATA_AT && GetUint(b, COUNT_AT) == |elements| &&
              b[DATA_AT..] == Lengths(elements) + Contents(elements)
  {
    var b := Packed(protocol, head, elements);
    assert b == [protocol] + head + UintBytes(|elements|) + (Lengths(elements) + Contents(elements));
    UintRoundTrip(b, COUNT_AT, |elements|);
  }

  /** From a packed reply the reader recovers exactly the values that were written, if and only if none
      of them is nil. */
  lemma RoundTripIff(protocol: Byte, head: seq<Byte>, elements: seq<Element>)
    requires |head| == HEAD_SIZE && AllStorable(elements)
    ensures var b := Packed(protocol, head, elements);
            |b| == SizeOf(elements) &&
            (Unpack(b[DATA_AT..], GetUint(b, COUNT_AT)) == Some(Strings(elements)) <==> NoNil(elements))
  {
    PackedParts(protocol, head, elements);
    HoldsWhole(Lengths(elements), Contents(elements));
    UnpackPacked(elements, Lengths(elements) + Contents(elements), |elements|, 0, 4 * |elements|);
  }

  /** The size computed beforehand: the head counts one byte of data, which pays for the protocol byte. */
  function SizeOf(elements: seq<Element>): nat {
    HEAD_SIZE + 4 + 1 + 4 * |elements| + |Contents(elements)|
  }

  method ComputeSize(elements: seq<Element>) returns (size: nat)
    ensures size == SizeOf(elements)
  {
    size := HEAD_SIZE + 4 + 1 + 4 * |elements|;
    ghost var rest := elements;
    for i := 0 to |elements|
      invariant rest == elements[i..] && size + |Contents(rest)| == SizeOf(elements)
    {
      assert rest[0] == elements[i] && rest[1..] == elements[i + 1..];
      rest := rest[1..];
      if elements[i].Some? {
        size := size + |elements[i].value|;
      }
    }
  }

  /** Stores the length and the content of one element. */
  method StoreElement(buffer: array<Byte>, lengthAt: nat, contentAt: nat, e: Element, ghost start: nat)
    requires Storable(e) && lengthAt + 4 <= start <= contentAt && contentAt + |Content(e)| <= buffer.Length
    modifies buffer
    ensures buffer[..lengthAt + 4] == old(buffer[..lengthAt]) + UintBytes(LengthOf(e))
    ensures buffer[start..contentAt + |Content(e)|] == old(buffer[start..contentAt]) + Content(e)
  {
    ghost var b0 := buffer[..];
    CopyInto(buffer, lengthAt, UintBytes(LengthOf(e)));
    ghost var b1 := buffer[..];
    Patched(b0, b1, lengthAt, UintBytes(LengthOf(e)), 0, start, contentAt);
    if e.Some? {
      CopyInto(buffer, contentAt, e.value);
      Patched(b1, buffer[..], contentAt, e.value, start, 0, lengthAt + 4);
    }
  }

  /** A buffer after bytes have been stored at `at`: what they continue, and what they leave alone. */
  lemma Patched(b: seq<Byte>, c: seq<Byte>, at: nat, bytes: seq<Byte>, from: nat, lo: nat, hi: nat)
    requires at + |bytes| <= |b| && c == b[..at] + bytes + b[at + |bytes|..]
    requires from <= at && lo <= hi <= |b| && (hi <= at || at + |bytes| <= lo)
    ensures c[from..at + |bytes|] == b[from..at] + bytes
    ensures c[lo..hi] == b[lo..hi]
  {
  }

  method StoreHead(buffer: array<Byte>, protocol: Byte, head: seq<Byte>, count: nat)
    requires |head| == HEAD_SIZE && buffer.Length >= DATA_AT && count < UINT_LIMIT
    modifies buffer
    ensures buffer[..DATA_AT] == [protocol] + head + UintBytes(count)
  {
    buffer[0] := protocol;
    CopyInto(buffer, 1, head);
    CopyInto(buffer, COUNT_AT, UintBytes(count));
  }

  /** What has been stored of the lengths and of the contents, and the elements still to be stored, make
      up the reply. */
  ghost predicate PartlyStored(lengths: seq<Byte>, contents: seq<Byte>, rest: seq<Element>, reply: seq<Byte>) {
    AllStorable(rest) && lengths + Lengths(rest) + (contents + Contents(rest)) == reply
  }

  lemma NothingStored(front: seq<Byte>, elements: seq<Element>)
    requires AllStorable(elements)
    ensures PartlyStored(front, [], elements, front + Lengths(elements) + Contents(elements))
  {
    assert [] + Contents(elements) == Contents(elements);
  }

  lemma StoreMore(lengths: seq<Byte>, contents: seq<Byte>, rest: seq<Element>, reply: seq<Byte>)
    requires PartlyStored(lengths, contents, rest, reply) && rest != []
    ensures PartlyStored(lengths + UintBytes(LengthOf(rest[0])), contents + Content(rest[0]), rest[1..], reply)
  {
    Regroup(lengths, UintBytes(LengthOf(rest[0])), Lengths(rest[1..]));
    Regroup(contents, Content(rest[0]), Contents(rest[1..]));
  }

  lemma StoreDone(lengths: seq<Byte>, contents: seq<Byte>, reply: seq<Byte>)
    requires PartlyStored(lengths, contents, [], reply)
    ensures lengths + contents == reply
  {
    assert lengths + [] == lengths && contents + [] == contents;
  }

  lemma Halves(b: seq<Byte>, at: nat)
    requires at <= |b|
    ensures b[..at] + b[at..|b|] == b
  {
  }

  /** Stores all elements through two moving positions, one for the lengths and one for the contents;
      the bytes stored fill the buffer to its end. */
  method StoreElements(buffer: array<Byte>, elements: seq<Element>)
    requires AllStorable(elements) && buffer.Length == SizeOf(elements)
    modifies buffer
    ensures buffer[..] == old(buffer[..DATA_AT]) + Lengths(elements) + Contents(elements)
  {
    ghost var lengths, contents: seq<Byte>, rest := buffer[..DATA_AT], [], elements;
    ghost var start, reply := DATA_AT + 4 * |elements|, lengths + Lengths(elements) + Contents(elements);
    NothingStored(lengths, elements);
    var lengthAt, contentAt := DATA_AT, DATA_AT + 4 * |elements|;
    for i := 0 to |elements|
      invariant rest == elements[i..] && PartlyStored(lengths, contents, rest, reply)
      invariant lengthAt + 4 * |rest| == start <= contentAt && contentAt + |Contents(rest)| == buffer.Length
      invariant buffer[..lengthAt] == lengths && buffer[start..contentAt] == contents
    {
      var e := elements[i];
      assert rest[0] == e && rest[1..] == elements[i + 1..];
      StoreMore(lengths, contents, rest, reply);
      StoreElement(buffer, lengthAt, contentAt, e, start);
      lengths, contents, rest := lengths + UintBytes(LengthOf(e)), contents + Content(e), rest[1..];
      lengthAt := lengthAt + 4;
      contentAt := contentAt + if e.Some? then |e.value| else 0;
    }
    StoreDone(lengths, contents, reply);
    Halves(buffer[..], start);
  }

  /** What Redis has answered: an error with its text, or values. */
  datatype Reply = Failure(text: seq<Byte>) | Values(elements: seq<Element>)

  /** An error carries no values; its text stands where their lengths would, and is ended by a zero. */
  function PackedReply(protocol: Byte, head: seq<Byte>, reply: Reply): seq<Byte>
    requires |head| == HEAD_SIZE && (reply.Values? ==> AllStorable(reply.elements))
  {
    match reply
    case Failure(text) => [protocol] + head + UintBytes(0) + text + [0]
    case Values(elements) => Packed(protocol, head, elements)
  }

  /** The reader takes an error for a reply without values. */
  lemma FailureReadsEmpty(protocol: Byte, head: seq<Byte>, text: seq<Byte>)
    requires |head| == HEAD_SIZE
    ensures var b := PackedReply(protocol, head, Failure(text));
            |b| == SizeOf([]) + |text| + 1 && Unpack(b[DATA_AT..], GetUint(b, COUNT_AT)) == Some([])
  {
    var b := PackedReply(protocol, head, Failure(text));
    assert b[COUNT_AT..COUNT_AT + 4] == UintBytes(0);
    UintRoundTrip(b, COUNT_AT, 0);
  }

  /** Writes a reply; the bytes written exactly fill the buffer. */
  method GenMultiDataNetRespond(protocol: Byte, head: seq<Byte>, reply: Reply) returns (buffer: array<Byte>)
    requires |head| == HEAD_SIZE && (reply.Values? ==> AllStorable(reply.elements))
    ensures fresh(buffer) && buffer[..] == PackedReply(protocol, head, reply)
  {
    match reply {
      case Failure(text) =>
        buffer := new Byte[SizeOf([]) + |text| + 1](_ => 0);
        StoreHead(buffer, protocol, head, 0);
        CopyInto(buffer, DATA_AT, text + [0]);
      case Values(elements) =>
        var size := ComputeSize(elements);
        buffer := new Byte[size](_ => 0);
        StoreHead(buffer, protocol, head, |elements|);
        StoreElements(buffer, elements);
    }
  }

  /** Reads the values through two moving positions. */
  method RedisCallLua(count: nat, data: seq<Byte>) returns (table: Option<seq<seq<Byte>>>)
    ensures table == Unpack(data, count)
  {
    var values: seq<seq<Byte>>, lengthAt, contentAt: nat := [], 0, 4 * count;
    JoinNone(UnpackFrom(data, count, 0, contentAt));
    for i := 0 to count
      invariant lengthAt == 4 * i
      invariant Unpack(data, count) == Join(values, UnpackFrom(data, count, i, contentAt))
    {
      if lengthAt + 4 > |data| {
        return None;
      }
      var n := GetUint(data, lengthAt);
      if n >= INT_LIMIT || contentAt + n > |data| {
        return None;
      }
      JoinMore(values, data[contentAt..contentAt + n], UnpackFrom(data, count, i + 1, contentAt + n));
      values := values + [data[contentAt..contentAt + n]];
      contentAt := contentAt + n;
      lengthAt := lengthAt + 4;
    }
    assert values + [] == values;
    table := Some(values);
  }

  function Join(values: seq<seq<Byte>>, more: Option<seq<seq<Byte>>>): Option<seq<seq<Byte>>> {
    match more
    case None => None
    case Some(m) => Some(values + m)
  }

  lemma JoinNone(more: Option<seq<seq<Byte>>>)
    ensures Join([], more) == more
  {
    if more.Some? {
      assert [] + more.value == more.value;
    }
  }

  lemma JoinMore(values: seq<seq<Byte>>, v: seq<Byte>, more: Option<seq<seq<Byte>>>)
    ensures Join(values + [v], more) == Join(values, Join([v], more))
  {
    if more.Some? {
      assert values + [v] + more.value == values + ([v] + more.value);
    }
  }
}
