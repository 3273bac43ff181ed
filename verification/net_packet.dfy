/** Cutting a byte stream into length-prefixed packets, however the stream arrives. */
module NetPackets {
  import opened Wire

  const LEN_SIZE := 4
  const INVALID_PACKET_LEN := 0xFFFF_FFFF

  /** A length prefix counts the whole packet, itself included; the largest one marks "not known
      yet". */
  predicate GoodLen(n: nat) {
    LEN_SIZE <= n < INVALID_PACKET_LEN
  }

  /** The length prefix of the packet that begins here, if it has arrived, is good. */
  predicate PrefixGood(s: seq<Byte>) {
    |s| >= LEN_SIZE ==> GoodLen(GetUint(s, 0))
  }

  /** Every length prefix met on the way through the stream is good. */
  predicate Sane(s: seq<Byte>) {
    PrefixGood(s) && (|s| >= LEN_SIZE && |s| >= GetUint(s, 0) ==> Sane(s[GetUint(s, 0)..]))
  }

  /** The complete packets of a stream, and the beginning of the next one. */
  function Split(s: seq<Byte>): (seq<seq<Byte>>, seq<Byte>)
    requires Sane(s)
  {
    if |s| < LEN_SIZE || |s| < GetUint(s, 0) then ([], s)
    else
      var n := GetUint(s, 0);
      var more := Split(s[n..]);
      ([s[..n]] + more.0, more.1)
  }

  function Concat(parts: seq<seq<Byte>>): seq<Byte> {
    if parts == [] then [] else parts[0] + Concat(parts[1..])
  }

  /** All are long enough for a header. */
  predicate Headed(packets: seq<seq<Byte>>) {
    forall i :: 0 <= i < |packets| ==> |packets[i]| >= HEADER_SIZE
  }

  /** A stream whose packets all have room for a header. */
  predicate Proper(s: seq<Byte>) {
    Sane(s) && Headed(Split(s).0)
  }

  predicate IsPacket(p: seq<Byte>) {
    GoodLen(|p|) && GetUint(p, 0) == |p|
  }

  /** A proper beginning of a packet. */
  predicate IsPartial(s: seq<Byte>) {
    PrefixGood(s) && (|s| >= LEN_SIZE ==> |s| < GetUint(s, 0))
  }

  lemma PrefixUint(a: seq<Byte>, b: seq<Byte>)
    requires |a| >= LEN_SIZE
    ensures GetUint(a + b, 0) == GetUint(a, 0)
  {
  }

  /** What `Split` finds are packets, none of the bytes is lost, and what is left is not yet one. */
  lemma SplitIsExact(s: seq<Byte>)
    requires Sane(s)
    ensures Concat(Split(s).0) + Split(s).1 == s
    ensures IsPartial(Split(s).1)
    ensures forall i :: 0 <= i < |Split(s).0| ==> IsPacket(Split(s).0[i])
  {
    SplitLosesNothing(s);
    SplitIntoPackets(s);
  }

  lemma {:induction false} SplitLosesNothing(s: seq<Byte>)
    requires Sane(s)
    ensures Concat(Split(s).0) + Split(s).1 == s
  {
    if |s| >= LEN_SIZE && |s| >= GetUint(s, 0) {
      var n := GetUint(s, 0);
      var more := Split(s[n..]);
      SplitLosesNothing(s[n..]);
      ConcatPrepend(s[..n], more.0);
      Rejoin(s, n, Concat(more.0), more.1);
    }
  }

  lemma Rejoin(s: seq<Byte>, n: nat, a: seq<Byte>, b: seq<Byte>)
    requires n <= |s| && s[n..] == a + b
    ensures s[..n] + a + b == s
  {
    assert s == s[..n] + s[n..];
  }

  lemma {:induction false} SplitIntoPackets(s: seq<Byte>)
    requires Sane(s)
    ensures IsPartial(Split(s).1)
    ensures forall i :: 0 <= i < |Split(s).0| ==> IsPacket(Split(s).0[i])
  {
    if |s| >= LEN_SIZE && |s| >= GetUint(s, 0) {
      SplitIntoPackets(s[GetUint(s, 0)..]);
      FirstIsPacket(s);
    }
  }

  lemma FirstIsPacket(s: seq<Byte>)
    requires |s| >= LEN_SIZE && PrefixGood(s) && |s| >= GetUint(s, 0)
    ensures IsPacket(s[..GetUint(s, 0)])
  {
    var n := GetUint(s, 0);
    assert s == s[..n] + s[n..];
    PrefixUint(s[..n], s[n..]);
  }

  lemma ConcatPrepend(p: seq<Byte>, packets: seq<seq<Byte>>)
    ensures Concat([p] + packets) == p + Concat(packets)
  {
    assert ([p] + packets)[1..] == packets;
  }

  lemma ConcatOne(p: seq<Byte>)
    ensures Concat([p]) == p
  {
    assert [p][1..] == [];
  }

  lemma {:induction false} ConcatAppend(packets: seq<seq<Byte>>, p: seq<Byte>)
    ensures Concat(packets + [p]) == Concat(packets) + p
  {
    if packets == [] {
      assert packets + [p] == [p];
    } else {
      ConcatAppend(packets[1..], p);
      assert (packets + [p])[1..] == packets[1..] + [p];
    }
  }

  lemma PutBack(packets: seq<seq<Byte>>, more: seq<seq<Byte>>)
    requires packets != []
    ensures [packets[0]] + (packets[1..] + more) == packets + more
  {
  }

  /** The packets at the front of a stream are the first that cutting it yields. */
  lemma {:induction false} SplitFront(packets: seq<seq<Byte>>, tail: seq<Byte>)
    requires Sane(Concat(packets) + tail) && forall i :: 0 <= i < |packets| ==> IsPacket(packets[i])
    ensures Sane(tail)
    ensures Split(Concat(packets) + tail) == (packets + Split(tail).0, Split(tail).1)
  {
    if packets == [] {
      assert Concat(packets) + tail == tail && packets + Split(tail).0 == Split(tail).0;
    } else {
      var s, more := Concat(packets) + tail, Concat(packets[1..]) + tail;
      var n := |packets[0]|;
      assert s == packets[0] + more;
      PrefixUint(packets[0], more);
      assert s[..n] == packets[0] && s[n..] == more;
      SplitFront(packets[1..], tail);
      PutBack(packets, Split(tail).0);
    }
  }

  /** Any sequence of packets followed by a partial one is cut into just these. */
  lemma {:induction false} SplitFindsPackets(packets: seq<seq<Byte>>, rest: seq<Byte>)
    requires IsPartial(rest) && forall i :: 0 <= i < |packets| ==> IsPacket(packets[i])
    ensures Sane(Concat(packets) + rest) && Split(Concat(packets) + rest) == (packets, rest)
  {
    if packets == [] {
      assert Concat(packets) + rest == rest;
    } else {
      SplitFindsPackets(packets[1..], rest);
      var s := Concat(packets) + rest;
      var n := |packets[0]|;
      assert s == packets[0] + (Concat(packets[1..]) + rest);
      PrefixUint(packets[0], Concat(packets[1..]) + rest);
      assert s[..n] == packets[0] && s[n..] == Concat(packets[1..]) + rest;
      assert [packets[0]] + packets[1..] == packets;
    }
  }

  /** Cutting what has arrived so far, and later the remainder together with what follows it, is
      cutting everything at once. */
  lemma {:induction false} SplitConcat(a: seq<Byte>, b: seq<Byte>)
    requires Sane(a + b)
    ensures Sane(a) && Sane(Split(a).1 + b)
    ensures Split(a + b) == (Split(a).0 + Split(Split(a).1 + b).0, Split(Split(a).1 + b).1)
  {
    if |a| >= LEN_SIZE {
      var n := GetUint(a, 0);
      PrefixUint(a, b);
      if |a| >= n {
        assert (a + b)[n..] == a[n..] + b;
        assert (a + b)[..n] == a[..n];
        SplitConcat(a[n..], b);
        var first, more := Split(a[n..]), Split(Split(a[n..]).1 + b);
        assert [a[..n]] + (first.0 + more.0) == ([a[..n]] + first.0) + more.0;
      } else {
        assert [] + Split(a + b).0 == Split(a + b).0;
      }
    } else {
      assert [] + Split(a + b).0 == Split(a + b).0;
    }
  }

  /** A stream is sane if what has arrived is, and what was left of it goes on sanely. */
  lemma {:induction false} SaneConcat(a: seq<Byte>, b: seq<Byte>)
    requires Sane(a) && Sane(Split(a).1 + b)
    ensures Sane(a + b)
  {
    if |a| >= LEN_SIZE {
      var n := GetUint(a, 0);
      PrefixUint(a, b);
      if |a| >= n {
        SaneConcat(a[n..], b);
        assert (a + b)[n..] == a[n..] + b;
      }
    }
  }

  /** What a connection delivers when its stream arrives in chunks. */
  function Feed(rest: seq<Byte>, chunks: seq<seq<Byte>>): (seq<seq<Byte>>, seq<Byte>)
    decreases |chunks|
  {
    if chunks == [] then ([], rest)
    else if !Sane(rest + chunks[0]) then ([], rest)
    else
      var now := Split(rest + chunks[0]);
      var later := Feed(now.1, chunks[1..]);
      (now.0 + later.0, later.1)
  }

  /** Chunking does not matter: however a stream is cut up on the way, the same packets are
      delivered in the same order, and the same beginning of a packet is left. */
  lemma {:induction false} ChunkingDoesNotMatter(rest: seq<Byte>, chunks: seq<seq<Byte>>)
    requires IsPartial(rest) && Sane(rest + Concat(chunks))
    ensures Feed(rest, chunks) == Split(rest + Concat(chunks))
    decreases |chunks|
  {
    if chunks == [] {
      assert rest + Concat(chunks) == rest;
    } else {
      var a, b := rest + chunks[0], Concat(chunks[1..]);
      assert rest + Concat(chunks) == a + b;
      SplitConcat(a, b);
      SplitIsExact(a);
      ChunkingDoesNotMatter(Split(a).1, chunks[1..]);
    }
  }

  lemma Taken(before: seq<Byte>, data: seq<Byte>, i: nat, j: nat, taken: seq<Byte>)
    requires i <= j <= |data| && taken == before + data[i..j]
    ensures before + data[i..] == taken + data[j..]
  {
    assert data[i..] == data[i..j] + data[j..];
  }

  lemma Extend(before: seq<Byte>, data: seq<Byte>, i: nat, j: nat, k: nat, mid: seq<Byte>, end: seq<Byte>)
    requires i <= j <= k <= |data| && mid == before + data[i..j] && end == mid + data[j..k]
    ensures end == before + data[i..k]
  {
    assert data[i..j] + data[j..k] == data[i..k];
  }

  // ---- Progress ----

  function Min(a: nat, b: nat): nat {
    if a < b then a else b
  }

  /** The length that a stream announces for its first packet, once it has arrived. */
  function Announced(s: seq<Byte>): nat {
    if |s| >= LEN_SIZE then GetUint(s, 0) else INVALID_PACKET_LEN
  }

  /** How many of `n` bytes are taken for a packet of which `offset` bytes have been received; its length
      `len` is known once the length's own bytes have. */
  function Takes(offset: nat, len: nat, announced: nat, n: nat): nat {
    if len == offset then 0
    else if offset < LEN_SIZE then
      var k := Min(n, LEN_SIZE - offset);
      if k < n && LEN_SIZE < announced then k + Min(n - k, announced - LEN_SIZE) else k
    else if offset < len then Min(n, len - offset)
    else 0
  }

  /** A receive loop that has begun a packet stands still, with bytes left and the packet not complete,
      exactly if the packet announces less than the length itself takes and more than that has arrived. */
  lemma StandsStillIff(s: seq<Byte>)
    requires s != []
    ensures var taken := Takes(0, INVALID_PACKET_LEN, Announced(s), |s|);
            var len := if taken >= LEN_SIZE then Announced(s) else INVALID_PACKET_LEN;
            && 0 < taken <= |s|
            && (taken < |s| && taken != len && Takes(taken, len, Announced(s), |s| - taken) == 0 <==>
                |s| > LEN_SIZE && Announced(s) < LEN_SIZE)
  {
  }

  /** The receive state of one connection. */
  class NetPacket {
    var remain: array<Byte>
    var packetLen: nat
    var recvOffset: nat
    var buffer: array<Byte>

    /** The bytes received of the packet under construction. */
    ghost function Received(): seq<Byte>
      reads this, remain, buffer
      requires Valid()
    {
      if recvOffset < LEN_SIZE then remain[..recvOffset] else buffer[..recvOffset]
    }

    ghost predicate Valid()
      reads this, remain, buffer
    {
      && remain.Length == LEN_SIZE && buffer != remain
      && (recvOffset < LEN_SIZE ==> packetLen == INVALID_PACKET_LEN)
      && (recvOffset >= LEN_SIZE ==>
            && GoodLen(packetLen) && recvOffset <= packetLen == buffer.Length
            && GetUint(buffer[..], 0) == packetLen)
    }

    constructor ()
      ensures Valid() && Received() == [] && fresh(remain) && fresh(buffer)
    {
      remain := new Byte[LEN_SIZE](_ => 0);
      packetLen := INVALID_PACKET_LEN;
      recvOffset := 0;
      buffer := new Byte[0];
    }

    /** The packet is complete. */
    predicate IsValid()
      reads this
    {
      recvOffset == packetLen
    }

    /** Ready for the next packet, whatever has become of the buffer of the last one. */
    method Reset()
      requires remain.Length == LEN_SIZE && buffer != remain
      modifies this`packetLen, this`recvOffset
      ensures Valid() && Received() == [] && !IsValid()
    {
      packetLen := INVALID_PACKET_LEN;
      recvOffset := 0;
    }

    /** The length is known: a buffer for the whole packet, beginning with the length itself. */
    method InitPackage(size: nat)
      requires remain.Length == LEN_SIZE && recvOffset == LEN_SIZE && GoodLen(size) && GetUint(remain[..], 0) == size
      modifies this`packetLen, this`buffer
      ensures Valid() && packetLen == size && Received() == remain[..] && fresh(buffer)
    {
      packetLen := size;
      buffer := new Byte[size](_ => 0);
      CopyInto(buffer, 0, UintBytes(size));
      UintBytesUnique(remain[..]);
      assert buffer[..LEN_SIZE] == remain[..];
      assert GetUint(buffer[..], 0) == GetUint(buffer[..LEN_SIZE], 0);
    }

    /** Takes bytes of `data` from position `from`, at most up to the end of the packet, and tells
        how many: none exactly if the packet has been complete before. */
    method Write(data: seq<Byte>, from: nat) returns (written: nat)
      requires Valid() && from < |data| && PrefixGood(Received() + data[from..])
      modifies this, remain, buffer
      ensures Valid() && written <= |data| - from && (written == 0 <==> old(IsValid()))
      ensures var announced := Announced(old(Received()) + data[from..]);
              written == Takes(old(recvOffset), old(packetLen), announced, |data| - from)
      ensures Received() == old(Received()) + data[from..from + written]
      ensures IsValid() || from + written == |data|
      ensures remain == old(remain) && (buffer == old(buffer) || fresh(buffer))
    {
      if packetLen == recvOffset {
        written := 0;
      } else if recvOffset < LEN_SIZE {
        written := WriteFromLength(data, from);
      } else {
        written := WriteBody(data, from);
      }
    }

    /** Takes the bytes of the length, and then those of the body. */
    method WriteFromLength(data: seq<Byte>, from: nat) returns (written: nat)
      requires Valid() && from < |data| && recvOffset < LEN_SIZE && PrefixGood(Received() + data[from..])
      modifies this, remain, buffer
      ensures Valid() && 0 < written <= |data| - from
      ensures var announced := Announced(old(Received()) + data[from..]);
              written == Takes(old(recvOffset), old(packetLen), announced, |data| - from)
      ensures Received() == old(Received()) + data[from..from + written]
      ensures IsValid() || from + written == |data|
      ensures remain == old(remain) && (buffer == old(buffer) || fresh(buffer))
    {
      ghost var before := Received();
      written := WriteLength(data, from);
      ghost var mid := Received();
      if recvOffset == LEN_SIZE {
        Announces(before, data, from, written, mid);
      }
      if written < |data| - from && recvOffset < packetLen {
        var more := WriteBody(data, from + written);
        Extend(before, data, from, from + written, from + written + more, mid, Received());
        written := written + more;
      }
    }

    /** Takes bytes up to the end of the packet or of the data. */
    method WriteBody(data: seq<Byte>, at: nat) returns (size: nat)
      requires Valid() && at < |data| && LEN_SIZE <= recvOffset < packetLen
      modifies this`recvOffset, buffer
      ensures Valid() && size == Min(|data| - at, old(packetLen - recvOffset)) && packetLen == old(packetLen)
      ensures Received() == old(Received()) + data[at..at + size]
      ensures IsValid() || at + size == |data|
    {
      size := |data| - at;
      size := if size < packetLen - recvOffset then size else packetLen - recvOffset;
      WriteData(data[at..at + size]);
    }

    method WriteData(bytes: seq<Byte>)
      requires Valid() && recvOffset >= LEN_SIZE && recvOffset + |bytes| <= packetLen
      modifies this`recvOffset, buffer
      ensures Valid() && Received() == old(Received()) + bytes && recvOffset == old(recvOffset) + |bytes|
    {
      ghost var got := Received();
      CopyInto(buffer, recvOffset, bytes);
      recvOffset := recvOffset + |bytes|;
      assert buffer[..recvOffset] == got + bytes;
      SameStart(buffer[..], old(buffer[..]));
    }

    /** Takes bytes until the length is known or the data are used up. */
    method WriteLength(data: seq<Byte>, from: nat) returns (written: nat)
      requires Valid() && from < |data| && recvOffset < LEN_SIZE
      requires PrefixGood(Received() + data[from..])
      modifies this, remain
      ensures Valid() && 0 < written <= |data| - from
      ensures Received() == old(Received()) + data[from..from + written]
      ensures recvOffset == LEN_SIZE || from + written == |data|
      ensures recvOffset == old(recvOffset) + written <= LEN_SIZE
      ensures recvOffset == LEN_SIZE ==> packetLen == GetUint(Received(), 0)
      ensures remain == old(remain) && (buffer == old(buffer) || fresh(buffer))
    {
      ghost var before, got := Received(), Received();
      written := 0;
      while recvOffset < LEN_SIZE && written < |data| - from
        invariant recvOffset == |before| + written <= LEN_SIZE && from + written <= |data|
        invariant remain == old(remain) && (buffer == old(buffer) || fresh(buffer))
        invariant Valid() && Received() == got && got == before + data[from..from + written]
        invariant recvOffset == LEN_SIZE ==> packetLen == GetUint(got, 0)
      {
        NextByte(before, data, from, from + written, got);
        WriteLengthByte(data[from + written]);
        got := got + [data[from + written]];
        written := written + 1;
      }
    }

    method WriteLengthByte(b: Byte)
      requires Valid() && recvOffset < LEN_SIZE && PrefixGood(Received() + [b])
      modifies this, remain
      ensures Valid() && Received() == old(Received()) + [b]
      ensures recvOffset == old(recvOffset) + 1
      ensures recvOffset == LEN_SIZE ==> packetLen == GetUint(Received(), 0)
      ensures remain == old(remain) && (buffer == old(buffer) || fresh(buffer))
    {
      ghost var got := Received();
      remain[recvOffset] := b;
      recvOffset := recvOffset + 1;
      assert remain[..recvOffset] == got + [b];
      if recvOffset == LEN_SIZE {
        assert remain[..] == got + [b];
        InitPackage(GetUint(remain[..], 0));
      }
    }
  }

  lemma SameStart(a: seq<Byte>, b: seq<Byte>)
    requires |a| >= LEN_SIZE && |b| >= LEN_SIZE && a[..LEN_SIZE] == b[..LEN_SIZE]
    ensures GetUint(a, 0) == GetUint(b, 0)
  {
    assert forall i :: 0 <= i < LEN_SIZE ==> a[i] == a[..LEN_SIZE][i] == b[i];
  }

  lemma Announces(before: seq<Byte>, data: seq<Byte>, i: nat, n: nat, got: seq<Byte>)
    requires i + n <= |data| && got == before + data[i..i + n] && |got| == LEN_SIZE
    ensures GetUint(got, 0) == Announced(before + data[i..])
  {
    Taken(before, data, i, i + n, got);
    PrefixUint(got, data[i + n..]);
  }

  /** The byte at position j comes next, and does no harm to the prefix. */
  lemma NextByte(before: seq<Byte>, data: seq<Byte>, i: nat, j: nat, got: seq<Byte>)
    requires i <= j < |data| && PrefixGood(before + data[i..]) && got == before + data[i..j] && |got| < LEN_SIZE
    ensures PrefixGood(got + [data[j]]) && got + [data[j]] == before + data[i..j + 1]
  {
    var all := before + data[i..];
    assert got + [data[j]] == all[..|got| + 1];
    if |got| + 1 == LEN_SIZE {
      SameStart(all, got + [data[j]]);
    }
  }
}
