/** The receive loop of a gateway connection: packets are cut from the stream, those with a legal
    body are stamped with the connection's handler id and passed on. */
module TcpSessions {
  import opened Wire
  import opened NetPackets
  import Sequences

  /** What becomes of the packets of one connection. */
  function Forwarded(packets: seq<seq<Byte>>, handlerId: nat, legal: seq<Byte> -> bool): seq<seq<Byte>>
    requires handlerId < UINT_LIMIT && Headed(packets)
  {
    if packets == [] then []
    else
      var n := |packets| - 1;
      Forwarded(packets[..n], handlerId, legal) + if legal(Body(packets[n])) then [Stamp(packets[n], handlerId)] else []
  }

  lemma ForwardedOne(packet: seq<Byte>, handlerId: nat, legal: seq<Byte> -> bool)
    requires handlerId < UINT_LIMIT && |packet| >= HEADER_SIZE
    ensures Forwarded([packet], handlerId, legal) == if legal(Body(packet)) then [Stamp(packet, handlerId)] else []
  {
    var none: seq<seq<Byte>> := [];
    assert [packet][..0] == none;
  }

  /** Of the stream `all`, these packets have been cut so far and `tail` is to come. */
  ghost predicate Cutting(all: seq<Byte>, packets: seq<seq<Byte>>, tail: seq<Byte>) {
    all == Concat(packets) + tail && Headed(packets) && forall i :: 0 <= i < |packets| ==> IsPacket(packets[i])
  }

  /** The next packet is complete. */
  lemma CutNext(all: seq<Byte>, packets: seq<seq<Byte>>, tail: seq<Byte>, packet: seq<Byte>, rest: seq<Byte>)
    requires Cutting(all, packets, tail) && tail == packet + rest && IsPacket(packet) && |packet| >= HEADER_SIZE
    ensures Cutting(all, packets + [packet], rest)
  {
    ConcatAppend(packets, packet);
    Sequences.Regroup(Concat(packets), packet, rest);
  }

  lemma ForwardMore(packets: seq<seq<Byte>>, packet: seq<Byte>, handlerId: nat, legal: seq<Byte> -> bool)
    requires handlerId < UINT_LIMIT && Headed(packets) && |packet| >= HEADER_SIZE
    ensures Headed(packets + [packet])
    ensures Forwarded(packets + [packet], handlerId, legal) ==
            Forwarded(packets, handlerId, legal) + Forwarded([packet], handlerId, legal)
  {
    assert (packets + [packet])[..|packets|] == packets;
    ForwardedOne(packet, handlerId, legal);
  }

  lemma NothingTaken(all: seq<Byte>)
    ensures Cutting(all, [], all)
  {
    assert Concat([]) + all == all;
  }

  lemma MoreToCome(all: seq<Byte>, packets: seq<seq<Byte>>, tail: seq<Byte>)
    requires Cutting(all, packets, tail) && Sane(all)
    ensures PrefixGood(tail)
  {
    SplitFront(packets, tail);
  }

  /** A packet completed next is one of the stream's packets. */
  lemma NextIsHeaded(all: seq<Byte>, packets: seq<seq<Byte>>, tail: seq<Byte>, packet: seq<Byte>, rest: seq<Byte>)
    requires Cutting(all, packets, tail) && Proper(all)
    requires tail == packet + rest && IsPacket(packet)
    ensures |packet| >= HEADER_SIZE
  {
    SplitFront(packets, tail);
    ConcatOne(packet);
    SplitFront([packet], rest);
    assert Split(all).0[|packets|] == packet;
  }

  /** All the data have been taken. */
  lemma AllTaken(all: seq<Byte>, packets: seq<seq<Byte>>, received: seq<Byte>, data: seq<Byte>, at: nat)
    requires at == |data| && Cutting(all, packets, received + data[at..]) && IsPartial(received)
    ensures Sane(all) && (packets, received) == Split(all)
  {
    assert received + data[at..] == received;
    SplitFindsPackets(packets, received);
  }

  /** Moves bytes from the data to the packet under construction. */
  method Fill(packet: NetPacket, data: seq<Byte>, at: nat) returns (written: nat)
    requires packet.Valid() && !packet.IsValid() && at < |data| && PrefixGood(packet.Received() + data[at..])
    modifies packet, packet.remain, packet.buffer
    ensures packet.Valid() && 0 < written <= |data| - at
    ensures packet.Received() + data[at + written..] == old(packet.Received()) + data[at..]
    ensures packet.IsValid() ==> IsPacket(packet.Received()) && packet.packetLen == |packet.Received()|
    ensures packet.remain == old(packet.remain) && (packet.buffer == old(packet.buffer) || fresh(packet.buffer))
  {
    ghost var before := packet.Received();
    written := packet.Write(data, at);
    ghost var after := packet.Received();
    Taken(before, data, at, at + written, after);
    ReceivedPart(packet);
  }

  class TcpSession {
    const handlerId: nat
    const packet: NetPacket

    /** Between chunks the packet under construction is never complete. */
    ghost predicate Valid()
      reads this, packet, packet.remain, packet.buffer
    {
      handlerId < UINT_LIMIT && packet.Valid() && !packet.IsValid()
    }

    constructor (handlerId: nat)
      requires handlerId < UINT_LIMIT
      ensures Valid() && this.handlerId == handlerId && packet.Received() == []
      ensures fresh(packet) && fresh(packet.remain) && fresh(packet.buffer)
    {
      this.handlerId := handlerId;
      packet := new NetPacket();
    }

    /** Takes a chunk of the stream, and returns the packets as cut and as passed on. */
    method ProcessNetData(data: seq<Byte>, legal: seq<Byte> -> bool)
      returns (ok: bool, ghost packets: seq<seq<Byte>>, forwarded: seq<seq<Byte>>)
      requires Valid() && Proper(packet.Received() + data)
      modifies packet, packet.remain, packet.buffer
      ensures Valid() && packet.remain == old(packet.remain)
      ensures packet.buffer == old(packet.buffer) || fresh(packet.buffer)
      ensures ok <==> data != []
      ensures (packets, packet.Received()) == Split(old(packet.Received()) + data)
      ensures Headed(packets) && forwarded == Forwarded(packets, handlerId, legal)
    {
      ghost var all := packet.Received() + data;
      ok := data != [];
      packets, forwarded := Loop(data, legal, all);
      ReceivedPart(packet);
      AllTaken(all, packets, packet.Received(), data, |data|);
    }

    method Loop(data: seq<Byte>, legal: seq<Byte> -> bool, ghost all: seq<Byte>)
      returns (ghost packets: seq<seq<Byte>>, forwarded: seq<seq<Byte>>)
      requires Valid() && all == packet.Received() + data && Proper(all)
      modifies packet, packet.remain, packet.buffer
      ensures Valid() && packet.remain == old(packet.remain)
      ensures packet.buffer == old(packet.buffer) || fresh(packet.buffer)
      ensures Cutting(all, packets, packet.Received() + data[|data|..])
      ensures forwarded == Forwarded(packets, handlerId, legal)
    {
      packets, forwarded := [], [];
      var at := 0;
      ghost var tail := all;
      assert data[at..] == data;
      NothingTaken(all);
      while at < |data|
        invariant Valid() && at <= |data| && packet.remain == old(packet.remain)
        invariant packet.buffer == old(packet.buffer) || fresh(packet.buffer)
        invariant tail == packet.Received() + data[at..] && Cutting(all, packets, tail)
        invariant forwarded == Forwarded(packets, handlerId, legal)
        decreases |data| - at
      {
        var out;
        at, packets, tail, out := TakeOnce(data, at, legal, all, packets, tail);
        forwarded := forwarded + out;
      }
    }

    /** One turn of the loop: bytes are taken, and a packet they complete is passed on. */
    method TakeOnce(data: seq<Byte>, at: nat, legal: seq<Byte> -> bool,
                    ghost all: seq<Byte>, ghost packets: seq<seq<Byte>>, ghost tail: seq<Byte>)
      returns (next: nat, ghost packets': seq<seq<Byte>>, ghost tail': seq<Byte>, out: seq<seq<Byte>>)
      requires Valid() && at < |data| && Proper(all)
      requires tail == packet.Received() + data[at..] && Cutting(all, packets, tail)
      modifies packet, packet.remain, packet.buffer
      ensures Valid() && at < next <= |data| && packet.remain == old(packet.remain)
      ensures packet.buffer == old(packet.buffer) || fresh(packet.buffer)
      ensures tail' == packet.Received() + data[next..] && Cutting(all, packets', tail')
      ensures Forwarded(packets', handlerId, legal) == Forwarded(packets, handlerId, legal) + out
    {
      MoreToCome(all, packets, tail);
      var written := Fill(packet, data, at);
      next := at + written;
      ghost var whole, rest := packet.Received(), data[next..];
      packets', tail', out := packets, tail, [];
      if packet.IsValid() {
        NextIsHeaded(all, packets, tail, whole, rest);
        CutNext(all, packets, tail, whole, rest);
        ForwardMore(packets, whole, handlerId, legal);
        packets', tail' := packets + [whole], rest;
        out := Accept(legal);
        assert [] + rest == rest;
      }
    }

    /** Passes on a complete packet with a legal body, stamped in its buffer. */
    method Accept(legal: seq<Byte> -> bool) returns (out: seq<seq<Byte>>)
      requires handlerId < UINT_LIMIT && packet.Valid() && packet.IsValid() && packet.packetLen >= HEADER_SIZE
      modifies packet`packetLen, packet`recvOffset, packet.buffer
      ensures Valid() && packet.Received() == []
      ensures out == Forwarded([old(packet.Received())], handlerId, legal)
    {
      ghost var whole := packet.Received();
      assert packet.buffer[..] == whole;
      ForwardedOne(whole, handlerId, legal);
      if legal(packet.buffer[HEADER_SIZE..]) {
        AddHandlerIdToBuffer(handlerId, packet.buffer);
        out := [packet.buffer[..]];
      } else {
        out := [];
      }
      packet.Reset();
    }
  }

  /** What a connection has received of a packet is a packet or a partial one. */
  lemma ReceivedPart(packet: NetPacket)
    requires packet.Valid()
    ensures if packet.IsValid() then IsPacket(packet.Received()) else IsPartial(packet.Received())
  {
    if packet.recvOffset >= LEN_SIZE {
      SameStart(packet.Received(), packet.buffer[..]);
    }
  }
}
