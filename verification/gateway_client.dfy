/** The receive loop of the links to the servers: packets are cut from the common stream, and each that has a
    handler id is handed to the gateway. */
module GatewayClients {
  import opened Wire
  import opened NetPackets
  import opened TcpSessions
  import opened LinkStreams
  import opened Gateways
  import Sequences

  lemma {:induction false} RouteConcat(sockets: map<nat, Socket>, a: seq<seq<Byte>>, b: seq<seq<Byte>>)
    requires Headed(a) && Headed(b)
    ensures Headed(a + b) && RouteAll(sockets, a + b) == RouteAll(sockets, a) + RouteAll(sockets, b)
  {
    if a == [] {
      assert a + b == b;
    } else {
      RouteConcat(sockets, a[1..], b);
      assert (a + b)[1..] == a[1..] + b;
      Sequences.Regroup(Route(sockets, a[0]), RouteAll(sockets, a[1..]), RouteAll(sockets, b));
    }
  }

  lemma RouteMore(sockets: map<nat, Socket>, packets: seq<seq<Byte>>, packet: seq<Byte>)
    requires Headed(packets) && |packet| >= HEADER_SIZE
    ensures Headed(packets + [packet])
    ensures RouteAll(sockets, packets + [packet]) == RouteAll(sockets, packets) + Route(sockets, packet)
  {
    RouteConcat(sockets, packets, [packet]);
    assert [packet][1..] == [];
  }

  /** The one object whose callbacks all links share. */
  class GatewayClient {
    const server: GatewayServer
    const packet: NetPacket

    /** Between chunks, what has been received of a packet is what the gateway keeps for all links. */
    ghost predicate Valid()
      reads this, server, packet, packet.remain, packet.buffer
    {
      packet.Valid() && !packet.IsValid() && packet.Received() == server.incoming && Inv(server.View())
    }

    constructor (server: GatewayServer)
      requires Inv(server.View()) && server.incoming == []
      ensures Valid() && this.server == server
    {
      this.server := server;
      packet := new NetPacket();
    }

    /** Takes a chunk from any server: a step of the gateway. */
    method ProcessNetData(data: seq<Byte>, ghost link: Link, ghost legal: seq<Byte> -> bool)
      returns (ok: bool, events: seq<Event>)
      requires Valid() && Enabled(server.View(), Reply(link, data), legal)
      modifies packet, packet.remain, packet.buffer, server`idToHandler, server`incoming
      ensures Valid() && (ok <==> data != [])
      ensures (server.View(), events) == Next(old(server.View()), Reply(link, data), legal)
    {
      ghost var s, stream := server.View(), packet.Received() + data;
      ok := data != [];
      events := TakeAll(data, stream);
      server.incoming := packet.Received();
      assert server.View() == s.(incoming := Split(stream).1);
    }

    /** Takes all bytes of a chunk, and hands on the packets that they complete. */
    method TakeAll(data: seq<Byte>, ghost all: seq<Byte>) returns (events: seq<Event>)
      requires packet.Valid() && !packet.IsValid() && Inv(server.View())
      requires all == packet.Received() + data && Proper(all)
      modifies packet, packet.remain, packet.buffer, server`idToHandler
      ensures packet.Valid() && !packet.IsValid() && server.View() == old(server.View())
      ensures packet.Received() == Split(all).1 && events == RouteAll(server.idToHandler, Split(all).0)
    {
      ghost var packets;
      events, packets := Loop(data, all);
      ReceivedPart(packet);
      AllTaken(all, packets, packet.Received(), data, |data|);
    }

    method Loop(data: seq<Byte>, ghost all: seq<Byte>) returns (events: seq<Event>, ghost packets: seq<seq<Byte>>)
      requires packet.Valid() && !packet.IsValid() && Inv(server.View())
      requires all == packet.Received() + data && Proper(all)
      modifies packet, packet.remain, packet.buffer, server`idToHandler
      ensures packet.Valid() && !packet.IsValid() && server.View() == old(server.View())
      ensures Cutting(all, packets, packet.Received() + data[|data|..])
      ensures events == RouteAll(server.idToHandler, packets)
    {
      ghost var tail := all;
      packets, events := [], [];
      var at := 0;
      assert data[at..] == data;
      NothingTaken(all);
      while at < |data|
        invariant packet.Valid() && !packet.IsValid() && server.View() == old(server.View()) && at <= |data|
        invariant packet.remain == old(packet.remain)
        invariant packet.buffer == old(packet.buffer) || fresh(packet.buffer)
        invariant tail == packet.Received() + data[at..] && Cutting(all, packets, tail)
        invariant events == RouteAll(server.idToHandler, packets)
        decreases |data| - at
      {
        var more;
        at, packets, tail, more := TakeOnce(data, at, all, packets, tail);
        events := events + more;
      }
    }

    /** One turn of the loop: bytes are taken, and a packet they complete is handed on. */
    method TakeOnce(data: seq<Byte>, at: nat, ghost all: seq<Byte>, ghost packets: seq<seq<Byte>>,
                    ghost tail: seq<Byte>)
      returns (next: nat, ghost packets': seq<seq<Byte>>, ghost tail': seq<Byte>, events: seq<Event>)
      requires packet.Valid() && !packet.IsValid() && Inv(server.View()) && at < |data| && Proper(all)
      requires tail == packet.Received() + data[at..] && Cutting(all, packets, tail)
      modifies packet, packet.remain, packet.buffer, server`idToHandler
      ensures packet.Valid() && !packet.IsValid() && server.View() == old(server.View()) && at < next <= |data|
      ensures packet.remain == old(packet.remain) && (packet.buffer == old(packet.buffer) || fresh(packet.buffer))
      ensures tail' == packet.Received() + data[next..] && Cutting(all, packets', tail')
      ensures RouteAll(server.idToHandler, packets') == RouteAll(server.idToHandler, packets) + events
    {
      MoreToCome(all, packets, tail);
      var written := Fill(packet, data, at);
      next := at + written;
      ghost var whole, rest := packet.Received(), data[next..];
      packets', tail', events := packets, tail, [];
      if packet.IsValid() {
        NextIsHeaded(all, packets, tail, whole, rest);
        CutNext(all, packets, tail, whole, rest);
        packets', tail' := packets + [whole], rest;
        RouteMore(server.idToHandler, packets, whole);
        events := Deliver();
        assert [] + rest == rest;
      }
    }

    /** A complete packet is handed to the gateway if it has a handler id. */
    method Deliver() returns (events: seq<Event>)
      requires packet.Valid() && packet.IsValid() && packet.packetLen >= HEADER_SIZE && Inv(server.View())
      modifies packet`packetLen, packet`recvOffset, server`idToHandler
      ensures packet.Valid() && !packet.IsValid() && packet.Received() == [] && server.View() == old(server.View())
      ensures events == Route(old(server.idToHandler), old(packet.Received()))
    {
      assert packet.buffer[..] == packet.Received();
      var id := HandlerId(packet.buffer[..]);
      events := [];
      if id > 0 {
        events := server.TransferToClient(id, packet.buffer[..]);
      }
      packet.Reset();
    }
  }
}
