/** What the gateway makes of the replies of several servers, all of which it receives into one packet. */
module GatewayLinks {
  import opened Wire
  import opened NetPackets
  import opened LinkStreams
  import opened Gateways

  /** The chunks that have arrived from the servers. */
  function Chunks(run: seq<Step>): seq<Chunk> {
    if run == [] then []
    else
      var n := |run| - 1;
      if run[n].Reply? then Chunks(run[..n]) + [Chunk(run[n].link, run[n].data)] else Chunks(run[..n])
  }

  /** The packets cut from what the servers have sent, and those of them that the chunks of one link have
      completed. */
  ghost function Cut(run: seq<Step>, legal: seq<Byte> -> bool): seq<seq<Byte>>
    requires Legal(run, legal)
  {
    if run == [] then []
    else
      var n := |run| - 1;
      if run[n].Reply? then Cut(run[..n], legal) + Split(Run(run[..n], legal).0.incoming + run[n].data).0
      else Cut(run[..n], legal)
  }

  ghost function CutFor(run: seq<Step>, legal: seq<Byte> -> bool, link: Link): seq<seq<Byte>>
    requires Legal(run, legal)
  {
    if run == [] then []
    else
      var n := |run| - 1;
      if run[n].Reply? && run[n].link == link
      then CutFor(run[..n], legal, link) + Split(Run(run[..n], legal).0.incoming + run[n].data).0
      else CutFor(run[..n], legal, link)
  }

  lemma StreamAppend(chunks: seq<Chunk>, chunk: Chunk)
    ensures Stream(chunks + [chunk]) == Stream(chunks) + chunk.data
  {
    assert (chunks + [chunk])[..|chunks|] == chunks;
  }

  lemma HeadedConcat(a: seq<seq<Byte>>, b: seq<seq<Byte>>)
    requires Headed(a) && Headed(b)
    ensures Headed(a + b)
  {
  }

  lemma NextChunk(s: State, step: Step, legal: seq<Byte> -> bool, stream: seq<Byte>)
    requires Enabled(s, step, legal) && Proper(stream) && s.incoming == Split(stream).1
    ensures var after := if step.Reply? then stream + step.data else stream;
            Proper(after) && Next(s, step, legal).0.incoming == Split(after).1
    ensures step.Reply? ==> Split(stream + step.data).0 == Split(stream).0 + Split(s.incoming + step.data).0
  {
    if step.Reply? {
      SaneConcat(stream, step.data);
      SplitConcat(stream, step.data);
      HeadedConcat(Split(stream).0, Split(s.incoming + step.data).0);
    }
  }

  /** Over every run the gateway cuts the common stream of all links, and keeps what is left of it. */
  lemma {:induction false} CutsTheStream(run: seq<Step>, legal: seq<Byte> -> bool)
    requires Legal(run, legal)
    ensures Proper(Stream(Chunks(run)))
    ensures Split(Stream(Chunks(run))) == (Cut(run, legal), Run(run, legal).0.incoming)
  {
    if run != [] {
      var n := |run| - 1;
      CutsTheStream(run[..n], legal);
      var s, stream := Run(run[..n], legal).0, Stream(Chunks(run[..n]));
      NextChunk(s, run[n], legal, stream);
      if run[n].Reply? {
        StreamAppend(Chunks(run[..n]), Chunk(run[n].link, run[n].data));
      }
    }
  }

  /** Every packet that the gateway cuts, and what it keeps, consists of bytes of one server, exactly if
      another server is heard only while nothing is left over. */
  lemma {:induction false} RepliesUnmixedIff(run: seq<Step>, legal: seq<Byte> -> bool)
    requires Legal(run, legal)
    ensures Sane(Stream(Chunks(run)))
    ensures var parts := Cut(run, legal) + [Run(run, legal).0.incoming];
            |Concat(parts)| == |Sources(Chunks(run))|
            && (Unmixed(parts, Sources(Chunks(run))) <==> SwitchesWhenEmpty(Chunks(run)))
  {
    CutsTheStream(run, legal);
    UnmixedIff(Chunks(run));
  }

  lemma {:induction false} PacketsAppend(chunks: seq<Chunk>, chunk: Chunk, link: Link)
    requires Sane(Stream(chunks)) && Sane(Stream(chunks) + chunk.data)
    ensures Sane(Stream(chunks + [chunk])) && Sane(Split(Stream(chunks)).1 + chunk.data)
    ensures PacketsOf(chunks + [chunk], link) == PacketsOf(chunks, link) +
            if chunk.link == link then Split(Split(Stream(chunks)).1 + chunk.data).0 else []
  {
    StreamAppend(chunks, chunk);
    SplitConcat(Stream(chunks), chunk.data);
    assert (chunks + [chunk])[..|chunks|] == chunks;
  }

  lemma {:induction false} CutForIsPackets(run: seq<Step>, legal: seq<Byte> -> bool, link: Link)
    requires Legal(run, legal)
    ensures Sane(Stream(Chunks(run))) && CutFor(run, legal, link) == PacketsOf(Chunks(run), link)
  {
    CutsTheStream(run, legal);
    if run != [] {
      var n := |run| - 1;
      CutForIsPackets(run[..n], legal, link);
      CutsTheStream(run[..n], legal);
      if run[n].Reply? {
        var chunks, chunk := Chunks(run[..n]), Chunk(run[n].link, run[n].data);
        StreamAppend(chunks, chunk);
        PacketsAppend(chunks, chunk, link);
        assert PacketsOf(chunks, link) + [] == PacketsOf(chunks, link);
      }
    }
  }

  /** If another server is heard only while nothing is left over, the packets that are routed for each
      server are exactly its own: those of all bytes it has sent, in order. */
  lemma {:induction false} RepliesOfEachLink(run: seq<Step>, legal: seq<Byte> -> bool, link: Link)
    requires Legal(run, legal)
    ensures Sane(Stream(Chunks(run)))
    ensures SwitchesWhenEmpty(Chunks(run)) ==>
              Sane(OfLink(Chunks(run), link)) && CutFor(run, legal, link) == Split(OfLink(Chunks(run), link)).0
  {
    CutForIsPackets(run, legal, link);
    if SwitchesWhenEmpty(Chunks(run)) {
      LinkGetsItsPackets(Chunks(run), link);
    }
  }

  // ---- A run in which replies are mixed up ----

  /** A whole reply to the client of this number. */
  function ReplyTo(id: nat, body: seq<Byte>): (p: seq<Byte>)
    requires id < UINT_LIMIT && |body| == 4
    ensures |p| == 24
  {
    HeaderBytes(Header(24, 1, 0, id, 0, 0)) + body
  }

  lemma ReplyBytes(id: nat, body: seq<Byte>)
    requires id < UINT_LIMIT && |body| == 4
    ensures var p := ReplyTo(id, body);
            GetUint(p, 0) == 24 && HandlerId(p) == id && p[2] == 0 && p[3] == 0 && p[4] == 1 && p[5] == 0
  {
    var p := ReplyTo(id, body);
    assert p[..4] == UintBytes(24) && p[4..8] == UintBytes(1) && p[12..16] == UintBytes(id);
    assert p[2] == UintBytes(24)[2] && p[3] == UintBytes(24)[3];
    assert p[4] == UintBytes(1)[0] && p[5] == UintBytes(1)[1];
    UintRoundTrip(p, 0, 24);
    UintRoundTrip(p, HANDLER_ID_AT, id);
  }

  /** The first 22 bytes of one reply, a whole other one, and the two bytes that are missing. */
  function MixedRun(first: Socket, second: Socket, p: seq<Byte>, q: seq<Byte>): seq<Step>
    requires |p| == 24
  {
    [Connect(first), Connect(second), Reply(Room, p[..22]), Reply(Logic, q), Reply(Room, p[22..])]
  }

  /** How the stream is cut: two bytes of the second reply end the first, and what remains of it is taken
      for the beginning of a much longer packet. */
  lemma {:induction false} MixedCut(p: seq<Byte>, q: seq<Byte>)
    requires |p| == |q| == 24 && GetUint(p, 0) == 24
    requires q[2] == 0 && q[3] == 0 && q[4] == 1 && q[5] == 0
    ensures var r, mixed := p[..22], p[..22] + q[..2];
            && Proper(r) && Split(r) == ([], r)
            && Proper(r + q) && Split(r + q) == ([mixed], q[2..])
            && Proper(q[2..] + p[22..]) && Split(q[2..] + p[22..]) == ([], q[2..] + p[22..])
            && HandlerId(mixed) == HandlerId(p)
  {
    var r, mixed, rest := p[..22], p[..22] + q[..2], q[2..];
    assert GetUint(r, 0) == 24 && GetUint(mixed, 0) == 24;
    assert GetUint(rest, 0) == 0x1_0000 && GetUint(rest + p[22..], 0) == 0x1_0000;
    ConcatOne(mixed);
    SplitFindsPackets([mixed], rest);
    assert r + q == mixed + rest;
  }

  /** Two clients are connected, and one of them has number 1. */
  lemma TwoConnect(first: Socket, second: Socket, legal: seq<Byte> -> bool)
    requires first != second
    ensures var run := [Connect(first)] + [Connect(second)];
            Legal(run, legal) &&
            var s := Run(run, legal);
            s.0.incoming == [] && s.1 == [] && 1 in s.0.sockets && s.0.sockets[1] == first
  {
    var none: seq<Step> := [];
    RunMore(none, Connect(first), legal);
    assert none + [Connect(first)] == [Connect(first)];
    RunMore([Connect(first)], Connect(second), legal);
  }

  lemma RouteOne(sockets: map<nat, Socket>, packet: seq<Byte>)
    requires |packet| >= HEADER_SIZE
    ensures RouteAll(sockets, [packet]) == Route(sockets, packet) && RouteAll(sockets, []) == []
  {
    assert [packet][1..] == [];
  }

  /** From a state with nothing left over, the three chunks write one packet that mixes both replies, and
      the second reply is never written. */
  lemma MixedChunks(run: seq<Step>, p: seq<Byte>, q: seq<Byte>, to: Socket, legal: seq<Byte> -> bool)
    requires Legal(run, legal) && |p| == |q| == 24 && GetUint(p, 0) == 24 && HandlerId(p) == 1
    requires q[2] == 0 && q[3] == 0 && q[4] == 1 && q[5] == 0
    requires var s := Run(run, legal); s.0.incoming == [] && s.1 == [] && 1 in s.0.sockets && s.0.sockets[1] == to
    ensures var after := run + [Reply(Room, p[..22])] + [Reply(Logic, q)] + [Reply(Room, p[22..])];
            Legal(after, legal) &&
            var s := Run(after, legal);
            s.1 == [Sent(to, p[..22] + q[..2])] && s.0.incoming == q[2..] + p[22..]
  {
    MixedCut(p, q);
    var r, mixed := p[..22], p[..22] + q[..2];
    var sockets := Run(run, legal).0.sockets;
    RouteOne(sockets, mixed);
    assert [] + r == r;
    RunMore(run, Reply(Room, r), legal);
    var run1 := run + [Reply(Room, r)];
    RunMore(run1, Reply(Logic, q), legal);
    var run2 := run1 + [Reply(Logic, q)];
    assert Run(run2, legal).1 == [Sent(to, mixed)];
    RunMore(run2, Reply(Room, p[22..]), legal);
  }

  /** A reply of the room server to one client arrives but for two bytes, then a whole reply of the logic
      server to another, then the two bytes.  The first client is sent a packet that ends in two bytes of
      the other's reply, the other client is sent nothing, and what is left over is taken for the beginning
      of a packet of 65,536 bytes. */
  lemma RepliesGetMixed(first: Socket, second: Socket, body: seq<Byte>, other: seq<Byte>, legal: seq<Byte> -> bool)
    requires first != second && |body| == |other| == 4
    ensures var p, q := ReplyTo(1, body), ReplyTo(2, other);
            Legal(MixedRun(first, second, p, q), legal) &&
            var s := Run(MixedRun(first, second, p, q), legal);
            && s.1 == [Sent(first, p[..22] + q[..2])] && s.0.incoming == q[2..] + p[22..]
            && GetUint(s.0.incoming, 0) == 0x1_0000
  {
    var p, q := ReplyTo(1, body), ReplyTo(2, other);
    ReplyBytes(1, body);
    ReplyBytes(2, other);
    TwoConnect(first, second, legal);
    var run := [Connect(first)] + [Connect(second)];
    MixedChunks(run, p, q, first, legal);
    FiveSteps(Connect(first), Connect(second), Reply(Room, p[..22]), Reply(Logic, q), Reply(Room, p[22..]));
  }

  lemma FiveSteps(a: Step, b: Step, c: Step, d: Step, e: Step)
    ensures [a] + [b] + [c] + [d] + [e] == [a, b, c, d, e]
  {
  }
}
