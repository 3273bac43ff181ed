/** The gateway between clients and logic servers: connections get numbers, requests are stamped
    with them, and replies find their way back by them. */
module Gateways {
  import opened Wire
  import opened NetPackets
  import opened TcpSessions
  import opened LinkStreams
  import Sequences

  /** A connection handle.  Handles are never used twice: the session that owns one is not freed. */
  type Socket = nat

  /** The number of connections after which the session counter would overflow. */
  const LAST_SESSION := 0x7FFF_FFFF

  /** `rest` is what a connection has received of its next packet.  `incoming` is the same for the
      servers: there are three links to them but only one receive packet, because the callbacks of all
      links are those of one static object.  `owner` remembers whom each number was ever given to. */
  datatype State = State(
    lastId: nat,
    sessions: map<Socket, nat>,
    sockets: map<nat, Socket>,
    ids: map<Socket, nat>,
    rest: map<Socket, seq<Byte>>,
    incoming: seq<Byte>,
    owner: map<nat, Socket>)

  datatype Step =
    | Connect(socket: Socket)
    | Receive(socket: Socket, data: seq<Byte>)
    | Hangup(socket: Socket)              // end of stream: the connection is being closed
    | Closed(socket: Socket)              // the close has completed
    | Reply(link: Link, data: seq<Byte>)  // data from a server

  datatype Event =
    | Request(from: Socket, packet: seq<Byte>) // passed on to a logic server
    | Sent(to: Socket, packet: seq<Byte>)      // written to a client
    | Gone(id: nat)                            // the logic server is told that a client is gone

  const INIT := State(0, map[], map[], map[], map[], [], map[])

  /** Where a reply goes. */
  function Route(sockets: map<nat, Socket>, packet: seq<Byte>): seq<Event>
    requires |packet| >= HEADER_SIZE
  {
    var id := HandlerId(packet);
    if id == 0 then [] else if id in sockets then [Sent(sockets[id], packet)] else [Gone(id)]
  }

  function RouteAll(sockets: map<nat, Socket>, packets: seq<seq<Byte>>): seq<Event>
    requires Headed(packets)
  {
    if packets == [] then [] else Route(sockets, packets[0]) + RouteAll(sockets, packets[1..])
  }

  function Requests(from: Socket, packets: seq<seq<Byte>>): seq<Event> {
    seq(|packets|, i requires 0 <= i < |packets| => Request(from, packets[i]))
  }

  predicate Enabled(s: State, step: Step, legal: seq<Byte> -> bool) {
    match step
    case Connect(k) => k !in s.owner.Values && s.lastId < LAST_SESSION
    case Receive(k, data) =>
      && k in s.sessions && k in s.rest && s.sessions[k] < UINT_LIMIT
      && Proper(s.rest[k] + data)
    case Hangup(k) => k in s.sessions
    case Closed(k) => k in s.sessions
    case Reply(_, data) => Proper(s.incoming + data)
  }

  function Connected(s: State, k: Socket): State {
    var id := s.lastId + 1;
    s.(lastId := id, sessions := s.sessions[k := id], sockets := s.sockets[id := k], ids := s.ids[k := id],
       rest := s.rest[k := []], owner := s.owner[id := k])
  }

  function HungUp(s: State, k: Socket): State {
    if k in s.ids then s.(ids := s.ids - {k}, sockets := s.sockets - {s.ids[k]}) else s
  }

  function Next(s: State, step: Step, legal: seq<Byte> -> bool): (State, seq<Event>)
    requires Enabled(s, step, legal)
  {
    match step
    case Connect(k) => (Connected(s, k), [])
    case Receive(k, data) =>
      var cut := Split(s.rest[k] + data);
      (s.(rest := s.rest[k := cut.1]), Requests(k, Forwarded(cut.0, s.sessions[k], legal)))
    case Hangup(k) => (HungUp(s, k), [])
    case Closed(k) => (s.(sessions := s.sessions - {k}), [])
    case Reply(_, data) =>
      var cut := Split(s.incoming + data);
      (s.(incoming := cut.1), RouteAll(s.sockets, cut.0))
  }

  /** The two maps are inverse to each other. */
  ghost predicate Inverse(sockets: map<nat, Socket>, ids: map<Socket, nat>) {
    && (forall id :: id in sockets ==> sockets[id] in ids && ids[sockets[id]] == id)
    && (forall k :: k in ids ==> ids[k] in sockets && sockets[ids[k]] == k)
  }

  /** Numbers are given out once, each to its own connection. */
  ghost predicate OneOwner(owner: map<nat, Socket>, lastId: nat) {
    && (forall id :: id in owner ==> 0 < id <= lastId)
    && (forall i, j :: i in owner && j in owner && owner[i] == owner[j] ==> i == j)
  }

  /** Whoever is known by a number is that number's owner. */
  ghost predicate Owned(sockets: map<nat, Socket>, owner: map<nat, Socket>) {
    forall id :: id in sockets ==> id in owner && owner[id] == sockets[id]
  }

  ghost predicate Known(sessions: map<Socket, nat>, owner: map<nat, Socket>) {
    forall k :: k in sessions ==> sessions[k] in owner && owner[sessions[k]] == k
  }

  ghost predicate Inv(s: State) {
    && Inverse(s.sockets, s.ids) && OneOwner(s.owner, s.lastId)
    && Owned(s.sockets, s.owner) && Known(s.sessions, s.owner)
    && s.lastId <= LAST_SESSION
  }

  lemma InverseGrows(sockets: map<nat, Socket>, ids: map<Socket, nat>, id: nat, k: Socket)
    requires Inverse(sockets, ids) && id !in sockets && k !in ids
    ensures Inverse(sockets[id := k], ids[k := id])
  {
  }

  lemma OneOwnerGrows(owner: map<nat, Socket>, lastId: nat, k: Socket)
    requires OneOwner(owner, lastId) && k !in owner.Values
    ensures OneOwner(owner[lastId + 1 := k], lastId + 1)
  {
  }

  lemma KnownGrow(s: State, id: nat, k: Socket)
    requires Owned(s.sockets, s.owner) && Known(s.sessions, s.owner) && id !in s.owner
    ensures Owned(s.sockets[id := k], s.owner[id := k]) && Known(s.sessions[k := id], s.owner[id := k])
  {
  }

  lemma OwnsItsNumber(s: State, k: Socket)
    requires Inv(s) && k in s.ids
    ensures k in s.owner.Values
  {
    assert s.owner[s.ids[k]] == k;
  }

  lemma ConnectKeeps(s: State, k: Socket)
    requires Inv(s) && k !in s.owner.Values && s.lastId < LAST_SESSION
    ensures Inv(Connected(s, k))
  {
    var id := s.lastId + 1;
    assert id !in s.owner && id !in s.sockets;
    if k in s.ids {
      OwnsItsNumber(s, k);
      assert false;
    }
    InverseGrows(s.sockets, s.ids, id, k);
    OneOwnerGrows(s.owner, s.lastId, k);
    KnownGrow(s, id, k);
  }

  lemma HangupKeeps(s: State, k: Socket)
    requires Inv(s)
    ensures Inv(HungUp(s, k))
  {
  }

  /** Each step keeps the invariant, and no number changes hands. */
  lemma NextKeeps(s: State, step: Step, legal: seq<Byte> -> bool)
    requires Inv(s) && Enabled(s, step, legal)
    ensures Inv(Next(s, step, legal).0)
    ensures forall id :: id in s.owner ==>
              id in Next(s, step, legal).0.owner && Next(s, step, legal).0.owner[id] == s.owner[id]
  {
    match step
    case Connect(k) => ConnectKeeps(s, k);
    case Hangup(k) => HangupKeeps(s, k);
    case _ =>
  }

  /** Every event names, by its packet's handler id, the connection it belongs to, and every request
      has a body. */
  predicate Attributed(owner: map<nat, Socket>, e: Event) {
    match e
    case Request(from, p) =>
      |p| > HEADER_SIZE && HandlerId(p) in owner && owner[HandlerId(p)] == from
    case Sent(to, p) => |p| >= HEADER_SIZE && HandlerId(p) in owner && owner[HandlerId(p)] == to
    case Gone(_) => true
  }

  predicate AllAttributed(owner: map<nat, Socket>, events: seq<Event>) {
    forall i :: 0 <= i < |events| ==> Attributed(owner, events[i])
  }

  predicate Stamped(packets: seq<seq<Byte>>, id: nat) {
    forall i :: 0 <= i < |packets| ==> |packets[i]| > HEADER_SIZE && HandlerId(packets[i]) == id
  }

  /** A legal message is never empty (its one field is required), so a packet that is nothing but a
      header is dropped, and what is passed on has been stamped. */
  lemma {:induction false} ForwardedStamped(packets: seq<seq<Byte>>, id: nat, legal: seq<Byte> -> bool)
    requires id < UINT_LIMIT && Headed(packets) && !legal([])
    ensures Stamped(Forwarded(packets, id, legal), id)
  {
    if packets != [] {
      var n := |packets| - 1;
      ForwardedStamped(packets[..n], id, legal);
      var last := Stamp(packets[n], id);
      if |packets[n]| > HEADER_SIZE {
        StampChangesHandlerOnly(packets[n], id);
        assert HandlerId(last) == ReadHeader(last).handlerId == id;
      } else {
        assert Body(packets[n]) == [];
      }
      var before, out := Forwarded(packets[..n], id, legal), Forwarded(packets, id, legal);
      forall i | 0 <= i < |out|
        ensures |out[i]| > HEADER_SIZE && HandlerId(out[i]) == id
      {
        assert out[i] == if i < |before| then before[i] else last;
      }
    }
  }

  lemma {:induction false} RoutedByOwner(s: State, packets: seq<seq<Byte>>)
    requires Inv(s) && Headed(packets)
    ensures AllAttributed(s.owner, RouteAll(s.sockets, packets))
  {
    if packets != [] {
      RoutedByOwner(s, packets[1..]);
      var first, more := Route(s.sockets, packets[0]), RouteAll(s.sockets, packets[1..]);
      forall i | 0 <= i < |first + more|
        ensures Attributed(s.owner, (first + more)[i])
      {
        assert (first + more)[i] == if i < |first| then first[i] else more[i - |first|];
      }
    }
  }

  lemma EventsAttributed(s: State, step: Step, legal: seq<Byte> -> bool)
    requires Inv(s) && Enabled(s, step, legal) && !legal([])
    ensures AllAttributed(s.owner, Next(s, step, legal).1)
  {
    match step
    case Receive(k, data) =>
      var out := Forwarded(Split(s.rest[k] + data).0, s.sessions[k], legal);
      ForwardedStamped(Split(s.rest[k] + data).0, s.sessions[k], legal);
      forall i | 0 <= i < |out|
        ensures Attributed(s.owner, Requests(k, out)[i])
      {
        assert Requests(k, out)[i] == Request(k, out[i]);
      }
    case Reply(_, data) =>
      RoutedByOwner(s, Split(s.incoming + data).0);
    case _ =>
  }

  // ---- Whole runs ----

  ghost predicate Legal(run: seq<Step>, legal: seq<Byte> -> bool)
    decreases |run|, 0
  {
    run == [] ||
    var n := |run| - 1;
    Legal(run[..n], legal) && Enabled(Run(run[..n], legal).0, run[n], legal)
  }

  /** The state after a run, and all events of the run in order. */
  ghost function Run(run: seq<Step>, legal: seq<Byte> -> bool): (State, seq<Event>)
    requires Legal(run, legal)
    decreases |run|, 1
  {
    if run == [] then (INIT, [])
    else
      var n := |run| - 1;
      var before := Run(run[..n], legal);
      var last := Next(before.0, run[n], legal);
      (last.0, before.1 + last.1)
  }

  lemma RunMore(run: seq<Step>, step: Step, legal: seq<Byte> -> bool)
    requires Legal(run, legal) && Enabled(Run(run, legal).0, step, legal)
    ensures Legal(run + [step], legal)
    ensures var before, next := Run(run, legal), Next(Run(run, legal).0, step, legal);
            Run(run + [step], legal) == (next.0, before.1 + next.1)
  {
    assert (run + [step])[..|run|] == run;
  }

  lemma {:induction false} RunHolds(run: seq<Step>, legal: seq<Byte> -> bool)
    requires Legal(run, legal)
    ensures Inv(Run(run, legal).0)
  {
    if run != [] {
      var n := |run| - 1;
      RunHolds(run[..n], legal);
      NextKeeps(Run(run[..n], legal).0, run[n], legal);
    }
  }

  lemma {:induction false} RunKeeps(run: seq<Step>, legal: seq<Byte> -> bool)
    requires Legal(run, legal) && !legal([])
    ensures Inv(Run(run, legal).0)
    ensures AllAttributed(Run(run, legal).0.owner, Run(run, legal).1)
  {
    if run != [] {
      var n := |run| - 1;
      RunKeeps(run[..n], legal);
      RunHolds(run, legal);
      var s := Run(run[..n], legal).0;
      NextKeeps(s, run[n], legal);
      EventsAttributed(s, run[n], legal);
    }
  }

  /** Over every interleaving of connects, chunks of requests, hang-ups and chunks of replies: a
      reply that carries the handler id of a request is written to the connection the request
      came from, or to none.  Every packet that is passed on or written has a handler id. */
  lemma ReplyReachesRequester(run: seq<Step>, legal: seq<Byte> -> bool,
                              from: Socket, request: seq<Byte>, to: Socket, reply: seq<Byte>)
    requires Legal(run, legal) && !legal([])
    requires Request(from, request) in Run(run, legal).1 && Sent(to, reply) in Run(run, legal).1
    ensures |request| > HEADER_SIZE && |reply| >= HEADER_SIZE
    ensures HandlerId(reply) == HandlerId(request) ==> to == from
  {
    RunKeeps(run, legal);
  }

  /** A number leads to a connection exactly until that connection hangs up: replies are lost for
      no other reason, and none is written to a connection that is gone. */
  lemma {:induction false} ReachableUntilHangup(run: seq<Step>, legal: seq<Byte> -> bool, id: nat)
    requires Legal(run, legal) && id in Run(run, legal).0.owner
    ensures var s := Run(run, legal).0;
            id in s.sockets <==> Hangup(s.owner[id]) !in run
  {
    var n := |run| - 1;
    var s := Run(run[..n], legal).0;
    RunHolds(run[..n], legal);
    RunHolds(run, legal);
    assert run == run[..n] + [run[n]];
    if id in s.owner {
      ReachableUntilHangup(run[..n], legal, id);
    } else {
      var k := run[n].socket;
      if Hangup(k) in run[..n] {
        HangupsAreKnown(run[..n], legal, k);
      }
    }
  }

  /** What is routed for one packet is among what is routed for all. */
  lemma {:induction false} RoutedWithAll(sockets: map<nat, Socket>, packets: seq<seq<Byte>>, i: nat, e: Event)
    requires Headed(packets) && i < |packets| && e in Route(sockets, packets[i])
    ensures e in RouteAll(sockets, packets)
  {
    if i > 0 {
      RoutedWithAll(sockets, packets[1..], i - 1, e);
    }
  }

  /** A packet that is cut from what the servers send is written to the connection whose number it
      carries, if that connection has not hung up. */
  lemma {:induction false} ReplyIsSent(run: seq<Step>, legal: seq<Byte> -> bool, link: Link, data: seq<Byte>, i: nat)
    requires Legal(run, legal) && Enabled(Run(run, legal).0, Reply(link, data), legal)
    requires i < |Split(Run(run, legal).0.incoming + data).0|
    ensures var s := Run(run, legal).0;
            var packet := Split(s.incoming + data).0[i];
            var id := HandlerId(packet);
            id in s.owner && Hangup(s.owner[id]) !in run ==>
              Sent(s.owner[id], packet) in Next(s, Reply(link, data), legal).1
  {
    var s := Run(run, legal).0;
    var packets := Split(s.incoming + data).0;
    var id := HandlerId(packets[i]);
    RunHolds(run, legal);
    if id in s.owner && Hangup(s.owner[id]) !in run {
      ReachableUntilHangup(run, legal, id);
      RoutedWithAll(s.sockets, packets, i, Sent(s.owner[id], packets[i]));
    }
  }

  /** Only a connection that had a number can have hung up. */
  lemma {:induction false} HangupsAreKnown(run: seq<Step>, legal: seq<Byte> -> bool, k: Socket)
    requires Legal(run, legal) && Hangup(k) in run
    ensures k in Run(run, legal).0.owner.Values
  {
    var n := |run| - 1;
    var s := Run(run[..n], legal).0;
    RunHolds(run[..n], legal);
    NextKeeps(s, run[n], legal);
    assert run == run[..n] + [run[n]];
    var t := Next(s, run[n], legal).0;
    if run[n] == Hangup(k) {
      assert t.owner[s.sessions[k]] == k;
    } else {
      HangupsAreKnown(run[..n], legal, k);
      var id :| id in s.owner && s.owner[id] == k;
      assert t.owner[id] == k;
    }
  }

  // ---- What becomes of one connection's bytes ----

  /** All bytes that a connection has sent. */
  function Bytes(run: seq<Step>, k: Socket): seq<Byte> {
    if run == [] then []
    else
      var n := |run| - 1;
      if run[n].Receive? && run[n].socket == k then Bytes(run[..n], k) + run[n].data else Bytes(run[..n], k)
  }

  /** The packets that have been passed on for a connection, in order. */
  function Passed(events: seq<Event>, k: Socket): seq<seq<Byte>> {
    if events == [] then []
    else
      var n := |events| - 1;
      Passed(events[..n], k) + if events[n].Request? && events[n].from == k then [events[n].packet] else []
  }

  lemma {:induction false} PassedConcat(a: seq<Event>, b: seq<Event>, k: Socket)
    ensures Passed(a + b, k) == Passed(a, k) + Passed(b, k)
  {
    if b == [] {
      assert a + b == a;
    } else {
      var n := |b| - 1;
      PassedConcat(a, b[..n], k);
      assert (a + b)[..|a| + n] == a + b[..n] && (a + b)[|a| + n] == b[n];
      var last := if b[n].Request? && b[n].from == k then [b[n].packet] else [];
      Sequences.Regroup(Passed(a, k), Passed(b[..n], k), last);
    }
  }

  lemma {:induction false} PassedRequests(from: Socket, packets: seq<seq<Byte>>, k: Socket)
    ensures Passed(Requests(from, packets), k) == if from == k then packets else []
  {
    if packets != [] {
      var n := |packets| - 1;
      PassedRequests(from, packets[..n], k);
      assert Requests(from, packets)[..n] == Requests(from, packets[..n]);
      assert packets == packets[..n] + [packets[n]];
    }
  }

  lemma {:induction false} NoRequests(events: seq<Event>, k: Socket)
    requires forall i :: 0 <= i < |events| ==> !events[i].Request?
    ensures Passed(events, k) == []
  {
    if events != [] {
      NoRequests(events[..|events| - 1], k);
    }
  }

  lemma {:induction false} RoutedAreReplies(sockets: map<nat, Socket>, packets: seq<seq<Byte>>)
    requires Headed(packets)
    ensures forall i :: 0 <= i < |RouteAll(sockets, packets)| ==> !RouteAll(sockets, packets)[i].Request?
  {
    if packets != [] {
      RoutedAreReplies(sockets, packets[1..]);
    }
  }

  lemma {:induction false} ForwardedConcat(a: seq<seq<Byte>>, b: seq<seq<Byte>>, id: nat, legal: seq<Byte> -> bool)
    requires id < UINT_LIMIT && Headed(a) && Headed(b)
    ensures Headed(a + b) && Forwarded(a + b, id, legal) == Forwarded(a, id, legal) + Forwarded(b, id, legal)
  {
    if b == [] {
      assert a + b == a;
    } else {
      var n := |b| - 1;
      ForwardedConcat(a, b[..n], id, legal);
      assert (a + b)[..|a| + n] == a + b[..n] && (a + b)[|a| + n] == b[n];
      var last := if legal(Body(b[n])) then [Stamp(b[n], id)] else [];
      Sequences.Regroup(Forwarded(a, id, legal), Forwarded(b[..n], id, legal), last);
    }
  }

  /** Of the bytes of a connection exactly the complete, legal packets have been passed on, stamped
      with its number and in order, and what follows the last packet is kept. */
  ghost predicate PassedOn(s: State, events: seq<Event>, bytes: seq<Byte>, k: Socket, legal: seq<Byte> -> bool) {
    if k in s.owner.Values then
      && Proper(bytes) && k in s.rest && s.rest[k] == Split(bytes).1
      && forall id :: id in s.owner && s.owner[id] == k ==>
           id < UINT_LIMIT && Passed(events, k) == Forwarded(Split(bytes).0, id, legal)
    else bytes == [] && Passed(events, k) == []
  }

  lemma ReceivedMore(s: State, events: seq<Event>, bytes: seq<Byte>, k: Socket, data: seq<Byte>,
                     legal: seq<Byte> -> bool)
    requires Inv(s) && Enabled(s, Receive(k, data), legal) && PassedOn(s, events, bytes, k, legal)
    ensures var next := Next(s, Receive(k, data), legal);
            PassedOn(next.0, events + next.1, bytes + data, k, legal)
  {
    var id, next := s.sessions[k], Next(s, Receive(k, data), legal);
    assert s.owner[id] == k;
    SaneConcat(bytes, data);
    SplitConcat(bytes, data);
    var before, more := Split(bytes).0, Split(s.rest[k] + data).0;
    ForwardedConcat(before, more, id, legal);
    PassedConcat(events, next.1, k);
    PassedRequests(k, Forwarded(more, id, legal), k);
  }

  lemma OthersUntouched(s: State, events: seq<Event>, bytes: seq<Byte>, k: Socket, step: Step, legal: seq<Byte> -> bool)
    requires Inv(s) && Enabled(s, step, legal) && PassedOn(s, events, bytes, k, legal)
    requires !(step.Receive? && step.socket == k)
    ensures var next := Next(s, step, legal); PassedOn(next.0, events + next.1, bytes, k, legal)
  {
    var next := Next(s, step, legal);
    PassedConcat(events, next.1, k);
    match step
    case Receive(from, data) =>
      var packets := Split(s.rest[from] + data).0;
      PassedRequests(from, Forwarded(packets, s.sessions[from], legal), k);
    case Reply(_, data) =>
      RoutedAreReplies(s.sockets, Split(s.incoming + data).0);
      NoRequests(next.1, k);
    case Connect(other) =>
      if other == k {
        FirstBytes(s, k, events, bytes, legal);
      } else {
        OwnersAfter(s, other, k);
      }
    case _ =>
  }

  lemma FirstBytes(s: State, k: Socket, events: seq<Event>, bytes: seq<Byte>, legal: seq<Byte> -> bool)
    requires Inv(s) && Enabled(s, Connect(k), legal) && PassedOn(s, events, bytes, k, legal)
    ensures PassedOn(Connected(s, k), events, bytes, k, legal)
  {
    var t := Connected(s, k);
    assert t.owner[t.lastId] == k;
    assert forall id :: id in s.owner ==> s.owner[id] in s.owner.Values;
  }

  lemma OwnersAfter(s: State, other: Socket, k: Socket)
    requires Inv(s) && other != k
    ensures k in Connected(s, other).owner.Values <==> k in s.owner.Values
    ensures forall id :: id in Connected(s, other).owner && Connected(s, other).owner[id] == k ==>
            id in s.owner && s.owner[id] == k
  {
    var t := Connected(s, other);
    if k in s.owner.Values {
      var id :| id in s.owner && s.owner[id] == k;
      assert id != t.lastId && t.owner[id] == k;
    }
  }

  /** Over every run, whatever else goes on at the gateway and however a connection's bytes arrive:
      the requests passed on for it are exactly its complete, legal packets, stamped and in order. */
  lemma {:induction false} RequestsArePassedOn(run: seq<Step>, legal: seq<Byte> -> bool, k: Socket)
    requires Legal(run, legal)
    ensures PassedOn(Run(run, legal).0, Run(run, legal).1, Bytes(run, k), k, legal)
  {
    if run != [] {
      var n := |run| - 1;
      RequestsArePassedOn(run[..n], legal, k);
      RunHolds(run[..n], legal);
      var before, bytes := Run(run[..n], legal), Bytes(run[..n], k);
      var next := Next(before.0, run[n], legal);
      assert Run(run, legal) == (next.0, before.1 + next.1);
      if run[n].Receive? && run[n].socket == k {
        ReceivedMore(before.0, before.1, bytes, k, run[n].data, legal);
      } else {
        OthersUntouched(before.0, before.1, bytes, k, run[n], legal);
      }
    }
  }

  /** The gateway's maps.  What the sessions have received is kept by their TcpSession objects; it
      and the owners are carried along for the specification. */
  class GatewayServer {
    var sessionId: nat
    var openSessions: map<Socket, nat>
    var idToHandler: map<nat, Socket>
    var handlerToId: map<Socket, nat>
    ghost var rest: map<Socket, seq<Byte>>
    ghost var incoming: seq<Byte>
    ghost var owner: map<nat, Socket>

    ghost function View(): State
      reads this
    {
      State(sessionId, openSessions, idToHandler, handlerToId, rest, incoming, owner)
    }

    constructor ()
      ensures View() == INIT && Inv(View())
    {
      sessionId, openSessions, idToHandler, handlerToId := 0, map[], map[], map[];
      rest, incoming, owner := map[], [], map[];
    }

    method AddSession(socket: Socket)
      requires Inv(View()) && socket !in owner.Values && sessionId < LAST_SESSION
      modifies this
      ensures View() == Connected(old(View()), socket) && Inv(View())
    {
      NextKeeps(View(), Connect(socket), _ => true);
      sessionId := sessionId + 1;
      openSessions := openSessions[socket := sessionId];
      idToHandler := idToHandler[sessionId := socket];
      handlerToId := handlerToId[socket := sessionId];
      rest := rest[socket := []];
      owner := owner[sessionId := socket];
    }

    /** Both maps forget the connection; the session stays until the close completes. */
    method RemoveClient(client: Socket)
      requires Inv(View())
      modifies this`idToHandler, this`handlerToId
      ensures Inv(View())
      ensures View() == if client in openSessions then HungUp(old(View()), client) else old(View())
    {
      if client in openSessions {
        NextKeeps(View(), Hangup(client), _ => true);
        if client in handlerToId {
          var id := handlerToId[client];
          handlerToId := handlerToId - {client};
          if id in idToHandler {
            idToHandler := idToHandler - {id};
          }
        }
      }
    }

    method OnConnectionClose(handle: Socket)
      requires Inv(View())
      modifies this`openSessions
      ensures View() == old(View()).(sessions := old(openSessions) - {handle}) && Inv(View())
    {
      openSessions := openSessions - {handle};
    }

    /** Writes a reply to the client of this number, or reports that client gone. */
    method TransferToClient(id: nat, packet: seq<Byte>) returns (events: seq<Event>)
      requires Inv(View())
      modifies this`idToHandler
      ensures View() == old(View())
      ensures events == if id in old(idToHandler) then [Sent(old(idToHandler)[id], packet)] else [Gone(id)]
    {
      if id in idToHandler {
        events := [Sent(idToHandler[id], packet)];
      } else {
        events := [Gone(id)];
        idToHandler := idToHandler - {id};
        assert idToHandler == old(idToHandler);
      }
    }
  }
}
