/** What each client is sent: of all that the servers send, in order and each packet once. */
module GatewayReplies {
  import opened Wire
  import opened NetPackets
  import opened Gateways
  import opened GatewayLinks
  import Sequences

  /** The packets that have been written to a connection, in order. */
  function Written(events: seq<Event>, k: Socket): seq<seq<Byte>> {
    if events == [] then []
    else
      var n := |events| - 1;
      Written(events[..n], k) + if events[n].Sent? && events[n].to == k then [events[n].packet] else []
  }

  /** How often the logic server has been told that the client of this number is gone. */
  function Notices(events: seq<Event>, id: nat): nat {
    if events == [] then 0
    else var n := |events| - 1; Notices(events[..n], id) + if events[n] == Gone(id) then 1 else 0
  }

  /** Those of the packets that carry this handler id. */
  function Addressed(packets: seq<seq<Byte>>, id: nat): seq<seq<Byte>>
    requires Headed(packets)
  {
    if packets == [] then []
    else
      var n := |packets| - 1;
      Addressed(packets[..n], id) + if HandlerId(packets[n]) == id then [packets[n]] else []
  }

  lemma {:induction false} WrittenConcat(a: seq<Event>, b: seq<Event>, k: Socket)
    ensures Written(a + b, k) == Written(a, k) + Written(b, k)
  {
    if b == [] {
      assert a + b == a;
    } else {
      var n := |b| - 1;
      WrittenConcat(a, b[..n], k);
      assert (a + b)[..|a| + n] == a + b[..n] && (a + b)[|a| + n] == b[n];
      var last := if b[n].Sent? && b[n].to == k then [b[n].packet] else [];
      Sequences.Regroup(Written(a, k), Written(b[..n], k), last);
    }
  }

  lemma {:induction false} NoticesConcat(a: seq<Event>, b: seq<Event>, id: nat)
    ensures Notices(a + b, id) == Notices(a, id) + Notices(b, id)
  {
    if b == [] {
      assert a + b == a;
    } else {
      var n := |b| - 1;
      NoticesConcat(a, b[..n], id);
      assert (a + b)[..|a| + n] == a + b[..n] && (a + b)[|a| + n] == b[n];
    }
  }

  lemma {:induction false} AddressedConcat(a: seq<seq<Byte>>, b: seq<seq<Byte>>, id: nat)
    requires Headed(a) && Headed(b)
    ensures Headed(a + b) && Addressed(a + b, id) == Addressed(a, id) + Addressed(b, id)
  {
    if b == [] {
      assert a + b == a;
    } else {
      var n := |b| - 1;
      AddressedConcat(a, b[..n], id);
      assert (a + b)[..|a| + n] == a + b[..n] && (a + b)[|a| + n] == b[n];
      var last := if HandlerId(b[n]) == id then [b[n]] else [];
      Sequences.Regroup(Addressed(a, id), Addressed(b[..n], id), last);
    }
  }

  // ---- What is made of some packets ----

  lemma WrittenOne(e: Event, k: Socket)
    ensures Written([e], k) == if e.Sent? && e.to == k then [e.packet] else []
    ensures forall id :: Notices([e], id) == if e == Gone(id) then 1 else 0
  {
    assert [e][..0] == [];
  }

  lemma AddressedOne(p: seq<Byte>, id: nat)
    requires |p| >= HEADER_SIZE
    ensures Headed([p]) && Addressed([p], id) == if HandlerId(p) == id then [p] else []
  {
    var none: seq<seq<Byte>> := [];
    assert [p][..0] == none;
  }

  lemma WrittenOfOne(s: State, p: seq<Byte>, k: Socket, id: nat)
    requires Inv(s) && |p| >= HEADER_SIZE && id in s.owner && s.owner[id] == k
    ensures Written(Route(s.sockets, p), k) == if id in s.sockets && HandlerId(p) == id then [p] else []
  {
    if Route(s.sockets, p) != [] {
      WrittenOne(Route(s.sockets, p)[0], k);
    }
  }

  /** Of what is routed, a connection is written exactly what carries its number, in order, as long as the
      number leads to it. */
  lemma {:induction false} WrittenByNumber(s: State, packets: seq<seq<Byte>>, k: Socket, id: nat)
    requires Inv(s) && Headed(packets) && id in s.owner && s.owner[id] == k
    ensures Written(RouteAll(s.sockets, packets), k) == if id in s.sockets then Addressed(packets, id) else []
  {
    if packets != [] {
      var p, rest := packets[0], packets[1..];
      WrittenByNumber(s, rest, k, id);
      WrittenOfOne(s, p, k, id);
      WrittenConcat(Route(s.sockets, p), RouteAll(s.sockets, rest), k);
      AddressedOne(p, id);
      AddressedConcat([p], rest, id);
      assert packets == [p] + rest;
    }
  }

  lemma {:induction false} NothingWritten(s: State, packets: seq<seq<Byte>>, k: Socket)
    requires Inv(s) && Headed(packets) && k !in s.owner.Values
    ensures Written(RouteAll(s.sockets, packets), k) == []
  {
    if packets != [] {
      var p, rest := packets[0], packets[1..];
      NothingWritten(s, rest, k);
      WrittenConcat(Route(s.sockets, p), RouteAll(s.sockets, rest), k);
      if Route(s.sockets, p) != [] {
        WrittenOne(Route(s.sockets, p)[0], k);
        assert HandlerId(p) in s.sockets ==> s.owner[HandlerId(p)] in s.owner.Values;
      }
    }
  }

  lemma NoticeOfOne(sockets: map<nat, Socket>, p: seq<Byte>, id: nat)
    requires |p| >= HEADER_SIZE
    ensures Notices(Route(sockets, p), id) == if id != 0 && id !in sockets && HandlerId(p) == id then 1 else 0
  {
    if Route(sockets, p) != [] {
      WrittenOne(Route(sockets, p)[0], 0);
    }
  }

  /** Of what is routed, there is a notice for every packet whose number leads nowhere. */
  lemma {:induction false} NoticeForEach(sockets: map<nat, Socket>, packets: seq<seq<Byte>>, id: nat)
    requires Headed(packets)
    ensures Notices(RouteAll(sockets, packets), id) ==
            if id == 0 || id in sockets then 0 else |Addressed(packets, id)|
  {
    if packets != [] {
      var p, rest := packets[0], packets[1..];
      NoticeForEach(sockets, rest, id);
      NoticesConcat(Route(sockets, p), RouteAll(sockets, rest), id);
      AddressedOne(p, id);
      AddressedConcat([p], rest, id);
      assert packets == [p] + rest;
      NoticeOfOne(sockets, p, id);
    }
  }

  // ---- Over whole runs ----

  /** The first position at which a step is taken, or `|run|`. */
  function At(run: seq<Step>, step: Step): (i: nat)
    ensures i <= |run| && (i < |run| <==> step in run)
    ensures i < |run| ==> run[i] == step
  {
    if run == [] then 0
    else
      var n := |run| - 1;
      assert run == run[..n] + [run[n]];
      var i := At(run[..n], step);
      if i < n then i else if run[n] == step then n else n + 1
  }

  /** What has been cut from the common stream while a connection was known. */
  ghost function CutWhile(run: seq<Step>, legal: seq<Byte> -> bool, k: Socket): seq<seq<Byte>>
    requires Legal(run, legal)
  {
    if run == [] then []
    else
      var n := |run| - 1;
      var s := Run(run[..n], legal).0;
      if run[n].Reply? && k in s.ids then CutWhile(run[..n], legal, k) + Split(s.incoming + run[n].data).0
      else CutWhile(run[..n], legal, k)
  }

  /** A connection has been written, in order, those of the packets that carry its number. */
  ghost predicate InOrder(s: State, events: seq<Event>, packets: seq<seq<Byte>>, k: Socket) {
    && Headed(packets)
    && if k in s.owner.Values then
         forall id :: id in s.owner && s.owner[id] == k ==> Written(events, k) == Addressed(packets, id)
       else Written(events, k) == [] && packets == []
  }

  /** What some packets add to what has been written to the owner of a number. */
  lemma RoutedInOrder(s: State, events: seq<Event>, packets: seq<seq<Byte>>, more: seq<seq<Byte>>, k: Socket, id: nat)
    requires Inv(s) && Headed(packets) && Headed(more) && id in s.owner && s.owner[id] == k
    requires Written(events, k) == Addressed(packets, id)
    ensures Headed(packets + more)
    ensures Written(events + RouteAll(s.sockets, more), k) ==
            Addressed(if k in s.ids then packets + more else packets, id)
  {
    WrittenConcat(events, RouteAll(s.sockets, more), k);
    WrittenByNumber(s, more, k, id);
    AddressedConcat(packets, more, id);
    assert Written(events, k) + [] == Written(events, k);
  }

  lemma ReplyInOrder(s: State, events: seq<Event>, packets: seq<seq<Byte>>, k: Socket, step: Step,
                     legal: seq<Byte> -> bool)
    requires Inv(s) && Enabled(s, step, legal) && step.Reply? && InOrder(s, events, packets, k)
    ensures var next, more := Next(s, step, legal), Split(s.incoming + step.data).0;
            InOrder(next.0, events + next.1, if k in s.ids then packets + more else packets, k)
  {
    var more := Split(s.incoming + step.data).0;
    if k in s.owner.Values {
      forall id | id in s.owner && s.owner[id] == k
        ensures Written(events + RouteAll(s.sockets, more), k) ==
                Addressed(if k in s.ids then packets + more else packets, id)
      {
        RoutedInOrder(s, events, packets, more, k, id);
      }
      HeadedConcat(packets, more);
    } else {
      WrittenConcat(events, RouteAll(s.sockets, more), k);
      NothingWritten(s, more, k);
    }
  }

  lemma OtherInOrder(s: State, events: seq<Event>, packets: seq<seq<Byte>>, k: Socket, step: Step,
                     legal: seq<Byte> -> bool)
    requires Inv(s) && Enabled(s, step, legal) && !step.Reply? && InOrder(s, events, packets, k)
    ensures var next := Next(s, step, legal); InOrder(next.0, events + next.1, packets, k)
  {
    var next := Next(s, step, legal);
    WritesNothing(s, step, legal, k);
    WrittenConcat(events, next.1, k);
    assert Written(events, k) + [] == Written(events, k);
    if step.Connect? {
      if step.socket == k {
        FirstOwner(s, k);
      } else {
        OwnersAfter(s, step.socket, k);
      }
    }
  }

  lemma FirstOwner(s: State, k: Socket)
    requires Inv(s) && k !in s.owner.Values
    ensures forall id :: id in Connected(s, k).owner && Connected(s, k).owner[id] == k ==> id == s.lastId + 1
  {
    assert forall id :: id in s.owner ==> s.owner[id] in s.owner.Values;
  }

  lemma WritesNothing(s: State, step: Step, legal: seq<Byte> -> bool, k: Socket)
    requires Enabled(s, step, legal) && !step.Reply?
    ensures Written(Next(s, step, legal).1, k) == [] && forall id :: Notices(Next(s, step, legal).1, id) == 0
  {
    if step.Receive? {
      NoneWritten(Next(s, step, legal).1, k);
    }
  }

  lemma {:induction false} NoneWritten(events: seq<Event>, k: Socket)
    requires forall i :: 0 <= i < |events| ==> events[i].Request?
    ensures Written(events, k) == [] && forall id :: Notices(events, id) == 0
  {
    if events != [] {
      NoneWritten(events[..|events| - 1], k);
    }
  }

  lemma {:induction false} RunInOrder(run: seq<Step>, legal: seq<Byte> -> bool, k: Socket)
    requires Legal(run, legal)
    ensures InOrder(Run(run, legal).0, Run(run, legal).1, CutWhile(run, legal, k), k)
  {
    if run != [] {
      var n := |run| - 1;
      var before, packets := Run(run[..n], legal), CutWhile(run[..n], legal, k);
      RunInOrder(run[..n], legal, k);
      RunHolds(run[..n], legal);
      if run[n].Reply? {
        ReplyInOrder(before.0, before.1, packets, k, run[n], legal);
      } else {
        OtherInOrder(before.0, before.1, packets, k, run[n], legal);
      }
    }
  }

  /** A connection is known from its connect to its hang-up. */
  lemma {:induction false} KnownIff(run: seq<Step>, legal: seq<Byte> -> bool, k: Socket)
    requires Legal(run, legal)
    ensures k in Run(run, legal).0.ids <==> Connect(k) in run && Hangup(k) !in run
    ensures k in Run(run, legal).0.owner.Values <==> Connect(k) in run
    ensures Hangup(k) in run ==> Connect(k) in run
  {
    if run != [] {
      var n := |run| - 1;
      var s := Run(run[..n], legal).0;
      KnownIff(run[..n], legal, k);
      RunHolds(run[..n], legal);
      assert run == run[..n] + [run[n]];
      KnownAfter(s, run[n], legal, k);
    }
  }

  lemma KnownAfter(s: State, step: Step, legal: seq<Byte> -> bool, k: Socket)
    requires Inv(s) && Enabled(s, step, legal)
    ensures var t := Next(s, step, legal).0;
            && (k in t.owner.Values <==> k in s.owner.Values || step == Connect(k))
            && (k in t.ids <==> (k in s.ids || step == Connect(k)) && step != Hangup(k))
            && (step == Hangup(k) ==> k in s.owner.Values)
            && (step == Connect(k) ==> k !in s.owner.Values)
  {
    match step
    case Connect(other) =>
      assert Connected(s, other).owner[s.lastId + 1] == other;
      if other != k {
        OwnersAfter(s, other, k);
      }
    case Hangup(other) =>
      assert s.owner[s.sessions[other]] == other;
    case _ =>
  }

  /** What has been cut before is the beginning of what has been cut later. */
  lemma {:induction false} CutPrefix(run: seq<Step>, legal: seq<Byte> -> bool, i: nat)
    requires Legal(run, legal) && i <= |run|
    ensures Legal(run[..i], legal) && Cut(run[..i], legal) <= Cut(run, legal)
  {
    if i == |run| {
      assert run[..i] == run;
    } else {
      var n := |run| - 1;
      CutPrefix(run[..n], legal, i);
      assert run[..n][..i] == run[..i];
    }
  }

  lemma AtMore(run: seq<Step>, step: Step)
    requires run != []
    ensures var n := |run| - 1;
            At(run, step) == if step in run[..n] then At(run[..n], step) else if run[n] == step then n else n + 1
  {
  }

  /** How many packets have been cut by the time a step is taken first, or by the end. */
  ghost function CutBy(run: seq<Step>, legal: seq<Byte> -> bool, step: Step): (a: nat)
    requires Legal(run, legal)
    ensures a <= |Cut(run, legal)|
  {
    CutPrefix(run, legal, At(run, step));
    |Cut(run[..At(run, step)], legal)|
  }

  lemma {:induction false} CutByMore(run: seq<Step>, legal: seq<Byte> -> bool, step: Step)
    requires Legal(run, legal) && run != [] && (step.Connect? || step.Hangup?)
    ensures var front := run[..|run| - 1];
            && (step in front ==> CutBy(run, legal, step) == CutBy(front, legal, step))
            && (step !in front ==> CutBy(run, legal, step) == |Cut(run, legal)|)
            && (step !in front ==> CutBy(front, legal, step) == |Cut(front, legal)|)
  {
    var n := |run| - 1;
    AtMore(run, step);
    if step in run[..n] {
      assert run[..n][..At(run[..n], step)] == run[..At(run, step)];
    } else {
      assert run[..n][..n] == run[..n] && run[..n + 1] == run;
      assert run[n] == step ==> Cut(run, legal) == Cut(run[..n], legal);
    }
  }

  /** What is cut while a connection is known is a stretch of what is cut at all. */
  lemma {:induction false} CutWhileIsStretch(run: seq<Step>, legal: seq<Byte> -> bool, k: Socket)
    requires Legal(run, legal)
    ensures CutBy(run, legal, Connect(k)) <= CutBy(run, legal, Hangup(k))
    ensures CutWhile(run, legal, k) ==
            Cut(run, legal)[CutBy(run, legal, Connect(k))..CutBy(run, legal, Hangup(k))]
  {
    if run != [] {
      var n := |run| - 1;
      var front := run[..n];
      CutWhileIsStretch(front, legal, k);
      KnownIff(front, legal, k);
      KnownIff(run, legal, k);
      CutByMore(run, legal, Connect(k));
      CutByMore(run, legal, Hangup(k));
      CutPrefix(run, legal, n);
    }
  }

  /** Over every run: what is written to a connection is exactly what carries its number, of the packets cut
      from the common stream of replies between its connect and its hang-up; in their order, and each once. */
  lemma {:induction false} RepliesAreWritten(run: seq<Step>, legal: seq<Byte> -> bool, k: Socket, id: nat)
    requires Legal(run, legal) && id in Run(run, legal).0.owner && Run(run, legal).0.owner[id] == k
    ensures CutBy(run, legal, Connect(k)) <= CutBy(run, legal, Hangup(k))
    ensures var cut := Cut(run, legal)[CutBy(run, legal, Connect(k))..CutBy(run, legal, Hangup(k))];
            Headed(cut) && Written(Run(run, legal).1, k) == Addressed(cut, id)
  {
    RunInOrder(run, legal, k);
    CutWhileIsStretch(run, legal, k);
    assert k in Run(run, legal).0.owner.Values;
  }

  // ---- Clients that are gone ----

  lemma {:induction false} CutIsHeaded(run: seq<Step>, legal: seq<Byte> -> bool)
    requires Legal(run, legal)
    ensures Headed(Cut(run, legal))
  {
    if run != [] {
      CutIsHeaded(run[..|run| - 1], legal);
    }
  }

  /** How much has been written for a number. */
  function WrittenFor(s: State, events: seq<Event>, id: nat): nat {
    if id in s.owner then |Written(events, s.owner[id])| else 0
  }

  /** Notices and what has been written account for all packets that carry the number. */
  ghost predicate Accounted(s: State, events: seq<Event>, cut: seq<seq<Byte>>, id: nat) {
    Headed(cut) && Notices(events, id) + WrittenFor(s, events, id) == if id == 0 then 0 else |Addressed(cut, id)|
  }

  lemma ReplyAccounted(s: State, events: seq<Event>, cut: seq<seq<Byte>>, id: nat, step: Step,
                       legal: seq<Byte> -> bool)
    requires Inv(s) && Enabled(s, step, legal) && step.Reply? && Accounted(s, events, cut, id)
    ensures var next := Next(s, step, legal);
            Accounted(next.0, events + next.1, cut + Split(s.incoming + step.data).0, id)
  {
    var more := Split(s.incoming + step.data).0;
    var routed := RouteAll(s.sockets, more);
    NoticesConcat(events, routed, id);
    NoticeForEach(s.sockets, more, id);
    AddressedConcat(cut, more, id);
    if id in s.owner {
      WrittenConcat(events, routed, s.owner[id]);
      WrittenByNumber(s, more, s.owner[id], id);
    }
  }

  lemma OtherAccounted(s: State, events: seq<Event>, cut: seq<seq<Byte>>, id: nat, step: Step,
                       legal: seq<Byte> -> bool)
    requires Inv(s) && Enabled(s, step, legal) && !step.Reply? && Accounted(s, events, cut, id)
    requires forall k :: k !in s.owner.Values ==> Written(events, k) == []
    ensures var next := Next(s, step, legal); Accounted(next.0, events + next.1, cut, id)
  {
    var next := Next(s, step, legal);
    NoticesConcat(events, next.1, id);
    WritesNothing(s, step, legal, 0);
    if id in next.0.owner {
      WritesNothing(s, step, legal, next.0.owner[id]);
      WrittenConcat(events, next.1, next.0.owner[id]);
    }
  }

  /** Over every run, no reply vanishes: every packet cut that carries a number is either written to the
      connection of that number or reported as one for a client that is gone, and none is both. */
  lemma {:induction false} NoReplyVanishes(run: seq<Step>, legal: seq<Byte> -> bool, id: nat)
    requires Legal(run, legal)
    ensures Accounted(Run(run, legal).0, Run(run, legal).1, Cut(run, legal), id)
  {
    if run != [] {
      var n := |run| - 1;
      var before := Run(run[..n], legal);
      NoReplyVanishes(run[..n], legal, id);
      RunHolds(run[..n], legal);
      if run[n].Reply? {
        ReplyAccounted(before.0, before.1, Cut(run[..n], legal), id, run[n], legal);
      } else {
        forall k | k !in before.0.owner.Values
          ensures Written(before.1, k) == []
        {
          RunInOrder(run[..n], legal, k);
        }
        OtherAccounted(before.0, before.1, Cut(run[..n], legal), id, run[n], legal);
      }
    }
  }
}
