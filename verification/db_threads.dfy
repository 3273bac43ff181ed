/** The client's operations and the loops of its two threads, each run without interruption.

    Every operation is one step of the state machine in DbClients, where all interleavings of these
    steps are considered: here it is shown that the code of either thread takes such steps. */
module DbThreads {
  import opened DbClients
  import opened Sequences

  lemma {:induction false} AllRepliesConcat(a: seq<nat>, b: seq<nat>, kinds: Kinds)
    ensures AllReplies(a + b, kinds) == AllReplies(a, kinds) + AllReplies(b, kinds)
  {
    if b == [] {
      assert a + b == a && AllReplies(a, kinds) + [] == AllReplies(a, kinds);
    } else {
      var n := |b| - 1;
      AllRepliesConcat(a, b[..n], kinds);
      LastReplies(a, b, kinds);
    }
  }

  lemma LastReplies(a: seq<nat>, b: seq<nat>, kinds: Kinds)
    requires b != []
    requires var front := b[..|b| - 1]; AllReplies(a + front, kinds) == AllReplies(a, kinds) + AllReplies(front, kinds)
    ensures AllReplies(a + b, kinds) == AllReplies(a, kinds) + AllReplies(b, kinds)
  {
    var front, last := b[..|b| - 1], b[|b| - 1];
    var of_a, of_front, of_last := AllReplies(a, kinds), AllReplies(front, kinds), RepliesTo(last, kinds);
    assert a + front + [last] == a + b;
    AllRepliesAppend(a + front, last, kinds);
    assert AllReplies(b, kinds) == of_front + of_last;
    Regroup(of_a, of_front, of_last);
  }

  lemma SameEnd<T>(front: seq<T>, x: seq<T>, y: seq<T>)
    requires front + x == front + y
    ensures x == y
  {
    assert x == (front + x)[|front|..];
    assert y == (front + y)[|front|..];
  }

  /** What the worker has added to the reply queue while the main thread did nothing. */
  lemma RespondsGrow(s: State, t: State, done: seq<nat>, kinds: Kinds)
    requires Inv(s, kinds) && Inv(t, kinds) && s.worker == Idle && t.worker == Idle
    requires t.history.handled == s.history.handled + done && t.main == s.main
    requires t.history.delivered == s.history.delivered && t.history.unread == s.history.unread
    ensures t.responds == s.responds + AllReplies(done, kinds)
  {
    AllRepliesConcat(s.history.handled, done, kinds);
    var front := s.history.delivered + Taken(s) + s.history.unread;
    Regroup(front, s.responds, AllReplies(done, kinds));
    assert Answered(s, kinds) == AllReplies(s.history.handled, kinds);
    assert Answered(t, kinds) == AllReplies(t.history.handled, kinds);
    SameEnd(front, t.responds, s.responds + AllReplies(done, kinds));
  }

  /** The replies that the worker still has to queue for the request in hand. */
  function ToCome(hand: Worker, kinds: Kinds): seq<Buffer>
    requires hand.Handling? ==> Sent(hand) <= |Replies(kinds(hand.n))|
  {
    if hand.Handling? then RepliesTo(hand.n, kinds)[Sent(hand)..] else []
  }

  lemma RestAnswered(s: State, t: State, kinds: Kinds)
    requires Inv(s, kinds) && Inv(t, kinds) && s.worker.Handling? && t.worker == Idle
    requires t.history == s.history.(handled := s.history.handled + [s.worker.n]) && t.main == s.main
    ensures t.responds == s.responds + ToCome(s.worker, kinds)
  {
    AllRepliesAppend(s.history.handled, s.worker.n, kinds);
    var front, done := s.history.delivered + Taken(s) + s.history.unread, AllReplies(s.history.handled, kinds);
    var replies, k := RepliesTo(s.worker.n, kinds), Sent(s.worker);
    assert replies == replies[..k] + replies[k..];
    Regroup(done, replies[..k], replies[k..]);
    Regroup(front, s.responds, replies[k..]);
    assert front + t.responds == done + replies + [] == done + replies;
    SameEnd(front, t.responds, s.responds + replies[k..]);
  }

  lemma HandledOneMore(handled: seq<nat>, requests: seq<nat>, count: nat)
    requires count < |requests|
    ensures handled + requests[..count] + [requests[count..][0]] == handled + requests[..count + 1]
    ensures requests[count..][1..] == requests[count + 1..]
  {
  }

  class DbClient {
    const kinds: Kinds
    var created: nat
    var runFlag: bool
    var requestQueue: seq<nat>
    var respondQueue: seq<Buffer>
    var refCount: map<Buffer, nat>
    ghost var freed: multiset<Buffer>
    ghost var worker: Worker
    ghost var main: Main
    ghost var history: History

    ghost function View(): State
      reads this
    {
      State(created, runFlag, requestQueue, respondQueue, worker, main, Heap(refCount, freed), history)
    }

    ghost predicate Valid()
      reads this
    {
      Inv(View(), kinds)
    }

    ghost predicate Can(step: Step)
      reads this
    {
      Valid() && Enabled(View(), step, kinds)
    }

    constructor (kinds: Kinds)
      ensures Valid() && View() == INIT && this.kinds == kinds
    {
      this.kinds := kinds;
      created, runFlag, requestQueue, respondQueue, refCount := 0, true, [], [], map[];
      freed, worker, main, history := multiset{}, Idle, Free, History([], [], [], [], []);
      new;
      InitHolds(kinds);
    }

    method AddRef(b: Buffer)
      requires b in refCount
      modifies this`refCount
      ensures Heap(refCount, freed) == DbClients.AddRef(old(Heap(refCount, freed)), b)
    {
      refCount := refCount[b := refCount[b] + 1];
    }

    /** Tells how many references are left; the last one frees the buffer. */
    method Release(b: Buffer) returns (left: nat)
      requires b in refCount && refCount[b] > 0
      modifies this`refCount, this`freed
      ensures Heap(refCount, freed) == DbClients.Release(old(Heap(refCount, freed)), b)
      ensures left == old(refCount[b]) - 1
    {
      left := refCount[b] - 1;
      if left > 0 {
        refCount := refCount[b := left];
      } else {
        refCount := refCount - {b};
        freed := freed + multiset{b};
      }
    }

    method MemoryCreateBuffer(b: Buffer)
      modifies this`refCount
      ensures Heap(refCount, freed) == Create(old(Heap(refCount, freed)), b)
    {
      refCount := refCount[b := 1];
    }

    method CreateRequest() returns (n: nat)
      requires Can(Step.CreateRequest)
      modifies this
      ensures Valid() && View() == Next(old(View()), Step.CreateRequest, kinds) && n == old(created)
    {
      NextKeeps(View(), Step.CreateRequest, kinds);
      n := created;
      MemoryCreateBuffer(Req(n));
      created := created + 1;
    }

    method PushRequest(n: nat)
      requires Can(Step.PushRequest(n))
      modifies this
      ensures Valid() && Took(old(View()), Step.PushRequest(n))
    {
      NextKeeps(View(), Step.PushRequest(n), kinds);
      AddRef(Req(n));
      requestQueue := requestQueue + [n];
      history := history.(pushed := history.pushed + [n]);
    }

    /** This step has been taken from state `s`, touching no freed buffer. */
    ghost predicate Took(s: State, step: Step)
      reads this
    {
      Allowed(s, step, kinds) && View() == Next(s, step, kinds)
    }

    /** Tells whether there was a request. */
    method PopRequest() returns (found: bool, n: nat)
      requires Valid() && worker == Idle
      modifies this
      ensures Valid() && found == (old(requestQueue) != [])
      ensures if found then n == old(requestQueue)[0] && Took(old(View()), Step.PopRequest) else View() == old(View())
    {
      found, n := requestQueue != [], 0;
      if found {
        NextKeeps(View(), Step.PopRequest, kinds);
        n := requestQueue[0];
        requestQueue := requestQueue[1..];
        worker := Handling(n, 0, Ready);
      }
    }

    /** The worker creates a reply ... */
    method CreateReply(b: Buffer)
      requires Can(Step.CreateReply) && b == Rep(worker.n, worker.i)
      modifies this
      ensures Valid() && Took(old(View()), Step.CreateReply)
    {
      NextKeeps(View(), Step.CreateReply, kinds);
      MemoryCreateBuffer(b);
      worker := worker.(phase := Made);
    }

    /** ... queues it ... */
    method PushRespond(b: Buffer)
      requires Can(Step.PushRespond) && b == Rep(worker.n, worker.i)
      modifies this
      ensures Valid() && Took(old(View()), Step.PushRespond)
    {
      NextKeeps(View(), Step.PushRespond, kinds);
      AddRef(b);
      respondQueue := respondQueue + [b];
      worker := worker.(phase := Queued);
    }

    /** ... and gives up its own reference, for most kinds of requests. */
    method LeaveReply(b: Buffer, releases: bool)
      requires Can(Step.LeaveReply) && b == Rep(worker.n, worker.i) && releases == Replies(kinds(worker.n))[worker.i]
      modifies this
      ensures Valid() && Took(old(View()), Step.LeaveReply)
    {
      NextKeeps(View(), Step.LeaveReply, kinds);
      assert Counted(View(), b, kinds);
      if releases {
        var _ := Release(b);
      }
      worker := Handling(worker.n, worker.i + 1, Ready);
    }

    method FinishRequest(n: nat)
      requires Can(Step.FinishRequest) && n == worker.n
      modifies this
      ensures Valid() && Took(old(View()), Step.FinishRequest)
    {
      NextKeeps(View(), Step.FinishRequest, kinds);
      assert Counted(View(), Req(n), kinds);
      var _ := Release(Req(n));
      worker := Idle;
      history := history.(handled := history.handled + [n]);
    }

    /** Tells whether there was a reply. */
    method PopRespond() returns (found: bool, b: Buffer)
      requires Valid() && runFlag && main == Free
      modifies this
      ensures Valid() && found == (old(respondQueue) != [])
      ensures if found then b == old(respondQueue)[0] && Took(old(View()), Step.PopRespond) else View() == old(View())
    {
      found, b := respondQueue != [], Req(0);
      if found {
        NextKeeps(View(), Step.PopRespond, kinds);
        b := respondQueue[0];
        respondQueue := respondQueue[1..];
        main := Got(b);
      }
    }

    /** The reply is passed on to the scripts. */
    method OnResponsed(b: Buffer)
      requires Can(Step.OnResponsed) && main == Got(b)
      modifies this
      ensures Valid() && Took(old(View()), Step.OnResponsed)
    {
      NextKeeps(View(), Step.OnResponsed, kinds);
      main := Told(b);
      history := history.(delivered := history.delivered + [b]);
    }

    method ReleaseRespond(b: Buffer)
      requires Can(Step.ReleaseRespond) && main == Told(b)
      modifies this
      ensures Valid() && Took(old(View()), Step.ReleaseRespond)
    {
      NextKeeps(View(), Step.ReleaseRespond, kinds);
      assert Counted(View(), b, kinds);
      var _ := Release(b);
      main := Free;
    }

    // ---- The loops ----

    /** Nothing has changed but for what the worker may change. */
    ghost predicate OnlyWorker(s: State)
      reads this
    {
      && created == s.created && runFlag == s.running && main == s.main
      && history == s.history.(handled := history.handled)
    }

    /** Answers the request in hand. */
    method OnRequest(n: nat)
      requires Valid() && worker == Handling(n, 0, Ready)
      modifies this
      ensures Valid() && OnlyWorker(old(View())) && requestQueue == old(requestQueue)
      ensures history == old(history) && worker == Handling(n, |Replies(kinds(n))|, Ready)
    {
      var replies := Replies(kinds(n));
      for i := 0 to |replies|
        invariant Valid() && OnlyWorker(old(View())) && requestQueue == old(requestQueue)
        invariant history == old(history) && worker == Handling(n, i, Ready)
      {
        FinishReply(n, i, Ready, replies[i]);
      }
    }

    /** The worker handles requests in order, and queues all their replies in order, until none is left or
        the database is closed.  `open(i)` is what the database answers when asked for the i-th time. */
    method DBThreadActivate(open: nat -> bool) returns (count: nat)
      requires Valid() && worker == Idle
      modifies this
      ensures Valid() && OnlyWorker(old(View())) && worker == Idle
      ensures count <= |old(requestQueue)| && forall i :: 0 <= i < count ==> open(i)
      ensures count == |old(requestQueue)| || !open(count)
      ensures requestQueue == old(requestQueue)[count..]
      ensures history.handled == old(history.handled) + old(requestQueue)[..count]
      ensures respondQueue == old(respondQueue) + AllReplies(old(requestQueue)[..count], kinds)
    {
      ghost var s := View();
      count := 0;
      var more := open(0);
      assert s.history.handled + s.requests[..0] == s.history.handled;
      while more
        invariant Handled(s, count) && forall i :: 0 <= i < count ==> open(i)
        invariant if more then open(count) else count == |s.requests| || !open(count)
        decreases |s.requests| - count, more
      {
        more := HandleNext(s, count);
        if more {
          count := count + 1;
          more := open(count);
        }
      }
      RespondsGrow(s, View(), s.requests[..count], kinds);
    }

    /** Since state `s` the first `count` requests have been handled, and nothing else has happened. */
    ghost predicate Handled(s: State, count: nat)
      reads this
    {
      && Valid() && OnlyWorker(s) && worker == Idle && count <= |s.requests|
      && requestQueue == s.requests[count..] && history.handled == s.history.handled + s.requests[..count]
    }

    method HandleNext(ghost s: State, ghost count: nat) returns (found: bool)
      requires Handled(s, count)
      modifies this
      ensures found == (count < |s.requests|) && Handled(s, if found then count + 1 else count)
    {
      found := HandleOne();
      if found {
        HandledOneMore(s.history.handled, s.requests, count);
      }
    }

    /** Handles the first request, if there is one. */
    method HandleOne() returns (found: bool)
      requires Valid() && worker == Idle
      modifies this
      ensures Valid() && OnlyWorker(old(View())) && worker == Idle && found == (old(requestQueue) != [])
      ensures if found then
                requestQueue == old(requestQueue)[1..] &&
                  history.handled == old(history.handled) + [old(requestQueue)[0]]
              else View() == old(View())
    {
      var n;
      found, n := PopRequest();
      if found {
        OnRequest(n);
        FinishRequest(n);
      }
    }

    /** The main thread delivers all replies there are, in order. */
    method Activate()
      requires Valid() && runFlag && main == Free
      modifies this
      ensures Valid() && main == Free && respondQueue == []
      ensures history == old(history).(delivered := old(history.delivered) + old(respondQueue))
      ensures worker == old(worker) && requestQueue == old(requestQueue) && runFlag
    {
      ghost var s := View();
      ghost var done: seq<Buffer> := [];
      var more := true;
      while more
        invariant Valid() && runFlag && main == Free && worker == s.worker && requestQueue == s.requests
        invariant done + respondQueue == s.responds && (!more ==> respondQueue == [])
        invariant history == s.history.(delivered := s.history.delivered + done)
        decreases |respondQueue|, more
      {
        ghost var queue := respondQueue;
        more := DeliverOne();
        if more {
          MoveFirst(done, queue);
          done := done + [queue[0]];
        }
      }
      assert done + [] == done;
    }

    /** Delivers the first reply, if there is one. */
    method DeliverOne() returns (found: bool)
      requires Valid() && runFlag && main == Free
      modifies this
      ensures Valid() && runFlag && main == Free && worker == old(worker) && requestQueue == old(requestQueue)
      ensures found == (old(respondQueue) != [])
      ensures if found then
                respondQueue == old(respondQueue)[1..]
                && history == old(history).(delivered := old(history.delivered) + [old(respondQueue)[0]])
              else View() == old(View())
    {
      ghost var s := View();
      var b;
      found, b := PopRespond();
      if found {
        assert history == s.history && respondQueue == s.responds[1..] && main == Got(b) && worker == s.worker;
        OnResponsed(b);
        ghost var after := s.history.(delivered := s.history.delivered + [b]);
        assert history == after && respondQueue == s.responds[1..] && main == Told(b) && worker == s.worker;
        ReleaseRespond(b);
      }
    }

    /** The client is shut down.  The worker finishes the request in hand, if there is one, makes a last
        round, unless its database is lost, and exits; what is left in the queues is released. */
    method UnInit(hand: Worker, databaseLost: bool, open: nat -> bool) returns (count: nat)
      requires Valid() && runFlag && main == Free && worker == hand != Exited
      modifies this
      ensures Valid() && worker == Exited && requestQueue == [] && respondQueue == []
      ensures count <= |old(requestQueue)|
      ensures databaseLost ==> count == 0
      ensures !databaseLost ==> count == |old(requestQueue)| || !open(count)
      ensures var done := old(requestQueue)[..count];
              history == old(history).(handled := old(history.handled) + old(InHand(View())) + done,
                                       dropped := old(requestQueue)[count..],
                                       unread := old(respondQueue) + ToCome(hand, kinds) + AllReplies(done, kinds))
    {
      NextKeeps(View(), Step.Stop, kinds);
      runFlag := false;
      count := LastRound(hand, databaseLost, open);
      NextKeeps(View(), Step.WorkerExits, kinds);
      worker := Exited;
      DropRequests();
      DropResponds();
    }

    method LastRound(hand: Worker, databaseLost: bool, open: nat -> bool) returns (count: nat)
      requires Valid() && worker == hand != Exited
      modifies this
      ensures Valid() && OnlyWorker(old(View())) && worker == Idle && count <= |old(requestQueue)|
      ensures databaseLost ==> count == 0
      ensures !databaseLost ==> count == |old(requestQueue)| || !open(count)
      ensures requestQueue == old(requestQueue)[count..]
      ensures history.handled == old(history.handled) + old(InHand(View())) + old(requestQueue)[..count]
      ensures respondQueue == old(respondQueue) + ToCome(hand, kinds) + AllReplies(old(requestQueue)[..count], kinds)
    {
      FinishHand(hand);
      count := 0;
      assert requestQueue[..0] == [] && history.handled + [] == history.handled && respondQueue + [] == respondQueue;
      if !databaseLost {
        count := DBThreadActivate(open);
      }
    }

    /** The worker finishes what it has in hand, from wherever it is. */
    method FinishHand(hand: Worker)
      requires Valid() && worker == hand != Exited
      modifies this
      ensures Valid() && OnlyWorker(old(View())) && worker == Idle && requestQueue == old(requestQueue)
      ensures history.handled == old(history.handled) + old(InHand(View()))
      ensures respondQueue == old(respondQueue) + ToCome(hand, kinds)
    {
      if hand.Idle? {
        assert history.handled + [] == history.handled && respondQueue + [] == respondQueue;
        return;
      }
      ghost var s := View();
      var n, replies := hand.n, Replies(kinds(hand.n));
      var i, phase := hand.i, hand.phase;
      while i < |replies|
        invariant Valid() && OnlyWorker(s) && requestQueue == s.requests && history == s.history
        invariant worker == Handling(n, i, phase) && i <= |replies|
        decreases |replies| - i
      {
        FinishReply(n, i, phase, replies[i]);
        i, phase := i + 1, Ready;
      }
      FinishRequest(n);
      RestAnswered(s, View(), kinds);
    }

    /** Creates, queues and leaves a reply, or what is still to be done of this. */
    method FinishReply(n: nat, i: nat, phase: Phase, releases: bool)
      requires Valid() && worker == Handling(n, i, phase)
      requires i < |Replies(kinds(n))| && releases == Replies(kinds(n))[i]
      modifies this
      ensures Valid() && OnlyWorker(old(View())) && requestQueue == old(requestQueue)
      ensures history == old(history) && worker == Handling(n, i + 1, Ready)
    {
      if phase == Ready {
        CreateReply(Rep(n, i));
      }
      if phase != Queued {
        PushRespond(Rep(n, i));
      }
      LeaveReply(Rep(n, i), releases);
    }

    method DropRequests()
      requires Valid() && worker == Exited && history.dropped == []
      modifies this
      ensures Valid() && worker == Exited && requestQueue == [] && respondQueue == old(respondQueue)
      ensures history == old(history).(dropped := old(requestQueue))
    {
      ghost var q, h := requestQueue, history;
      while requestQueue != []
        invariant Valid() && worker == Exited && respondQueue == old(respondQueue)
        invariant history == h.(dropped := history.dropped) && history.dropped + requestQueue == q
        decreases |requestQueue|
      {
        var n := requestQueue[0];
        NextKeeps(View(), Step.DropRequest, kinds);
        assert Counted(View(), Req(n), kinds);
        MoveFirst(history.dropped, requestQueue);
        var _ := Release(Req(n));
        requestQueue := requestQueue[1..];
        history := history.(dropped := history.dropped + [n]);
      }
      assert history.dropped + [] == history.dropped;
    }

    method DropResponds()
      requires Valid() && worker == Exited && requestQueue == [] && history.unread == []
      modifies this
      ensures Valid() && worker == Exited && requestQueue == [] && respondQueue == []
      ensures history == old(history).(unread := old(respondQueue))
    {
      ghost var q, h := respondQueue, history;
      while respondQueue != []
        invariant Valid() && worker == Exited && requestQueue == []
        invariant history == h.(unread := history.unread) && history.unread + respondQueue == q
        decreases |respondQueue|
      {
        var b := respondQueue[0];
        NextKeeps(View(), Step.DropRespond, kinds);
        assert Counted(View(), b, kinds);
        MoveFirst(history.unread, respondQueue);
        var _ := Release(b);
        respondQueue := respondQueue[1..];
        history := history.(unread := history.unread + [b]);
      }
      assert history.unread + [] == history.unread;
    }
  }
}
