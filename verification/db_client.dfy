/** A database client: the main thread and a worker thread hand each other reference-counted buffers
    through two queues. */
module DbClients {
  // ---- Reference counts ----

  /** The n-th request, or the i-th reply to it. */
  datatype Buffer = Req(n: nat) | Rep(n: nat, i: nat)

  /** The counts of the live buffers, and how often each buffer has been freed. */
  datatype Heap = Heap(count: map<Buffer, nat>, freed: multiset<Buffer>)

  function Create(h: Heap, b: Buffer): Heap {
    h.(count := h.count[b := 1])
  }

  function AddRef(h: Heap, b: Buffer): Heap
    requires b in h.count
  {
    h.(count := h.count[b := h.count[b] + 1])
  }

  /** The buffer is freed with its last reference. */
  function Release(h: Heap, b: Buffer): Heap
    requires b in h.count
  {
    if h.count[b] > 1 then h.(count := h.count[b := h.count[b] - 1])
    else Heap(h.count - {b}, h.freed + multiset{b})
  }

  function Count(h: Heap, b: Buffer): nat {
    if b in h.count then h.count[b] else 0
  }

  function One(c: bool): nat {
    if c then 1 else 0
  }

  /** Taking or giving up a reference changes the count of its buffer by one, and no other. */
  lemma AddRefCounts(h: Heap, b: Buffer, c: Buffer)
    requires b in h.count
    ensures Count(AddRef(h, b), c) == Count(h, c) + One(c == b)
    ensures c in AddRef(h, b).count <==> c in h.count
  {
  }

  lemma ReleaseOneCounts(h: Heap, b: Buffer, c: Buffer)
    requires b in h.count && h.count[b] > 0
    ensures Count(Release(h, b), c) == Count(h, c) - One(c == b)
    ensures c in Release(h, b).count <==> c in h.count && !(c == b && h.count[b] == 1)
    ensures Release(h, b).freed[c] == h.freed[c] + One(c == b && h.count[b] == 1)
  {
  }

  // ---- Requests and their replies ----

  /** What a request asks for.  A hash get that finds nothing may be answered by the other database
      first. */
  datatype Kind = Set | Get | Gets | HSet | HGet(fallback: bool) | Del | HDel | Expire

  type Kinds = nat -> Kind

  /** The replies to a request, each with whether its creator releases it after pushing it. */
  function Replies(kind: Kind): seq<bool> {
    match kind
    case Set => [true]
    case Get => [true]
    case HSet => [true]
    case Gets => [false]
    case HGet(fallback) => if fallback then [false, true] else [true]
    case _ => []
  }

  function RepliesTo(n: nat, kinds: Kinds): (r: seq<Buffer>)
    ensures |r| == |Replies(kinds(n))|
  {
    seq(|Replies(kinds(n))|, i requires i >= 0 => Rep(n, i))
  }

  function AllReplies(handled: seq<nat>, kinds: Kinds): seq<Buffer> {
    if handled == [] then []
    else AllReplies(handled[..|handled| - 1], kinds) + RepliesTo(handled[|handled| - 1], kinds)
  }

  // ---- The two threads ----

  /** Of the reply that comes next: it does not exist yet, it exists, it has been queued. */
  datatype Phase = Ready | Made | Queued

  datatype Worker = Idle | Handling(n: nat, i: nat, phase: Phase) | Exited

  /** The main thread has taken a reply, or has passed it on and not released it yet. */
  datatype Main = Free | Got(b: Buffer) | Told(b: Buffer)

  /** What has happened so far; the last two are what was left over at the end. */
  datatype History = History(
    pushed: seq<nat>, handled: seq<nat>, delivered: seq<Buffer>, dropped: seq<nat>, unread: seq<Buffer>)

  datatype State = State(
    created: nat,
    running: bool,
    requests: seq<nat>,
    responds: seq<Buffer>,
    worker: Worker,
    main: Main,
    heap: Heap,
    history: History)

  const INIT := State(0, true, [], [], Idle, Free, Heap(map[], multiset{}), History([], [], [], [], []))

  /** Each step is atomic: it is one counter operation, or happens under the mutex. */
  datatype Step =
    | CreateRequest | PushRequest(n: nat)
    | PopRequest | CreateReply | PushRespond | LeaveReply | FinishRequest
    | PopRespond | OnResponsed | ReleaseRespond
    | Stop | WorkerExits | DropRequest | DropRespond

  predicate Enabled(s: State, step: Step, kinds: Kinds) {
    match step
    case CreateRequest => s.running
    case PushRequest(n) => s.running && n < s.created && n !in s.history.pushed
    case PopRequest => s.worker == Idle && s.requests != []
    case CreateReply => s.worker.Handling? && s.worker.phase == Ready && s.worker.i < |Replies(kinds(s.worker.n))|
    case PushRespond => s.worker.Handling? && s.worker.phase == Made
    case LeaveReply => s.worker.Handling? && s.worker.phase == Queued
    case FinishRequest => s.worker.Handling? && s.worker.phase == Ready && s.worker.i == |Replies(kinds(s.worker.n))|
    case PopRespond => s.running && s.main == Free && s.responds != []
    case OnResponsed => s.main.Got?
    case ReleaseRespond => s.main.Told?
    case Stop => s.running && s.main == Free
    case WorkerExits => !s.running && s.worker == Idle
    case DropRequest => s.worker == Exited && s.requests != []
    case DropRespond => s.worker == Exited && s.requests == [] && s.responds != []
  }

  /** Whose counter a step touches: only live buffers may be. */
  predicate Touchable(s: State, step: Step) {
    match step
    case PushRequest(n) => Req(n) in s.heap.count
    case PushRespond => s.worker.Handling? && Rep(s.worker.n, s.worker.i) in s.heap.count
    case LeaveReply => s.worker.Handling? && Rep(s.worker.n, s.worker.i) in s.heap.count
    case FinishRequest => s.worker.Handling? && Req(s.worker.n) in s.heap.count
    case OnResponsed => s.main.Got? && s.main.b in s.heap.count
    case ReleaseRespond => s.main.Told? && s.main.b in s.heap.count
    case DropRequest => s.requests != [] && Req(s.requests[0]) in s.heap.count
    case DropRespond => s.responds != [] && s.responds[0] in s.heap.count
    case _ => true
  }

  predicate Allowed(s: State, step: Step, kinds: Kinds) {
    Shaped(s, kinds) && Enabled(s, step, kinds) && Touchable(s, step)
  }

  function Next(s: State, step: Step, kinds: Kinds): State
    requires Allowed(s, step, kinds)
  {
    var h, w := s.history, s.worker;
    match step
    case CreateRequest => s.(created := s.created + 1, heap := Create(s.heap, Req(s.created)))
    case PushRequest(n) =>
      s.(requests := s.requests + [n], heap := AddRef(s.heap, Req(n)), history := h.(pushed := h.pushed + [n]))
    case PopRequest => s.(requests := s.requests[1..], worker := Handling(s.requests[0], 0, Ready))
    case CreateReply => s.(worker := w.(phase := Made), heap := Create(s.heap, Rep(w.n, w.i)))
    case PushRespond =>
      s.(worker := w.(phase := Queued), responds := s.responds + [Rep(w.n, w.i)], heap := AddRef(s.heap, Rep(w.n, w.i)))
    case LeaveReply =>
      s.(worker := Handling(w.n, w.i + 1, Ready),
         heap := if Replies(kinds(w.n))[w.i] then Release(s.heap, Rep(w.n, w.i)) else s.heap)
    case FinishRequest =>
      s.(worker := Idle, heap := Release(s.heap, Req(w.n)), history := h.(handled := h.handled + [w.n]))
    case PopRespond => s.(responds := s.responds[1..], main := Got(s.responds[0]))
    case OnResponsed => s.(main := Told(s.main.b), history := h.(delivered := h.delivered + [s.main.b]))
    case ReleaseRespond => s.(main := Free, heap := Release(s.heap, s.main.b))
    case Stop => s.(running := false)
    case WorkerExits => s.(worker := Exited)
    case DropRequest =>
      s.(requests := s.requests[1..], heap := Release(s.heap, Req(s.requests[0])),
         history := h.(dropped := h.dropped + [s.requests[0]]))
    case DropRespond =>
      s.(responds := s.responds[1..], heap := Release(s.heap, s.responds[0]),
         history := h.(unread := h.unread + [s.responds[0]]))
  }

  // ---- First in, first out ----

  predicate Shaped(s: State, kinds: Kinds) {
    && (s.worker.Handling? ==> s.worker.i <= |Replies(kinds(s.worker.n))|)
    && (s.worker.Handling? && s.worker.phase != Ready ==> s.worker.i < |Replies(kinds(s.worker.n))|)
    && (!s.running ==> s.main == Free)
    && (s.worker == Exited ==> !s.running)
    && (s.worker != Exited ==> s.history.dropped == [] && s.history.unread == [])
  }

  predicate NoDuplicates(q: seq<nat>) {
    forall i, j :: 0 <= i < j < |q| ==> q[i] != q[j]
  }

  /** The request that the worker is handling. */
  function InHand(s: State): seq<nat> {
    if s.worker.Handling? then [s.worker.n] else []
  }

  /** Requests handled, in hand, left over and queued are the requests pushed, in this order. */
  predicate RequestsInOrder(s: State) {
    s.history.handled + InHand(s) + s.history.dropped + s.requests == s.history.pushed
  }

  /** How many replies to the request in hand have been queued. */
  function Sent(w: Worker): nat
    requires w.Handling?
  {
    if w.phase == Queued then w.i + 1 else w.i
  }

  /** The replies that the worker has queued so far. */
  function Answered(s: State, kinds: Kinds): seq<Buffer>
    requires Shaped(s, kinds)
  {
    AllReplies(s.history.handled, kinds) +
    if s.worker.Handling? then RepliesTo(s.worker.n, kinds)[..Sent(s.worker)] else []
  }

  /** The reply that the main thread has taken and not passed on yet. */
  function Taken(s: State): seq<Buffer> {
    if s.main.Got? then [s.main.b] else []
  }

  /** Replies delivered, taken, left over and queued are those of the requests handled, in order. */
  predicate RepliesInOrder(s: State, kinds: Kinds)
    requires Shaped(s, kinds)
  {
    s.history.delivered + Taken(s) + s.history.unread + s.responds == Answered(s, kinds)
  }

  predicate Ordered(s: State, kinds: Kinds) {
    && Shaped(s, kinds) && RequestsInOrder(s) && RepliesInOrder(s, kinds)
    && NoDuplicates(s.history.pushed)
    && forall i :: 0 <= i < |s.history.pushed| ==> s.history.pushed[i] < s.created
  }

  // ---- References owed ----

  /** The buffer has been created. */
  predicate Exists(s: State, b: Buffer, kinds: Kinds) {
    match b
    case Req(n) => n < s.created
    case Rep(n, i) =>
      && i < |Replies(kinds(n))|
      && (n in s.history.handled || (s.worker.Handling? && s.worker.n == n && (i < s.worker.i || AtReply(s, b))))
  }

  /** The worker has created this reply and is still at it. */
  predicate AtReply(s: State, b: Buffer) {
    b.Rep? && s.worker.Handling? && s.worker.phase != Ready && s.worker.n == b.n && s.worker.i == b.i
  }

  /** The creator of a request never gives its reference up; the creator of a reply does, for most
      kinds, when it is done with it. */
  predicate CreatorHolds(s: State, b: Buffer, kinds: Kinds) {
    Exists(s, b, kinds) && (b.Req? || !Replies(kinds(b.n))[b.i] || AtReply(s, b))
  }

  predicate WorkerHolds(s: State, b: Buffer) {
    b.Req? && s.worker.Handling? && s.worker.n == b.n
  }

  predicate MainHolds(s: State, b: Buffer) {
    !s.main.Free? && s.main.b == b
  }

  function InQueues(s: State, b: Buffer): nat {
    (if b.Req? then multiset(s.requests)[b.n] else 0) + multiset(s.responds)[b]
  }

  /** The references that someone still has to give up. */
  function Owed(s: State, b: Buffer, kinds: Kinds): nat {
    One(CreatorHolds(s, b, kinds)) + InQueues(s, b) + One(WorkerHolds(s, b)) + One(MainHolds(s, b))
  }

  /** The count of a buffer is the number of references owed; a buffer that exists is either live or
      has been freed, once. */
  predicate Counted(s: State, b: Buffer, kinds: Kinds) {
    && Count(s.heap, b) == Owed(s, b, kinds)
    && (b in s.heap.count ==> s.heap.count[b] > 0)
    && s.heap.freed[b] + One(b in s.heap.count) == One(Exists(s, b, kinds))
  }

  ghost predicate Inv(s: State, kinds: Kinds) {
    && Ordered(s, kinds)
    && forall b :: Counted(s, b, kinds)
  }

  // ---- Every step keeps the invariant ----

  lemma HeadCounts<T>(q: seq<T>)
    requires q != []
    ensures multiset(q)[q[0]] >= 1
    ensures forall x :: multiset(q)[x] == multiset(q[1..])[x] + if x == q[0] then 1 else 0
  {
    assert q == [q[0]] + q[1..];
  }

  lemma TailCounts<T>(q: seq<T>, y: T, x: T)
    ensures multiset(q + [y])[x] == multiset(q)[x] + One(x == y)
  {
  }

  /** No step touches the counter of a buffer that has been freed. */
  lemma NoUseAfterFree(s: State, step: Step, kinds: Kinds)
    requires Inv(s, kinds) && Enabled(s, step, kinds)
    ensures Touchable(s, step)
  {
    match step
    case PushRequest(n) => assert Counted(s, Req(n), kinds);
    case PushRespond => assert Counted(s, Rep(s.worker.n, s.worker.i), kinds);
    case LeaveReply => assert Counted(s, Rep(s.worker.n, s.worker.i), kinds);
    case FinishRequest => assert Counted(s, Req(s.worker.n), kinds);
    case OnResponsed => assert Counted(s, s.main.b, kinds);
    case ReleaseRespond => assert Counted(s, s.main.b, kinds);
    case DropRequest =>
      HeadCounts(s.requests);
      assert Counted(s, Req(s.requests[0]), kinds);
    case DropRespond =>
      assert Counted(s, s.responds[0], kinds);
      HeadCounts(s.responds);
    case _ =>
  }

  lemma {:induction false} AllRepliesAppend(handled: seq<nat>, n: nat, kinds: Kinds)
    ensures AllReplies(handled + [n], kinds) == AllReplies(handled, kinds) + RepliesTo(n, kinds)
  {
    assert (handled + [n])[..|handled|] == handled;
  }

  lemma AppendTo<T>(a: seq<T>, b: seq<T>, c: seq<T>, d: seq<T>, x: T, all: seq<T>)
    requires a + b + c + d == all
    ensures a + b + c + (d + [x]) == all + [x]
  {
  }

  /** The first of a queue moves to the end of what has been taken out of it. */
  lemma MoveFirst<T>(a: seq<T>, q: seq<T>)
    requires q != []
    ensures (a + [q[0]]) + q[1..] == a + q
  {
  }

  lemma PoppedInOrder(s: State, kinds: Kinds)
    requires Ordered(s, kinds) && Enabled(s, PopRequest, kinds)
    ensures RequestsInOrder(Next(s, PopRequest, kinds))
  {
    var done, q := s.history.handled, s.requests;
    MoveFirst(done, q);
    assert done + [] + [] + q == done + q;
    assert done + [q[0]] + [] + q[1..] == done + [q[0]] + q[1..];
  }

  lemma DroppedInOrder(s: State, kinds: Kinds)
    requires Ordered(s, kinds) && Enabled(s, DropRequest, kinds) && Touchable(s, DropRequest)
    ensures RequestsInOrder(Next(s, DropRequest, kinds))
  {
    var done, dropped, q := s.history.handled, s.history.dropped, s.requests;
    MoveFirst(dropped, q);
    assert done + [] + dropped + q == done + (dropped + q);
    assert done + [] + (dropped + [q[0]]) + q[1..] == done + (dropped + [q[0]] + q[1..]);
  }

  lemma RequestsStayInOrder(s: State, step: Step, kinds: Kinds)
    requires Ordered(s, kinds) && Enabled(s, step, kinds) && Touchable(s, step)
    ensures RequestsInOrder(Next(s, step, kinds))
  {
    var h := s.history;
    match step
    case PushRequest(n) => AppendTo(h.handled, InHand(s), h.dropped, s.requests, n, h.pushed);
    case PopRequest => PoppedInOrder(s, kinds);
    case FinishRequest =>
      assert h.handled + [s.worker.n] + [] + s.requests == (h.handled + [s.worker.n]) + [] + [] + s.requests;
    case DropRequest => DroppedInOrder(s, kinds);
    case _ =>
  }

  lemma QueuedInOrder(s: State, kinds: Kinds)
    requires Ordered(s, kinds) && Enabled(s, PushRespond, kinds) && Touchable(s, PushRespond)
    ensures Answered(Next(s, PushRespond, kinds), kinds) == Answered(s, kinds) + [Rep(s.worker.n, s.worker.i)]
  {
    var w, all := s.worker, AllReplies(s.history.handled, kinds);
    var r := RepliesTo(w.n, kinds);
    assert r[..w.i + 1] == r[..w.i] + [Rep(w.n, w.i)];
    assert all + r[..w.i + 1] == all + r[..w.i] + [Rep(w.n, w.i)];
  }

  lemma TakenInOrder(s: State, step: Step, kinds: Kinds)
    requires Ordered(s, kinds) && Enabled(s, step, kinds) && Touchable(s, step)
    requires step.PopRespond? || step.OnResponsed? || step.DropRespond?
    ensures var h, t := s.history, Next(s, step, kinds);
            t.history.delivered + Taken(t) + t.history.unread + t.responds ==
            h.delivered + Taken(s) + h.unread + s.responds
  {
    var h, t := s.history, Next(s, step, kinds);
    match step
    case PopRespond =>
      MoveFirst(h.delivered, s.responds);
      assert h.delivered + [] + [] + s.responds == h.delivered + s.responds;
      assert h.delivered + Taken(t) + [] + t.responds == h.delivered + [s.responds[0]] + s.responds[1..];
    case OnResponsed =>
      assert h.delivered + [s.main.b] + h.unread + s.responds ==
        (h.delivered + [s.main.b]) + [] + h.unread + s.responds;
    case DropRespond =>
      MoveFirst(h.unread, s.responds);
      assert h.delivered + [] + h.unread + s.responds == h.delivered + (h.unread + s.responds);
      assert h.delivered + [] + t.history.unread + t.responds == h.delivered + (t.history.unread + t.responds);
    case _ =>
  }

  lemma TakingRequestsAnswersNone(s: State, kinds: Kinds)
    requires Ordered(s, kinds) && Enabled(s, PopRequest, kinds)
    ensures Shaped(Next(s, PopRequest, kinds), kinds) &&
            Answered(Next(s, PopRequest, kinds), kinds) == Answered(s, kinds)
  {
    assert RepliesTo(s.requests[0], kinds)[..0] == [];
  }

  lemma FinishingAnswersAll(s: State, kinds: Kinds)
    requires Ordered(s, kinds) && Enabled(s, FinishRequest, kinds) && Touchable(s, FinishRequest)
    ensures Shaped(Next(s, FinishRequest, kinds), kinds)
    ensures Answered(Next(s, FinishRequest, kinds), kinds) == Answered(s, kinds)
  {
    var done, replies := AllReplies(s.history.handled, kinds), RepliesTo(s.worker.n, kinds);
    AllRepliesAppend(s.history.handled, s.worker.n, kinds);
    assert replies[..|replies|] == replies;
    assert done + replies + [] == done + replies;
  }

  lemma RepliesStayInOrder(s: State, step: Step, kinds: Kinds)
    requires Ordered(s, kinds) && Enabled(s, step, kinds) && Touchable(s, step)
    ensures Shaped(Next(s, step, kinds), kinds) && RepliesInOrder(Next(s, step, kinds), kinds)
  {
    match step
    case PopRespond => TakenInOrder(s, step, kinds);
    case OnResponsed => TakenInOrder(s, step, kinds);
    case DropRespond => TakenInOrder(s, step, kinds);
    case PushRespond =>
      var h, reply := s.history, Rep(s.worker.n, s.worker.i);
      QueuedInOrder(s, kinds);
      AppendTo(h.delivered, Taken(s), h.unread, s.responds, reply, Answered(s, kinds));
    case PopRequest => TakingRequestsAnswersNone(s, kinds);
    case FinishRequest => FinishingAnswersAll(s, kinds);
    case _ =>
  }

  lemma StaysOrdered(s: State, step: Step, kinds: Kinds)
    requires Ordered(s, kinds) && Enabled(s, step, kinds) && Touchable(s, step)
    ensures Ordered(Next(s, step, kinds), kinds)
  {
    RequestsStayInOrder(s, step, kinds);
    RepliesStayInOrder(s, step, kinds);
  }

  lemma PushedOnce(s: State, kinds: Kinds)
    requires Ordered(s, kinds) && s.requests != []
    ensures s.requests[0] !in s.history.handled && s.requests[0] < s.created
  {
    var h := s.history;
    var k := |h.handled + InHand(s) + h.dropped|;
    assert h.pushed[k] == s.requests[0];
    forall i | 0 <= i < |h.handled|
      ensures h.handled[i] != s.requests[0]
    {
      assert h.pushed[i] == h.handled[i];
    }
  }

  lemma InHandOnce(s: State, kinds: Kinds)
    requires Ordered(s, kinds) && s.worker.Handling?
    ensures s.worker.n !in s.history.handled
  {
    var h := s.history;
    assert h.pushed[|h.handled|] == s.worker.n;
    forall i | 0 <= i < |h.handled|
      ensures h.handled[i] != s.worker.n
    {
      assert h.pushed[i] == h.handled[i];
    }
  }

  /** What a step does to the counter of a buffer. */
  lemma CreateCounts(s: State, b: Buffer, step: Step, kinds: Kinds)
    requires Ordered(s, kinds) && Counted(s, b, kinds)
    requires Enabled(s, step, kinds) && (step.CreateRequest? || step.CreateReply?)
    requires step.CreateRequest? ==> Counted(s, Req(s.created), kinds)
    requires step.CreateReply? ==> Counted(s, Rep(s.worker.n, s.worker.i), kinds)
    ensures Counted(Next(s, step, kinds), b, kinds)
  {
    if step.CreateReply? {
      InHandOnce(s, kinds);
    }
  }

  lemma PushRequestCounts(s: State, b: Buffer, n: nat, kinds: Kinds)
    requires Ordered(s, kinds) && Counted(s, b, kinds)
    requires Enabled(s, PushRequest(n), kinds) && Touchable(s, PushRequest(n))
    ensures Counted(Next(s, PushRequest(n), kinds), b, kinds)
  {
    AddRefCounts(s.heap, Req(n), b);
    TailCounts(s.requests, n, b.n);
  }

  lemma PushRespondCounts(s: State, b: Buffer, kinds: Kinds)
    requires Ordered(s, kinds) && Counted(s, b, kinds)
    requires Enabled(s, PushRespond, kinds) && Touchable(s, PushRespond)
    ensures Counted(Next(s, PushRespond, kinds), b, kinds)
  {
    AddRefCounts(s.heap, Rep(s.worker.n, s.worker.i), b);
    TailCounts(s.responds, Rep(s.worker.n, s.worker.i), b);
  }

  lemma TakeCounts(s: State, b: Buffer, step: Step, kinds: Kinds)
    requires Ordered(s, kinds) && Counted(s, b, kinds)
    requires Enabled(s, step, kinds) && (step.PopRequest? || step.PopRespond?)
    ensures Counted(Next(s, step, kinds), b, kinds)
  {
    if step.PopRequest? {
      HeadCounts(s.requests);
      PushedOnce(s, kinds);
    } else {
      HeadCounts(s.responds);
    }
  }

  lemma LeaveCounts(s: State, b: Buffer, kinds: Kinds)
    requires Ordered(s, kinds) && Counted(s, b, kinds)
    requires Enabled(s, LeaveReply, kinds) && Touchable(s, LeaveReply)
    requires Counted(s, Rep(s.worker.n, s.worker.i), kinds)
    ensures Counted(Next(s, LeaveReply, kinds), b, kinds)
  {
    var reply := Rep(s.worker.n, s.worker.i);
    ReleaseOneCounts(s.heap, reply, b);
  }

  lemma FinishCounts(s: State, b: Buffer, kinds: Kinds)
    requires Ordered(s, kinds) && Counted(s, b, kinds)
    requires Enabled(s, FinishRequest, kinds) && Touchable(s, FinishRequest)
    requires Counted(s, Req(s.worker.n), kinds)
    ensures Counted(Next(s, FinishRequest, kinds), b, kinds)
  {
    ReleaseOneCounts(s.heap, Req(s.worker.n), b);
  }

  lemma ReleaseCounts(s: State, b: Buffer, kinds: Kinds)
    requires Ordered(s, kinds) && Counted(s, b, kinds)
    requires Enabled(s, ReleaseRespond, kinds) && Touchable(s, ReleaseRespond)
    requires Counted(s, s.main.b, kinds)
    ensures Counted(Next(s, ReleaseRespond, kinds), b, kinds)
  {
    ReleaseOneCounts(s.heap, s.main.b, b);
  }

  lemma DropRequestCounts(s: State, b: Buffer, kinds: Kinds)
    requires Ordered(s, kinds) && Counted(s, b, kinds)
    requires Enabled(s, DropRequest, kinds) && Touchable(s, DropRequest)
    requires Counted(s, Req(s.requests[0]), kinds)
    ensures Counted(Next(s, DropRequest, kinds), b, kinds)
  {
    ReleaseOneCounts(s.heap, Req(s.requests[0]), b);
    HeadCounts(s.requests);
  }

  lemma DropRespondCounts(s: State, b: Buffer, kinds: Kinds)
    requires Ordered(s, kinds) && Counted(s, b, kinds)
    requires Enabled(s, DropRespond, kinds) && Touchable(s, DropRespond)
    requires Counted(s, s.responds[0], kinds)
    ensures Counted(Next(s, DropRespond, kinds), b, kinds)
  {
    ReleaseOneCounts(s.heap, s.responds[0], b);
    HeadCounts(s.responds);
  }

  lemma StaysCounted(s: State, b: Buffer, step: Step, kinds: Kinds)
    requires Inv(s, kinds) && Enabled(s, step, kinds) && Touchable(s, step)
    ensures Counted(Next(s, step, kinds), b, kinds)
  {
    match step
    case CreateRequest => CreateCounts(s, b, step, kinds);
    case CreateReply => CreateCounts(s, b, step, kinds);
    case PushRequest(n) => PushRequestCounts(s, b, n, kinds);
    case PushRespond => PushRespondCounts(s, b, kinds);
    case PopRequest => TakeCounts(s, b, step, kinds);
    case PopRespond => TakeCounts(s, b, step, kinds);
    case LeaveReply => LeaveCounts(s, b, kinds);
    case FinishRequest => FinishCounts(s, b, kinds);
    case ReleaseRespond => ReleaseCounts(s, b, kinds);
    case DropRequest => DropRequestCounts(s, b, kinds);
    case DropRespond => DropRespondCounts(s, b, kinds);
    case _ => assert Counted(s, b, kinds);
  }

  /** Every step of either thread keeps the invariant. */
  lemma NextKeeps(s: State, step: Step, kinds: Kinds)
    requires Inv(s, kinds) && Enabled(s, step, kinds)
    ensures Allowed(s, step, kinds) && Inv(Next(s, step, kinds), kinds)
  {
    NoUseAfterFree(s, step, kinds);
    StaysOrdered(s, step, kinds);
    forall b
      ensures Counted(Next(s, step, kinds), b, kinds)
    {
      StaysCounted(s, b, step, kinds);
    }
  }

  // ---- Whole runs ----

  ghost predicate Legal(run: seq<Step>, kinds: Kinds)
    decreases |run|, 0
  {
    run == [] ||
    var n := |run| - 1;
    Legal(run[..n], kinds) && Enabled(Run(run[..n], kinds), run[n], kinds)
  }

  lemma InitHolds(kinds: Kinds)
    ensures Inv(INIT, kinds)
  {
    assert AllReplies([], kinds) == [];
  }

  /** The state after an interleaving of the threads' steps. */
  ghost function Run(run: seq<Step>, kinds: Kinds): (s: State)
    requires Legal(run, kinds)
    ensures Inv(s, kinds)
    decreases |run|, 1
  {
    if run == [] then
      InitHolds(kinds);
      INIT
    else
      var n := |run| - 1;
      NextKeeps(Run(run[..n], kinds), run[n], kinds);
      Next(Run(run[..n], kinds), run[n], kinds)
  }

  /** In every interleaving: first in, first out, on the way there and on the way back.  Nothing is
      lost and nothing comes twice. */
  lemma FirstInFirstOut(run: seq<Step>, kinds: Kinds)
    requires Legal(run, kinds)
    ensures var s := Run(run, kinds);
      && s.history.handled + InHand(s) + s.history.dropped + s.requests == s.history.pushed
      && s.history.delivered + Taken(s) + s.history.unread + s.responds == Answered(s, kinds)
      && NoDuplicates(s.history.pushed)
  {
  }

  predicate Quiet(s: State) {
    s.worker == Idle && s.main == Free && s.requests == [] && s.responds == []
  }

  /** Whenever both queues are empty and both threads idle, every request pushed has been handled, and
      exactly its replies have been delivered, in the order of the requests.  Every reachable state is
      `Ordered`. */
  lemma AllIsDelivered(s: State, kinds: Kinds)
    requires Ordered(s, kinds) && Quiet(s)
    ensures s.history.handled == s.history.pushed && s.history.delivered == AllReplies(s.history.pushed, kinds)
  {
    var h := s.history;
    assert h.handled + [] + [] + [] == h.handled;
    assert h.delivered + [] + [] + [] == h.delivered;
    assert AllReplies(h.handled, kinds) + [] == AllReplies(h.handled, kinds);
  }

  /** Someone still needs the buffer: it is queued, or a thread is at it. */
  predicate InUse(s: State, b: Buffer) {
    InQueues(s, b) > 0 || WorkerHolds(s, b) || MainHolds(s, b) || AtReply(s, b)
  }

  lemma UsedIsLive(s: State, b: Buffer, kinds: Kinds)
    requires Inv(s, kinds)
    ensures Count(s.heap, b) == Owed(s, b, kinds) && s.heap.freed[b] <= 1
    ensures InUse(s, b) ==> b in s.heap.count && s.heap.freed[b] == 0
  {
    assert Counted(s, b, kinds);
  }

  /** In every interleaving a buffer's count is the number of references owed, no buffer in use has been
      freed, and none is freed twice. */
  lemma NeverFreedInUse(run: seq<Step>, kinds: Kinds, b: Buffer)
    requires Legal(run, kinds)
    ensures var s := Run(run, kinds);
      && Count(s.heap, b) == Owed(s, b, kinds)
      && (InUse(s, b) ==> b in s.heap.count && s.heap.freed[b] == 0)
      && s.heap.freed[b] <= 1
  {
    UsedIsLive(Run(run, kinds), b, kinds);
  }

  lemma {:induction false} InAllReplies(handled: seq<nat>, n: nat, i: nat, kinds: Kinds)
    requires n in handled && i < |Replies(kinds(n))|
    ensures Rep(n, i) in AllReplies(handled, kinds)
  {
    var k := |handled| - 1;
    if handled[k] == n {
      assert RepliesTo(n, kinds)[i] == Rep(n, i);
    } else {
      assert handled == handled[..k] + [handled[k]];
      InAllReplies(handled[..k], n, i, kinds);
    }
  }

  /** A reply that the worker has left has been queued, so it has come out at the other end or is
      still on the way. */
  lemma LeftIsAnswered(s: State, n: nat, i: nat, kinds: Kinds)
    requires Inv(s, kinds) && Exists(s, Rep(n, i), kinds) && !AtReply(s, Rep(n, i))
    ensures Rep(n, i) in Answered(s, kinds)
  {
    if n in s.history.handled {
      InAllReplies(s.history.handled, n, i, kinds);
    } else {
      var front := RepliesTo(n, kinds)[..Sent(s.worker)];
      assert front[i] == Rep(n, i);
    }
  }

  /** A reply whose creator releases it is freed exactly when it has been created and nobody is at it
      any more, and by then it has been delivered, or left over at the end.  Whichever thread comes last
      frees it. */
  lemma ReplyFreedAfterDelivery(run: seq<Step>, kinds: Kinds, n: nat, i: nat)
    requires Legal(run, kinds) && i < |Replies(kinds(n))| && Replies(kinds(n))[i]
    ensures var s, b := Run(run, kinds), Rep(n, i);
      && (s.heap.freed[b] == 1 <==> Exists(s, b, kinds) && !InUse(s, b))
      && (s.heap.freed[b] == 1 ==> b in s.history.delivered || b in s.history.unread)
  {
    var s, b := Run(run, kinds), Rep(n, i);
    assert Counted(s, b, kinds);
    if s.heap.freed[b] == 1 {
      LeftIsAnswered(s, n, i, kinds);
      assert b in s.history.delivered + Taken(s) + s.history.unread + s.responds;
      assert b !in s.responds;
    }
  }

  /** Requests, and the replies whose creators do not release them, are never freed. */
  lemma {:induction false} NeverReleased(run: seq<Step>, kinds: Kinds, b: Buffer)
    requires Legal(run, kinds) && (b.Req? || (b.i < |Replies(kinds(b.n))| && !Replies(kinds(b.n))[b.i]))
    ensures Run(run, kinds).heap.freed[b] == 0
  {
    assert Counted(Run(run, kinds), b, kinds);
  }

  // ---- What each kind of request comes to ----

  /** The replies to a request among these, in order. */
  function AnswersTo(n: nat, replies: seq<Buffer>): seq<Buffer> {
    if replies == [] then []
    else
      var k := |replies| - 1;
      AnswersTo(n, replies[..k]) + if replies[k].n == n then [replies[k]] else []
  }

  lemma {:induction false} AnswersConcat(n: nat, a: seq<Buffer>, b: seq<Buffer>)
    ensures AnswersTo(n, a + b) == AnswersTo(n, a) + AnswersTo(n, b)
  {
    if b == [] {
      assert a + b == a;
    } else {
      var k := |b| - 1;
      AnswersConcat(n, a, b[..k]);
      assert (a + b)[..|a| + k] == a + b[..k] && (a + b)[|a| + k] == b[k];
    }
  }

  lemma {:induction false} OwnAnswers(n: nat, m: nat, replies: seq<Buffer>)
    requires forall i :: 0 <= i < |replies| ==> replies[i].n == m
    ensures AnswersTo(n, replies) == if n == m then replies else []
  {
    if replies != [] {
      var k := |replies| - 1;
      OwnAnswers(n, m, replies[..k]);
      assert replies == replies[..k] + [replies[k]];
    }
  }

  lemma LastIsNew(q: seq<nat>)
    requires NoDuplicates(q) && q != []
    ensures var k := |q| - 1;
            && NoDuplicates(q[..k]) && q[k] !in q[..k]
            && forall n :: n in q <==> n in q[..k] || n == q[k]
  {
    assert q == q[..|q| - 1] + [q[|q| - 1]];
  }

  /** A request that has been handled once is answered by its own replies. */
  lemma {:induction false} AnsweredOnce(n: nat, handled: seq<nat>, kinds: Kinds)
    requires NoDuplicates(handled)
    ensures AnswersTo(n, AllReplies(handled, kinds)) == if n in handled then RepliesTo(n, kinds) else []
  {
    if handled != [] {
      var k := |handled| - 1;
      AnsweredOnce(n, handled[..k], kinds);
      AnswersConcat(n, AllReplies(handled[..k], kinds), RepliesTo(handled[k], kinds));
      OwnAnswers(n, handled[k], RepliesTo(handled[k], kinds));
      LastIsNew(handled);
    }
  }

  /** One reply, or two, or none has come of a request; whether each has been freed. */
  predicate CameTo(s: State, n: nat, freed: seq<bool>) {
    var answers := AnswersTo(n, s.history.delivered);
    |answers| == |freed| && s.heap.freed[Req(n)] == 0 &&
    forall i: nat :: i < |freed| ==> answers[i] == Rep(n, i) && s.heap.freed[answers[i]] == if freed[i] then 1 else 0
  }

  lemma {:induction false} ComesTo(run: seq<Step>, kinds: Kinds, n: nat)
    requires Legal(run, kinds) && Quiet(Run(run, kinds)) && n in Run(run, kinds).history.pushed
    ensures CameTo(Run(run, kinds), n, Replies(kinds(n)))
  {
    var s, replies := Run(run, kinds), Replies(kinds(n));
    AllIsDelivered(s, kinds);
    AnsweredOnce(n, s.history.pushed, kinds);
    NeverReleased(run, kinds, Req(n));
    forall i: nat | i < |replies|
      ensures s.heap.freed[Rep(n, i)] == if replies[i] then 1 else 0
    {
      FreedIfReleased(run, kinds, n, i);
    }
  }

  lemma FreedIfReleased(run: seq<Step>, kinds: Kinds, n: nat, i: nat)
    requires Legal(run, kinds) && Quiet(Run(run, kinds)) && n in Run(run, kinds).history.pushed
    requires i < |Replies(kinds(n))|
    ensures Run(run, kinds).heap.freed[Rep(n, i)] == if Replies(kinds(n))[i] then 1 else 0
  {
    AllIsDelivered(Run(run, kinds), kinds);
    if Replies(kinds(n))[i] {
      ReplyFreedAfterDelivery(run, kinds, n, i);
    } else {
      NeverReleased(run, kinds, Rep(n, i));
    }
  }

  /** In every interleaving, once the queues are empty and the threads idle: a set, a get and a hash set have
      each been answered by one reply, which is freed; a multi-get by one that is not; a hash get by one that is
      freed, but one that fell back on the other database by one that is not and then one that is; deletions and
      expiries by none. */
  lemma {:induction false} AtQuietEnd(run: seq<Step>, kinds: Kinds, n: nat)
    requires Legal(run, kinds) && Quiet(Run(run, kinds)) && n in Run(run, kinds).history.pushed
    ensures var s := Run(run, kinds);
            match kinds(n)
            case Set => CameTo(s, n, [true])
            case Get => CameTo(s, n, [true])
            case HSet => CameTo(s, n, [true])
            case Gets => CameTo(s, n, [false])
            case HGet(fallback) => if fallback then CameTo(s, n, [false, true]) else CameTo(s, n, [true])
            case Del => CameTo(s, n, [])
            case HDel => CameTo(s, n, [])
            case Expire => CameTo(s, n, [])
  {
    ComesTo(run, kinds, n);
  }
}
