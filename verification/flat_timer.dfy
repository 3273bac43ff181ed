/** The specification of the timer service: a flat map from timer id to the frame in which it falls due. */
module FlatTimer {
  /** The length of a frame.  Time is in whole milliseconds. */
  const FRAME_MS := 100
  /** A timer this many frames ahead, or more, is refused (the product of the wheel sizes). */
  const HORIZON := 43200000

  /** `expires` and `cycle` are frame numbers; `cycle == 0` means a one-shot timer. */
  datatype Timer = Timer(id: nat, expires: int, cycle: nat)

  /** A pending timer, with the frame in which it is going to be called back. */
  datatype Entry = Entry(timer: Timer, due: int)

  /** What a caller, or a running callback, asks of the service. */
  datatype Op = Add(delay: int, cycle: nat) | Remove(id: nat)

  /** What one callback does: its requests in order, then its result. */
  datatype Reaction = Reaction(ops: seq<Op>, again: bool)

  /** `walking` holds while the callbacks of `frame` are being run. */
  datatype Flat = Flat(elapsed: int, frame: nat, counter: nat, walking: bool, pending: map<nat, Entry>)

  datatype Step =
    | User(op: Op)                      // a request made between two updates
    | Elapse(ms: nat)                   // an update is told how much time went by
    | Open                              // the next frame begins
    | Fire(id: nat, reaction: Reaction) // a callback runs
    | Close                             // the frame ends

  function Floor(ms: int): int { ms / FRAME_MS }

  function Expiry(s: Flat, delay: int): int {
    Floor(delay + s.elapsed) + s.frame
  }

  /** A timer that is already due goes to the next frame whose walk has not begun. */
  function Due(frame: nat, walking: bool, expires: int): int {
    if expires > frame then expires else if walking then frame + 1 else frame
  }

  function Arm(s: Flat, t: Timer, walking: bool): Flat {
    if t.expires - s.frame < HORIZON
    then s.(pending := s.pending[t.id := Entry(t, Due(s.frame, walking, t.expires))])
    else s
  }

  function Apply(s: Flat, op: Op): Flat {
    match op
    case Add(delay, cycle) =>
      Arm(s.(counter := s.counter + 1), Timer(s.counter + 1, Expiry(s, delay), cycle), s.walking)
    case Remove(id) => s.(pending := s.pending - {id})
  }

  function ApplyAll(s: Flat, ops: seq<Op>): Flat {
    if ops == [] then s else Apply(ApplyAll(s, ops[..|ops| - 1]), ops[|ops| - 1])
  }

  /** The callback runs, the timer is taken out, and is armed again if it is cyclic and the
      callback said so, whether or not the callback had removed it. */
  function FireTimer(s: Flat, id: nat, r: Reaction): Flat
    requires id in s.pending
  {
    var t := s.pending[id].timer;
    var after := Apply(ApplyAll(s, r.ops), Remove(id));
    if t.cycle > 0 && r.again
    then Arm(after, t.(expires := t.expires + t.cycle), false)
    else after
  }

  /** What the service demands of a request: no negative delay, and during a walk the first expiry of
      a timer that repeats in every frame must lie ahead. */
  predicate GoodOp(op: Op, elapsed: int, walking: bool) {
    op.Add? ==> op.delay >= 0 && (op.cycle == 1 && walking ==> op.delay + elapsed >= FRAME_MS)
  }

  predicate GoodReaction(r: Reaction, elapsed: int) {
    forall i :: 0 <= i < |r.ops| ==> GoodOp(r.ops[i], elapsed, true)
  }

  predicate Enabled(s: Flat, step: Step) {
    match step
    case User(op) => !s.walking && GoodOp(op, s.elapsed, false)
    case Elapse(_) => !s.walking
    case Open => !s.walking && s.elapsed > FRAME_MS
    case Fire(id, r) => s.walking && id in s.pending && s.pending[id].due == s.frame && GoodReaction(r, s.elapsed)
    case Close => s.walking && forall id :: id in s.pending ==> s.pending[id].due > s.frame
  }

  function Next(s: Flat, step: Step): Flat
    requires Enabled(s, step)
  {
    match step
    case User(op) => Apply(s, op)
    case Elapse(ms) => s.(elapsed := s.elapsed + ms)
    case Open => s.(elapsed := s.elapsed - FRAME_MS, walking := true)
    case Fire(id, r) => FireTimer(s, id, r)
    case Close => s.(frame := s.frame + 1, walking := false)
  }

  ghost predicate Legal(s: Flat, run: seq<Step>)
    decreases |run|, 0
  {
    run == [] || var n := |run| - 1; Legal(s, run[..n]) && Enabled(Run(s, run[..n]), run[n])
  }

  ghost function Run(s: Flat, run: seq<Step>): Flat
    requires Legal(s, run)
    decreases |run|, 1
  {
    if run == [] then s else var n := |run| - 1; Next(Run(s, run[..n]), run[n])
  }

  /** What every reachable state satisfies.  A timer is late by at most one frame, and a cyclic
      timer always has its next expiry still ahead of the frame in which it is called. */
  ghost predicate Sound(s: Flat) {
    && s.elapsed >= 0
    && (s.walking ==> s.elapsed > 0)
    && forall id :: id in s.pending ==> SoundEntry(s, id, s.pending[id])
  }

  ghost predicate SoundEntry(s: Flat, id: nat, e: Entry) {
    && e.timer.id == id <= s.counter
    && e.timer.expires <= e.due <= e.timer.expires + 1
    && s.frame <= e.due < s.frame + HORIZON
    && (e.timer.cycle > 0 ==> e.timer.expires + e.timer.cycle > e.due)
  }

  lemma AddIsArm(s: Flat, delay: int, cycle: nat)
    ensures var t := Apply(s, Add(delay, cycle));
            && t == Flat(s.elapsed, s.frame, s.counter + 1, s.walking, t.pending)
            && t.pending ==
               Arm(s.(counter := s.counter + 1), Timer(s.counter + 1, Expiry(s, delay), cycle), s.walking).pending
  {
  }

  /** Exactly the good requests yield timers that, if they are cyclic, have their second expiry ahead of
      the frame in which they are called first: the cycle has two frames or more, or the timer is not
      called late. */
  lemma GoodIffAhead(s: Flat, delay: nat, cycle: nat)
    requires s.elapsed >= 0
    ensures var expires := Expiry(s, delay);
            var due := Due(s.frame, s.walking, expires);
            && (GoodOp(Add(delay, cycle), s.elapsed, s.walking) <==> cycle == 0 || expires + cycle > due)
            && (cycle > 0 ==> (expires + cycle > due <==> cycle >= 2 || expires == due))
  {
  }

  lemma ArmSound(s: Flat, t: Timer)
    requires Sound(s) && s.frame < t.expires && t.id <= s.counter
    ensures Sound(Arm(s, t, false))
  {
  }

  lemma ApplySound(s: Flat, op: Op)
    requires Sound(s) && GoodOp(op, s.elapsed, s.walking)
    ensures Sound(Apply(s, op))
  {
    if op.Add? {
      var id := s.counter + 1;
      var t := Apply(s, op);
      if id in t.pending && Expiry(s, op.delay) - s.frame < HORIZON {
        assert SoundEntry(t, id, t.pending[id]);
      }
    }
  }

  lemma {:induction false} ApplyAllSound(s: Flat, ops: seq<Op>)
    requires Sound(s) && forall i :: 0 <= i < |ops| ==> GoodOp(ops[i], s.elapsed, s.walking)
    ensures Sound(ApplyAll(s, ops))
    ensures var t := ApplyAll(s, ops); t.elapsed == s.elapsed && t.frame == s.frame && t.walking == s.walking
    ensures ApplyAll(s, ops).counter >= s.counter
  {
    if ops != [] {
      var n := |ops| - 1;
      ApplyAllSound(s, ops[..n]);
      ApplySound(ApplyAll(s, ops[..n]), ops[n]);
    }
  }

  /** Requests are served in order: first those of `a`, then those of `b`. */
  lemma {:induction false} ApplyAllConcat(s: Flat, a: seq<Op>, b: seq<Op>)
    ensures ApplyAll(s, a + b) == ApplyAll(ApplyAll(s, a), b)
  {
    if b == [] {
      assert a + b == a;
    } else {
      var n := |b| - 1;
      ApplyAllConcat(s, a, b[..n]);
      assert (a + b)[..|a + b| - 1] == a + b[..n];
    }
  }

  lemma ApplyAllExtend(s: Flat, ops: seq<Op>, i: nat)
    requires i < |ops|
    ensures ApplyAll(s, ops[..i + 1]) == Apply(ApplyAll(s, ops[..i]), ops[i])
  {
    assert ops[..i + 1][..i] == ops[..i];
  }

  /** What a callback leaves behind, before and after the timer is armed again for `next`. */
  lemma FiredOnce(s: Flat, id: nat, r: Reaction, after: Flat, next: Timer)
    requires Sound(s) && s.walking && id in s.pending && s.pending[id].due == s.frame && GoodReaction(r, s.elapsed)
    requires after == Apply(ApplyAll(s, r.ops), Remove(id))
    requires var t := s.pending[id].timer; next == t.(expires := t.expires + t.cycle)
    ensures id !in after.pending && next.id == id <= after.counter
    ensures next.cycle > 0 ==> next.expires > after.frame
    ensures FireTimer(s, id, r) == if next.cycle > 0 && r.again then Arm(after, next, false) else after
  {
    assert SoundEntry(s, id, s.pending[id]);
    ApplyAllSound(s, r.ops);
  }

  lemma NextSound(s: Flat, step: Step)
    requires Sound(s) && Enabled(s, step)
    ensures Sound(Next(s, step))
  {
    match step
    case User(op) => ApplySound(s, op);
    case Elapse(_) =>
    case Open =>
    case Close =>
    case Fire(id, r) => ApplyAllSound(s, r.ops);
  }

  /** Every state of every run is sound. */
  lemma {:induction false} RunSound(s: Flat, run: seq<Step>)
    requires Sound(s) && Legal(s, run)
    ensures Sound(Run(s, run))
  {
    if run != [] {
      var n := |run| - 1;
      RunSound(s, run[..n]);
      NextSound(Run(s, run[..n]), run[n]);
    }
  }

  lemma {:induction false} RunExtend(s: Flat, run: seq<Step>, step: Step)
    requires Legal(s, run) && Enabled(Run(s, run), step)
    ensures Legal(s, run + [step]) && Run(s, run + [step]) == Next(Run(s, run), step)
  {
    assert (run + [step])[..|run|] == run;
  }

  lemma {:induction false} RunConcat(s: Flat, a: seq<Step>, b: seq<Step>)
    requires Legal(s, a) && Legal(Run(s, a), b)
    ensures Legal(s, a + b) && Run(s, a + b) == Run(Run(s, a), b)
  {
    if b == [] {
      assert a + b == a;
    } else {
      var n := |b| - 1;
      RunConcat(s, a, b[..n]);
      assert (a + b)[..|a + b| - 1] == a + b[..n];
    }
  }

  /** What the callbacks of a run did, in order. */
  function Reactions(run: seq<Step>): seq<Reaction> {
    if run == [] then []
    else
      var n := |run| - 1;
      Reactions(run[..n]) + if run[n].Fire? then [run[n].reaction] else []
  }

  lemma {:induction false} ReactionsConcat(a: seq<Step>, b: seq<Step>)
    ensures Reactions(a + b) == Reactions(a) + Reactions(b)
  {
    if b == [] {
      assert a + b == a;
    } else {
      var n := |b| - 1;
      ReactionsConcat(a, b[..n]);
      assert (a + b)[..|a + b| - 1] == a + b[..n];
    }
  }

  /** The callbacks of the run, counted from `first`, did what the script says. */
  predicate Follows(run: seq<Step>, script: nat -> Reaction, first: nat) {
    forall i :: 0 <= i < |Reactions(run)| ==> Reactions(run)[i] == script(first + i)
  }

  /** The steps of an update are its own: requests are made between updates or in callbacks. */
  predicate OwnSteps(run: seq<Step>) {
    forall i :: 0 <= i < |run| ==> run[i].Open? || run[i].Fire? || run[i].Close?
  }

  lemma FollowsConcat(a: seq<Step>, b: seq<Step>, script: nat -> Reaction, first: nat, next: nat)
    requires Follows(a, script, first) && Follows(b, script, next) && next == first + |Reactions(a)|
    ensures Follows(a + b, script, first)
  {
    ReactionsConcat(a, b);
  }

  lemma FollowsOne(step: Step, script: nat -> Reaction, first: nat)
    requires step.Fire? ==> step.reaction == script(first)
    ensures Follows([step], script, first)
    ensures Reactions([step]) == if step.Fire? then [step.reaction] else []
  {
    assert [step][..0] == [];
  }

  /** A legal run made of an update's own steps, in which the callbacks follow the script. */
  ghost predicate Scripted(s: Flat, run: seq<Step>, script: nat -> Reaction, first: nat) {
    Legal(s, run) && OwnSteps(run) && Follows(run, script, first)
  }

  lemma ScriptedConcat(s: Flat, a: seq<Step>, b: seq<Step>, script: nat -> Reaction, first: nat, next: nat)
    requires Scripted(s, a, script, first) && Scripted(Run(s, a), b, script, next) && next == first + |Reactions(a)|
    ensures Scripted(s, a + b, script, first) && Run(s, a + b) == Run(Run(s, a), b)
  {
    RunConcat(s, a, b);
    FollowsConcat(a, b, script, first, next);
  }

  /** One more of an update's own steps. */
  lemma ScriptedExtend(s: Flat, run: seq<Step>, step: Step, script: nat -> Reaction, first: nat, next: nat)
    requires Scripted(s, run, script, first) && Enabled(Run(s, run), step) && next == first + |Reactions(run)|
    requires step.Open? || step.Close? || (step.Fire? && step.reaction == script(next))
    ensures Scripted(s, run + [step], script, first) && Run(s, run + [step]) == Next(Run(s, run), step)
  {
    RunExtend(s, run, step);
    FollowsOne(step, script, next);
    FollowsConcat(run, [step], script, first, next);
  }

  /** A walk between the opening and the closing of a frame. */
  lemma FrameRun(s: Flat, walk: seq<Step>, script: nat -> Reaction, first: nat)
    requires Enabled(s, Open) && Scripted(Next(s, Open), walk, script, first)
    requires Enabled(Run(Next(s, Open), walk), Close)
    ensures var run := [Open] + walk + [Close];
            Scripted(s, run, script, first) && Run(s, run) == Next(Run(Next(s, Open), walk), Close)
  {
    ScriptedExtend(s, [], Open, script, first, first);
    assert [] + [Open] == [Open];
    FollowsOne(Open, script, first);
    ScriptedConcat(s, [Open], walk, script, first, first);
    ScriptedExtend(s, [Open] + walk, Close, script, first, first + |Reactions([Open] + walk)|);
  }

  /** The number of frames that an update with this much time at hand goes through. */
  function FramesIn(ms: nat): nat {
    if ms == 0 then 0 else (ms - 1) / FRAME_MS
  }

  /** What is left of the time after these frames, while the last of them is walked. */
  function Residue(ms: nat): int {
    ms - FRAME_MS * FramesIn(ms)
  }

  lemma ResidueIsLeast(ms: nat)
    requires ms > FRAME_MS
    ensures FramesIn(ms) == FramesIn(ms - FRAME_MS) + 1 && Residue(ms) == Residue(ms - FRAME_MS) <= ms - FRAME_MS
  {
  }

  /** All reactions are good ones, if no less than this much time is left when they run. */
  ghost predicate GoodScript(script: nat -> Reaction, elapsed: int) {
    forall n :: GoodReaction(script(n), elapsed)
  }

  lemma GoodWithMoreTime(script: nat -> Reaction, elapsed: int, more: int)
    requires GoodScript(script, elapsed) && elapsed <= more
    ensures GoodScript(script, more)
  {
    forall n, i | 0 <= i < |script(n).ops|
      ensures GoodOp(script(n).ops[i], more, true)
    {
      assert GoodReaction(script(n), elapsed);
    }
  }

  // ---- Each arming fires exactly once, in the frame in which it is due ----

  predicate Removes(step: Step, id: nat) {
    || step == User(Remove(id))
    || (step.Fire? && step.id != id && Remove(id) in step.reaction.ops)
  }

  predicate Fires(step: Step, id: nat) {
    step.Fire? && step.id == id
  }

  /** The first position at which `id` is called back, or `|run|`. */
  function FirstFire(run: seq<Step>, id: nat): (k: nat)
    ensures k <= |run|
    ensures k < |run| ==> Fires(run[k], id)
    ensures forall i :: 0 <= i < k ==> !Fires(run[i], id)
  {
    if run == [] then 0
    else
      var n := |run| - 1;
      var k := FirstFire(run[..n], id);
      if k < n || Fires(run[n], id) then k else |run|
  }

  lemma {:induction false} ApplyAllKeeps(s: Flat, ops: seq<Op>, id: nat)
    requires id <= s.counter
    ensures ApplyAll(s, ops).counter >= s.counter
    ensures id !in s.pending ==> id !in ApplyAll(s, ops).pending
    ensures id in s.pending && Remove(id) !in ops ==>
              id in ApplyAll(s, ops).pending && ApplyAll(s, ops).pending[id] == s.pending[id]
  {
    if ops != [] {
      var n := |ops| - 1;
      ApplyAllKeeps(s, ops[..n], id);
      assert Remove(id) !in ops ==> Remove(id) !in ops[..n] && ops[n] != Remove(id);
    }
  }

  lemma NextKeeps(s: Flat, step: Step, id: nat)
    requires Sound(s) && Enabled(s, step) && id in s.pending
    requires !Fires(step, id) && !Removes(step, id)
    ensures var t := Next(s, step); id in t.pending && t.pending[id] == s.pending[id]
  {
    if step.Fire? {
      ApplyAllKeeps(s, step.reaction.ops, id);
    }
  }

  /** A pending timer that nobody removes is called back in the very frame in which it is due:
      either the run has not got past that frame and the timer is untouched, or its first
      callback happens exactly there. */
  lemma {:induction false} FiresWhenDue(s: Flat, run: seq<Step>, id: nat)
    requires Sound(s) && Legal(s, run) && id in s.pending
    requires forall i :: 0 <= i < |run| ==> !Removes(run[i], id)
    ensures var k := FirstFire(run, id);
            Legal(s, run[..k]) &&
            var at := Run(s, run[..k]);
            id in at.pending && at.pending[id] == s.pending[id] && at.frame <= s.pending[id].due &&
            (k < |run| ==> at.walking && at.frame == s.pending[id].due)
  {
    if run != [] {
      var n := |run| - 1;
      FiresWhenDue(s, run[..n], id);
      var k := FirstFire(run[..n], id);
      if k < n {
        assert run[..n][..k] == run[..k];
      } else {
        assert run[..n][..k] == run[..n];
        var at := Run(s, run[..n]);
        RunSound(s, run[..n]);
        if !Fires(run[n], id) {
          assert run[..|run|] == run;
          NextKeeps(at, run[n], id);
          RunSound(s, run);
          assert SoundEntry(Run(s, run), id, Run(s, run).pending[id]);
        }
      }
    }
  }

  /** After its callback a timer is pending again exactly when it is cyclic, the callback said
      so and the next expiry is within the horizon; it is then due one cycle after its expiry. */
  lemma RearmedOneCycleLater(s: Flat, id: nat, r: Reaction)
    requires Sound(s) && Enabled(s, Fire(id, r))
    ensures var e := s.pending[id];
            var t := Next(s, Fire(id, r));
            var next := e.timer.expires + e.timer.cycle;
            && (id in t.pending <==> e.timer.cycle > 0 && r.again && next - s.frame < HORIZON)
            && (id in t.pending ==> t.pending[id] == Entry(e.timer.(expires := next), next) && next > s.frame)
  {
    ApplyAllSound(s, r.ops);
  }

  /** A timer that is not pending is never called back: ids are not used again. */
  lemma {:induction false} NeverFiresAgain(s: Flat, run: seq<Step>, id: nat)
    requires Sound(s) && Legal(s, run) && id !in s.pending && id <= s.counter
    ensures FirstFire(run, id) == |run|
    ensures id !in Run(s, run).pending && id <= Run(s, run).counter
  {
    if run != [] {
      var n := |run| - 1;
      NeverFiresAgain(s, run[..n], id);
      var at := Run(s, run[..n]);
      RunSound(s, run[..n]);
      if run[n].Fire? {
        ApplyAllKeeps(at, run[n].reaction.ops, id);
      }
    }
  }

  lemma {:induction false} ApplyAllRemoves(s: Flat, ops: seq<Op>, id: nat)
    requires id <= s.counter && Remove(id) in ops
    ensures id !in ApplyAll(s, ops).pending && id <= ApplyAll(s, ops).counter
  {
    var n := |ops| - 1;
    ApplyAllKeeps(s, ops[..n], id);
    if ops[n] != Remove(id) {
      assert ops == ops[..n] + [ops[n]];
      ApplyAllRemoves(s, ops[..n], id);
    }
  }

  /** A timer that is removed, between updates or by another timer's callback, is not called back any more. */
  lemma RemovedIsNeverCalled(s: Flat, step: Step, id: nat, run: seq<Step>)
    requires Sound(s) && Enabled(s, step) && Removes(step, id) && id <= s.counter
    requires Legal(Next(s, step), run)
    ensures id !in Next(s, step).pending && FirstFire(run, id) == |run|
  {
    if step.Fire? {
      ApplyAllRemoves(s, step.reaction.ops, id);
    }
    NextSound(s, step);
    NeverFiresAgain(Next(s, step), run, id);
  }

  // ---- When a timer that is asked for falls due ----

  /** Of the timers asked for, exactly those less than 43,200,000 frames ahead are taken on.  With a tenth of
      a second or more to go a timer falls due in the last frame that begins within that time; with less,
      it falls due in the frame that comes next, which during a walk is the one after it. */
  lemma AddedFallsDue(s: Flat, delay: int, cycle: nat)
    requires Sound(s) && delay >= 0
    ensures var t, id, togo := Apply(s, Add(delay, cycle)), s.counter + 1, delay + s.elapsed;
            && t == s.(counter := id, pending := t.pending) && t.pending - {id} == s.pending
            && (id in t.pending <==> togo < 4_320_000_000)
            && (id in t.pending ==>
                  var e := t.pending[id];
                  && e.timer.id == id && e.timer.cycle == cycle
                  && 100 * (e.timer.expires - s.frame) <= togo < 100 * (e.timer.expires - s.frame + 1)
                  && e.due == if togo < 100 && s.walking then s.frame + 1 else e.timer.expires)
  {
    forall id | id in s.pending
      ensures id <= s.counter
    {
      assert SoundEntry(s, id, s.pending[id]);
    }
  }

  /** How many timers are asked for. */
  function Adds(ops: seq<Op>): nat {
    if ops == [] then 0 else Adds(ops[..|ops| - 1]) + if ops[|ops| - 1].Add? then 1 else 0
  }

  /** Each timer that is asked for gets the next number, whether or not it is taken on. */
  lemma {:induction false} NumbersCountUp(s: Flat, ops: seq<Op>)
    ensures ApplyAll(s, ops).counter == s.counter + Adds(ops)
  {
    if ops != [] {
      NumbersCountUp(s, ops[..|ops| - 1]);
    }
  }

  /** How many frames ahead a timer falls due that a callback asks for, with so much time to go. */
  predicate DueAhead(frames: int, togo: int) {
    if togo < 100 then frames == 1 else 100 * frames <= togo < 100 * (frames + 1)
  }

  /** The callback asks for this timer, as its i-th request, and does not take it back. */
  predicate AsksFor(s: Flat, r: Reaction, i: nat, id: nat) {
    && i < |r.ops| && r.ops[i].Add? && id == s.counter + Adds(r.ops[..i + 1])
    && Remove(id) !in r.ops[i + 1..]
  }

  /** What a callback asks for is pending afterwards. */
  lemma AskedForIsPending(s: Flat, id: nat, r: Reaction, i: nat, mine: nat)
    requires Sound(s) && Enabled(s, Fire(id, r)) && AsksFor(s, r, i, mine)
    requires r.ops[i].delay + s.elapsed < 4_320_000_000
    ensures mine in Next(s, Fire(id, r)).pending
    ensures DueAhead(Next(s, Fire(id, r)).pending[mine].due - s.frame, r.ops[i].delay + s.elapsed)
  {
    var before, after := r.ops[..i], r.ops[i + 1..];
    assert GoodOp(r.ops[i], s.elapsed, true);
    assert SoundEntry(s, id, s.pending[id]);
    assert r.ops[..i + 1][..i] == before && r.ops == r.ops[..i + 1] + after;
    ApplyAllSound(s, before);
    NumbersCountUp(s, before);
    ApplyAllExtend(s, r.ops, i);
    AddedFallsDue(ApplyAll(s, before), r.ops[i].delay, r.ops[i].cycle);
    ApplyAllConcat(s, r.ops[..i + 1], after);
    ApplyAllKeeps(ApplyAll(s, r.ops[..i + 1]), after, mine);
  }

  /** Over every run: a timer that a callback asks for with this delay, and that nobody removes, is first
      called back in the frame that the delay and the time left over lead to, and never in the frame in which
      it is asked for. */
  lemma CalledWhenAskedFor(s: Flat, id: nat, r: Reaction, i: nat, mine: nat, run: seq<Step>)
    requires Sound(s) && Enabled(s, Fire(id, r)) && AsksFor(s, r, i, mine)
    requires r.ops[i].delay + s.elapsed < 4_320_000_000
    requires Legal(Next(s, Fire(id, r)), run) && forall j :: 0 <= j < |run| ==> !Removes(run[j], mine)
    ensures var togo, k := r.ops[i].delay + s.elapsed, FirstFire(run, mine);
            Legal(Next(s, Fire(id, r)), run[..k]) &&
            var ahead := Run(Next(s, Fire(id, r)), run[..k]).frame - s.frame;
            && (k == |run| ==> if togo < 100 then ahead <= 1 else 100 * ahead <= togo)
            && (k < |run| ==> DueAhead(ahead, togo))
  {
    AskedForIsPending(s, id, r, i, mine);
    NextSound(s, Fire(id, r));
    CalledInFrame(Next(s, Fire(id, r)), mine, run, s.frame, r.ops[i].delay + s.elapsed);
  }

  lemma CalledInFrame(t: Flat, id: nat, run: seq<Step>, from: nat, togo: int)
    requires Sound(t) && Legal(t, run) && id in t.pending && DueAhead(t.pending[id].due - from, togo)
    requires forall j :: 0 <= j < |run| ==> !Removes(run[j], id)
    ensures var k := FirstFire(run, id);
            Legal(t, run[..k]) &&
            var ahead := Run(t, run[..k]).frame - from;
            && (k == |run| ==> if togo < 100 then ahead <= 1 else 100 * ahead <= togo)
            && (k < |run| ==> DueAhead(ahead, togo))
  {
    FiresWhenDue(t, run, id);
    NotBeyondDue(Run(t, run[..FirstFire(run, id)]).frame - from, t.pending[id].due - from, togo);
  }

  lemma NotBeyondDue(ahead: int, due: int, togo: int)
    requires DueAhead(due, togo) && ahead <= due
    ensures if togo < 100 then ahead <= 1 else 100 * ahead <= togo
  {
  }

  // ---- Real time ----

  /** The milliseconds the service has been told about.  The frame being walked has been paid
      for but not yet counted. */
  function Total(s: Flat): int {
    s.frame * FRAME_MS + s.elapsed + if s.walking then FRAME_MS else 0
  }

  function Elapsed(run: seq<Step>): nat {
    if run == [] then 0
    else var n := |run| - 1; Elapsed(run[..n]) + if run[n].Elapse? then run[n].ms else 0
  }

  /** Frames done plus residue always equal the elapsed time: no time is lost or made up. */
  lemma {:induction false} TimeIsConserved(s: Flat, run: seq<Step>)
    requires Sound(s) && Legal(s, run)
    ensures Total(Run(s, run)) == Total(s) + Elapsed(run)
  {
    if run != [] {
      var n := |run| - 1;
      TimeIsConserved(s, run[..n]);
      RunSound(s, run[..n]);
      if run[n].Fire? {
        ApplyAllSound(Run(s, run[..n]), run[n].reaction.ops);
      }
    }
  }

  /** A timer added between updates at total time T0 with delay d is not called back while the
      total time is at most T0 + d, and has been called back once an update has taken the total
      time past T0 + d + one frame. */
  lemma NeitherEarlyNorLate(s: Flat, delay: int, cycle: nat, run: seq<Step>)
    requires Sound(s) && !s.walking && delay >= 0
    requires Expiry(s, delay) - s.frame < HORIZON
    requires var armed := Apply(s, Add(delay, cycle)); Legal(armed, run)
    requires forall i :: 0 <= i < |run| ==> !Removes(run[i], s.counter + 1)
    ensures var armed := Apply(s, Add(delay, cycle));
            var k := FirstFire(run, s.counter + 1);
            && (k < |run| ==> Legal(armed, run[..k]) && Total(Run(armed, run[..k])) > Total(s) + delay)
            && (var end := Run(armed, run);
                !end.walking && end.elapsed <= FRAME_MS && Total(end) > Total(s) + delay + FRAME_MS
                ==> k < |run|)
  {
    var armed := Apply(s, Add(delay, cycle));
    ApplySound(s, Add(delay, cycle));
    FiresWhenDue(armed, run, s.counter + 1);
    var k := FirstFire(run, s.counter + 1);
    RunSound(armed, run[..k]);
    if k == |run| {
      assert run[..k] == run;
    }
  }
}
