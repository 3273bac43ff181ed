/** The hierarchical timing wheel: four rings of slots, and a map from timer id to the slot that
    holds it.  Every method is proved against the flat map of FlatTimer. */
module TimingWheels {
  import opened FlatTimer
  import opened WheelArithmetic

  /** A slot is a table of timers; it is modelled by the ids of the timers it holds. */
  type Slot = set<nat>
  datatype Wheel = Wheel(index: nat, slots: seq<Slot>)

  ghost predicate Shaped(wheels: seq<Wheel>) {
    |wheels| == 4 && forall w: nat :: w < 4 ==> |wheels[w].slots| == Bound(w)
  }

  predicate InRange(p: Pos) {
    p.wheel < 4 && p.slot < Bound(p.wheel)
  }

  function Cell(wheels: seq<Wheel>, p: Pos): Slot
    requires Shaped(wheels) && InRange(p)
  {
    wheels[p.wheel].slots[p.slot]
  }

  predicate Has(wheels: seq<Wheel>, p: Pos, id: nat)
    requires Shaped(wheels)
  {
    InRange(p) && id in Cell(wheels, p)
  }

  /** No wheel has turned. */
  ghost predicate Still(a: seq<Wheel>, b: seq<Wheel>)
    requires Shaped(a) && Shaped(b)
  {
    forall w: nat :: w < 4 ==> b[w].index == a[w].index
  }

  /** `b` is `a` with timer `id` put into slot `p`. */
  ghost predicate Put(a: seq<Wheel>, b: seq<Wheel>, p: Pos, id: nat)
    requires Shaped(a)
  {
    && Shaped(b) && Still(a, b)
    && forall q, i :: Has(b, q, i) <==> Has(a, q, i) || (q == p && i == id)
  }

  /** `b` is `a` without the timers that `gone` names. */
  ghost predicate Dropped(a: seq<Wheel>, b: seq<Wheel>, p: Pos, gone: set<nat>)
    requires Shaped(a)
  {
    && Shaped(b) && Still(a, b)
    && forall q, i :: Has(b, q, i) <==> Has(a, q, i) && !(q == p && i in gone)
  }

  function SetCell(wheels: seq<Wheel>, p: Pos, slot: Slot): seq<Wheel>
    requires Shaped(wheels) && InRange(p)
  {
    var wheel := wheels[p.wheel];
    wheels[p.wheel := wheel.(slots := wheel.slots[p.slot := slot])]
  }

  lemma SetCellPuts(wheels: seq<Wheel>, p: Pos, id: nat)
    requires Shaped(wheels) && InRange(p)
    ensures Put(wheels, SetCell(wheels, p, Cell(wheels, p) + {id}), p, id)
  {
  }

  lemma SetCellDrops(wheels: seq<Wheel>, p: Pos, slot: Slot, gone: set<nat>)
    requires Shaped(wheels) && InRange(p) && slot == Cell(wheels, p) - gone
    ensures Dropped(wheels, SetCell(wheels, p, slot), p, gone)
  {
  }

  /** `b` and `whereB` are `a` and `whereA` after a timer has been put into its target slot; one
      beyond the horizon is not stored. */
  ghost predicate Stored(a: seq<Wheel>, b: seq<Wheel>, whereA: map<nat, Pos>, whereB: map<nat, Pos>, t: Timer,
                         frame: nat, barrier: bool)
    requires Shaped(a)
  {
    if t.expires - frame < HORIZON then
      var p := Target(t.expires, frame, a[0].index, barrier);
      InRange(p) && Put(a, b, p, t.id) && whereB == whereA[t.id := p]
    else
      b == a && whereB == whereA
  }

  /** Every pending timer is in the slot the map records, and a slot holds nothing else, except
      that the slot being emptied, `ex`, may still hold timers that have moved on. */
  ghost predicate Linked(wheels: seq<Wheel>, where: map<nat, Pos>, ex: Pos)
    requires Shaped(wheels)
  {
    && (forall id :: id in where ==> Has(wheels, where[id], id))
    && (forall p, id :: Has(wheels, p, id) ==> id in where && (where[id] == p || p == ex))
  }

  /** No slot is being emptied. */
  const NOWHERE := Pos(4, 0)

  ghost predicate AllPlaced(where: map<nat, Pos>, pending: map<nat, Entry>, frame: nat, stage: nat) {
    (forall id :: id in where <==> id in pending) &&
    forall id :: id in where ==> Placed(where[id], pending[id], frame, stage)
  }

  /** The wheels below `w` stand at `frame`, wheel `w` has just been turned, and those above it
      still stand where the frame before left them. */
  ghost predicate Turning(wheels: seq<Wheel>, frame: nat, w: nat)
    requires Shaped(wheels)
  {
    forall j: nat :: j < 4 ==>
      wheels[j].index ==
        if j < w then Wrap(Stretch(frame, j), j)
        else if j == w then Raw(Stretch(frame, j), j)
        else Wrap(Stretch(Pre(frame), j), j)
  }

  /** All wheels stand at `frame`. */
  ghost predicate Turned(wheels: seq<Wheel>, frame: nat)
    requires Shaped(wheels)
  {
    forall j: nat :: j < 4 ==> wheels[j].index == Wrap(Stretch(frame, j), j)
  }

  /** The wheels hold the pending timers, each where it belongs, and their indexes follow from
      the frame number. */
  ghost predicate Represents(wheels: seq<Wheel>, where: map<nat, Pos>, pending: map<nat, Entry>, frame: nat,
                             walking: bool) {
    && Shaped(wheels)
    && Linked(wheels, where, NOWHERE)
    && AllPlaced(where, pending, frame, if walking then 4 else 1)
    && (if walking then Turned(wheels, frame) else Turning(wheels, frame, 0))
  }

  /** Putting a timer that is nowhere, or in the slot being emptied, into another slot. */
  lemma PutLinked(a: seq<Wheel>, b: seq<Wheel>, where: map<nat, Pos>, ex: Pos, p: Pos, id: nat)
    requires Shaped(a) && Linked(a, where, ex) && InRange(p) && p != ex && Put(a, b, p, id)
    requires id in where ==> where[id] == ex
    ensures Linked(b, where[id := p], ex)
  {
  }

  lemma DropLinked(a: seq<Wheel>, b: seq<Wheel>, where: map<nat, Pos>, id: nat)
    requires Shaped(a) && Linked(a, where, NOWHERE) && id in where && Dropped(a, b, where[id], {id})
    ensures Linked(b, where - {id}, NOWHERE)
    ensures forall p, i :: Has(b, p, i) <==> Has(a, p, i) && i != id
  {
  }

  /** Once every timer has moved out of it, the slot being emptied can be replaced. */
  lemma EmptyLinked(a: seq<Wheel>, b: seq<Wheel>, where: map<nat, Pos>, ex: Pos, gone: set<nat>)
    requires Shaped(a) && InRange(ex) && Linked(a, where, ex)
    requires Dropped(a, b, ex, gone) && forall i :: Has(a, ex, i) ==> i in gone
    requires forall id :: id in where ==> where[id] != ex
    ensures Linked(b, where, NOWHERE)
  {
  }

  /** Putting a timer into its target slot arms it. */
  lemma ArmRepresents(wheels: seq<Wheel>, r: seq<Wheel>, where: map<nat, Pos>, where': map<nat, Pos>, s: Flat,
                      t: Timer, barrier: bool)
    requires Represents(wheels, where, s.pending, s.frame, s.walking) && t.id !in s.pending
    requires barrier ==> s.walking
    requires t.expires <= s.frame ==> barrier || (!s.walking && wheels[0].index < 200)
    requires Stored(wheels, r, where, where', t, s.frame, barrier)
    ensures Represents(r, where', Arm(s, t, barrier).pending, s.frame, s.walking)
    ensures s.walking ==> forall i :: Has(r, Pos(0, s.frame % 200), i) <==> Has(wheels, Pos(0, s.frame % 200), i)
    ensures r[0].index == wheels[0].index
  {
    if t.expires - s.frame < HORIZON {
      var e := Entry(t, Due(s.frame, barrier, t.expires));
      var p := Target(t.expires, s.frame, wheels[0].index, barrier);
      AtBound(s.frame, 0);
      assert wheels[0].index == 200 || wheels[0].index == s.frame % 200;
      TargetIsRight(e, s.frame, if s.walking then 4 else 1, wheels[0].index, barrier);
      PutLinked(wheels, r, where, NOWHERE, p, t.id);
      if s.walking {
        TargetElsewhere(t.expires, s.frame, barrier);
      }
    }
  }

  lemma DropRepresents(a: seq<Wheel>, b: seq<Wheel>, where: map<nat, Pos>, where': map<nat, Pos>,
                       pending: map<nat, Entry>, pending': map<nat, Entry>, frame: nat, walking: bool, id: nat)
    requires Represents(a, where, pending, frame, walking) && id in where && Dropped(a, b, where[id], {id})
    requires where' == where - {id} && pending' == pending - {id}
    ensures Represents(b, where', pending', frame, walking)
    ensures forall p, i :: Has(b, p, i) <==> Has(a, p, i) && i != id
  {
    DropLinked(a, b, where, id);
  }

  lemma NothingToRemove<V>(m: map<nat, V>, id: nat)
    requires id !in m
    ensures m - {id} == m
  {
  }

  /** Wheel `ex.wheel` is being cascaded: its current slot `ex` still reads `slot`, the timers `todo`
      of it have not been moved yet, and every other timer is where it belongs, outside that slot. */
  ghost predicate Cascading(wheels: seq<Wheel>, where: map<nat, Pos>, pending: map<nat, Entry>, frame: nat, ex: Pos,
                            slot: Slot, todo: set<nat>) {
    && Shaped(wheels) && Linked(wheels, where, ex) && wheels[0].index == 0
    && InRange(ex) && 1 <= ex.wheel && frame > 0 && Begins(frame, ex.wheel)
    && ex.slot == Wrap(Cascades(frame, ex.wheel, ex.wheel), ex.wheel)
    && Cell(wheels, ex) == slot && StillIn(where, ex, todo)
    && AllPlaced(where, pending, frame, ex.wheel)
    && (forall id :: id in pending ==> pending[id].timer.id == id)
  }

  /** The map records exactly the timers `todo` in slot `ex`. */
  ghost predicate StillIn(where: map<nat, Pos>, ex: Pos, todo: set<nat>) {
    && (forall id :: id in todo ==> id in where)
    && (forall id :: id in where ==> (where[id] == ex <==> id in todo))
  }

  lemma MoveInMap(where: map<nat, Pos>, pending: map<nat, Entry>, frame: nat, stage: nat, ex: Pos, todo: set<nat>,
                  id: nat, p: Pos)
    requires StillIn(where, ex, todo) && id in todo && p != ex && id in pending
    requires AllPlaced(where, pending, frame, stage) && Placed(p, pending[id], frame, stage)
    ensures StillIn(where[id := p], ex, todo - {id})
    ensures AllPlaced(where[id := p], pending, frame, stage)
  {
  }

  /** A timer of the slot being emptied moves to a finer wheel. */
  lemma MoveOn(e: Entry, frame: nat, ex: Pos)
    requires InRange(ex) && 1 <= ex.wheel && frame > 0 && Begins(frame, ex.wheel)
    requires ex.slot == Wrap(Cascades(frame, ex.wheel, ex.wheel), ex.wheel)
    requires Placed(ex, e, frame, ex.wheel)
    ensures e.timer.expires - frame < HORIZON
    ensures var p := Target(e.timer.expires, frame, 0, false);
            InRange(p) && p.wheel < ex.wheel && Placed(p, e, frame, ex.wheel)
  {
    CascadedSlot(ex, e, frame, ex.wheel);
    TargetIsFiner(e.timer.expires, frame, ex.wheel, 0);
    FirstOfStretch(frame, ex.wheel);
    TargetIsRight(e, frame, ex.wheel, 0, false);
  }

  lemma CascadeStart(wheels: seq<Wheel>, where: map<nat, Pos>, pending: map<nat, Entry>, frame: nat, ex: Pos)
    requires Shaped(wheels) && Linked(wheels, where, NOWHERE) && wheels[0].index == 0
    requires InRange(ex) && 1 <= ex.wheel && frame > 0 && Begins(frame, ex.wheel)
    requires ex.slot == Wrap(Cascades(frame, ex.wheel, ex.wheel), ex.wheel)
    requires AllPlaced(where, pending, frame, ex.wheel)
    requires forall id :: id in pending ==> pending[id].timer.id == id
    ensures Cascading(wheels, where, pending, frame, ex, Cell(wheels, ex), Cell(wheels, ex))
  {
    forall id | id in where
      ensures where[id] == ex <==> Has(wheels, ex, id)
    {
      assert Has(wheels, where[id], id);
    }
    forall id | id in Cell(wheels, ex)
      ensures id in where
    {
      assert Has(wheels, ex, id);
    }
  }

  /** Turning a wheel moves no timer. */
  lemma IndexLinked(a: seq<Wheel>, b: seq<Wheel>, where: map<nat, Pos>)
    requires Shaped(a) && Linked(a, where, NOWHERE) && |b| == 4
    requires forall j: nat :: j < 4 ==> b[j].slots == a[j].slots
    ensures Shaped(b) && Linked(b, where, NOWHERE)
  {
    assert forall p, i :: Has(b, p, i) <==> Has(a, p, i);
  }

  lemma CascadeStep(a: seq<Wheel>, b: seq<Wheel>, where: map<nat, Pos>, where': map<nat, Pos>, pending: map<nat, Entry>,
                    frame: nat, ex: Pos, slot: Slot, todo: set<nat>, id: nat)
    requires Cascading(a, where, pending, frame, ex, slot, todo) && id in todo
    requires Stored(a, b, where, where', pending[id].timer, frame, false)
    ensures Cascading(b, where', pending, frame, ex, slot, todo - {id})
    ensures Still(a, b)
  {
    var e := pending[id];
    MoveOn(e, frame, ex);
    var p := Target(e.timer.expires, frame, 0, false);
    PutLinked(a, b, where, ex, p, id);
    MoveInMap(where, pending, frame, ex.wheel, ex, todo, id, p);
    forall i ensures i in Cell(b, ex) <==> i in slot {
      assert Has(b, ex, i) <==> Has(a, ex, i);
    }
  }

  /** The slot just read is replaced by an empty one and the wheel turns. */
  lemma CascadeEnd(a: seq<Wheel>, b: seq<Wheel>, c: seq<Wheel>, where: map<nat, Pos>, pending: map<nat, Entry>,
                   frame: nat, ex: Pos, slot: Slot)
    requires Cascading(a, where, pending, frame, ex, slot, {}) && Dropped(a, b, ex, slot)
    requires c == b[ex.wheel := b[ex.wheel].(index := b[ex.wheel].index + 1)]
    ensures Shaped(c) && Linked(c, where, NOWHERE)
    ensures AllPlaced(where, pending, frame, ex.wheel + 1)
    ensures forall j: nat :: j < 4 ==> c[j].index == a[j].index + if j == ex.wheel then 1 else 0
  {
    EmptyLinked(a, b, where, ex, slot);
    IndexLinked(b, c, where);
    forall id | id in where
      ensures Placed(where[id], pending[id], frame, ex.wheel + 1)
    {
      if where[id].wheel == ex.wheel {
        CascadedSlot(where[id], pending[id], frame, ex.wheel);
      }
    }
  }

  /** Wheel `w` has just been turned, and what the finer wheels now hold is where it belongs. */
  ghost predicate AtWheel(wheels: seq<Wheel>, where: map<nat, Pos>, pending: map<nat, Entry>, frame: nat, w: nat) {
    && w < 4 && Begins(frame, w) && Shaped(wheels) && Turning(wheels, frame, w)
    && Linked(wheels, where, NOWHERE) && AllPlaced(where, pending, frame, w + 1)
  }

  /** A wheel that has come round begins again, and the next one is at the slot to be cascaded. */
  lemma TurnStart(a: seq<Wheel>, b: seq<Wheel>, where: map<nat, Pos>, pending: map<nat, Entry>, frame: nat, w: nat)
    requires AtWheel(a, where, pending, frame, w) && frame < HORIZON
    requires a[w].index >= Bound(w) && b == a[w := a[w].(index := 0)]
    ensures w < 3 && frame > 0 && Begins(frame, w + 1)
    ensures Shaped(b) && Linked(b, where, NOWHERE) && AllPlaced(where, pending, frame, w + 1)
    ensures b[0].index == 0 && b[w + 1].index == Wrap(Cascades(frame, w + 1, w + 1), w + 1)
  {
    NextTurn(frame, w);
    IndexLinked(a, b, where);
  }

  lemma TurnEnd(a: seq<Wheel>, b: seq<Wheel>, c: seq<Wheel>, where: map<nat, Pos>, pending: map<nat, Entry>,
                frame: nat, w: nat)
    requires w < 3 && frame < HORIZON && Begins(frame, w) && Shaped(a) && Turning(a, frame, w)
    requires a[w].index >= Bound(w) && b == a[w := a[w].(index := 0)]
    requires Shaped(c) && Linked(c, where, NOWHERE) && AllPlaced(where, pending, frame, w + 2)
    requires forall j: nat :: j < 4 ==> c[j].index == b[j].index + if j == w + 1 then 1 else 0
    ensures AtWheel(c, where, pending, frame, w + 1)
  {
    NextTurn(frame, w);
  }

  /** Once the wheel last turned is within its bound, the wheels are ready for the walk. */
  lemma ReadyToWalk(wheels: seq<Wheel>, where: map<nat, Pos>, pending: map<nat, Entry>, frame: nat, w: nat)
    requires AtWheel(wheels, where, pending, frame, w) && wheels[w].index < Bound(w)
    ensures Represents(wheels, where, pending, frame, true)
  {
    forall j: nat | j < 4
      ensures wheels[j].index == Wrap(Stretch(frame, j), j)
    {
      AllTurned(frame, w, j);
    }
    forall id | id in where
      ensures Placed(where[id], pending[id], frame, 4)
    {
      var j := where[id].wheel;
      if w < j {
        AllTurned(frame, w, j);
      }
    }
  }

  /** The slot being walked holds exactly the timers due in this frame. */
  lemma WalkedSlotIsDue(wheels: seq<Wheel>, where: map<nat, Pos>, pending: map<nat, Entry>, frame: nat)
    requires Represents(wheels, where, pending, frame, true)
    ensures wheels[0].index == frame % 200
    ensures forall id :: Has(wheels, Pos(0, frame % 200), id) <==> id in pending && pending[id].due == frame
  {
    var p := Pos(0, frame % 200);
    forall id
      ensures Has(wheels, p, id) <==> id in pending && pending[id].due == frame
    {
      if id in pending {
        WalkedSlot(where[id], pending[id], frame);
        assert Has(wheels, where[id], id);
      }
    }
  }

  /** The frame ends: the first wheel turns and all timers are still where they belong. */
  lemma CloseRepresents(a: seq<Wheel>, b: seq<Wheel>, where: map<nat, Pos>, pending: map<nat, Entry>, frame: nat,
                        next: nat)
    requires Represents(a, where, pending, frame, true) && next == frame + 1
    requires forall id :: id in pending ==> pending[id].due > frame
    requires b == a[0 := a[0].(index := a[0].index + 1)]
    ensures Represents(b, where, pending, next, false)
  {
    IndexLinked(a, b, where);
    forall id | id in where
      ensures Placed(where[id], pending[id], frame + 1, 1)
    {
      PlacedNextFrame(where[id], pending[id], frame);
    }
  }

  class TimingWheel {
    var elapsed: int
    var frame: nat
    var counter: nat
    var innerBarrier: bool
    var wheels: seq<Wheel>
    var where: map<nat, Pos>
    /** The record of every pending timer.  The source keeps it in the slot; `due` is read by the
        specification only. */
    var pending: map<nat, Entry>

    /** The state of the service as the specification sees it. */
    ghost function Flat(walking: bool): Flat
      reads this
    {
      FlatTimer.Flat.Flat(elapsed, frame, counter, walking, pending)
    }

    /** The invariant, between updates and while callbacks are run. */
    ghost predicate Inv(walking: bool)
      reads this
    {
      Represents(wheels, where, pending, frame, walking) && Sound(Flat(walking))
    }

    ghost predicate Valid()
      reads this
    {
      Inv(false) && !innerBarrier
    }

    constructor ()
      ensures Valid()
      ensures Flat(false) == FlatTimer.Flat.Flat(0, 0, 1, false, map[])
    {
      elapsed, frame, counter, innerBarrier := 0, 0, 1, false;
      wheels := [
        Wheel(0, seq(200, _ => {})),
        Wheel(0, seq(60, _ => {})),
        Wheel(0, seq(60, _ => {})),
        Wheel(0, seq(60, _ => {}))
      ];
      where, pending := map[], map[];
    }

    /** Puts a timer into the slot that its expiry asks for, or refuses one beyond the horizon. */
    method InternalAddTimer(timer: Timer)
      requires Shaped(wheels) && wheels[0].index <= 200
      requires timer.expires <= frame && !innerBarrier ==> wheels[0].index < 200
      modifies this`wheels, this`where
      ensures Stored(old(wheels), wheels, old(where), where, timer, old(frame), old(innerBarrier))
    {
      var idx := timer.expires - frame;
      var p: Pos;
      if idx <= 0 {
        var wheelIdx := wheels[0].index;
        if innerBarrier {
          wheelIdx := (wheelIdx + 1) % 200;
        }
        p := Pos(0, wheelIdx);
      } else if idx < 200 {
        p := Pos(0, timer.expires % 200);
      } else if idx < 12000 {
        p := Pos(1, (timer.expires / 200 - 1) % 60);
      } else if idx < 720000 {
        p := Pos(2, (timer.expires / 12000 - 1) % 60);
      } else if idx < 43200000 {
        p := Pos(3, (timer.expires / 720000 - 1) % 60);
      } else {
        return;
      }
      SetCellPuts(wheels, p, timer.id);
      wheels := SetCell(wheels, p, Cell(wheels, p) + {timer.id});
      where := where[timer.id := p];
    }

    /** Returns the id of the new timer. */
    method AddTimer(delay: int, cycle: nat) returns (id: nat)
      requires Inv(innerBarrier) && GoodOp(Add(delay, cycle), elapsed, innerBarrier)
      requires Expiry(Flat(innerBarrier), delay) <= frame && !innerBarrier ==> wheels[0].index < 200
      modifies this`wheels, this`where, this`counter, this`pending
      ensures Inv(innerBarrier) && id == counter
      ensures Flat(innerBarrier) == Apply(old(Flat(innerBarrier)), Add(delay, cycle))
      ensures unchanged(`elapsed) && wheels[0].index == old(wheels[0].index)
      ensures innerBarrier ==>
                forall i :: Has(wheels, Pos(0, frame % 200), i) <==> Has(old(wheels), Pos(0, frame % 200), i)
    {
      ghost var s := Flat(innerBarrier);
      ghost var after := Apply(s, Add(delay, cycle));
      ApplySound(s, Add(delay, cycle));
      AddIsArm(s, delay, cycle);
      counter := counter + 1;
      id := counter;
      var info := Timer(counter, Floor(delay + elapsed) + frame, cycle);
      assert info == Timer(s.counter + 1, Expiry(s, delay), cycle);
      AtBound(frame, 0);
      ghost var w0, where0 := wheels, where;
      InternalAddTimer(info);
      ArmRepresents(w0, wheels, where0, where, s.(counter := s.counter + 1), info, s.walking);
      if info.expires - frame < HORIZON {
        pending := pending[id := Entry(info, Due(frame, innerBarrier, info.expires))];
      }
      assert Flat(s.walking) == after;
      assert Represents(wheels, where, pending, frame, s.walking);
    }

    /** Tells whether the timer was there. */
    method RemoveTimer(id: nat, ghost walking: bool) returns (found: bool)
      requires Inv(walking)
      modifies this`wheels, this`where, this`pending
      ensures Inv(walking) && found == (id in old(pending))
      ensures Flat(walking) == Apply(old(Flat(walking)), Remove(id))
      ensures wheels[0].index == old(wheels[0].index)
      ensures forall p, i :: Has(wheels, p, i) <==> Has(old(wheels), p, i) && i != id
    {
      found := id in where;
      if found {
        var p := where[id];
        ghost var s, w0 := Flat(walking), wheels;
        assert Has(wheels, p, id);
        SetCellDrops(wheels, p, Cell(wheels, p) - {id}, {id});
        wheels := SetCell(wheels, p, Cell(wheels, p) - {id});
        var where1, pending1 := where - {id}, pending - {id};
        DropRepresents(w0, wheels, where, where1, pending, pending1, frame, walking, id);
        ApplySound(s, Remove(id));
        where, pending := where1, pending1;
        assert Flat(walking) == Apply(s, Remove(id));
      } else {
        NothingToRemove(pending, id);
        forall p ensures !Has(wheels, p, id) {}
      }
    }

    /** Puts a timer of the slot being read where it now belongs, which is never that slot. */
    method MoveTimer(ghost ex: Pos, ghost slot: Slot, ghost todo: set<nat>, id: nat)
      requires Cascading(wheels, where, pending, frame, ex, slot, todo) && id in todo && !innerBarrier
      modifies this`wheels, this`where
      ensures Cascading(wheels, where, pending, frame, ex, slot, todo - {id})
      ensures Still(old(wheels), wheels)
    {
      ghost var w0, where0 := wheels, where;
      InternalAddTimer(pending[id].timer);
      CascadeStep(w0, wheels, where0, where, pending, frame, ex, slot, todo, id);
    }

    /** Moves every timer of the slot being read, each exactly once. */
    method EmptySlot(ghost ex: Pos, slot: Slot)
      requires Cascading(wheels, where, pending, frame, ex, slot, slot) && !innerBarrier
      modifies this`wheels, this`where
      ensures Cascading(wheels, where, pending, frame, ex, slot, {}) && Still(old(wheels), wheels)
    {
      var todo := slot;
      while todo != {}
        invariant Cascading(wheels, where, pending, frame, ex, slot, todo) && Still(old(wheels), wheels)
      {
        var id :| id in todo;
        MoveTimer(ex, slot, todo, id);
        todo := todo - {id};
      }
    }

    /** Empties the current slot of wheel `w` into finer wheels and turns the wheel. */
    method CascadeTimers(w: nat)
      requires 1 <= w < 4 && frame > 0 && Begins(frame, w) && !innerBarrier
      requires Shaped(wheels) && Linked(wheels, where, NOWHERE) && AllPlaced(where, pending, frame, w)
      requires wheels[0].index == 0 && wheels[w].index == Wrap(Cascades(frame, w, w), w)
      requires forall id :: id in pending ==> pending[id].timer.id == id
      modifies this`wheels, this`where
      ensures Shaped(wheels) && Linked(wheels, where, NOWHERE) && AllPlaced(where, pending, frame, w + 1)
      ensures forall j: nat :: j < 4 ==> wheels[j].index == old(wheels)[j].index + if j == w then 1 else 0
    {
      var slot := Pos(w, wheels[w].index);
      CascadeStart(wheels, where, pending, frame, slot);
      var timers := Cell(wheels, slot);
      EmptySlot(slot, timers);
      ghost var w1 := wheels;
      SetCellDrops(wheels, slot, {}, timers);
      wheels := SetCell(wheels, slot, {});
      ghost var w2 := wheels;
      wheels := wheels[w := wheels[w].(index := wheels[w].index + 1)];
      CascadeEnd(w1, w2, wheels, where, pending, frame, slot, timers);
    }

    /** The wheels that have come round to their bound are wrapped, and the next one cascaded. */
    method TurnWheels()
      requires Represents(wheels, where, pending, frame, false) && frame < HORIZON && !innerBarrier
      requires forall id :: id in pending ==> pending[id].timer.id == id
      modifies this`wheels, this`where
      ensures Represents(wheels, where, pending, frame, true)
    {
      var w := 0;
      while wheels[w].index >= Bound(w)
        invariant AtWheel(wheels, where, pending, frame, w)
        decreases 4 - w
      {
        BeginAgain(w);
        w := w + 1;
      }
      ReadyToWalk(wheels, where, pending, frame, w);
    }

    /** Wheel `w` begins again, and the next coarser one is cascaded. */
    method BeginAgain(w: nat)
      requires AtWheel(wheels, where, pending, frame, w) && wheels[w].index >= Bound(w)
      requires frame < HORIZON && !innerBarrier && forall id :: id in pending ==> pending[id].timer.id == id
      modifies this`wheels, this`where
      ensures w < 3 && AtWheel(wheels, where, pending, frame, w + 1)
    {
      ghost var w0 := wheels;
      wheels := wheels[w := wheels[w].(index := 0)];
      ghost var w1 := wheels;
      TurnStart(w0, w1, where, pending, frame, w);
      CascadeTimers(w + 1);
      TurnEnd(w0, w1, wheels, where, pending, frame, w);
    }

    /** Runs a callback: its requests are served while the slot is being walked, and never add a
        timer to that slot. */
    method RunCallback(r: Reaction)
      requires Inv(true) && innerBarrier && GoodReaction(r, elapsed)
      modifies this`wheels, this`where, this`counter, this`pending
      ensures Inv(true) && Flat(true) == ApplyAll(old(Flat(true)), r.ops)
      ensures forall i :: Has(wheels, Pos(0, frame % 200), i) ==> Has(old(wheels), Pos(0, frame % 200), i)
    {
      ghost var s := Flat(true);
      for i := 0 to |r.ops|
        invariant Inv(true) && Flat(true) == ApplyAll(s, r.ops[..i])
        invariant forall i :: Has(wheels, Pos(0, frame % 200), i) ==> Has(old(wheels), Pos(0, frame % 200), i)
      {
        ApplyAllExtend(s, r.ops, i);
        match r.ops[i]
        case Add(delay, cycle) =>
          var _ := AddTimer(delay, cycle);
        case Remove(id) =>
          var _ := RemoveTimer(id, true);
      }
      assert r.ops[..|r.ops|] == r.ops;
    }

    /** Calls a timer of the slot being walked back, takes it out and arms it again if it is cyclic
        and its callback said so.  The slot loses the timer and gains none. */
    method FireTimer(id: nat, r: Reaction)
      requires Inv(true) && !innerBarrier && GoodReaction(r, elapsed)
      requires id in pending && pending[id].due == frame
      modifies this`wheels, this`where, this`counter, this`pending, this`innerBarrier
      ensures Inv(true) && !innerBarrier
      ensures Flat(true) == FlatTimer.FireTimer(old(Flat(true)), id, r)
      ensures forall i :: Has(wheels, Pos(0, frame % 200), i) ==> Has(old(wheels), Pos(0, frame % 200), i) && i != id
    {
      ghost var s := Flat(true);
      ghost var after := Apply(ApplyAll(s, r.ops), Remove(id));
      var timer := pending[id].timer;
      var next := timer.(expires := timer.expires + timer.cycle);
      FiredOnce(s, id, r, after, next);
      CallBack(id, r);
      assert Flat(true) == after;
      if timer.cycle > 0 && r.again {
        Rearm(next);
      }
    }

    /** Runs the callback behind the barrier and takes the timer out. */
    method CallBack(id: nat, r: Reaction)
      requires Inv(true) && !innerBarrier && GoodReaction(r, elapsed)
      modifies this`wheels, this`where, this`counter, this`pending, this`innerBarrier
      ensures Inv(true) && !innerBarrier
      ensures Flat(true) == Apply(ApplyAll(old(Flat(true)), r.ops), Remove(id))
      ensures forall i :: Has(wheels, Pos(0, frame % 200), i) ==> Has(old(wheels), Pos(0, frame % 200), i) && i != id
    {
      innerBarrier := true;
      RunCallback(r);
      innerBarrier := false;
      var _ := RemoveTimer(id, true);
    }

    /** Arms a timer again after its callback; its next expiry lies ahead of the current frame. */
    method Rearm(timer: Timer)
      requires Inv(true) && !innerBarrier
      requires timer.id !in pending && timer.expires > frame && timer.id <= counter
      modifies this`wheels, this`where, this`pending
      ensures Inv(true) && Flat(true) == Arm(old(Flat(true)), timer, false)
      ensures forall i :: Has(wheels, Pos(0, frame % 200), i) <==> Has(old(wheels), Pos(0, frame % 200), i)
    {
      ghost var s, w0, where0 := Flat(true), wheels, where;
      ArmSound(s, timer);
      WalkedSlotIsDue(wheels, where, pending, frame);
      InternalAddTimer(timer);
      ArmRepresents(w0, wheels, where0, where, s, timer, false);
      if timer.expires - frame < HORIZON {
        pending := pending[timer.id := Entry(timer, Due(frame, false, timer.expires))];
      }
      assert Flat(true) == Arm(s, timer, false);
    }

    /** Calls back the timers of the current slot, in whatever order the table yields them.  A timer
        that an earlier callback removed is no longer found. */
    method WalkSlot(script: nat -> Reaction, first: nat) returns (run: seq<Step>)
      requires Inv(true) && !innerBarrier && GoodScript(script, elapsed)
      modifies this`wheels, this`where, this`counter, this`pending, this`innerBarrier
      ensures Inv(true) && !innerBarrier
      ensures Scripted(old(Flat(true)), run, script, first) && Run(old(Flat(true)), run) == Flat(true)
      ensures forall id :: id in pending ==> pending[id].due > frame
    {
      run := [];
      ghost var s := Flat(true);
      WalkedSlotIsDue(wheels, where, pending, frame);
      var slot := Pos(0, wheels[0].index);
      ghost var all := Cell(wheels, slot);
      var visited: set<nat> := {};
      while Cell(wheels, slot) - visited != {}
        invariant Inv(true) && !innerBarrier && slot == Pos(0, frame % 200)
        invariant forall i :: Has(wheels, slot, i) ==> i in all && i !in visited
        invariant Scripted(s, run, script, first) && Run(s, run) == Flat(true)
        decreases all - visited
      {
        var id :| id in Cell(wheels, slot) - visited;
        assert Has(wheels, slot, id);
        WalkedSlotIsDue(wheels, where, pending, frame);
        var next := first + |Reactions(run)|;
        var reaction := script(next);
        ScriptedExtend(s, run, Fire(id, reaction), script, first, next);
        visited := visited + {id};
        FireTimer(id, reaction);
        run := run + [Fire(id, reaction)];
      }
      WalkedSlotIsDue(wheels, where, pending, frame);
      assert forall i :: i in Cell(wheels, slot) ==> i in visited || i in Cell(wheels, slot) - visited;
      forall id | id in pending
        ensures pending[id].due > frame
      {
        assert SoundEntry(Flat(true), id, pending[id]);
      }
    }

    /** The frame is counted and the first wheel turns. */
    method CloseFrame()
      requires Inv(true) && !innerBarrier && forall id :: id in pending ==> pending[id].due > frame
      modifies this`wheels, this`frame
      ensures Valid() && Flat(false) == Next(old(Flat(true)), Close)
    {
      ghost var s, w0 := Flat(true), wheels;
      NextSound(s, Close);
      wheels := wheels[0 := wheels[0].(index := wheels[0].index + 1)];
      var next := frame + 1;
      CloseRepresents(w0, wheels, where, pending, frame, next);
      frame := next;
      assert Flat(false) == Next(s, Close);
    }

    /** The time of one frame is taken and the wheels turn. */
    method OpenFrame()
      requires Valid() && elapsed > FRAME_MS && frame < HORIZON
      modifies this`wheels, this`where, this`elapsed
      ensures Inv(true) && !innerBarrier && Flat(true) == Next(old(Flat(false)), Open)
    {
      ghost var s := Flat(false);
      NextSound(s, Open);
      elapsed := elapsed - FRAME_MS;
      TurnWheels();
      assert Flat(true) == Next(s, Open);
    }

    method RunFrame(script: nat -> Reaction, first: nat) returns (run: seq<Step>)
      requires Valid() && elapsed > FRAME_MS && frame < HORIZON && GoodScript(script, elapsed - FRAME_MS)
      modifies this
      ensures Valid() && elapsed == old(elapsed) - FRAME_MS && frame == old(frame) + 1
      ensures Scripted(old(Flat(false)), run, script, first) && Run(old(Flat(false)), run) == Flat(false)
    {
      ghost var s := Flat(false);
      OpenFrame();
      run := WalkSlot(script, first);
      CloseFrame();
      FrameRun(s, run, script, first);
      run := [Open] + run + [Close];
    }

    /** The service is told how much time has gone by and runs every frame that this completes.
        The timers are called back as the flat specification says, and none is left behind. */
    method Update(elapse: nat, script: nat -> Reaction) returns (run: seq<Step>)
      requires Valid() && GoodScript(script, Residue(elapsed + elapse))
      requires frame + FramesIn(elapsed + elapse) <= HORIZON
      modifies this
      ensures Valid() && elapsed <= FRAME_MS && frame == old(frame + FramesIn(elapsed + elapse))
      ensures Scripted(Next(old(Flat(false)), Elapse(elapse)), run, script, 0)
      ensures Run(Next(old(Flat(false)), Elapse(elapse)), run) == Flat(false)
    {
      ghost var s, last := Next(Flat(false), Elapse(elapse)), frame + FramesIn(elapsed + elapse);
      elapsed := elapsed + elapse;
      assert Flat(false) == s;
      run := [];
      while elapsed > FRAME_MS
        invariant Valid() && frame + FramesIn(elapsed) == last && GoodScript(script, Residue(elapsed))
        invariant Scripted(s, run, script, 0) && Run(s, run) == Flat(false)
        decreases elapsed
      {
        var next := |Reactions(run)|;
        ResidueIsLeast(elapsed);
        GoodWithMoreTime(script, Residue(elapsed), elapsed - FRAME_MS);
        var more := RunFrame(script, next);
        ScriptedConcat(s, run, more, script, 0, next);
        run := run + more;
      }
    }
  }
}
