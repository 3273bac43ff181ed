/** Which wheel and slot a timer belongs to, and why cascading finds it there in time.  Divisors are written
    out: one slot of the four wheels stands for 1, 200, 12000 and 720000 frames. */
module WheelArithmetic {
  import opened FlatTimer

  datatype Pos = Pos(wheel: nat, slot: nat)

  /** The number of slots of a wheel. */
  function Bound(w: nat): nat {
    if w == 0 then 200 else 60
  }

  /** The number of frames that one slot of a wheel stands for. */
  function Unit(w: nat): nat {
    if w == 0 then 1 else if w == 1 then 200 else if w == 2 then 12000 else 720000
  }

  /** The number of the stretch of Unit(w) frames that contains frame `x`. */
  function Stretch(x: int, w: nat): int {
    if w == 0 then x else if w == 1 then x / 200 else if w == 2 then x / 12000 else x / 720000
  }

  /** A stretch of wheel `w` begins with this frame. */
  predicate Begins(frame: nat, w: nat) {
    if w == 0 then true
    else if w == 1 then frame % 200 == 0
    else if w == 2 then frame % 12000 == 0
    else frame % 720000 == 0
  }

  /** The slot of wheel `w` that a count of its turns leads to. */
  function Wrap(c: int, w: nat): nat {
    if w == 0 then c % 200 else c % 60
  }

  function Pre(frame: nat): nat {
    if frame == 0 then 0 else frame - 1
  }

  /** How often wheel `w` has been cascaded when the wheels below `stage` have been brought up
      to `frame` and the others still stand where the frame before left them. */
  function Cascades(frame: nat, stage: nat, w: nat): nat {
    Stretch(if w < stage then frame else Pre(frame), w)
  }

  /** The index of wheel `w` after `c` turns, when it has not yet been wrapped round. */
  function Raw(c: nat, w: nat): nat {
    if c == 0 then 0 else Wrap(c - 1, w) + 1
  }

  /** The slot into which the service puts a timer. */
  function Target(expires: int, frame: nat, index: nat, barrier: bool): Pos
    requires expires - frame < HORIZON
  {
    var ahead := expires - frame;
    if ahead <= 0 then Pos(0, if barrier then (index + 1) % 200 else index)
    else if ahead < 200 then Pos(0, expires % 200)
    else if ahead < 12000 then Pos(1, (expires / 200 - 1) % 60)
    else if ahead < 720000 then Pos(2, (expires / 12000 - 1) % 60)
    else Pos(3, (expires / 720000 - 1) % 60)
  }

  /** The slot is the right one for an entry: the first wheel holds the next 200 frames by their
      remainder, and a slot of a coarser wheel is cascaded at the start of the stretch of frames
      that contains the due frame, not before and not later. */
  predicate Placed(p: Pos, e: Entry, frame: nat, stage: nat) {
    if p.wheel == 0 then
      frame <= e.due < frame + 200 && p.slot == e.due % 200
    else
      var c := Cascades(frame, stage, p.wheel);
      var q := Stretch(e.due, p.wheel);
      p.wheel < 4 && e.due == e.timer.expires && c + 1 <= q <= c + 60 && p.slot == (q - 1) % 60
  }

  lemma CascadesWithin(frame: nat, stage: nat, w: nat)
    requires 1 <= w < 4
    ensures Stretch(frame, w) - 1 <= Cascades(frame, stage, w) <= Stretch(frame, w)
    ensures !Begins(frame, w) || frame == 0 ==> Cascades(frame, stage, w) == Stretch(frame, w)
    ensures frame > 0 && Begins(frame, w) && w >= stage ==> Cascades(frame, stage, w) + 1 == Stretch(frame, w)
  {
  }

  /** A timer at least one slot and less than a whole turn of wheel `w` ahead falls within the turn
      that the wheel has before it. */
  lemma WithinOneTurn(expires: int, frame: nat, stage: nat, w: nat)
    requires 1 <= w < 4
    requires frame + Unit(w) <= expires < frame + 60 * Unit(w)
    ensures var c := Cascades(frame, stage, w); c + 1 <= Stretch(expires, w) <= c + 60
  {
    if w == 1 {
      assert expires / 200 >= frame / 200 + 1;
    } else if w == 2 {
      assert expires / 12000 >= frame / 12000 + 1;
    } else {
      assert expires / 720000 >= frame / 720000 + 1;
    }
  }

  /** A timer that is put ahead of the current frame is put where it belongs. */
  lemma TargetIsRight(e: Entry, frame: nat, stage: nat, index: nat, barrier: bool)
    requires e.due == Due(frame, barrier, e.timer.expires) < frame + HORIZON
    requires barrier || e.timer.expires <= frame ==> index == frame % 200
    ensures Placed(Target(e.timer.expires, frame, index, barrier), e, frame, stage)
  {
    var ahead := e.timer.expires - frame;
    if ahead >= 720000 {
      WithinOneTurn(e.due, frame, stage, 3);
      assert Target(e.timer.expires, frame, index, barrier) == Pos(3, (e.due / 720000 - 1) % 60);
    } else if ahead >= 12000 {
      WithinOneTurn(e.due, frame, stage, 2);
      assert Target(e.timer.expires, frame, index, barrier) == Pos(2, (e.due / 12000 - 1) % 60);
    } else if ahead >= 200 {
      WithinOneTurn(e.due, frame, stage, 1);
      assert Target(e.timer.expires, frame, index, barrier) == Pos(1, (e.due / 200 - 1) % 60);
    } else if ahead <= 0 && barrier {
      SuccessorSlot(frame);
    }
  }

  lemma SuccessorSlot(frame: nat)
    ensures (frame % 200 + 1) % 200 == (frame + 1) % 200 != frame % 200
  {
    Successor200(frame);
  }

  /** While a slot is being walked, a timer is put into that very slot exactly when it is armed
      outside a callback without lying ahead of the current frame. */
  lemma TargetElsewhere(expires: int, frame: nat, barrier: bool)
    requires expires - frame < HORIZON
    ensures Target(expires, frame, frame % 200, barrier) == Pos(0, frame % 200) <==> !barrier && expires <= frame
  {
    SuccessorSlot(frame);
    if 0 < expires - frame < 200 {
      assert expires % 200 != frame % 200;
    }
  }

  /** Between updates a timer has a slot to go to unless it is already due and the first wheel
      stands at its bound, which it does after every 200 frames. */
  lemma NoSlotExactlyAtBound(expires: int, frame: nat)
    requires expires - frame < HORIZON
    ensures var p := Target(expires, frame, Raw(frame, 0), false);
            p.slot < Bound(p.wheel) <==> expires > frame || frame == 0 || frame % 200 != 0
  {
    AtBound(frame, 0);
    WrapOfPredecessor(frame + 1, 0);
  }

  /** The fourth wheel comes round, and asks for a fifth, exactly at the multiples of the horizon. */
  lemma FifthWheelWanted(frame: nat)
    requires Begins(frame, 3)
    ensures Raw(Stretch(frame, 3), 3) >= Bound(3) <==> frame > 0 && frame % HORIZON == 0
  {
    RawIsBounded(Stretch(frame, 3), 3);
    var k := frame / 720000;
    assert frame == 720000 * k;
    assert k == 60 * (k / 60) + k % 60;
    assert frame == HORIZON * (k / 60) + 720000 * (k % 60);
  }

  /** The entries that the current slot of wheel `w` holds are those of the next stretch. */
  lemma CurrentSlot(c: nat, q: int)
    requires c + 1 <= q <= c + 60
    ensures (q - 1) % 60 == c % 60 <==> q == c + 1
  {
  }

  /** When wheel `w` is cascaded, its current slot holds exactly the timers that fall due in the
      stretch of frames now beginning; they move to a finer wheel, and the rest stay right. */
  lemma CascadedSlot(p: Pos, e: Entry, frame: nat, w: nat)
    requires 1 <= w < 4 && p.wheel == w && frame > 0 && Begins(frame, w)
    requires Placed(p, e, frame, w)
    ensures p.slot == Wrap(Cascades(frame, w, w), w) ==>
              frame <= e.due < frame + Unit(w) && e.due == e.timer.expires
    ensures p.slot != Wrap(Cascades(frame, w, w), w) ==> Placed(p, e, frame, w + 1)
  {
    CascadesWithin(frame, w, w);
    CurrentSlot(Cascades(frame, w, w), Stretch(e.due, w));
  }

  lemma TargetIsFiner(expires: int, frame: nat, w: nat, index: nat)
    requires 1 <= w < 4 && frame <= expires < frame + Unit(w)
    ensures Target(expires, frame, index, false).wheel < w
  {
  }

  lemma FirstOfStretch(frame: nat, w: nat)
    requires 1 <= w < 4 && Begins(frame, w)
    ensures frame % 200 == 0 && Unit(w) <= 720000
  {
  }

  lemma Successor60(b: nat)
    ensures (b + 1) % 60 == if b % 60 == 59 then 0 else b % 60 + 1
  {
    var k, m := b / 60, b % 60;
    assert b + 1 == 60 * k + (m + 1);
  }

  lemma Successor200(b: nat)
    ensures (b + 1) % 200 == if b % 200 == 199 then 0 else b % 200 + 1
  {
    var k, m := b / 200, b % 200;
    assert b + 1 == 200 * k + (m + 1);
  }

  lemma WrapOfPredecessor(c: nat, w: nat)
    requires c > 0
    ensures if Wrap(c, w) == 0 then Wrap(c - 1, w) + 1 == Bound(w) else Wrap(c - 1, w) + 1 == Wrap(c, w)
  {
    Successor60(c - 1);
    Successor200(c - 1);
  }

  lemma RawIsBounded(c: nat, w: nat)
    ensures Raw(c, w) <= Bound(w)
    ensures Raw(c, w) < Bound(w) ==> Raw(c, w) == Wrap(c, w)
    ensures Raw(c, w) == Bound(w) <==> c > 0 && Wrap(c, w) == 0
  {
    if c > 0 {
      WrapOfPredecessor(c, w);
    }
  }

  lemma BeginsNext(frame: nat, w: nat)
    requires w < 3 && Begins(frame, w)
    ensures Wrap(Stretch(frame, w), w) == 0 <==> Begins(frame, w + 1)
    ensures Stretch(frame, w) == 0 <==> frame == 0
  {
    if w == 1 {
      assert frame == 200 * (frame / 200);
    } else if w == 2 {
      assert frame == 12000 * (frame / 12000);
    }
  }

  /** While the wheels are brought up to `frame`, the index of the wheel last turned stands at its
      bound exactly when the next wheel must be cascaded too. */
  lemma AtBound(frame: nat, w: nat)
    requires w < 4 && Begins(frame, w)
    ensures var c := Stretch(frame, w);
            var r := Raw(c, w);
            && r <= Bound(w)
            && (r < Bound(w) ==> r == Wrap(c, w))
            && (r == Bound(w) ==> Wrap(c, w) == 0)
            && (w < 3 ==> (r == Bound(w) <==> frame > 0 && Begins(frame, w + 1)))
            && (w == 3 && frame < HORIZON ==> r < Bound(w))
  {
    RawIsBounded(Stretch(frame, w), w);
    if w < 3 {
      BeginsNext(frame, w);
    }
  }

  lemma Coarsens(frame: nat, w: nat, j: nat)
    requires 1 <= w <= j < 4 && Begins(frame, j)
    ensures Begins(frame, w)
  {
    if j == 3 {
      assert frame == 12000 * (60 * (frame / 720000)) == 200 * (3600 * (frame / 720000));
    } else if j == 2 {
      assert frame == 200 * (60 * (frame / 12000));
    }
  }

  /** If wheel `w + 1` is not to be cascaded in this frame then neither is any coarser one. */
  lemma NoneCoarser(frame: nat, w: nat, j: nat)
    requires w < j < 4 && (frame == 0 || !Begins(frame, w + 1))
    ensures Stretch(Pre(frame), j) == Stretch(frame, j)
  {
    if Begins(frame, j) {
      Coarsens(frame, w + 1, j);
    }
    CascadesWithin(frame, 0, j);
  }

  /** Wheel `w` has reached its bound, so the next wheel is cascaded: what that wheel's index and
      the first wheel's index are before and after. */
  lemma NextTurn(frame: nat, w: nat)
    requires w < 4 && Begins(frame, w) && frame < HORIZON
    requires Raw(Stretch(frame, w), w) >= Bound(w)
    ensures w < 3 && frame > 0 && Begins(frame, w + 1)
    ensures Wrap(Stretch(frame, w), w) == 0 == Wrap(Stretch(frame, 0), 0)
    ensures Wrap(Stretch(Pre(frame), w + 1), w + 1) + 1 == Raw(Stretch(frame, w + 1), w + 1)
  {
    AtBound(frame, w);
    if w < 3 {
      CascadesWithin(frame, 0, w + 1);
      FirstOfStretch(frame, w + 1);
    }
  }

  /** Wheel `w` is within its bound, so no coarser wheel has to turn and all stand at `frame`. */
  lemma AllTurned(frame: nat, w: nat, j: nat)
    requires w < 4 && j < 4 && Begins(frame, w) && Raw(Stretch(frame, w), w) < Bound(w)
    ensures j == w ==> Raw(Stretch(frame, j), j) == Wrap(Stretch(frame, j), j)
    ensures j > w ==> Stretch(Pre(frame), j) == Stretch(frame, j)
  {
    AtBound(frame, w);
    if j > w {
      NoneCoarser(frame, w, j);
    }
  }

  /** Of the slots of all wheels, only the one being walked holds timers due in this frame, and it
      holds no others. */
  lemma WalkedSlot(p: Pos, e: Entry, frame: nat)
    requires Placed(p, e, frame, 4)
    ensures p == Pos(0, frame % 200) <==> e.due == frame
  {
    if p.wheel != 0 {
      assert Stretch(e.due, p.wheel) > Stretch(frame, p.wheel);
    }
  }

  lemma PlacedNextFrame(p: Pos, e: Entry, frame: nat)
    requires Placed(p, e, frame, 4) && e.due > frame
    ensures Placed(p, e, frame + 1, 1)
  {
  }
}
