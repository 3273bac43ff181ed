/** Two runs of the room that end badly.  In one, a user comes in twice at a table that is shared, and
    loses one stake twice.  In the other, a user with stakes at two tables, each within what its table's
    guard allows, loses both, and with them more than there was.

    The cards are never mixed in these runs, so that the dealer holds ace to five, which has a bull, and
    the first position holds six to ten, which has none and loses. */
module RoomDebts {
  import opened BullCards
  import opened Shufflers
  import opened Settlements
  import opened BullTables
  import opened Rooms

  /** A random generator that leaves every card where it is. */
  function Still(): Choice {
    i => if i < CARDS then i else 0
  }

  lemma {:induction false} NothingMixed(d: seq<nat>, n: nat)
    requires n <= |d| == CARDS
    ensures GoodChoice(Still()) && Mixed(d, Still(), n) == d
  {
    if n > 0 {
      NothingMixed(d, n - 1);
    }
  }

  function Cards(): seq<seq<nat>> {
    Deal(Deck(false), HANDS, 5)
  }

  lemma FirstTwoHands()
    ensures Dealt(Cards()) && Cards()[0] == [1, 2, 3, 4, 5] && Cards()[1] == [6, 7, 8, 9, 10]
  {
    var d := Deck(false);
    forall i: nat | i < 10
      ensures d[i] == i + 1
    {
      CardAt(i);
    }
    var more := Deal(d[5..], HANDS - 1, 5);
    assert Cards() == [d[..5]] + more && more[0] == d[5..][..5];
  }

  lemma DealerHasBull(h: Hand)
    requires h == [1, 2, 3, 4, 5]
    ensures BullPoint(h) > 0
  {
    ValuesOfFive(h);
    assert BullAt(Values(h), 0, 3, 4);
    PointTellsBull(h);
  }

  lemma PlayerHasNone(h: Hand)
    requires h == [6, 7, 8, 9, 10]
    ensures BullPoint(h) == 0
  {
    ValuesOfFive(h);
    assert Values(h) == [6, 7, 8, 9, 10];
    NoBull(Values(h));
    PointTellsBull(h);
  }

  /** The dealer has a bull, and the first position has none. */
  lemma FirstPositionLoses(rules: Rules)
    requires GoodRules(rules)
    ensures Dealt(Cards()) && !Wins(Cards(), rules.odds)[0]
  {
    FirstTwoHands();
    var dealer: Hand, player: Hand := Cards()[0], Cards()[1];
    DealerHasBull(dealer);
    PlayerHasNone(player);
    PointTellsBull(dealer);
    assert !Beats(player, dealer);
  }

  lemma NoBull(v: seq<nat>)
    requires v == [6, 7, 8, 9, 10]
    ensures !HasBull(v)
  {
    forall i, j, k | 0 <= i < |v| && 0 <= j < |v| && 0 <= k < |v| && i != j && j != k && i != k
      ensures !BullAt(v, i, j, k)
    {
      assert v[i] == i + 6 && v[j] == j + 6 && v[k] == k + 6;
      assert 21 <= v[i] + v[j] + v[k] <= 27;
    }
  }

  // ---- One table ----

  predicate TableIs(t: State, state: nat, seats: seq<UserId>, bets: Bets) {
    && t.state == state && t.seats == seats && t.userBet == bets && t.deck == Deck(false)
  }

  function OneStake(u: UserId, stake: real): Bets {
    map[u := Raise(NO_STAKES, 0, stake)]
  }

  lemma FirstArrival(t: State, u: UserId, g: real, rules: Rules)
    requires Inv(t) && TableIs(t, INIT, [], map[]) && GoodChoice(Still())
    ensures var s := Next(t, Enter(u, g, Still()), rules).0; TableIs(s, FREE, [u], map[]) && s.gold == t.gold[u := g]
  {
    DeckSize(t.deck);
    NothingMixed(t.deck, CARDS);
  }

  lemma SecondArrival(t: State, u: UserId, g: real, rules: Rules)
    requires Inv(t) && TableIs(t, FREE, [u], map[]) && GoodChoice(Still())
    ensures var s := Next(t, Enter(u, g, Still()), rules).0; TableIs(s, FREE, [u, u], map[]) && s.gold == t.gold[u := g]
  {
    DeckSize(t.deck);
  }

  lemma BettingBegins(t: State, seats: seq<UserId>, rules: Rules)
    requires Inv(t) && TableIs(t, FREE, seats, map[]) && GoodChoice(Still())
    ensures var s := Next(t, Fires(0, Still()), rules).0; TableIs(s, BET, seats, map[]) && s.gold == t.gold
  {
    DeckSize(t.deck);
    RemoveOnly(t.timers, 0);
  }

  lemma StakeTaken(t: State, seats: seq<UserId>, u: UserId, stake: real, rules: Rules)
    requires Inv(t) && TableIs(t, BET, seats, map[]) && u in seats && u in t.gold
    requires stake > 0.0 && t.gold[u] > stake * rules.odds(10) as real
    ensures var s := Next(t, ClientBet(u, 1, stake), rules).0;
            TableIs(s, BET, seats, OneStake(u, stake)) && s.gold == t.gold
  {
    SumOfRow(NO_STAKES);
  }

  lemma ChangeOfLoss(row: Row, stake: real, wins: seq<bool>, commission: real)
    requires |wins| == POSITIONS && !wins[0] && stake > 0.0
    requires row[0] == stake && row[1] == 0.0 && row[2] == 0.0 && row[3] == 0.0
    ensures Change(row, wins, commission) == -stake
  {
    ChangeOfRow(row, wins, commission);
  }

  lemma FirstLosesAt(t: State, rules: Rules)
    requires InRound(t) && t.deck == Deck(false) && GoodRules(rules)
    ensures Dealt(t.hands) && !Wins(t.hands, rules.odds)[0]
  {
    assert t.hands == Cards();
    FirstPositionLoses(rules);
  }

  lemma StakeLost(t: State, seats: seq<UserId>, u: UserId, stake: real, rules: Rules)
    requires Inv(t) && TableIs(t, BET, seats, OneStake(u, stake)) && GoodChoice(Still())
    requires u in t.gold && stake > 0.0 && GoodRules(rules)
    ensures var s := Next(t, Fires(0, Still()), rules).0;
            && TableIs(s, SETTLEMENT, seats, OneStake(u, stake)) && u in s.gold
            && s.gold[u] == t.gold[u] + Times(Seated(seats, u), -stake)
  {
    FiringSettles(t, Still(), rules);
    FirstLosesAt(t, rules);
    RoundLost(t, seats, u, stake, Wins(t.hands, rules.odds), rules.commission);
  }

  lemma RoundLost(t: State, seats: seq<UserId>, u: UserId, stake: real, wins: seq<bool>, commission: real)
    requires Inv(t) && t.seats == seats && t.userBet == OneStake(u, stake) && u in t.gold && stake > 0.0
    requires |wins| == POSITIONS && !wins[0]
    ensures Settle(t.seats, t.gold, t.userBet, wins, commission).0[u] == t.gold[u] + Times(Seated(seats, u), -stake)
  {
    var row := RowOf(t.userBet, u);
    assert row == Raise(NO_STAKES, 0, stake);
    ChangeOfLoss(row, stake, wins, commission);
    PaidPerSeat(t.seats, t.gold, t.userBet, wins, commission, u);
  }

  // ---- The room ----

  /** The j-th table, and the balance of one user. */
  ghost predicate At(r: Room, j: nat, state: nat, seats: seq<UserId>, bets: Bets, u: UserId, gold: real) {
    && RoomInv(r) && j < |r.tables| && TableIs(r.tables[j], state, seats, bets)
    && u in r.gold && r.gold[u] == gold
  }

  /** A user has come in, at a table of the user's own. */
  lemma ComesIn(r: Room, u: UserId, g: real, rules: Rules)
    requires RoomInv(r)
    ensures GoodChoice(Still()) && Possible(r, Arrives(u, g, Still(), |r.tables|))
    ensures var s := After(r, Arrives(u, g, Still(), |r.tables|), rules).0;
            && At(s, |r.tables|, FREE, [u], map[], u, g) && |s.tables| == |r.tables| + 1
            && u in s.userTable && s.userTable[u] == |r.tables|
            && forall j :: 0 <= j < |r.tables| ==> s.tables[j] == r.tables[j].(gold := s.gold)
  {
    NothingMixed(Deck(false), 0);
    var e := Arrives(u, g, Still(), |r.tables|);
    AfterKeeps(r, e, rules);
    SeenFrom(r, e, rules, |r.tables|);
    FirstArrival(Opened(r, e).tables[|r.tables|], u, g, rules);
    forall j | 0 <= j < |r.tables|
      ensures After(r, e, rules).0.tables[j] == r.tables[j].(gold := After(r, e, rules).0.gold)
    {
      OthersKept(r, e, rules, j);
    }
  }

  lemma ComesInAgain(r: Room, u: UserId, g: real, rules: Rules)
    requires At(r, 0, FREE, [u], map[], u, g)
    ensures GoodChoice(Still()) && Possible(r, Arrives(u, g, Still(), 0))
    ensures var s := After(r, Arrives(u, g, Still(), 0), rules).0;
            At(s, 0, FREE, [u, u], map[], u, g) && u in s.userTable && s.userTable[u] == 0
  {
    NothingMixed(Deck(false), 0);
    var e := Arrives(u, g, Still(), 0);
    AfterKeeps(r, e, rules);
    SeenFrom(r, e, rules, 0);
    SecondArrival(r.tables[0], u, g, rules);
  }

  lemma Begins(r: Room, j: nat, seats: seq<UserId>, u: UserId, g: real, rules: Rules)
    requires At(r, j, FREE, seats, map[], u, g)
    ensures GoodChoice(Still()) && Possible(r, Timer(j, 0, Still()))
    ensures var s := After(r, Timer(j, 0, Still()), rules).0;
            At(s, j, BET, seats, map[], u, g) && s.userTable == r.userTable && |s.tables| == |r.tables|
            && forall i :: 0 <= i < |r.tables| && i != j ==> s.tables[i] == r.tables[i].(gold := s.gold)
  {
    NothingMixed(Deck(false), 0);
    var e := Timer(j, 0, Still());
    AfterKeeps(r, e, rules);
    SeenFrom(r, e, rules, j);
    BettingBegins(r.tables[j], seats, rules);
    forall i | 0 <= i < |r.tables| && i != j
      ensures After(r, e, rules).0.tables[i] == r.tables[i].(gold := After(r, e, rules).0.gold)
    {
      OthersKept(r, e, rules, i);
    }
  }

  lemma BetsOne(r: Room, j: nat, seats: seq<UserId>, u: UserId, g: real, stake: real, rules: Rules)
    requires At(r, j, BET, seats, map[], u, g) && u in r.userTable && r.userTable[u] == j
    requires stake > 0.0 && g > stake * rules.odds(10) as real
    ensures Possible(r, Event.Bets(u, 1, stake))
    ensures var s := After(r, Event.Bets(u, 1, stake), rules).0;
            At(s, j, BET, seats, OneStake(u, stake), u, g) && |s.tables| == |r.tables|
            && forall i :: 0 <= i < |r.tables| && i != j ==> s.tables[i] == r.tables[i].(gold := s.gold)
  {
    var e := Event.Bets(u, 1, stake);
    AfterKeeps(r, e, rules);
    SeenFrom(r, e, rules, j);
    StakeTaken(r.tables[j], seats, u, stake, rules);
    forall i | 0 <= i < |r.tables| && i != j
      ensures After(r, e, rules).0.tables[i] == r.tables[i].(gold := After(r, e, rules).0.gold)
    {
      OthersKept(r, e, rules, i);
    }
  }

  lemma LosesOne(r: Room, j: nat, seats: seq<UserId>, u: UserId, g: real, stake: real, rules: Rules)
    requires At(r, j, BET, seats, OneStake(u, stake), u, g) && stake > 0.0 && GoodRules(rules)
    ensures GoodChoice(Still()) && Possible(r, Timer(j, 0, Still()))
    ensures var s := After(r, Timer(j, 0, Still()), rules).0;
            && At(s, j, SETTLEMENT, seats, OneStake(u, stake), u, g + Times(Seated(seats, u), -stake))
            && |s.tables| == |r.tables|
            && forall i :: 0 <= i < |r.tables| && i != j ==> s.tables[i] == r.tables[i].(gold := s.gold)
  {
    NothingMixed(Deck(false), 0);
    var e := Timer(j, 0, Still());
    AfterKeeps(r, e, rules);
    SeenFrom(r, e, rules, j);
    StakeLost(r.tables[j], seats, u, stake, rules);
    forall i | 0 <= i < |r.tables| && i != j
      ensures After(r, e, rules).0.tables[i] == r.tables[i].(gold := After(r, e, rules).0.gold)
    {
      OthersKept(r, e, rules, i);
    }
  }

  // ---- Two seats at a table ----

  /** A user comes in twice at the same table and bets once. */
  function TwoSeats(u: UserId, g: real, stake: real): seq<Event> {
    [Arrives(u, g, Still(), 0), Arrives(u, g, Still(), 0), Timer(0, 0, Still()), Event.Bets(u, 1, stake),
      Timer(0, 0, Still())]
  }

  lemma FiveInARow<T>(a: T, b: T, c: T, d: T, e: T)
    ensures [] + [a] + [b] + [c] + [d] + [e] == [a, b, c, d, e]
  {
  }

  lemma EightInARow<T>(a: T, b: T, c: T, d: T, e: T, f: T, g: T, h: T)
    ensures [] + [a] + [b] + [c] + [d] + [e] + [f] + [g] + [h] == [a, b, c, d, e, f, g, h]
  {
    FiveInARow(a, b, c, d, e);
  }

  /** If tables can be shared, a user with two seats pays a lost stake twice. */
  lemma SharedTablePaysTwice(u: UserId, g: real, stake: real, rules: Rules)
    requires GoodRules(rules) && stake > 0.0 && g > stake * rules.odds(10) as real
    ensures Rooms.Legal(TwoSeats(u, g, stake), rules)
    ensures var r := Rooms.Run(TwoSeats(u, g, stake), rules); u in r.gold && r.gold[u] == g - stake - stake
  {
    var come, timer, bet := Arrives(u, g, Still(), 0), Timer(0, 0, Still()), Event.Bets(u, 1, stake);
    var run0: seq<Event> := [];
    ComesIn(Rooms.Run(run0, rules), u, g, rules);
    RunMore(run0, come, rules);
    var run1 := run0 + [come];
    ComesInAgain(Rooms.Run(run1, rules), u, g, rules);
    RunMore(run1, come, rules);
    var run2 := run1 + [come];
    Begins(Rooms.Run(run2, rules), 0, [u, u], u, g, rules);
    RunMore(run2, timer, rules);
    var run3 := run2 + [timer];
    BetsOne(Rooms.Run(run3, rules), 0, [u, u], u, g, stake, rules);
    RunMore(run3, bet, rules);
    var run4 := run3 + [bet];
    LosesOne(Rooms.Run(run4, rules), 0, [u, u], u, g, stake, rules);
    RunMore(run4, timer, rules);
    TwiceSeated(u, stake);
    FiveInARow(come, come, timer, bet, timer);
  }

  lemma TwiceSeated(u: UserId, x: real)
    ensures Seated([u], u) == 1 && Seated([u, u], u) == 2
    ensures Times(1, -x) == -x && Times(2, -x) == -x - x
  {
    SeatedAppend([], u, u);
    SeatedAppend([u], u, u);
    assert [] + [u] == [u] && [u] + [u] == [u, u];
    assert Times(2, -x) == Times(1, -x) + -x;
    assert Times(1, -x) == Times(0, -x) + -x;
  }

  // ---- Stakes at two tables ----

  /** A user comes in, bets, comes in again with the same balance, bets at the new table too, and loses
      at both. */
  function TwoTables(u: UserId, g: real, stake: real): seq<Event> {
    [Arrives(u, g, Still(), 0), Timer(0, 0, Still()), Event.Bets(u, 1, stake),
     Arrives(u, g, Still(), 1), Timer(1, 0, Still()), Event.Bets(u, 1, stake),
     Timer(0, 0, Still()), Timer(1, 0, Still())]
  }

  /** The user comes in and stakes at the first table. */
  lemma StakesFirst(u: UserId, g: real, stake: real, rules: Rules) returns (run: seq<Event>)
    requires stake > 0.0 && g > stake * rules.odds(10) as real
    ensures run == [] + [Arrives(u, g, Still(), 0)] + [Timer(0, 0, Still())] + [Event.Bets(u, 1, stake)]
    ensures Rooms.Legal(run, rules) && |Rooms.Run(run, rules).tables| == 1
    ensures At(Rooms.Run(run, rules), 0, BET, [u], OneStake(u, stake), u, g)
  {
    var come0, timer0, bet := Arrives(u, g, Still(), 0), Timer(0, 0, Still()), Event.Bets(u, 1, stake);
    var run0: seq<Event> := [];
    ComesIn(Rooms.Run(run0, rules), u, g, rules);
    RunMore(run0, come0, rules);
    var run1 := run0 + [come0];
    Begins(Rooms.Run(run1, rules), 0, [u], u, g, rules);
    RunMore(run1, timer0, rules);
    var run2 := run1 + [timer0];
    BetsOne(Rooms.Run(run2, rules), 0, [u], u, g, stake, rules);
    RunMore(run2, bet, rules);
    run := run2 + [bet];
  }

  /** The guard of each table passes each stake, both entries bring a balance that covers what is open,
      and still both stakes are lost together: with odds of 1 and a stake beyond half the balance, the
      user is left in debt. */
  lemma {:induction false} StakesAtTwoTables(u: UserId, g: real, stake: real, rules: Rules)
    requires GoodRules(rules) && stake > 0.0 && g > stake * rules.odds(10) as real
    ensures Rooms.Legal(TwoTables(u, g, stake), rules)
    ensures var r := Rooms.Run(TwoTables(u, g, stake), rules); u in r.gold && r.gold[u] == g - stake - stake
  {
    var come0, come1, bet := Arrives(u, g, Still(), 0), Arrives(u, g, Still(), 1), Event.Bets(u, 1, stake);
    var timer0, timer1 := Timer(0, 0, Still()), Timer(1, 0, Still());
    TwiceSeated(u, stake);
    var run3 := StakesFirst(u, g, stake, rules);
    ComesIn(Rooms.Run(run3, rules), u, g, rules);
    RunMore(run3, come1, rules);
    var run4 := run3 + [come1];
    Begins(Rooms.Run(run4, rules), 1, [u], u, g, rules);
    RunMore(run4, timer1, rules);
    var run5 := run4 + [timer1];
    BetsOne(Rooms.Run(run5, rules), 1, [u], u, g, stake, rules);
    RunMore(run5, bet, rules);
    var run6 := run5 + [bet];
    LosesOne(Rooms.Run(run6, rules), 0, [u], u, g, stake, rules);
    RunMore(run6, timer0, rules);
    var run7 := run6 + [timer0];
    LosesOne(Rooms.Run(run7, rules), 1, [u], u, g - stake, stake, rules);
    RunMore(run7, timer1, rules);
    EightInARow(come0, timer0, bet, come1, timer1, bet, timer0, timer1);
  }

  /** A run of the kind above: a user with 100 stakes 99 twice and ends up owing 98. */
  lemma GuardsDoNotPreventDebt(u: UserId, rules: Rules)
    requires GoodRules(rules) && rules.odds(10) == 1
    ensures var run := TwoTables(u, 100.0, 99.0);
            Rooms.Legal(run, rules) && u in Rooms.Run(run, rules).gold && Rooms.Run(run, rules).gold[u] == -98.0
  {
    StakesAtTwoTables(u, 100.0, 99.0, rules);
  }
}
