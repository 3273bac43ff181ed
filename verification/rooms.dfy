/** All tables of the room server.  A user may hold stakes at several tables, against one balance. */
module Rooms {
  import opened Options
  import opened Settlements
  import opened BullTables

  /** Every table sees the same balances.  `userTable` is where a user's bets go. */
  datatype Room = Room(tables: seq<State>, userTable: map<UserId, nat>, gold: map<UserId, real>)

  const NO_TABLES := Room([], map[], map[])

  /** What happens in the room, to one of its tables. */
  datatype Event =
    | Arrives(user: UserId, balance: real, choice: Choice, at: nat) // `at` may be a table yet to be made
    | Bets(better: UserId, position: int, amount: real)
    | Timer(table: nat, which: nat, deal: Choice)

  ghost predicate RoomInv(r: Room) {
    && (forall i :: 0 <= i < |r.tables| ==> Inv(r.tables[i]) && r.tables[i].gold == r.gold)
    && (forall u :: u in r.userTable ==> r.userTable[u] < |r.tables| && u in r.tables[r.userTable[u]].seats)
  }

  ghost predicate Possible(r: Room, e: Event) {
    match e
    case Arrives(_, _, choice, at) => at <= |r.tables| && GoodChoice(choice)
    case Bets(user, _, _) => user in r.userTable
    case Timer(i, which, choice) => i < |r.tables| && which < |r.tables[i].timers| && GoodChoice(choice)
  }

  /** A new table is made for an arrival at none of those there are. */
  function Opened(r: Room, e: Event): Room {
    if e.Arrives? && e.at == |r.tables| then r.(tables := r.tables + [NEW_TABLE.(gold := r.gold)]) else r
  }

  /** The table that an event concerns, and what happens there. */
  function TableOf(r: Room, e: Event): nat
    requires e.Bets? ==> e.better in r.userTable
  {
    match e
    case Arrives(_, _, _, at) => at
    case Bets(user, _, _) => r.userTable[user]
    case Timer(i, _, _) => i
  }

  function StepOf(e: Event): Step {
    match e
    case Arrives(user, balance, choice, _) => Enter(user, balance, choice)
    case Bets(user, position, amount) => ClientBet(user, position, amount)
    case Timer(_, which, choice) => Fires(which, choice)
  }

  /** One table takes on a new state, and the others its balances. */
  function Changed(tables: seq<State>, i: nat, t: State): (r: seq<State>)
    ensures |r| == |tables|
  {
    seq(|tables|, j requires 0 <= j < |tables| => if j == i then t else tables[j].(gold := t.gold))
  }

  ghost function After(r: Room, e: Event, rules: Rules): (Room, seq<Entry>)
    requires RoomInv(r) && Possible(r, e)
  {
    var o, i := Opened(r, e), TableOf(r, e);
    OpenedKeeps(r, e);
    var next := Next(o.tables[i], StepOf(e), rules);
    (Room(Changed(o.tables, i, next.0),
          if e.Arrives? then r.userTable[e.user := i] else r.userTable,
          next.0.gold),
     next.1)
  }

  lemma OpenedKeeps(r: Room, e: Event)
    requires RoomInv(r) && Possible(r, e)
    ensures RoomInv(Opened(r, e)) && Opened(r, e).gold == r.gold
    ensures TableOf(r, e) < |Opened(r, e).tables|
    ensures Enabled(Opened(r, e).tables[TableOf(r, e)], StepOf(e))
  {
  }

  lemma BalancesGrow(t: State, step: Step, rules: Rules)
    requires Inv(t) && Enabled(t, step)
    ensures t.gold.Keys <= Next(t, step, rules).0.gold.Keys && t.seats <= Next(t, step, rules).0.seats
  {
    DeckSize(t.deck);
    if step.Fires? {
      RemoveOnly(t.timers, step.which);
    }
  }

  /** For every table the event is a step: for one its own, for the others one taken elsewhere. */
  lemma SeenFrom(r: Room, e: Event, rules: Rules, j: nat)
    requires RoomInv(r) && Possible(r, e) && j < |Opened(r, e).tables|
    ensures var o, s := Opened(r, e), After(r, e, rules).0;
            var step := if j == TableOf(r, e) then StepOf(e) else Elsewhere(s.gold);
            |s.tables| == |o.tables| && Inv(o.tables[j]) && Enabled(o.tables[j], step)
            && s.tables[j] == Next(o.tables[j], step, rules).0
  {
    OpenedKeeps(r, e);
    var o, i := Opened(r, e), TableOf(r, e);
    BalancesGrow(o.tables[i], StepOf(e), rules);
  }

  /** Every event keeps every table's invariant, and the balances shared. */
  lemma AfterKeeps(r: Room, e: Event, rules: Rules)
    requires RoomInv(r) && Possible(r, e)
    ensures RoomInv(After(r, e, rules).0)
  {
    OpenedKeeps(r, e);
    var o, s, i := Opened(r, e), After(r, e, rules).0, TableOf(r, e);
    forall j | 0 <= j < |s.tables|
      ensures Inv(s.tables[j]) && s.tables[j].gold == s.gold
    {
      SeenFrom(r, e, rules, j);
      NextKeeps(o.tables[j], if j == i then StepOf(e) else Elsewhere(s.gold), rules);
    }
    forall u | u in s.userTable
      ensures s.userTable[u] < |s.tables| && u in s.tables[s.userTable[u]].seats
    {
      SeatKept(r, e, rules, u);
    }
  }

  lemma SeatKept(r: Room, e: Event, rules: Rules, u: UserId)
    requires RoomInv(r) && Possible(r, e) && u in After(r, e, rules).0.userTable
    ensures var s := After(r, e, rules).0; s.userTable[u] < |s.tables| && u in s.tables[s.userTable[u]].seats
  {
    OpenedKeeps(r, e);
    var o, s, i := Opened(r, e), After(r, e, rules).0, TableOf(r, e);
    var j := s.userTable[u];
    SeenFrom(r, e, rules, j);
    var before, after := o.tables[j].seats, s.tables[j].seats;
    if e.Arrives? && u == e.user {
      DeckSize(o.tables[j].deck);
      assert after == before + [u];
    } else {
      BalancesGrow(o.tables[j], if j == i then StepOf(e) else Elsewhere(s.gold), rules);
      var k :| 0 <= k < |before| && before[k] == u;
      assert after[k] == u;
    }
  }

  /** An event at one table leaves the state, seats, stakes, cards and timers of all others alone. */
  lemma OthersKept(r: Room, e: Event, rules: Rules, j: nat)
    requires RoomInv(r) && Possible(r, e) && j < |Opened(r, e).tables| && j != TableOf(r, e)
    ensures var s := After(r, e, rules).0; s.tables[j] == Opened(r, e).tables[j].(gold := s.gold)
  {
    SeenFrom(r, e, rules, j);
  }

  // ---- What a user may lose ----

  /** What a user stands to lose at a table: the stakes, once for every seat, while they are open. */
  function Risk(t: State, u: UserId): real {
    if t.state == BET then Times(Seated(t.seats, u), Sum(RowOf(t.userBet, u))) else 0.0
  }

  /** What a user stands to lose at all tables. */
  function Exposure(tables: seq<State>, u: UserId): real {
    if tables == [] then 0.0
    else
      var n := |tables| - 1;
      Exposure(tables[..n], u) + Risk(tables[n], u)
  }

  /** All balances cover all that their users stand to lose. */
  ghost predicate Safe(r: Room) {
    forall u :: u in r.gold ==> Exposure(r.tables, u) <= r.gold[u]
  }

  /** What the room could ask before it lets a user in or takes a bet: the balance covers the stakes at
      all open tables, with this seat or this bet. */
  ghost predicate Affordable(r: Room, e: Event, rules: Rules)
    requires RoomInv(r) && Possible(r, e)
  {
    OpenedKeeps(r, e);
    var t := Opened(r, e).tables[TableOf(r, e)];
    match e
    case Arrives(user, balance, _, _) =>
      Exposure(r.tables, user) + (if t.state == BET then Sum(RowOf(t.userBet, user)) else 0.0) <= balance
    case Bets(user, position, amount) =>
      user in t.gold &&
      (Bet(t, user, position, amount, rules).1 == Ok ==>
         Exposure(r.tables, user) + Times(Seated(t.seats, user), amount) <= t.gold[user])
    case Timer(_, _, _) => true
  }

  lemma {:induction false} ExposureOfChanged(tables: seq<State>, i: nat, t: State, u: UserId)
    ensures Exposure(Changed(tables, i, t), u) ==
            Exposure(tables, u) + if i < |tables| then Risk(t, u) - Risk(tables[i], u) else 0.0
  {
    if tables != [] {
      var n := |tables| - 1;
      ExposureOfChanged(tables[..n], i, t, u);
      assert Changed(tables, i, t)[..n] == Changed(tables[..n], i, t);
    }
  }

  lemma NoStakesNoRisk(seats: seq<UserId>, u: UserId)
    ensures Times(Seated(seats, u), Sum(NO_STAKES)) == 0.0
  {
    SumOfRow(NO_STAKES);
    TimesNothing(Seated(seats, u));
  }

  lemma ExposureOfOpened(r: Room, e: Event, u: UserId)
    ensures Exposure(Opened(r, e).tables, u) == Exposure(r.tables, u)
  {
    var o := Opened(r, e);
    if o != r {
      assert o.tables[..|r.tables|] == r.tables;
    }
  }

  /** A seat taken while bets are open puts the stakes at risk once more. */
  lemma RiskAfterEnter(t: State, user: UserId, balance: real, choice: Choice, rules: Rules, u: UserId)
    requires Inv(t) && GoodChoice(choice)
    ensures var s := Next(t, Enter(user, balance, choice), rules).0;
            && s.gold == t.gold[user := balance]
            && Risk(s, u) == Risk(t, u) + if t.state == BET && u == user then Sum(RowOf(t.userBet, u)) else 0.0
  {
    DeckSize(t.deck);
    SeatedAppend(t.seats, user, u);
  }

  lemma {:induction false} RiskRaised(t: State, user: UserId, p: nat, amount: real)
    requires t.state == BET && p < POSITIONS && |t.playerBet| == POSITIONS
    ensures Risk(Marked(t, user, p, amount), user) == Risk(t, user) + Times(Seated(t.seats, user), amount)
    ensures forall u :: u != user ==> Risk(Marked(t, user, p, amount), u) == Risk(t, u)
  {
    var row := RowOf(t.userBet, user);
    RaiseSum(row, p, amount);
    TimesAdds(Seated(t.seats, user), Sum(row), amount);
  }

  /** A bet that is accepted puts its amount at risk, once for every seat of the user. */
  lemma {:induction false} RiskAfterBet(t: State, user: UserId, position: int, amount: real, rules: Rules, u: UserId)
    requires Inv(t) && user in t.seats
    ensures user in t.gold
    ensures var s := Next(t, ClientBet(user, position, amount), rules).0;
            && s.gold == t.gold
            && Risk(s, u) == Risk(t, u) +
               if u == user && Bet(t, user, position, amount, rules).1 == Ok
               then Times(Seated(t.seats, u), amount) else 0.0
  {
    AcceptedIff(t, user, position, amount, rules);
    if Bet(t, user, position, amount, rules).1 == Ok {
      RiskRaised(t, user, position - 1, amount);
    }
  }

  /** A timer ends a risk, or begins one of nothing; nobody loses more than the risk that ends. */
  lemma RiskAfterTimer(t: State, which: nat, choice: Choice, rules: Rules, u: UserId)
    requires Inv(t) && which < |t.timers| && GoodChoice(choice) && GoodRules(rules) && u in t.gold
    ensures var s := Next(t, Fires(which, choice), rules).0;
            && s.gold.Keys == t.gold.Keys && Risk(s, u) == 0.0 <= Risk(t, u)
            && s.gold[u] >= t.gold[u] - Risk(t, u)
  {
    DeckSize(t.deck);
    RemoveOnly(t.timers, which);
    var k, row := Seated(t.seats, u), RowOf(t.userBet, u);
    NoStakesNoRisk(t.seats, u);
    if t.state == BET {
      SumNonNegative(row);
      TimesNothing(k);
      TimesGrows(k, 0.0, Sum(row));
      SettledBalance(t, rules, u);
    }
  }

  lemma SettledBalance(t: State, rules: Rules, u: UserId)
    requires Inv(t) && t.state == BET && GoodRules(rules) && u in t.gold
    ensures Settled(t, rules).0.gold.Keys == t.gold.Keys
    ensures Settled(t, rules).0.gold[u] >= t.gold[u] - Times(Seated(t.seats, u), Sum(RowOf(t.userBet, u)))
  {
    var wins := Wins(t.hands, rules.odds);
    PaidPerSeat(t.seats, t.gold, t.userBet, wins, rules.commission, u);
    LossOverSeats(Seated(t.seats, u), RowOf(t.userBet, u), wins, rules.commission);
  }

  lemma SafeAfterArrival(r: Room, e: Event, rules: Rules)
    requires RoomInv(r) && Possible(r, e) && Safe(r) && e.Arrives?
    ensures Safe(After(r, e, rules).0) <==> Affordable(r, e, rules)
  {
    OpenedKeeps(r, e);
    var o, s, i := Opened(r, e), After(r, e, rules).0, TableOf(r, e);
    forall u
      ensures Exposure(s.tables, u) == Exposure(r.tables, u) +
              if o.tables[i].state == BET && u == e.user then Sum(RowOf(o.tables[i].userBet, u)) else 0.0
    {
      ExposureOfOpened(r, e, u);
      RiskAfterEnter(o.tables[i], e.user, e.balance, e.choice, rules, u);
      ExposureOfChanged(o.tables, i, s.tables[i], u);
    }
    RiskAfterEnter(o.tables[i], e.user, e.balance, e.choice, rules, e.user);
    assert s.gold == r.gold[e.user := e.balance];
  }

  lemma SafeAfterBet(r: Room, e: Event, rules: Rules)
    requires RoomInv(r) && Possible(r, e) && Safe(r) && e.Bets?
    ensures Safe(After(r, e, rules).0) <==> Affordable(r, e, rules)
  {
    OpenedKeeps(r, e);
    var s, t := After(r, e, rules).0, r.tables[TableOf(r, e)];
    RiskAfterBet(t, e.better, e.position, e.amount, rules, e.better);
    var ok := Bet(t, e.better, e.position, e.amount, rules).1 == Ok;
    forall u
      ensures Exposure(s.tables, u) ==
              Exposure(r.tables, u) + if u == e.better && ok then Times(Seated(t.seats, u), e.amount) else 0.0
    {
      RiskAfterBet(t, e.better, e.position, e.amount, rules, u);
      ExposureOfChanged(r.tables, TableOf(r, e), s.tables[TableOf(r, e)], u);
    }
    assert s.gold == r.gold;
  }

  lemma SafeAfterTimer(r: Room, e: Event, rules: Rules)
    requires RoomInv(r) && Possible(r, e) && Safe(r) && e.Timer? && GoodRules(rules)
    ensures Safe(After(r, e, rules).0)
  {
    OpenedKeeps(r, e);
    var s, i := After(r, e, rules).0, TableOf(r, e);
    forall u | u in s.gold
      ensures Exposure(s.tables, u) <= s.gold[u]
    {
      BalancesGrow(r.tables[i], StepOf(e), rules);
      SettlementKeepsUsers(r.tables[i], e.which, e.deal, rules);
      RiskAfterTimer(r.tables[i], e.which, e.deal, rules, u);
      ExposureOfChanged(r.tables, i, s.tables[i], u);
    }
  }

  lemma SettlementKeepsUsers(t: State, which: nat, choice: Choice, rules: Rules)
    requires Inv(t) && which < |t.timers| && GoodChoice(choice)
    ensures Next(t, Fires(which, choice), rules).0.gold.Keys == t.gold.Keys
  {
    DeckSize(t.deck);
    RemoveOnly(t.timers, which);
  }

  /** Balances that cover all risks go on covering them, exactly unless a user comes in or bets who
      cannot afford it at all open tables together.  No settlement changes that, whatever the cards. */
  lemma SafeIff(r: Room, e: Event, rules: Rules)
    requires RoomInv(r) && Possible(r, e) && Safe(r) && GoodRules(rules)
    ensures Safe(After(r, e, rules).0) <==> Affordable(r, e, rules)
  {
    match e
    case Arrives(_, _, _, _) => SafeAfterArrival(r, e, rules);
    case Bets(_, _, _) => SafeAfterBet(r, e, rules);
    case Timer(_, _, _) => SafeAfterTimer(r, e, rules);
  }

  lemma AcceptedIsAffordable(t: State, user: UserId, position: int, amount: real, rules: Rules)
    requires Inv(t) && user in t.seats && user in t.gold && Seated(t.seats, user) <= rules.odds(10)
    requires Bet(t, user, position, amount, rules).1 == Ok
    ensures Times(Seated(t.seats, user), Sum(RowOf(t.userBet, user))) +
            Times(Seated(t.seats, user), amount) <= t.gold[user]
  {
    AcceptedIff(t, user, position, amount, rules);
    CoverAffords(Seated(t.seats, user), rules.odds(10), t.gold[user], RowOf(t.userBet, user), position - 1, amount);
  }

  /** The bet that the table's own guard lets pass is affordable to a user with no stakes open at other
      tables and no more seats at this one than the highest odds. */
  lemma GuardSuffices(r: Room, e: Event, rules: Rules)
    requires RoomInv(r) && Possible(r, e) && e.Bets?
    requires var t := r.tables[TableOf(r, e)];
             Exposure(r.tables, e.better) == Risk(t, e.better) && Seated(t.seats, e.better) <= rules.odds(10)
    ensures Affordable(r, e, rules)
  {
    var t := r.tables[TableOf(r, e)];
    AcceptedIff(t, e.better, e.position, e.amount, rules);
    if Bet(t, e.better, e.position, e.amount, rules).1 == Ok {
      AcceptedIsAffordable(t, e.better, e.position, e.amount, rules);
    }
  }

  // ---- Whatever the cards ----

  type Outcome = w: seq<bool> | |w| == POSITIONS witness [false, false, false, false]

  const ALL_LOSE: Outcome := [false, false, false, false]

  /** What a user gains if all open tables settle, each with the given outcome. */
  function Gains(tables: seq<State>, u: UserId, outcomes: seq<Outcome>, commission: real): real
    requires |outcomes| == |tables|
  {
    if tables == [] then 0.0
    else
      var n := |tables| - 1;
      var t := tables[n];
      Gains(tables[..n], u, outcomes[..n], commission) +
      if t.state == BET then Times(Seated(t.seats, u), Change(RowOf(t.userBet, u), outcomes[n], commission)) else 0.0
  }

  lemma AllStakesLost(row: Row, commission: real)
    requires NonNegative(row)
    ensures Change(row, ALL_LOSE, commission) == -Sum(row)
  {
    ChangeOfRow(row, ALL_LOSE, commission);
    SumOfRow(row);
  }

  lemma WorstAtTable(t: State, u: UserId, outcome: Outcome, commission: real)
    requires AllNonNegative(t.userBet) && 0.0 <= commission <= 1.0
    ensures var k, row := Seated(t.seats, u), RowOf(t.userBet, u);
            && Times(k, Change(row, outcome, commission)) >= -Times(k, Sum(row))
            && Times(k, Change(row, ALL_LOSE, commission)) == -Times(k, Sum(row))
  {
    var k, row := Seated(t.seats, u), RowOf(t.userBet, u);
    LossOverSeats(k, row, outcome, commission);
    AllStakesLost(row, commission);
    TimesOfOpposite(k, Sum(row));
  }

  predicate StakesInOrder(tables: seq<State>) {
    forall i :: 0 <= i < |tables| ==> AllNonNegative(tables[i].userBet)
  }

  function AllLost(n: nat): (outcomes: seq<Outcome>)
    ensures |outcomes| == n && forall i :: 0 <= i < n ==> outcomes[i] == ALL_LOSE
  {
    if n == 0 then [] else AllLost(n - 1) + [ALL_LOSE]
  }

  lemma {:induction false} LossIsAtMostExposure(tables: seq<State>, u: UserId, outcomes: seq<Outcome>, commission: real)
    requires |outcomes| == |tables| && StakesInOrder(tables) && 0.0 <= commission <= 1.0
    ensures Gains(tables, u, outcomes, commission) >= -Exposure(tables, u)
    ensures outcomes == AllLost(|tables|) ==> Gains(tables, u, outcomes, commission) == -Exposure(tables, u)
  {
    if tables != [] {
      var n := |tables| - 1;
      LossIsAtMostExposure(tables[..n], u, outcomes[..n], commission);
      WorstAtTable(tables[n], u, outcomes[n], commission);
      assert AllLost(n + 1)[..n] == AllLost(n);
    }
  }

  /** No outcome of the open rounds can leave the user in debt, exactly if the balance covers the
      exposure. */
  lemma NoDebtIff(tables: seq<State>, gold: real, u: UserId, commission: real)
    requires StakesInOrder(tables) && 0.0 <= commission <= 1.0
    ensures Exposure(tables, u) <= gold <==>
            forall outcomes: seq<Outcome> :: |outcomes| == |tables| ==>
              gold + Gains(tables, u, outcomes, commission) >= 0.0
  {
    forall outcomes: seq<Outcome> | |outcomes| == |tables|
      ensures Exposure(tables, u) <= gold ==> gold + Gains(tables, u, outcomes, commission) >= 0.0
    {
      LossIsAtMostExposure(tables, u, outcomes, commission);
    }
    var lost := AllLost(|tables|);
    LossIsAtMostExposure(tables, u, lost, commission);
    assert gold + Gains(tables, u, lost, commission) == gold - Exposure(tables, u);
  }

  /** Whatever the cards of one table, what it leaves to a user covers stakes elsewhere, exactly if the
      balance less what is at risk at this table does. */
  lemma CoveredWhateverTheCards(t: State, u: UserId, gold: real, elsewhere: Row, maxOdds: int, commission: real)
    requires t.state == BET && AllNonNegative(t.userBet) && 0.0 <= commission <= 1.0
    ensures Covers(gold - Risk(t, u), elsewhere, maxOdds) <==>
            forall outcome: Outcome ::
              var change := Change(RowOf(t.userBet, u), outcome, commission);
              Covers(gold + Times(Seated(t.seats, u), change), elsewhere, maxOdds)
  {
    var k, row := Seated(t.seats, u), RowOf(t.userBet, u);
    forall outcome: Outcome
      ensures Times(k, Change(row, outcome, commission)) >= -Risk(t, u)
      ensures Times(k, Change(row, ALL_LOSE, commission)) == -Risk(t, u)
    {
      WorstAtTable(t, u, outcome, commission);
    }
    WorstAtTable(t, u, ALL_LOSE, commission);
    assert gold + Times(k, Change(row, ALL_LOSE, commission)) == gold - Risk(t, u);
  }

  // ---- Every open table's bets are covered ----

  ghost predicate RoomCovered(r: Room, rules: Rules)
    requires RoomInv(r)
  {
    forall j :: 0 <= j < |r.tables| && r.tables[j].state == BET ==> Covered(r.tables[j], rules)
  }

  /** A user's balance after an event. */
  ghost function BalanceAfter(r: Room, e: Event, rules: Rules, u: UserId): real
    requires RoomInv(r) && Possible(r, e) && u in r.gold
  {
    match e
    case Arrives(user, balance, _, _) => if u == user then balance else r.gold[u]
    case Bets(_, _, _) => r.gold[u]
    case Timer(i, _, _) =>
      var t := r.tables[i];
      if t.state == BET then
        r.gold[u] + Times(Seated(t.seats, u), Change(RowOf(t.userBet, u), Wins(t.hands, rules.odds), rules.commission))
      else r.gold[u]
  }

  lemma BalanceIs(r: Room, e: Event, rules: Rules, u: UserId)
    requires RoomInv(r) && Possible(r, e) && u in r.gold
    ensures var s := After(r, e, rules).0; u in s.gold && s.gold[u] == BalanceAfter(r, e, rules, u)
  {
    OpenedKeeps(r, e);
    var t := Opened(r, e).tables[TableOf(r, e)];
    DeckSize(t.deck);
    match e
    case Arrives(user, balance, choice, _) => RiskAfterEnter(t, user, balance, choice, rules, u);
    case Bets(user, position, amount) => RiskAfterBet(t, user, position, amount, rules, u);
    case Timer(_, which, _) =>
      RemoveOnly(t.timers, which);
      if t.state == BET {
        PaidPerSeat(t.seats, t.gold, t.userBet, Wins(t.hands, rules.odds), rules.commission, u);
      }
  }

  /** If the table stays open, the balances after the event cover the stakes at it. */
  ghost predicate CoversAt(r: Room, e: Event, rules: Rules, j: nat)
    requires RoomInv(r) && Possible(r, e) && j < |r.tables|
  {
    var t := r.tables[j];
    !e.Bets? && t.state == BET && !(e.Timer? && j == e.table) ==>
      forall u :: u in t.userBet ==> Covers(BalanceAfter(r, e, rules, u), t.userBet[u], rules.odds(10))
  }

  /** A returning user's balance, and what a settlement leaves, cover the stakes at the tables that are
      still open. */
  ghost predicate StillCovers(r: Room, e: Event, rules: Rules)
    requires RoomInv(r) && Possible(r, e)
  {
    forall j :: 0 <= j < |r.tables| ==> CoversAt(r, e, rules, j)
  }

  /** How an event is seen from table `j`. */
  ghost function Seen(r: Room, e: Event, rules: Rules, j: nat): Step
    requires RoomInv(r) && Possible(r, e)
  {
    if j == TableOf(r, e) then StepOf(e) else Elsewhere(After(r, e, rules).0.gold)
  }

  lemma TableCovers(r: Room, e: Event, rules: Rules, j: nat)
    requires RoomInv(r) && Possible(r, e) && j < |r.tables| && r.tables[j].state == BET && !(e.Timer? && j == e.table)
    requires Covered(r.tables[j], rules)
    ensures BalanceCovers(r.tables[j], Seen(r, e, rules, j), rules) <==> CoversAt(r, e, rules, j)
  {
    forall u | u in r.tables[j].userBet
      ensures u in After(r, e, rules).0.gold && After(r, e, rules).0.gold[u] == BalanceAfter(r, e, rules, u)
    {
      BalanceIs(r, e, rules, u);
    }
  }

  lemma CoveredAtTable(r: Room, e: Event, rules: Rules, j: nat)
    requires RoomInv(r) && Possible(r, e) && RoomCovered(r, rules) && j < |r.tables|
    ensures RoomInv(After(r, e, rules).0) && j < |After(r, e, rules).0.tables|
    ensures var t := After(r, e, rules).0.tables[j];
            (t.state == BET ==> Covered(t, rules)) <==> CoversAt(r, e, rules, j)
  {
    AfterKeeps(r, e, rules);
    SeenFrom(r, e, rules, j);
    var t := r.tables[j];
    CoveredIff(t, Seen(r, e, rules, j), rules);
    StepChangesOnly(t, Seen(r, e, rules, j), rules);
    if t.state == BET && !(e.Timer? && j == e.table) {
      TableCovers(r, e, rules, j);
    } else if t.state == BET {
      OneTimerStep(t, e.deal, rules);
      RemoveOnly(t.timers, e.which);
    }
  }

  lemma NewTableIsShut(r: Room, e: Event, rules: Rules)
    requires RoomInv(r) && Possible(r, e)
    ensures var s := After(r, e, rules).0;
            |r.tables| <= |s.tables| <= |r.tables| + 1
            && (|s.tables| == |r.tables| + 1 ==> s.tables[|r.tables|].state != BET)
  {
    OpenedKeeps(r, e);
    if e.Arrives? && e.at == |r.tables| {
      SeenFrom(r, e, rules, e.at);
      StepChangesOnly(Opened(r, e).tables[e.at], StepOf(e), rules);
    }
  }

  /** While every open bet is covered, an event leaves it so exactly if a returning user's balance, or
      what a settlement leaves to the users who have bet elsewhere too, still covers the open stakes. */
  lemma RoomCoveredIff(r: Room, e: Event, rules: Rules)
    requires RoomInv(r) && Possible(r, e) && RoomCovered(r, rules)
    ensures RoomInv(After(r, e, rules).0)
    ensures RoomCovered(After(r, e, rules).0, rules) <==> StillCovers(r, e, rules)
  {
    AfterKeeps(r, e, rules);
    NewTableIsShut(r, e, rules);
    var s := After(r, e, rules).0;
    forall j | 0 <= j < |r.tables|
      ensures j < |s.tables|
      ensures (s.tables[j].state == BET ==> Covered(s.tables[j], rules)) <==> CoversAt(r, e, rules, j)
    {
      CoveredAtTable(r, e, rules, j);
    }
  }

  // ---- Whole runs ----

  ghost predicate Legal(run: seq<Event>, rules: Rules)
    decreases |run|, 0
  {
    run == [] ||
    var n := |run| - 1;
    Legal(run[..n], rules) && Possible(Run(run[..n], rules), run[n])
  }

  /** The room that a run of events leads to. */
  ghost function Run(run: seq<Event>, rules: Rules): (r: Room)
    requires Legal(run, rules)
    ensures RoomInv(r)
    decreases |run|, 1
  {
    if run == [] then NO_TABLES
    else
      var n := |run| - 1;
      AfterKeeps(Run(run[..n], rules), run[n], rules);
      After(Run(run[..n], rules), run[n], rules).0
  }

  lemma RunMore(run: seq<Event>, e: Event, rules: Rules)
    requires Legal(run, rules) && Possible(Run(run, rules), e)
    ensures Legal(run + [e], rules) && Run(run + [e], rules) == After(Run(run, rules), e, rules).0
  {
    assert (run + [e])[..|run|] == run;
  }

  ghost predicate AllAffordable(run: seq<Event>, rules: Rules)
    requires Legal(run, rules)
  {
    run == [] ||
    var n := |run| - 1;
    AllAffordable(run[..n], rules) && Affordable(Run(run[..n], rules), run[n], rules)
  }

  lemma {:induction false} ExposureNonNegative(tables: seq<State>, u: UserId)
    requires StakesInOrder(tables)
    ensures Exposure(tables, u) >= 0.0
  {
    if tables != [] {
      var n := |tables| - 1;
      var t := tables[n];
      ExposureNonNegative(tables[..n], u);
      SumNonNegative(RowOf(t.userBet, u));
      TimesNothing(Seated(t.seats, u));
      TimesGrows(Seated(t.seats, u), 0.0, Sum(RowOf(t.userBet, u)));
    }
  }

  /** Over every run in which users come in and bet only as they can afford at all open tables
      together, every balance covers every risk, and so nobody is ever in debt, whatever the cards. */
  lemma {:induction false} RunSafe(run: seq<Event>, rules: Rules)
    requires Legal(run, rules) && AllAffordable(run, rules) && GoodRules(rules)
    ensures Safe(Run(run, rules))
    ensures forall u :: u in Run(run, rules).gold ==> Run(run, rules).gold[u] >= 0.0
  {
    if run != [] {
      var n := |run| - 1;
      RunSafe(run[..n], rules);
      SafeIff(Run(run[..n], rules), run[n], rules);
    }
    var r := Run(run, rules);
    forall u | u in r.gold
      ensures r.gold[u] >= 0.0
    {
      ExposureNonNegative(r.tables, u);
    }
  }

  ghost predicate AllStillCover(run: seq<Event>, rules: Rules)
    requires Legal(run, rules)
  {
    run == [] ||
    var n := |run| - 1;
    AllStillCover(run[..n], rules) && StillCovers(Run(run[..n], rules), run[n], rules)
  }

  /** Over every run whose balances still cover what is open, the bets at every open table are covered. */
  lemma {:induction false} RunRoomCovered(run: seq<Event>, rules: Rules)
    requires Legal(run, rules) && AllStillCover(run, rules)
    ensures RoomCovered(Run(run, rules), rules)
  {
    if run != [] {
      var n := |run| - 1;
      RunRoomCovered(run[..n], rules);
      RoomCoveredIff(Run(run[..n], rules), run[n], rules);
    }
  }

  // ---- A table for every arrival ----

  /** What is entered in the room's list when a table is made: the source names a variable that is not
      defined there, where it means the new table. */
  type Entered = nat -> Option<nat>

  const AS_WRITTEN: Entered := _ => None
  const AS_MEANT: Entered := table => Some(table)

  function ListedAfter(listed: seq<nat>, entered: Option<nat>): seq<nat> {
    match entered
    case None => listed
    case Some(table) => listed + [table]
  }

  /** The first table of the list that is not full. */
  function Available(listed: seq<nat>, full: nat -> bool): Option<nat> {
    if listed == [] then None else if !full(listed[0]) then Some(listed[0]) else Available(listed[1..], full)
  }

  /** No table is ever marked as full. */
  const NEVER_FULL: nat -> bool := _ => false

  /** The room's list of tables: each is to be entered when it is made. */
  ghost function Listed(run: seq<Event>, entered: Entered, rules: Rules): seq<nat>
    requires Legal(run, rules)
  {
    if run == [] then []
    else
      var n := |run| - 1;
      var before := Listed(run[..n], entered, rules);
      if run[n].Arrives? && Available(before, NEVER_FULL) == None
      then ListedAfter(before, entered(|Run(run[..n], rules).tables|))
      else before
  }

  /** Where an arrival is seated: at a table of the list, or at a new one if there is none. */
  ghost function Place(run: seq<Event>, entered: Entered, rules: Rules): nat
    requires Legal(run, rules)
  {
    match Available(Listed(run, entered, rules), NEVER_FULL)
    case None => |Run(run, rules).tables|
    case Some(table) => table
  }

  /** Every arrival is seated as the search of the list says. */
  ghost predicate Searched(run: seq<Event>, entered: Entered, rules: Rules)
    requires Legal(run, rules)
  {
    run == [] ||
    var n := |run| - 1;
    Searched(run[..n], entered, rules) && (run[n].Arrives? ==> run[n].at == Place(run[..n], entered, rules))
  }

  lemma {:induction false} ListStaysEmpty(run: seq<Event>, rules: Rules)
    requires Legal(run, rules)
    ensures Listed(run, AS_WRITTEN, rules) == []
  {
    if run != [] {
      ListStaysEmpty(run[..|run| - 1], rules);
    }
  }

  /** As written, every arrival is given a new table. */
  lemma {:induction false} AsWrittenNeverShared(run: seq<Event>, rules: Rules)
    requires Legal(run, rules) && Searched(run, AS_WRITTEN, rules)
    ensures NeverShared(run, rules)
  {
    if run != [] {
      var n := |run| - 1;
      AsWrittenNeverShared(run[..n], rules);
      ListStaysEmpty(run[..n], rules);
    }
  }

  /** As meant, all arrivals are seated at one table, since none is ever full. */
  lemma {:induction false} AsMeantAllShare(run: seq<Event>, rules: Rules)
    requires Legal(run, rules) && Searched(run, AS_MEANT, rules)
    ensures |Run(run, rules).tables| <= 1
    ensures Listed(run, AS_MEANT, rules) == if Run(run, rules).tables == [] then [] else [0]
  {
    if run != [] {
      var n := |run| - 1;
      AsMeantAllShare(run[..n], rules);
      TablesAfter(Run(run[..n], rules), run[n], rules);
    }
  }

  lemma TablesAfter(r: Room, e: Event, rules: Rules)
    requires RoomInv(r) && Possible(r, e)
    ensures |After(r, e, rules).0.tables| == |r.tables| + if e.Arrives? && e.at == |r.tables| then 1 else 0
  {
  }

  /** Every arrival is given a new table. */
  ghost predicate NeverShared(run: seq<Event>, rules: Rules)
    requires Legal(run, rules)
  {
    run == [] ||
    var n := |run| - 1;
    NeverShared(run[..n], rules) && (run[n].Arrives? ==> run[n].at == |Run(run[..n], rules).tables|)
  }

  lemma SeatsAfter(r: Room, e: Event, rules: Rules, j: nat)
    requires RoomInv(r) && Possible(r, e) && j < |Opened(r, e).tables|
    ensures var s := After(r, e, rules).0;
            |s.tables| == |Opened(r, e).tables|
            && |s.tables[j].seats| == |Opened(r, e).tables[j].seats| + if e.Arrives? && j == e.at then 1 else 0
  {
    SeenFrom(r, e, rules, j);
    var t := Opened(r, e).tables[j];
    DeckSize(t.deck);
    if e.Timer? && j == e.table {
      RemoveOnly(t.timers, e.which);
    }
  }

  lemma {:induction false} UnsharedHaveOneSeat(run: seq<Event>, rules: Rules)
    requires Legal(run, rules) && NeverShared(run, rules)
    ensures forall j :: 0 <= j < |Run(run, rules).tables| ==> |Run(run, rules).tables[j].seats| == 1
  {
    if run != [] {
      var n := |run| - 1;
      UnsharedHaveOneSeat(run[..n], rules);
      var r, s := Run(run[..n], rules), Run(run, rules);
      forall j | 0 <= j < |s.tables|
        ensures |s.tables[j].seats| == 1
      {
        OpenedKeeps(r, run[n]);
        SeatsAfter(r, run[n], rules, if j < |Opened(r, run[n]).tables| then j else 0);
      }
    }
  }

  lemma OneSeatIsOnce(t: State)
    requires Inv(t) && |t.seats| == 1
    ensures SeatedOnce(t.seats, t.userBet)
  {
    assert t.seats[..0] == [];
    forall u | u in t.userBet
      ensures Seated(t.seats, u) == 1
    {
      assert Seated(t.seats, u) == Seated(t.seats[..0], u) + if t.seats[0] == u then 1 else 0;
    }
  }

  /** As written, every table has one seat over every run. */
  lemma {:induction false} OneSeatEach(run: seq<Event>, rules: Rules)
    requires Legal(run, rules) && Searched(run, AS_WRITTEN, rules)
    ensures forall j :: 0 <= j < |Run(run, rules).tables| ==> |Run(run, rules).tables[j].seats| == 1
  {
    AsWrittenNeverShared(run, rules);
    UnsharedHaveOneSeat(run, rules);
  }

  /** As written, every round conserves money, with nothing asked about seats. */
  lemma UnsharedRoundConserves(run: seq<Event>, e: Event, rules: Rules)
    requires Legal(run, rules) && Searched(run, AS_WRITTEN, rules) && Possible(Run(run, rules), e) && e.Timer?
    requires Run(run, rules).tables[e.table].state == BET
    ensures var r, s := Run(run, rules), After(Run(run, rules), e, rules).0;
            var t := r.tables[e.table];
            SumOver(r.gold.Keys, Gain(r.gold, s.gold)) == Net(t.playerBet, Wins(t.hands, rules.odds), rules.commission)
  {
    OneSeatEach(run, rules);
    var t := Run(run, rules).tables[e.table];
    OneSeatIsOnce(t);
    RoundConserves(t, StepOf(e), rules);
  }
}
