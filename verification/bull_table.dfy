/** A bull-fighting table: users sit down and bet, timers drive the rounds, and every round ends
    with a settlement. */
module BullTables {
  import opened BullCards
  import opened Shufflers
  import opened Settlements

  /** The constants that the game is configured with. */
  datatype Rules = Rules(odds: nat -> int, commission: real)

  predicate GoodRules(rules: Rules) {
    && 0.0 <= rules.commission <= 1.0
    && forall point: nat :: point <= 10 ==> 1 <= rules.odds(point) <= rules.odds(10)
  }

  const INIT := 0
  const FREE := 1
  const BET := 2
  const SETTLEMENT := 3

  const HANDS := 5
  const CARDS := 52

  /** What a pending timer will call. */
  datatype Callback = FreeTimerOver | BetTimerOver | SettlementTimerOver

  datatype Code = Ok | ParameterError | CanNotBet | BetIsTooLarge

  /** `gold` is the room server's copy of the users' balances, `timers` what the timer service still
      has to call. */
  datatype State = State(
    state: nat,
    seats: seq<UserId>,
    playerBet: seq<real>,
    userBet: Bets,
    gold: map<UserId, real>,
    timers: seq<Callback>,
    deck: seq<nat>,
    hands: seq<seq<nat>>)

  const NEW_TABLE := State(INIT, [], [], map[], map[], [], Deck(false), [])

  type Choice = nat -> nat

  /** What a random generator may answer. */
  ghost predicate GoodChoice(choice: Choice) {
    forall i :: choice(i) < CARDS
  }

  datatype Step =
    | Enter(user: UserId, gold: real, choice: Choice)     // a user comes in, with a balance from the logic server
    | ClientBet(better: UserId, position: int, amount: real)
    | Fires(which: nat, deal: Choice)                       // a pending timer calls back
    | Elsewhere(balances: map<UserId, real>)                // another table of the room changes balances

  // ---- What the steps do ----

  predicate Dealt(hands: seq<seq<nat>>) {
    |hands| == HANDS && forall i :: 0 <= i < HANDS ==> |hands[i]| == 5
  }

  /** The positions whose hands beat the dealer's. */
  function Wins(hands: seq<seq<nat>>, odds: nat -> int): (wins: seq<bool>)
    requires Dealt(hands)
    ensures |wins| == POSITIONS
  {
    seq(POSITIONS, p requires 0 <= p < POSITIONS => WinOdds(hands[p + 1], hands[0], odds) > 0)
  }

  ghost function NewRound(t: State, choice: Choice): State
    requires |t.deck| == CARDS && GoodChoice(choice)
  {
    var deck := Mixed(t.deck, choice, CARDS);
    t.(state := t.state + 1, userBet := map[], playerBet := NO_STAKES, deck := deck,
       hands := Deal(deck, HANDS, 5), timers := t.timers + [FreeTimerOver])
  }

  ghost function Checked(t: State, choice: Choice): State
    requires |t.deck| == CARDS && GoodChoice(choice)
  {
    if t.state == INIT && |t.seats| > 0 then NewRound(t, choice) else t
  }

  function SatDown(t: State, user: UserId, gold: real): State {
    t.(gold := t.gold[user := gold], seats := t.seats + [user])
  }

  function Marked(t: State, user: UserId, p: nat, amount: real): State
    requires p < POSITIONS && |t.playerBet| == POSITIONS
  {
    t.(playerBet := Raise(t.playerBet, p, amount),
       userBet := t.userBet[user := Raise(RowOf(t.userBet, user), p, amount)])
  }

  /** Positions are counted from 1.  Nothing changes unless the bet is accepted. */
  function TakeBet(t: State, user: UserId, position: int, amount: real, rules: Rules): (State, Code)
    requires user in t.gold && (t.state == BET ==> |t.playerBet| == POSITIONS)
  {
    if position <= 0 || position > 4 then (t, ParameterError)
    else if t.state != BET then (t, CanNotBet)
    else if !(t.gold[user] > (Sum(RowOf(t.userBet, user)) + amount) * rules.odds(10) as real) then (t, BetIsTooLarge)
    else (Marked(t, user, position - 1, amount), Ok)
  }

  /** A request to bet; unlike the table itself, this refuses negative amounts. */
  function Bet(t: State, user: UserId, position: int, amount: real, rules: Rules): (State, Code)
    requires user in t.gold && (t.state == BET ==> |t.playerBet| == POSITIONS)
  {
    if position < 0 || amount < 0.0 then (t, ParameterError) else TakeBet(t, user, position, amount, rules)
  }

  function Settled(t: State, rules: Rules): (State, seq<Entry>)
    requires Dealt(t.hands) && AllKnown(t.seats, t.gold)
  {
    var paid := Settle(t.seats, t.gold, t.userBet, Wins(t.hands, rules.odds), rules.commission);
    (t.(gold := paid.0), paid.1)
  }

  // ---- What stays true ----

  predicate Proper(deck: seq<nat>) {
    multiset(deck) == multiset(Deck(false))
  }

  function TimerOf(state: nat): Callback
    requires FREE <= state <= SETTLEMENT
  {
    if state == FREE then FreeTimerOver else if state == BET then BetTimerOver else SettlementTimerOver
  }

  predicate BettorsKnown(t: State) {
    forall u :: u in t.userBet ==> u in t.gold && Seated(t.seats, u) >= 1
  }

  ghost predicate Inv(t: State) {
    && Proper(t.deck) && AllKnown(t.seats, t.gold) && AllNonNegative(t.userBet) && BettorsKnown(t)
    && t.state <= SETTLEMENT
    && (t.state == INIT ==> t.timers == [] && t.seats == [] && t.userBet == map[])
    && (t.state != INIT ==> InRound(t))
  }

  /** A table in a round has one pending timer, that of its state; the cards have been dealt, and the
      totals are the sums of the users' stakes. */
  ghost predicate InRound(t: State) {
    && t.seats != [] && FREE <= t.state <= SETTLEMENT && t.timers == [TimerOf(t.state)]
    && t.playerBet == Totals(t.userBet.Keys, t.userBet)
    && |t.deck| == CARDS && t.hands == Deal(t.deck, HANDS, 5)
    && (t.state == FREE ==> t.userBet == map[])
  }

  lemma DeckSize(deck: seq<nat>)
    requires Proper(deck)
    ensures |deck| == CARDS
  {
    assert |multiset(deck)| == |deck| && |multiset(Deck(false))| == |Deck(false)|;
  }

  ghost predicate Enabled(t: State, step: Step) {
    match step
    case Enter(_, _, choice) => GoodChoice(choice)
    case ClientBet(user, _, _) => user in t.seats
    case Fires(i, choice) => i < |t.timers| && GoodChoice(choice)
    case Elsewhere(balances) => t.gold.Keys <= balances.Keys
  }

  /** The callbacks; the timer that fires is no longer pending. */
  ghost function Fired(t: State, callback: Callback, choice: Choice, rules: Rules): (State, seq<Entry>)
    requires |t.deck| == CARDS && GoodChoice(choice) && Dealt(t.hands) && AllKnown(t.seats, t.gold)
  {
    match callback
    case FreeTimerOver => (t.(state := t.state + 1, timers := t.timers + [BetTimerOver]), [])
    case BetTimerOver =>
      var paid := Settled(t, rules);
      (paid.0.(state := t.state + 1, timers := t.timers + [SettlementTimerOver]), paid.1)
    case SettlementTimerOver =>
      (if |t.seats| > 0 then Checked(t.(state := INIT), choice) else t, [])
  }

  /** The state after a step, and what is reported to the logic server. */
  ghost function Next(t: State, step: Step, rules: Rules): (State, seq<Entry>)
    requires Inv(t) && Enabled(t, step)
  {
    DeckSize(t.deck);
    match step
    case Enter(user, gold, choice) => (Checked(SatDown(t, user, gold), choice), [])
    case ClientBet(user, position, amount) =>
      assert user in t.gold;
      (Bet(t, user, position, amount, rules).0, [])
    case Fires(i, choice) =>
      assert t.state != INIT;
      Fired(t.(timers := t.timers[..i] + t.timers[i + 1..]), t.timers[i], choice, rules)
    case Elsewhere(balances) => (t.(gold := balances), [])
  }

  lemma {:induction false} SeatedAppend(seats: seq<UserId>, v: UserId, u: UserId)
    ensures Seated(seats + [v], u) == Seated(seats, u) + if u == v then 1 else 0
  {
    assert (seats + [v])[..|seats|] == seats;
  }

  lemma {:induction false} SeatedIffIn(seats: seq<UserId>, u: UserId)
    ensures Seated(seats, u) >= 1 <==> u in seats
  {
    if seats != [] {
      SeatedIffIn(seats[..|seats| - 1], u);
      assert seats == seats[..|seats| - 1] + [seats[|seats| - 1]];
    }
  }

  lemma SitDownKeeps(t: State, user: UserId, gold: real)
    requires Inv(t)
    ensures var s := SatDown(t, user, gold);
            Proper(s.deck) && AllKnown(s.seats, s.gold) && AllNonNegative(s.userBet) && BettorsKnown(s)
    ensures t.state != INIT ==> Inv(SatDown(t, user, gold))
  {
    var s := SatDown(t, user, gold);
    forall i | 0 <= i < |s.seats|
      ensures s.seats[i] in s.gold
    {
      assert i < |t.seats| ==> s.seats[i] == t.seats[i];
    }
    forall u | u in s.userBet
      ensures u in s.gold && Seated(s.seats, u) >= 1
    {
      SeatedAppend(t.seats, user, u);
    }
  }

  /** A new round begins whatever came before. */
  lemma RoundStarts(t: State, choice: Choice)
    requires Proper(t.deck) && |t.deck| == CARDS && GoodChoice(choice)
    requires AllKnown(t.seats, t.gold) && t.seats != [] && t.state == INIT && t.timers == []
    ensures Inv(NewRound(t, choice))
  {
    MixedPermutes(t.deck, choice, CARDS);
    NewRoundIsRound(t, choice);
  }

  lemma NewRoundIsRound(t: State, choice: Choice)
    requires |t.deck| == CARDS && GoodChoice(choice) && t.seats != [] && t.state == INIT && t.timers == []
    ensures InRound(NewRound(t, choice))
  {
    assert t.timers + [FreeTimerOver] == [FreeTimerOver];
    var none: Bets := map[];
    TotalsOfNone(none);
    assert none.Keys == {};
  }

  lemma BetKeeps(t: State, user: UserId, p: nat, amount: real)
    requires Inv(t) && t.state == BET && user in t.seats && p < POSITIONS && amount >= 0.0
    ensures Inv(Marked(t, user, p, amount))
  {
    BetRaisesTotal(t.userBet, user, p, amount);
    SeatedIffIn(t.seats, user);
    var s := Marked(t, user, p, amount);
    assert NonNegative(s.userBet[user]);
  }

  lemma FiredKeeps(t: State, choice: Choice, rules: Rules)
    requires Inv(t) && InRound(t) && GoodChoice(choice)
    ensures Inv(Fired(t.(timers := []), TimerOf(t.state), choice, rules).0)
  {
    var s := t.(timers := []);
    if t.state == SETTLEMENT {
      RoundStarts(s.(state := INIT), choice);
    } else {
      assert s.timers + [TimerOf(t.state + 1)] == [TimerOf(t.state + 1)];
    }
  }

  lemma RemoveOnly<T>(s: seq<T>, i: nat)
    requires |s| == 1 && i < |s|
    ensures i == 0 && s[..i] + s[i + 1..] == []
  {
  }

  /** Every step keeps the invariant. */
  lemma NextKeeps(t: State, step: Step, rules: Rules)
    requires Inv(t) && Enabled(t, step)
    ensures Inv(Next(t, step, rules).0)
  {
    DeckSize(t.deck);
    match step
    case Enter(user, gold, choice) =>
      SitDownKeeps(t, user, gold);
      if t.state == INIT {
        RoundStarts(SatDown(t, user, gold), choice);
      }
    case ClientBet(user, position, amount) =>
      if Bet(t, user, position, amount, rules).1 == Ok {
        BetKeeps(t, user, position - 1, amount);
      }
    case Fires(i, choice) =>
      RemoveOnly(t.timers, i);
      FiredKeeps(t, choice, rules);
    case Elsewhere(balances) => ElsewhereKeeps(t, balances);
  }

  /** Balances may change, as long as no user becomes unknown. */
  lemma ElsewhereKeeps(t: State, balances: map<UserId, real>)
    requires Inv(t) && t.gold.Keys <= balances.Keys
    ensures Inv(t.(gold := balances))
  {
  }

  // ---- Bets are covered ----

  /** Every user who has bet can pay the stakes at the highest odds. */
  ghost predicate Covered(t: State, rules: Rules)
    requires BettorsKnown(t)
  {
    forall u :: u in t.userBet ==> Covers(t.gold[u], t.userBet[u], rules.odds(10))
  }

  /** A bet is accepted exactly if it is a proper one in time, and the user's gold still covers all
      stakes afterwards. */
  lemma AcceptedIff(t: State, user: UserId, position: int, amount: real, rules: Rules)
    requires Inv(t) && user in t.gold
    ensures Bet(t, user, position, amount, rules).1 == Ok <==>
              && 1 <= position <= POSITIONS && amount >= 0.0 && t.state == BET
              && Covers(t.gold[user], Raise(RowOf(t.userBet, user), position - 1, amount), rules.odds(10))
    ensures Bet(t, user, position, amount, rules).1 != Ok ==> Bet(t, user, position, amount, rules).0 == t
  {
    if 1 <= position <= POSITIONS {
      RaiseSum(RowOf(t.userBet, user), position - 1, amount);
    }
  }

  /** Why a bet is refused: first a position or an amount that is none, then the state of the table, and last
      the means of the user, with all four stakes at the highest odds. */
  lemma RefusedBecause(t: State, user: UserId, position: int, amount: real, rules: Rules)
    requires Inv(t) && user in t.gold
    ensures var code, row := Bet(t, user, position, amount, rules).1, RowOf(t.userBet, user);
            var cost := (row[0] + row[1] + row[2] + row[3] + amount) * rules.odds(10) as real;
            && (code == ParameterError <==> position < 1 || position > 4 || amount < 0.0)
            && (code == CanNotBet <==> 1 <= position <= 4 && amount >= 0.0 && t.state != BET)
            && (code == BetIsTooLarge <==>
                1 <= position <= 4 && amount >= 0.0 && t.state == BET && t.gold[user] <= cost)
  {
    SumOfRow(RowOf(t.userBet, user));
  }

  /** An accepted bet is found where it was placed: in the stake of its user on its position and in the
      table's total of that position, and nowhere else. */
  lemma BetIsMarked(t: State, user: UserId, position: int, amount: real, rules: Rules, v: UserId, q: nat)
    requires Inv(t) && user in t.gold && Bet(t, user, position, amount, rules).1 == Ok && q < POSITIONS
    ensures var s, here := Bet(t, user, position, amount, rules).0, q + 1 == position;
            && s == t.(userBet := s.userBet, playerBet := s.playerBet)
            && |s.playerBet| == |t.playerBet| == POSITIONS
            && s.playerBet[q] == t.playerBet[q] + (if here then amount else 0.0)
            && RowOf(s.userBet, v)[q] == RowOf(t.userBet, v)[q] + (if v == user && here then amount else 0.0)
  {
  }

  /** The table itself takes any amount within the user's means.  Its totals and stakes remain in order
      exactly if no stake falls below zero, which is why the request to bet refuses negative amounts. */
  lemma UnguardedBetKeepsIff(t: State, user: UserId, position: int, amount: real, rules: Rules)
    requires Inv(t) && t.state == BET && user in t.seats
    requires TakeBet(t, user, position, amount, rules).1 == Ok
    ensures Inv(TakeBet(t, user, position, amount, rules).0) <==>
            RowOf(t.userBet, user)[position - 1] + amount >= 0.0
  {
    var s := TakeBet(t, user, position, amount, rules).0;
    BetRaisesTotal(t.userBet, user, position - 1, amount);
    SeatedIffIn(t.seats, user);
    assert s.userBet[user][position - 1] == RowOf(t.userBet, user)[position - 1] + amount;
  }

  /** A balance that is replaced while bets are taken, because the user comes in again or another table
      settles, covers the stakes made before. */
  ghost predicate BalanceCovers(t: State, step: Step, rules: Rules) {
    t.state == BET ==>
      match step
      case Enter(user, gold, _) => user in t.userBet ==> Covers(gold, t.userBet[user], rules.odds(10))
      case Elsewhere(balances) =>
        forall u :: u in t.userBet && u in balances ==> Covers(balances[u], t.userBet[u], rules.odds(10))
      case _ => true
  }

  /** While bets are taken all are covered, and a step changes that exactly if it replaces the balance
      of a user by one that does not cover that user's stakes. */
  lemma CoveredIff(t: State, step: Step, rules: Rules)
    requires Inv(t) && Enabled(t, step) && (t.state == BET ==> Covered(t, rules))
    ensures Inv(Next(t, step, rules).0)
    ensures Next(t, step, rules).0.state == BET ==>
              (Covered(Next(t, step, rules).0, rules) <==> BalanceCovers(t, step, rules))
  {
    NextKeeps(t, step, rules);
    var s := Next(t, step, rules).0;
    match step
    case Enter(user, gold, _) =>
      if s.state == BET {
        assert s.userBet == t.userBet;
        assert forall u :: u in t.userBet ==> s.gold[u] == if u == user then gold else t.gold[u];
      }
    case ClientBet(user, position, amount) =>
      AcceptedIff(t, user, position, amount, rules);
    case Fires(i, _) =>
      RemoveOnly(t.timers, i);
    case Elsewhere(balances) =>
      assert s == t.(gold := balances);
  }

  // ---- What a step may change ----

  /** The states follow each other in a circle; a table leaves the initial state for good. */
  predicate Follows(before: nat, after: nat) {
    after == before || (before < SETTLEMENT && after == before + 1) || (before == SETTLEMENT && after == FREE)
  }

  /** States only move on round the circle, and only by a timer, except for the first user's arrival.
      Stakes change only by a bet while bets are taken, or begin again from nothing with a new round;
      the cards change only with a new round, so they are fixed before the first bet; balances change only
      on arrival, at settlement, or elsewhere. */
  lemma StepChangesOnly(t: State, step: Step, rules: Rules)
    requires Inv(t) && Enabled(t, step)
    ensures var s := Next(t, step, rules).0;
      && Follows(t.state, s.state)
      && (s.state != t.state ==> step.Fires? || (t.state == INIT && step.Enter?))
      && (s.userBet != t.userBet || s.playerBet != t.playerBet ==>
            || (t.state == BET == s.state && step.ClientBet?)
            || (s.state == FREE != t.state && s.userBet == map[] && s.playerBet == NO_STAKES))
      && (s.deck != t.deck || s.hands != t.hands ==> s.state == FREE != t.state)
      && (s.gold != t.gold ==> step.Enter? || step.Elsewhere? || (t.state == BET && s.state == SETTLEMENT))
      && t.seats <= s.seats
  {
    DeckSize(t.deck);
    if step.Fires? {
      RemoveOnly(t.timers, step.which);
    }
  }

  // ---- Settling a round ----

  /** Of a player's hand and the dealer's exactly one beats the other. */
  lemma HandsAreRanked(t: State, p: nat)
    requires Inv(t) && InRound(t) && p < POSITIONS
    ensures Dealt(t.hands) && Beats(t.hands[p + 1], t.hands[0]) != Beats(t.hands[0], t.hands[p + 1])
  {
    DeckIsProper(false);
    assert forall x :: x in t.deck ==> x in multiset(Deck(false));
    DealtHandsAreRanked(t.deck, HANDS, p + 1, 0);
  }

  /** A hand of a round wins or the dealer's does: there are no ties. */
  lemma NoTies(t: State, rules: Rules, p: nat)
    requires Inv(t) && InRound(t) && GoodRules(rules) && p < POSITIONS
    ensures Dealt(t.hands)
    ensures Wins(t.hands, rules.odds)[p] <==> Beats(t.hands[p + 1], t.hands[0])
    ensures !Wins(t.hands, rules.odds)[p] <==> Beats(t.hands[0], t.hands[p + 1])
  {
    HandsAreRanked(t, p);
    PointTellsBull(t.hands[0]);
    PointTellsBull(t.hands[p + 1]);
  }

  /** The timer that ends betting settles the round. */
  lemma FiringSettles(t: State, choice: Choice, rules: Rules)
    requires Inv(t) && t.state == BET && GoodChoice(choice)
    ensures Next(t, Fires(0, choice), rules).0 ==
            Settled(t, rules).0.(state := SETTLEMENT, timers := [SettlementTimerOver])
  {
    RemoveOnly(t.timers, 0);
  }

  /** In every round that ends, the users together gain what the table has paid on the winning
      positions, less commission, minus what was staked on the losing ones. */
  lemma RoundConserves(t: State, step: Step, rules: Rules)
    requires Inv(t) && Enabled(t, step) && t.state == BET && step.Fires? && SeatedOnce(t.seats, t.userBet)
    ensures var wins, s := Wins(t.hands, rules.odds), Next(t, step, rules).0;
            SumOver(t.gold.Keys, Gain(t.gold, s.gold)) ==
            Net(t.playerBet, wins, rules.commission)
  {
    RemoveOnly(t.timers, step.which);
    SettlingConserves(t.seats, t.gold, t.userBet, Wins(t.hands, rules.odds), rules.commission);
  }

  /** Whatever the cards, nobody who has bet and is covered is left without gold. */
  lemma RoundLeavesGold(t: State, step: Step, rules: Rules, u: UserId)
    requires Inv(t) && Enabled(t, step) && t.state == BET && step.Fires? && GoodRules(rules)
    requires Covered(t, rules) && u in t.userBet && Seated(t.seats, u) <= rules.odds(10)
    ensures u in Next(t, step, rules).0.gold && Next(t, step, rules).0.gold[u] > 0.0
  {
    RemoveOnly(t.timers, step.which);
    CoveredIsSolvent(t.seats, t.gold, t.userBet, Wins(t.hands, rules.odds), rules.commission, rules.odds(10), u);
  }

  /** The logic server books the report of a step; if its balances were those of the room before,
      they are afterwards. */
  lemma ServersAgree(t: State, step: Step, rules: Rules)
    requires Inv(t) && Enabled(t, step) && step.Fires?
    ensures var r := Next(t, step, rules);
            && KnownEntries(r.1, t.gold) && r.0.gold.Keys == t.gold.Keys
            && forall u :: u in t.gold ==> r.0.gold[u] == t.gold[u] + Booked(r.1, u)
  {
    RemoveOnly(t.timers, step.which);
    RecordIsExact(t.seats, t.gold, t.userBet, Wins(t.hands, rules.odds), rules.commission);
  }

  // ---- Whole runs ----

  ghost predicate Legal(run: seq<Step>, rules: Rules)
    decreases |run|, 0
  {
    run == [] ||
    var n := |run| - 1;
    Legal(run[..n], rules) && Enabled(Run(run[..n], rules), run[n])
  }

  /** The state that a run leads to. */
  ghost function Run(run: seq<Step>, rules: Rules): (t: State)
    requires Legal(run, rules)
    ensures Inv(t)
    decreases |run|, 1
  {
    if run == [] then NEW_TABLE
    else
      var n := |run| - 1;
      NextKeeps(Run(run[..n], rules), run[n], rules);
      Next(Run(run[..n], rules), run[n], rules).0
  }

  /** Every balance that is replaced while bets are taken covers the stakes. */
  ghost predicate BalancesCover(run: seq<Step>, rules: Rules)
    requires Legal(run, rules)
  {
    run == [] ||
    var n := |run| - 1;
    BalancesCover(run[..n], rules) && BalanceCovers(Run(run[..n], rules), run[n], rules)
  }

  /** Over every run, all bets are covered while bets are taken, and the table's totals are the sums
      of the users' stakes. */
  lemma {:induction false} RunCovered(run: seq<Step>, rules: Rules)
    requires Legal(run, rules) && BalancesCover(run, rules)
    ensures var t := Run(run, rules);
            && (t.state == BET ==> Covered(t, rules))
            && (t.state != INIT ==> t.playerBet == Totals(t.userBet.Keys, t.userBet))
  {
    if run != [] {
      var n := |run| - 1;
      RunCovered(run[..n], rules);
      CoveredIff(Run(run[..n], rules), run[n], rules);
    }
  }

  /** Over every run, a table that has seen a user has exactly one pending timer, and so rounds never
      stop; one that has not has none. */
  lemma {:induction false} RunKeepsOneTimer(run: seq<Step>, rules: Rules)
    requires Legal(run, rules)
    ensures |Run(run, rules).timers| == if Run(run, rules).state == INIT then 0 else 1
    ensures Run(run, rules).state == INIT <==> forall i :: 0 <= i < |run| ==> !run[i].Enter?
  {
    if run != [] {
      var n := |run| - 1;
      RunKeepsOneTimer(run[..n], rules);
      StartsWithEnter(Run(run[..n], rules), run[n], rules);
      assert forall i :: 0 <= i < n ==> run[..n][i] == run[i];
    }
  }

  /** Only an arrival takes a table out of the initial state, and nothing leads back. */
  lemma StartsWithEnter(t: State, step: Step, rules: Rules)
    requires Inv(t) && Enabled(t, step)
    ensures Next(t, step, rules).0.state == INIT <==> t.state == INIT && !step.Enter?
  {
    DeckSize(t.deck);
    StepChangesOnly(t, step, rules);
  }

  /** A round: three timers lead from any state of a round back to it. */
  lemma ThreeTimersMakeARound(t: State, choice: Choice, rules: Rules)
    requires Inv(t) && t.state != INIT && GoodChoice(choice)
    ensures var fire := Fires(0, choice);
            var a := Next(t, fire, rules).0;
            Inv(a) && Enabled(a, fire) &&
            var b := Next(a, fire, rules).0;
            Inv(b) && Enabled(b, fire) && Next(b, fire, rules).0.state == t.state
            && {t.state, a.state, b.state} == {FREE, BET, SETTLEMENT}
  {
    var fire := Fires(0, choice);
    var a := Next(t, fire, rules).0;
    NextKeeps(t, fire, rules);
    var b := Next(a, fire, rules).0;
    NextKeeps(a, fire, rules);
    OneTimerStep(t, choice, rules);
    OneTimerStep(a, choice, rules);
    OneTimerStep(b, choice, rules);
  }

  lemma OneTimerStep(t: State, choice: Choice, rules: Rules)
    requires Inv(t) && t.state != INIT && GoodChoice(choice)
    ensures Next(t, Fires(0, choice), rules).0.state == if t.state == SETTLEMENT then FREE else t.state + 1
  {
    RemoveOnly(t.timers, 0);
  }

  // ---- The table ----

  class BullFightingTable {
    const rules: Rules
    const shuffler: BullFightingShuffler
    const users: UserManager
    var state: nat
    var seats: seq<UserId>
    var playerBet: seq<real>
    var userBet: Bets
    var timers: seq<Callback>

    ghost function View(): State
      reads this, users, shuffler, shuffler.gameCard
    {
      State(state, seats, playerBet, userBet, users.gold, timers, shuffler.gameCard[..], shuffler.result)
    }

    /** The shuffler holds the 52 cards that are played with. */
    ghost predicate Ready()
      reads this, users, shuffler, shuffler.gameCard
    {
      !shuffler.needJoker && shuffler.Valid() && shuffler.gameCard.Length == CARDS
    }

    ghost predicate Valid()
      reads this, users, shuffler, shuffler.gameCard
    {
      Ready() && Inv(View())
    }

    constructor (rules: Rules, users: UserManager)
      ensures Valid() && View() == NEW_TABLE.(gold := users.gold)
      ensures this.rules == rules && this.users == users && fresh(shuffler) && fresh(shuffler.gameCard)
    {
      this.rules, this.users := rules, users;
      shuffler := new BullFightingShuffler(false);
      state, seats, playerBet, userBet, timers := INIT, [], [], map[], [];
    }

    /** A user comes in with a balance from the logic server, takes a seat, and may start a round. */
    method Enter(user: UserId, balance: real, choice: Choice)
      requires Valid() && GoodChoice(choice)
      modifies this, users, shuffler, shuffler.gameCard
      ensures Valid() && View() == Next(old(View()), Step.Enter(user, balance, choice), rules).0
    {
      NextKeeps(View(), Step.Enter(user, balance, choice), rules);
      users.CacheUser(user, balance);
      seats := seats + [user];
      CheckState(choice);
    }

    method CheckState(choice: Choice)
      requires Ready() && GoodChoice(choice)
      modifies this, shuffler, shuffler.gameCard
      ensures Ready() && View() == Checked(old(View()), choice)
    {
      if state == INIT {
        if |seats| > 0 {
          InitGame(choice);
        }
      }
    }

    method InitGame(choice: Choice)
      requires Ready() && GoodChoice(choice)
      modifies this, shuffler, shuffler.gameCard
      ensures Ready() && View() == NewRound(old(View()), choice)
    {
      Shuffle(choice);
      state := state + 1;
      userBet, playerBet := map[], NO_STAKES;
      timers := timers + [Callback.FreeTimerOver];
    }

    method Shuffle(choice: Choice)
      requires Ready() && GoodChoice(choice)
      modifies shuffler, shuffler.gameCard
      ensures Ready() && View() == old(View()).(deck := Mixed(old(View()).deck, choice, CARDS),
                                                hands := Deal(View().deck, HANDS, 5))
    {
      var dealt := shuffler.Shuffle(HANDS, 5, choice);
      assert dealt;
    }

    method GetSumOfUserBet(user: UserId) returns (count: real)
      ensures count == Sum(RowOf(userBet, user))
    {
      count := 0.0;
      SumOfRow(NO_STAKES);
      if user in userBet {
        var row := userBet[user];
        for i := 0 to |row|
          invariant count == Sum(row[..i])
        {
          assert row[..i + 1][..i] == row[..i];
          count := count + row[i];
        }
        assert row[..|row|] == row;
      }
    }

    method CheckBetOverRange(user: UserId, amount: real) returns (enough: bool)
      requires user in users.gold
      ensures enough == (users.gold[user] > (Sum(RowOf(userBet, user)) + amount) * rules.odds(10) as real)
    {
      var count := GetSumOfUserBet(user);
      enough := users.gold[user] > (count + amount) * rules.odds(10) as real;
    }

    method MarkBet(user: UserId, position: int, amount: real)
      requires |playerBet| == POSITIONS
      modifies this`playerBet, this`userBet
      ensures View() == if 0 < position <= 4 then Marked(old(View()), user, position - 1, amount) else old(View())
    {
      if 0 < position <= 4 {
        playerBet := playerBet[position - 1 := playerBet[position - 1] + amount];
        if user !in userBet {
          userBet := userBet[user := NO_STAKES];
        }
        var row: Row := userBet[user][position - 1 := userBet[user][position - 1] + amount];
        userBet := userBet[user := row];
      }
    }

    method UserBet(user: UserId, position: int, amount: real) returns (code: Code)
      requires user in users.gold && (state == BET ==> |playerBet| == POSITIONS)
      modifies this`playerBet, this`userBet
      ensures (View(), code) == TakeBet(old(View()), user, position, amount, rules)
    {
      if position <= 0 || position > 4 {
        return ParameterError;
      }
      if state != BET {
        return CanNotBet;
      }
      var enough := CheckBetOverRange(user, amount);
      if !enough {
        return BetIsTooLarge;
      }
      MarkBet(user, position, amount);
      code := Ok;
    }

    /** A user at the table asks to bet. */
    method ClientBet(user: UserId, position: int, amount: real) returns (code: Code)
      requires Valid() && user in seats
      modifies this`playerBet, this`userBet
      ensures Valid() && View() == Next(old(View()), Step.ClientBet(user, position, amount), rules).0
      ensures code == Bet(old(View()), user, position, amount, rules).1
    {
      NextKeeps(View(), Step.ClientBet(user, position, amount), rules);
      if position < 0 || amount < 0.0 {
        return ParameterError;
      }
      code := UserBet(user, position, amount);
    }

    /** The timer service calls back. */
    method TimerFires(which: nat, choice: Choice) returns (record: seq<Entry>)
      requires Valid() && which < |timers| && GoodChoice(choice)
      modifies this, users, shuffler, shuffler.gameCard
      ensures Valid() && (View(), record) == Next(old(View()), Fires(which, choice), rules)
    {
      NextKeeps(View(), Fires(which, choice), rules);
      var callback := timers[which];
      timers := timers[..which] + timers[which + 1..];
      record := Call(callback, choice);
    }

    /** A callback runs, its timer being pending no longer. */
    method Call(callback: Callback, choice: Choice) returns (record: seq<Entry>)
      requires Ready() && GoodChoice(choice) && Dealt(shuffler.result) && AllKnown(seats, users.gold)
      modifies this, users, shuffler, shuffler.gameCard
      ensures Ready() && (View(), record) == Fired(old(View()), callback, choice, rules)
    {
      record := [];
      match callback {
        case FreeTimerOver => FreeTimerOver();
        case BetTimerOver => record := BetTimerOver();
        case SettlementTimerOver => SettlementTimerOver(choice);
      }
    }

    method FreeTimerOver()
      modifies this`state, this`timers
      ensures View() == old(View()).(state := old(state) + 1, timers := old(timers) + [Callback.BetTimerOver])
    {
      state := state + 1;
      timers := timers + [Callback.BetTimerOver];
    }

    method BetTimerOver() returns (record: seq<Entry>)
      requires Dealt(shuffler.result) && AllKnown(seats, users.gold)
      modifies this`state, this`timers, users
      ensures var paid := Settled(old(View()), rules);
              var next := old(timers) + [Callback.SettlementTimerOver];
              record == paid.1 && View() == paid.0.(state := old(state) + 1, timers := next)
    {
      record := Settlement();
      state := state + 1;
      timers := timers + [Callback.SettlementTimerOver];
    }

    method SettlementTimerOver(choice: Choice)
      requires Ready() && GoodChoice(choice)
      modifies this, shuffler, shuffler.gameCard
      ensures Ready()
      ensures View() == if |old(seats)| > 0 then Checked(old(View()).(state := INIT), choice) else old(View())
    {
      if |seats| > 0 {
        state := INIT;
        CheckState(choice);
      }
    }

    /** Compares every hand with the dealer's. */
    method CompareHands() returns (wins: seq<bool>)
      requires Dealt(shuffler.result)
      ensures wins == Wins(shuffler.result, rules.odds)
    {
      wins := [];
      for p := 0 to POSITIONS
        invariant wins == Wins(shuffler.result, rules.odds)[..p]
      {
        var _, winOdds := CompareCard(shuffler.result[p + 1], shuffler.result[0], rules.odds);
        wins := wins + [winOdds > 0];
      }
    }

    /** What a user's stakes bring, position by position. */
    method CountChange(row: Row, wins: seq<bool>) returns (count: real)
      requires |wins| == POSITIONS
      ensures count == Change(row, wins, rules.commission)
    {
      count := 0.0;
      for p := 0 to |row|
        invariant count == Change(row[..p], wins[..p], rules.commission)
      {
        assert row[..p + 1][..p] == row[..p] && wins[..p + 1][..p] == wins[..p];
        if row[p] > 0.0 {
          if wins[p] {
            count := count + row[p] * (1.0 - rules.commission);
          } else {
            count := count - row[p];
          }
        }
      }
      assert row[..|row|] == row && wins[..|row|] == wins;
    }

    /** Pays every seat, and returns what the logic server has to know. */
    method Settlement() returns (record: seq<Entry>)
      requires Dealt(shuffler.result) && AllKnown(seats, users.gold)
      modifies users
      ensures (View(), record) == Settled(old(View()), rules)
    {
      var wins := CompareHands();
      ghost var before := users.gold;
      record := [];
      for i := 0 to |seats|
        invariant AllKnown(seats, before) && users.gold.Keys == before.Keys
        invariant (users.gold, record) == Settle(seats[..i], before, userBet, wins, rules.commission)
      {
        assert seats[..i + 1][..i] == seats[..i];
        var entries := PayUser(seats[i], wins);
        record := record + entries;
      }
      assert seats[..|seats|] == seats;
    }

    method PayUser(user: UserId, wins: seq<bool>) returns (entries: seq<Entry>)
      requires |wins| == POSITIONS && user in users.gold
      modifies users
      ensures (users.gold, entries) == PaySeat(user, old(users.gold), userBet, wins, rules.commission)
    {
      entries := [];
      if user in userBet {
        var count := CountChange(userBet[user], wins);
        if count != 0.0 {
          users.Book(user, count);
          entries := [Entry(user, count, users.gold[user])];
        }
      }
    }
  }
}
