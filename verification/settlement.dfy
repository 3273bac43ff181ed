/** The money of a round: what is staked, what is paid out, and what the logic server books. */
module Settlements {
  type UserId = nat

  const POSITIONS := 4

  /** The stakes of one user, or of all together, position by position. */
  type Row = r: seq<real> | |r| == POSITIONS witness [0.0, 0.0, 0.0, 0.0]

  const NO_STAKES: Row := [0.0, 0.0, 0.0, 0.0]

  /** What the logic server is told about a user whose money has changed. */
  datatype Entry = Entry(user: UserId, change: real, balance: real)

  function Sum(row: seq<real>): real {
    if row == [] then 0.0 else Sum(row[..|row| - 1]) + row[|row| - 1]
  }

  predicate NonNegative(row: seq<real>) {
    forall p :: 0 <= p < |row| ==> row[p] >= 0.0
  }

  // ---- Sums over users ----

  ghost function SumOver(users: set<UserId>, f: UserId -> real): real {
    if users == {} then 0.0
    else
      var u :| u in users;
      f(u) + SumOver(users - {u}, f)
  }

  /** The order of summation does not matter. */
  lemma {:induction false} SumOverPick(users: set<UserId>, f: UserId -> real, u: UserId)
    requires u in users
    ensures SumOver(users, f) == f(u) + SumOver(users - {u}, f)
  {
    var v :| v in users && SumOver(users, f) == f(v) + SumOver(users - {v}, f);
    if v != u {
      SumOverPick(users - {v}, f, u);
      SumOverPick(users - {u}, f, v);
      assert users - {v} - {u} == users - {u} - {v};
    }
  }

  lemma {:induction false} SumOverAgree(users: set<UserId>, f: UserId -> real, g: UserId -> real)
    requires forall u :: u in users ==> f(u) == g(u)
    ensures SumOver(users, f) == SumOver(users, g)
  {
    if users != {} {
      var u :| u in users;
      SumOverPick(users, f, u);
      SumOverPick(users, g, u);
      SumOverAgree(users - {u}, f, g);
    }
  }

  /** Users who add nothing can be left out. */
  lemma {:induction false} SumOverPart(users: set<UserId>, part: set<UserId>, f: UserId -> real)
    requires part <= users && forall u :: u in users - part ==> f(u) == 0.0
    ensures SumOver(users, f) == SumOver(part, f)
  {
    if users != part {
      assert users - part != {} by {
        assert users == part + (users - part);
      }
      var u :| u in users - part;
      SumOverPick(users, f, u);
      SumOverPart(users - {u}, part, f);
    }
  }

  // ---- Stakes ----

  type Bets = map<UserId, Row>

  function RowOf(bets: Bets, u: UserId): Row {
    if u in bets then bets[u] else NO_STAKES
  }

  function StakeOn(bets: Bets, p: nat): UserId -> real
    requires p < POSITIONS
  {
    (u: UserId) => RowOf(bets, u)[p]
  }

  /** What the given users have staked together, position by position. */
  ghost function Totals(users: set<UserId>, bets: Bets): Row {
    seq(POSITIONS, p requires 0 <= p < POSITIONS => SumOver(users, StakeOn(bets, p)))
  }

  function Raise(row: Row, p: nat, amount: real): Row
    requires p < POSITIONS
  {
    row[p := row[p] + amount]
  }

  /** One more bet raises the total of its position, and of no other. */
  lemma BetRaisesTotal(bets: Bets, u: UserId, p: nat, amount: real)
    requires p < POSITIONS
    ensures var after := bets[u := Raise(RowOf(bets, u), p, amount)];
            Totals(after.Keys, after) == Raise(Totals(bets.Keys, bets), p, amount)
  {
    var after := bets[u := Raise(RowOf(bets, u), p, amount)];
    forall q: nat | q < POSITIONS
      ensures SumOver(after.Keys, StakeOn(after, q)) ==
              SumOver(bets.Keys, StakeOn(bets, q)) + if q == p then amount else 0.0
    {
      assert after.Keys - {u} == bets.Keys - {u};
      SumOverPick(after.Keys, StakeOn(after, q), u);
      SumOverAgree(bets.Keys - {u}, StakeOn(after, q), StakeOn(bets, q));
      if u in bets {
        SumOverPick(bets.Keys, StakeOn(bets, q), u);
      } else {
        assert bets.Keys - {u} == bets.Keys;
      }
    }
  }

  lemma {:induction false} RaiseSum(row: seq<real>, p: nat, amount: real)
    requires p < |row|
    ensures Sum(row[p := row[p] + amount]) == Sum(row) + amount
  {
    var n := |row| - 1;
    var raised := row[p := row[p] + amount];
    if p < n {
      RaiseSum(row[..n], p, amount);
      assert raised[..n] == row[..n][p := row[p] + amount];
    } else {
      assert raised[..n] == row[..n];
    }
  }

  // ---- Payouts ----

  /** What one stake brings: a win is paid less commission, a loss costs the stake. */
  function Payout(stake: real, win: bool, commission: real): real {
    if stake > 0.0 then if win then stake * (1.0 - commission) else -stake else 0.0
  }

  /** What all stakes of a user bring. */
  function Change(row: seq<real>, wins: seq<bool>, commission: real): real
    requires |row| == |wins|
  {
    if row == [] then 0.0
    else
      var n := |row| - 1;
      Change(row[..n], wins[..n], commission) + Payout(row[n], wins[n], commission)
  }

  function Plus(a: Row, b: Row): Row {
    [a[0] + b[0], a[1] + b[1], a[2] + b[2], a[3] + b[3]]
  }

  lemma ChangeOfRow(row: Row, wins: seq<bool>, commission: real)
    requires |wins| == POSITIONS
    ensures Change(row, wins, commission) ==
            Payout(row[0], wins[0], commission) + Payout(row[1], wins[1], commission)
            + Payout(row[2], wins[2], commission) + Payout(row[3], wins[3], commission)
  {
    assert row[..3][..2] == row[..2] && wins[..3][..2] == wins[..2];
    assert row[..2][..1] == row[..1] && wins[..2][..1] == wins[..1];
    assert Change(row[..1], wins[..1], commission) == Payout(row[0], wins[0], commission);
    assert Change(row[..2], wins[..2], commission) ==
           Change(row[..1], wins[..1], commission) + Payout(row[1], wins[1], commission);
    assert Change(row[..3], wins[..3], commission) ==
           Change(row[..2], wins[..2], commission) + Payout(row[2], wins[2], commission);
  }

  lemma PayoutAdds(a: real, b: real, win: bool, commission: real)
    requires a >= 0.0 && b >= 0.0
    ensures Payout(a + b, win, commission) == Payout(a, win, commission) + Payout(b, win, commission)
  {
    assert (a + b) * (1.0 - commission) == a * (1.0 - commission) + b * (1.0 - commission);
  }

  lemma ChangeAdds(a: Row, b: Row, wins: seq<bool>, commission: real)
    requires |wins| == POSITIONS && NonNegative(a) && NonNegative(b)
    ensures Change(Plus(a, b), wins, commission) == Change(a, wins, commission) + Change(b, wins, commission)
  {
    ChangeOfRow(a, wins, commission);
    ChangeOfRow(b, wins, commission);
    ChangeOfRow(Plus(a, b), wins, commission);
    forall p: nat | p < POSITIONS
      ensures Payout(a[p] + b[p], wins[p], commission) ==
              Payout(a[p], wins[p], commission) + Payout(b[p], wins[p], commission)
    {
      PayoutAdds(a[p], b[p], wins[p], commission);
    }
  }

  function ChangeOf(bets: Bets, wins: seq<bool>, commission: real): UserId -> real
    requires |wins| == POSITIONS
  {
    (u: UserId) => Change(RowOf(bets, u), wins, commission)
  }

  predicate AllNonNegative(bets: Bets) {
    forall u :: u in bets ==> NonNegative(bets[u])
  }

  lemma TotalsOfNone(bets: Bets)
    ensures Totals({}, bets) == NO_STAKES
  {
  }

  lemma TotalsPick(users: set<UserId>, bets: Bets, u: UserId)
    requires u in users
    ensures Totals(users, bets) == Plus(RowOf(bets, u), Totals(users - {u}, bets))
  {
    forall p: nat | p < POSITIONS
      ensures Totals(users, bets)[p] == RowOf(bets, u)[p] + Totals(users - {u}, bets)[p]
    {
      SumOverPick(users, StakeOn(bets, p), u);
    }
  }

  lemma {:induction false} TotalsNonNegative(users: set<UserId>, bets: Bets)
    requires AllNonNegative(bets)
    ensures NonNegative(Totals(users, bets))
  {
    if users == {} {
      TotalsOfNone(bets);
    } else {
      var u :| u in users;
      TotalsPick(users, bets, u);
      TotalsNonNegative(users - {u}, bets);
    }
  }

  /** Summing every user's payouts, or the payouts on every position's total: the users together
      get what one would get who had placed all the bets. */
  lemma {:induction false} Exchange(users: set<UserId>, bets: Bets, wins: seq<bool>, commission: real)
    requires |wins| == POSITIONS && AllNonNegative(bets)
    ensures SumOver(users, ChangeOf(bets, wins, commission)) == Change(Totals(users, bets), wins, commission)
  {
    if users == {} {
      TotalsOfNone(bets);
      ChangeOfRow(NO_STAKES, wins, commission);
    } else {
      var u :| u in users;
      SumOverPick(users, ChangeOf(bets, wins, commission), u);
      Exchange(users - {u}, bets, wins, commission);
      TotalsPick(users, bets, u);
      TotalsNonNegative(users - {u}, bets);
      ChangeAdds(RowOf(bets, u), Totals(users - {u}, bets), wins, commission);
    }
  }

  /** What is staked on the positions that win, or on those that lose. */
  function Staked(row: seq<real>, wins: seq<bool>, win: bool): real
    requires |row| == |wins|
  {
    if row == [] then 0.0
    else
      var n := |row| - 1;
      Staked(row[..n], wins[..n], win) + if wins[n] == win then row[n] else 0.0
  }

  /** What is paid on the winning positions, less commission, minus what is lost on the others. */
  function Net(row: seq<real>, wins: seq<bool>, commission: real): real
    requires |row| == |wins|
  {
    (1.0 - commission) * Staked(row, wins, true) - Staked(row, wins, false)
  }

  lemma {:induction false} ChangeInTotal(row: seq<real>, wins: seq<bool>, commission: real)
    requires |row| == |wins| && NonNegative(row)
    ensures Change(row, wins, commission) ==
            Net(row, wins, commission)
  {
    if row != [] {
      var n := |row| - 1;
      ChangeInTotal(row[..n], wins[..n], commission);
      var more := if wins[n] then row[n] else 0.0;
      assert (1.0 - commission) * (Staked(row[..n], wins[..n], true) + more) ==
             (1.0 - commission) * Staked(row[..n], wins[..n], true) + (1.0 - commission) * more;
    }
  }

  /** No round costs a user more than the stakes. */
  lemma {:induction false} LossIsBounded(row: seq<real>, wins: seq<bool>, commission: real)
    requires |row| == |wins| && NonNegative(row) && 0.0 <= commission <= 1.0
    ensures -Sum(row) <= Change(row, wins, commission) <= Sum(row)
  {
    if row != [] {
      var n := |row| - 1;
      LossIsBounded(row[..n], wins[..n], commission);
      assert 0.0 <= row[n] * (1.0 - commission) <= row[n];
    }
  }

  // ---- Settling a round, seat by seat ----

  predicate AllKnown(seats: seq<UserId>, gold: map<UserId, real>) {
    forall i :: 0 <= i < |seats| ==> seats[i] in gold
  }

  /** Pays one seat: the balances afterwards, and what is reported. */
  function PaySeat(u: UserId, gold: map<UserId, real>, bets: Bets, wins: seq<bool>, commission: real)
    : (map<UserId, real>, seq<Entry>)
    requires |wins| == POSITIONS && u in gold
  {
    if u !in bets then (gold, [])
    else
      var change := Change(bets[u], wins, commission);
      if change == 0.0 then (gold, [])
      else (gold[u := gold[u] + change], [Entry(u, change, gold[u] + change)])
  }

  function Settle(seats: seq<UserId>, gold: map<UserId, real>, bets: Bets, wins: seq<bool>, commission: real)
    : (r: (map<UserId, real>, seq<Entry>))
    requires |wins| == POSITIONS && AllKnown(seats, gold)
    ensures r.0.Keys == gold.Keys
  {
    if seats == [] then (gold, [])
    else
      var n := |seats| - 1;
      var before := Settle(seats[..n], gold, bets, wins, commission);
      assert seats[n] in before.0;
      var last := PaySeat(seats[n], before.0, bets, wins, commission);
      (last.0, before.1 + last.1)
  }

  /** How many seats a user has. */
  function Seated(seats: seq<UserId>, u: UserId): nat {
    if seats == [] then 0 else Seated(seats[..|seats| - 1], u) + if seats[|seats| - 1] == u then 1 else 0
  }

  /** An amount, so many times over. */
  function Times(k: nat, x: real): real {
    if k == 0 then 0.0 else Times(k - 1, x) + x
  }

  lemma {:induction false} TimesMultiplies(k: nat, x: real)
    ensures Times(k, x) == k as real * x
  {
    if k > 0 {
      TimesMultiplies(k - 1, x);
      var before := (k - 1) as real;
      assert k as real == before + 1.0;
      assert (before + 1.0) * x == before * x + x;
    }
  }

  lemma {:induction false} TimesAdds(k: nat, x: real, y: real)
    ensures Times(k, x + y) == Times(k, x) + Times(k, y)
  {
    if k > 0 {
      TimesAdds(k - 1, x, y);
    }
  }

  lemma {:induction false} TimesGrows(k: nat, x: real, y: real)
    requires x <= y
    ensures Times(k, x) <= Times(k, y)
  {
    if k > 0 {
      TimesGrows(k - 1, x, y);
    }
  }

  lemma {:induction false} TimesNothing(k: nat)
    ensures Times(k, 0.0) == 0.0
  {
    if k > 0 {
      TimesNothing(k - 1);
    }
  }

  /** A user is paid once for every seat. */
  lemma {:induction false} PaidPerSeat(seats: seq<UserId>, gold: map<UserId, real>, bets: Bets,
                                       wins: seq<bool>, commission: real, u: UserId)
    requires |wins| == POSITIONS && AllKnown(seats, gold) && u in gold
    ensures Settle(seats, gold, bets, wins, commission).0[u] ==
            gold[u] + Times(Seated(seats, u), Change(RowOf(bets, u), wins, commission))
  {
    var change := Change(RowOf(bets, u), wins, commission);
    if u !in bets {
      ChangeOfRow(NO_STAKES, wins, commission);
    }
    if seats != [] {
      var n := |seats| - 1;
      PaidPerSeat(seats[..n], gold, bets, wins, commission, u);
    }
  }

  /** A user who has more than one seat is not paid what the stakes are worth, unless that is
      nothing: exactly then a balance changes by more or less. */
  lemma PaidRightIff(seats: seq<UserId>, gold: map<UserId, real>, bets: Bets,
                     wins: seq<bool>, commission: real, u: UserId)
    requires |wins| == POSITIONS && AllKnown(seats, gold) && u in gold
    ensures var change := Change(RowOf(bets, u), wins, commission);
            Settle(seats, gold, bets, wins, commission).0[u] == gold[u] + change <==>
            Seated(seats, u) == 1 || change == 0.0
  {
    var change, k := Change(RowOf(bets, u), wins, commission), Seated(seats, u);
    PaidPerSeat(seats, gold, bets, wins, commission, u);
    TimesIsOnce(k, change);
  }

  lemma TimesIsOnce(k: nat, x: real)
    ensures Times(k, x) == x <==> k == 1 || x == 0.0
  {
    TimesMultiplies(k, x);
    if k as real * x == x && x != 0.0 {
      assert k as real * x / x == k as real;
    }
  }

  /** Every user who has bet sits at the table once. */
  predicate SeatedOnce(seats: seq<UserId>, bets: Bets) {
    forall u :: u in bets ==> Seated(seats, u) == 1
  }

  function Gain(before: map<UserId, real>, after: map<UserId, real>): UserId -> real {
    (u: UserId) => if u in before && u in after then after[u] - before[u] else 0.0
  }

  lemma GainIsChange(seats: seq<UserId>, gold: map<UserId, real>, bets: Bets,
                     wins: seq<bool>, commission: real, u: UserId)
    requires |wins| == POSITIONS && AllKnown(seats, gold) && SeatedOnce(seats, bets) && u in gold
    ensures var gain := Gain(gold, Settle(seats, gold, bets, wins, commission).0);
            gain(u) == ChangeOf(bets, wins, commission)(u) && (u !in bets ==> gain(u) == 0.0)
  {
    PaidRightIff(seats, gold, bets, wins, commission, u);
    if u !in bets {
      ChangeOfRow(NO_STAKES, wins, commission);
    }
  }

  lemma ExchangeInTotal(bets: Bets, wins: seq<bool>, commission: real)
    requires |wins| == POSITIONS && AllNonNegative(bets)
    ensures var total := Totals(bets.Keys, bets);
            SumOver(bets.Keys, ChangeOf(bets, wins, commission)) ==
            Net(total, wins, commission)
  {
    Exchange(bets.Keys, bets, wins, commission);
    TotalsNonNegative(bets.Keys, bets);
    ChangeInTotal(Totals(bets.Keys, bets), wins, commission);
  }

  /** Settling conserves money: what the users gain together is what the winning positions are
      paid, less commission, minus what was staked on the losing ones. */
  lemma SettlingConserves(seats: seq<UserId>, gold: map<UserId, real>, bets: Bets,
                          wins: seq<bool>, commission: real)
    requires |wins| == POSITIONS && AllKnown(seats, gold) && SeatedOnce(seats, bets)
    requires AllNonNegative(bets) && bets.Keys <= gold.Keys
    ensures var total := Totals(bets.Keys, bets);
            SumOver(gold.Keys, Gain(gold, Settle(seats, gold, bets, wins, commission).0)) ==
            Net(total, wins, commission)
  {
    var gain := Gain(gold, Settle(seats, gold, bets, wins, commission).0);
    forall u | u in gold
      ensures gain(u) == ChangeOf(bets, wins, commission)(u) && (u !in bets ==> gain(u) == 0.0)
    {
      GainIsChange(seats, gold, bets, wins, commission, u);
    }
    SumOverPart(gold.Keys, bets.Keys, gain);
    SumOverAgree(bets.Keys, gain, ChangeOf(bets, wins, commission));
    ExchangeInTotal(bets, wins, commission);
  }

  /** The user can pay the stakes at the highest odds. */
  predicate Covers(gold: real, row: seq<real>, maxOdds: int) {
    gold > Sum(row) * maxOdds as real
  }

  /** A user whose gold covers the stakes has some left after the round, whatever the cards and on
      any number of seats up to the highest odds. */
  lemma CoveredIsSolvent(seats: seq<UserId>, gold: map<UserId, real>, bets: Bets, wins: seq<bool>,
                         commission: real, maxOdds: int, u: UserId)
    requires |wins| == POSITIONS && AllKnown(seats, gold) && u in gold && 0.0 <= commission <= 1.0
    requires NonNegative(RowOf(bets, u)) && Covers(gold[u], RowOf(bets, u), maxOdds)
    requires Seated(seats, u) <= maxOdds
    ensures Settle(seats, gold, bets, wins, commission).0[u] > 0.0
  {
    var row := RowOf(bets, u);
    PaidPerSeat(seats, gold, bets, wins, commission, u);
    LossIsBounded(row, wins, commission);
    SumNonNegative(row);
    TimesBounded(Seated(seats, u), maxOdds, Change(row, wins, commission), Sum(row));
  }

  lemma TimesBounded(k: nat, m: int, x: real, s: real)
    requires k <= m && -s <= x && s >= 0.0
    ensures Times(k, x) >= -(s * m as real)
  {
    TimesMultiplies(k, x);
    assert k as real * x >= k as real * -s;
    assert s * (m as real - k as real) >= 0.0;
  }

  lemma TimesWithin(k: nat, m: int, s: real)
    requires k <= m && s >= 0.0
    ensures Times(k, s) <= s * m as real
  {
    TimesMultiplies(k, s);
    assert s * (m as real - k as real) >= 0.0;
  }

  /** Gold that covers the stakes, with another one, at the highest odds covers them on so many seats. */
  lemma CoverAffords(k: nat, m: int, gold: real, row: Row, p: nat, amount: real)
    requires k <= m && p < POSITIONS && NonNegative(row) && amount >= 0.0
    requires Covers(gold, Raise(row, p, amount), m)
    ensures Times(k, Sum(row)) + Times(k, amount) <= gold
  {
    RaiseSum(row, p, amount);
    SumNonNegative(row);
    TimesAdds(k, Sum(row), amount);
    TimesWithin(k, m, Sum(Raise(row, p, amount)));
  }

  /** Over all seats a round costs no more than the stakes over all seats. */
  lemma LossOverSeats(k: nat, row: Row, wins: seq<bool>, commission: real)
    requires |wins| == POSITIONS && NonNegative(row) && 0.0 <= commission <= 1.0
    ensures Times(k, Change(row, wins, commission)) >= -Times(k, Sum(row))
  {
    LossIsBounded(row, wins, commission);
    TimesGrows(k, -Sum(row), Change(row, wins, commission));
    TimesOfOpposite(k, Sum(row));
  }

  lemma TimesOfOpposite(k: nat, x: real)
    ensures Times(k, -x) == -Times(k, x)
  {
    TimesAdds(k, x, -x);
    TimesNothing(k);
  }

  lemma SumOfRow(row: Row)
    ensures Sum(row) == row[0] + row[1] + row[2] + row[3]
  {
    assert row[..3][..2] == row[..2] && row[..2][..1] == row[..1];
    assert Sum(row[..1]) == row[0] && Sum(row[..2]) == Sum(row[..1]) + row[1] &&
      Sum(row[..3]) == Sum(row[..2]) + row[2];
  }

  lemma {:induction false} SumNonNegative(row: seq<real>)
    requires NonNegative(row)
    ensures Sum(row) >= 0.0
  {
    if row != [] {
      SumNonNegative(row[..|row| - 1]);
    }
  }

  /** A negative stake brings nothing and costs nothing, but it counts against the others when the
      stakes are covered: with one, a user can stake all the gold there is many times over and go
      into debt.  This is why such bets have to be refused. */
  lemma NegativeStakeHidesDebt(maxOdds: int)
    requires maxOdds >= 1
    ensures var row: Row := [100.0, -100.0, 0.0, 0.0];
            Covers(1.0, row, maxOdds)
            && Settle([7], map[7 := 1.0], map[7 := row], [false, false, false, false], 0.0).0[7] < 0.0
  {
    var row: Row := [100.0, -100.0, 0.0, 0.0];
    var wins := [false, false, false, false];
    SumOfRow(row);
    ChangeOfRow(row, wins, 0.0);
    assert Seated([7], 7) == 1;
    PaidPerSeat([7], map[7 := 1.0], map[7 := row], wins, 0.0, 7);
  }

  // ---- The logic server ----

  function AddGold(gold: real, amount: real): real {
    if amount < 0.0 then gold else gold + amount
  }

  function CostGold(gold: real, amount: real): real {
    if amount < 0.0 then gold else gold - amount
  }

  /** The users of a server, with their balances. */
  class UserManager {
    var gold: map<UserId, real>

    constructor ()
      ensures gold == map[]
    {
      gold := map[];
    }

    /** A user becomes known, with this balance. */
    method CacheUser(user: UserId, balance: real)
      modifies this
      ensures gold == old(gold)[user := balance]
    {
      gold := gold[user := balance];
    }

    /** Books a gain, or a loss. */
    method Book(user: UserId, change: real)
      requires user in gold
      modifies this
      ensures gold == old(gold)[user := old(gold)[user] + change]
    {
      if change > 0.0 {
        gold := gold[user := AddGold(gold[user], change)];
      } else {
        gold := gold[user := CostGold(gold[user], -change)];
      }
    }
  }

  predicate KnownEntries(record: seq<Entry>, gold: map<UserId, real>) {
    forall i :: 0 <= i < |record| ==> record[i].user in gold
  }

  /** What the entries of a user add up to. */
  function Booked(record: seq<Entry>, u: UserId): real {
    if record == [] then 0.0
    else
      var n := |record| - 1;
      Booked(record[..n], u) + if record[n].user == u then record[n].change else 0.0
  }

  lemma {:induction false} BookedConcat(a: seq<Entry>, b: seq<Entry>, u: UserId)
    ensures Booked(a + b, u) == Booked(a, u) + Booked(b, u)
  {
    if b == [] {
      assert a + b == a;
    } else {
      var n := |b| - 1;
      BookedConcat(a, b[..n], u);
      assert (a + b)[..|a| + n] == a + b[..n];
    }
  }

  /** The record says of every user exactly what the settlement has changed. */
  lemma {:induction false} RecordIsExact(seats: seq<UserId>, gold: map<UserId, real>, bets: Bets,
                                         wins: seq<bool>, commission: real)
    requires |wins| == POSITIONS && AllKnown(seats, gold)
    ensures var r := Settle(seats, gold, bets, wins, commission);
            KnownEntries(r.1, gold)
            && (forall u :: u in gold ==> r.0[u] == gold[u] + Booked(r.1, u))
            && forall i :: 0 <= i < |r.1| ==> r.1[i].change != 0.0
  {
    if seats != [] {
      var n := |seats| - 1;
      RecordIsExact(seats[..n], gold, bets, wins, commission);
      var before := Settle(seats[..n], gold, bets, wins, commission);
      var last := PaySeat(seats[n], before.0, bets, wins, commission);
      forall u | u in gold
        ensures last.0[u] == gold[u] + Booked(before.1 + last.1, u)
      {
        BookedConcat(before.1, last.1, u);
        PaidEntry(seats[n], before.0, bets, wins, commission, u);
      }
    }
  }

  lemma PaidEntry(v: UserId, gold: map<UserId, real>, bets: Bets, wins: seq<bool>, commission: real, u: UserId)
    requires |wins| == POSITIONS && v in gold && u in gold
    ensures var r := PaySeat(v, gold, bets, wins, commission);
            u in r.0 && r.0[u] == gold[u] + Booked(r.1, u)
  {
  }

  /** Every entry says how much its user has after it, counted from the balance before the round. */
  lemma {:induction false} BalancesReported(seats: seq<UserId>, gold: map<UserId, real>, bets: Bets,
                                            wins: seq<bool>, commission: real, i: nat)
    requires |wins| == POSITIONS && AllKnown(seats, gold)
    requires i < |Settle(seats, gold, bets, wins, commission).1|
    ensures var record := Settle(seats, gold, bets, wins, commission).1;
            var u := record[i].user;
            u in gold && record[i].balance == gold[u] + Booked(record[..i + 1], u)
  {
    var n := |seats| - 1;
    RecordIsExact(seats[..n], gold, bets, wins, commission);
    var before := Settle(seats[..n], gold, bets, wins, commission);
    var record := Settle(seats, gold, bets, wins, commission).1;
    if i < |before.1| {
      BalancesReported(seats[..n], gold, bets, wins, commission, i);
      assert record[..i + 1] == before.1[..i + 1];
    } else {
      assert record[..i + 1] == record && record[..i] == before.1;
    }
  }

  class RoomService {
    const users: UserManager

    constructor (users: UserManager)
      ensures this.users == users
    {
      this.users := users;
    }

    /** The logic server books every entry of a settlement. */
    method GameSettlement(record: seq<Entry>)
      requires KnownEntries(record, users.gold)
      modifies users
      ensures users.gold.Keys == old(users.gold.Keys)
      ensures forall u :: u in users.gold ==> users.gold[u] == old(users.gold)[u] + Booked(record, u)
    {
      if |record| <= 0 {
        return;
      }
      ghost var before := users.gold;
      for i := 0 to |record|
        invariant users.gold.Keys == before.Keys
        invariant forall u :: u in before ==> users.gold[u] == before[u] + Booked(record[..i], u)
      {
        assert record[..i + 1][..i] == record[..i];
        users.Book(record[i].user, record[i].change);
      }
      assert record[..|record|] == record;
    }
  }
}
