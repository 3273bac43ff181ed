/** The deck, its shuffle in place, and dealing. */
module Shufflers {
  import opened BullCards

  /** Ace to king of one suit: 0x01 to 0x0D, 0x11 to 0x1D, and so on. */
  function Suit(n: nat): (d: seq<nat>)
    ensures |d| == 13
  {
    seq(13, k => 0x10 * n + k + 1)
  }

  const COMMON_CARD: seq<nat> := Suit(0) + Suit(1) + Suit(2) + Suit(3) + [0x4E, 0x4F]

  function Deck(needJoker: bool): (d: seq<nat>)
    ensures |d| == if needJoker then 54 else 52
  {
    if needJoker then COMMON_CARD else COMMON_CARD[..52]
  }

  function Swap(d: seq<nat>, i: nat, j: nat): (r: seq<nat>)
    requires i < |d| && j < |d|
    ensures |r| == |d|
  {
    seq(|d|, k requires 0 <= k < |d| => if k == i then d[j] else if k == j then d[i] else d[k])
  }

  lemma SwapPermutes(d: seq<nat>, i: nat, j: nat)
    requires i < |d| && j < |d|
    ensures multiset(Swap(d, i, j)) == multiset(d)
  {
    assert Swap(d, i, j) == d[i := d[j]][j := d[i]];
  }

  /** The deck after the first n rounds of a shuffle: round i swaps card i with card `choice(i)`. */
  function Mixed(d: seq<nat>, choice: nat -> nat, n: nat): (r: seq<nat>)
    requires n <= |d| && forall i :: choice(i) < |d|
    ensures |r| == |d|
  {
    if n == 0 then d else Swap(Mixed(d, choice, n - 1), n - 1, choice(n - 1))
  }

  lemma {:induction false} MixedPermutes(d: seq<nat>, choice: nat -> nat, n: nat)
    requires n <= |d| && forall i :: choice(i) < |d|
    ensures multiset(Mixed(d, choice, n)) == multiset(d)
  {
    if n > 0 {
      MixedPermutes(d, choice, n - 1);
      SwapPermutes(Mixed(d, choice, n - 1), n - 1, choice(n - 1));
    }
  }

  // ---- What a shuffle does to the cards ----

  /** The place to which the first n rounds take the card at place k. */
  function Went(k: nat, choice: nat -> nat, n: nat): nat {
    if n == 0 then k
    else
      var at := Went(k, choice, n - 1);
      if at == n - 1 then choice(n - 1) else if at == choice(n - 1) then n - 1 else at
  }

  /** Every card is found where the rounds have taken it. */
  lemma {:induction false} CardWent(d: seq<nat>, choice: nat -> nat, n: nat, k: nat)
    requires n <= |d| && k < |d| && forall i :: choice(i) < |d|
    ensures Went(k, choice, n) < |d| && Mixed(d, choice, n)[Went(k, choice, n)] == d[k]
  {
    if n > 0 {
      CardWent(d, choice, n - 1, k);
    }
  }

  lemma {:induction false} MixedAgrees(d: seq<nat>, choice: nat -> nat, other: nat -> nat, n: nat)
    requires n <= |d| && forall i :: choice(i) < |d| && other(i) < |d|
    requires forall i: nat :: i < n ==> choice(i) == other(i)
    ensures Mixed(d, choice, n) == Mixed(d, other, n)
  {
    if n > 0 {
      MixedAgrees(d, choice, other, n - 1);
    }
  }

  /** The generator that answers `card` in round n, and as before in the others. */
  function Answering(choice: nat -> nat, n: nat, card: nat): nat -> nat {
    i => if i == n then card else choice(i)
  }

  /** Two decks with the same beginning and the same cards: the next card of one is among the rest of the
      other. */
  lemma NextIsLeft(d: seq<nat>, e: seq<nat>, n: nat) returns (at: nat)
    requires multiset(d) == multiset(e) && n < |d| == |e| && d[..n] == e[..n]
    ensures n <= at < |d| && d[at] == e[n]
  {
    assert d == d[..n] + d[n..] && e == e[..n] + e[n..];
    assert multiset(d[n..]) == multiset(d) - multiset(d[..n]);
    assert multiset(e[n..]) == multiset(e) - multiset(e[..n]);
    assert e[n] == e[n..][0] && e[n] in multiset(d[n..]);
    var i :| 0 <= i < |d[n..]| && d[n..][i] == e[n];
    at := n + i;
  }

  lemma PutNext(d: seq<nat>, e: seq<nat>, n: nat, at: nat)
    requires n <= at < |d| == |e| && d[..n] == e[..n] && d[at] == e[n]
    ensures Swap(d, n, at)[..n + 1] == e[..n + 1]
  {
    assert Swap(d, n, at)[..n] == d[..n];
  }

  /** Some answers bring the first n cards of any arrangement to the front. */
  lemma {:induction false} FrontCanCome(d: seq<nat>, e: seq<nat>, n: nat) returns (choice: nat -> nat)
    requires multiset(d) == multiset(e) && n <= |d| == |e| && d != []
    ensures (forall i :: choice(i) < |d|) && Mixed(d, choice, n)[..n] == e[..n]
  {
    if n == 0 {
      choice := _ => 0;
    } else {
      var before := FrontCanCome(d, e, n - 1);
      var mixed := Mixed(d, before, n - 1);
      MixedPermutes(d, before, n - 1);
      var at := NextIsLeft(mixed, e, n - 1);
      choice := Answering(before, n - 1, at);
      MixedAgrees(d, before, choice, n - 1);
      PutNext(mixed, e, n - 1, at);
    }
  }

  /** What the shuffle can make of a deck is exactly its rearrangements: it keeps all cards, and no
      arrangement is out of its reach. */
  lemma AnyArrangementIff(d: seq<nat>, e: seq<nat>)
    requires d != []
    ensures multiset(e) == multiset(d) <==>
              exists choice: nat -> nat :: (forall i :: choice(i) < |d|) && Mixed(d, choice, |d|) == e
  {
    if multiset(e) == multiset(d) {
      assert |multiset(d)| == |d| && |multiset(e)| == |e|;
      var choice := FrontCanCome(d, e, |d|);
      assert Mixed(d, choice, |d|)[..|d|] == Mixed(d, choice, |d|) && e[..|d|] == e;
    }
    forall choice: nat -> nat | (forall i :: choice(i) < |d|) && Mixed(d, choice, |d|) == e
      ensures multiset(e) == multiset(d)
    {
      MixedPermutes(d, choice, |d|);
    }
  }

  /** The first hands from the top of the deck. */
  function Deal(d: seq<nat>, players: nat, size: nat): (hands: seq<seq<nat>>)
    requires players * size <= |d|
    ensures |hands| == players && forall i :: 0 <= i < players ==> |hands[i]| == size
  {
    if players == 0 then []
    else
      assert (players - 1) * size == players * size - size;
      [d[..size]] + Deal(d[size..], players - 1, size)
  }

  /** The first hand, and the others from what is left. */
  lemma DealRest(d: seq<nat>, players: nat, size: nat)
    requires 0 < players && players * size <= |d|
    ensures size <= |d| && (players - 1) * size <= |d[size..]|
    ensures Deal(d, players, size) == [d[..size]] + Deal(d[size..], players - 1, size)
  {
    OneLess(players, size);
  }

  /** Card j of hand i is the next of the deck after the hands before and the cards before. */
  lemma {:induction false} DealtFromTop(d: seq<nat>, players: nat, size: nat, i: nat, j: nat)
    requires players * size <= |d| && i < players && j < size
    ensures i * size + j < |d| && Deal(d, players, size)[i][j] == d[i * size + j]
    decreases players
  {
    DealRest(d, players, size);
    if i > 0 {
      OneLess(i, size);
      DealtFromTop(d[size..], players - 1, size, i - 1, j);
    }
  }

  predicate NoDuplicates(d: seq<nat>) {
    forall x :: x in d ==> multiset(d)[x] == 1
  }

  lemma HandFromDeck(d: seq<nat>, players: nat, size: nat, i: nat, x: nat)
    requires players * size <= |d| && i < players && x in Deal(d, players, size)[i]
    ensures x in d
  {
    var j :| 0 <= j < size && Deal(d, players, size)[i][j] == x;
    DealtFromTop(d, players, size, i, j);
  }

  lemma InBoth(a: seq<nat>, b: seq<nat>, x: nat)
    requires x in a && x in b
    ensures multiset(a + b)[x] >= 2
  {
    assert x in multiset(a) && x in multiset(b);
  }

  /** A card of one dealt hand is in no other, if the deck holds no card twice. */
  lemma {:induction false} HandsAreDisjoint(d: seq<nat>, players: nat, size: nat, i: nat, j: nat, x: nat)
    requires players * size <= |d| && i < j < players
    requires x in Deal(d, players, size)[i] && x in Deal(d, players, size)[j]
    ensures multiset(d)[x] >= 2
    decreases players
  {
    DealRest(d, players, size);
    assert d == d[..size] + d[size..];
    if i == 0 {
      HandFromDeck(d[size..], players - 1, size, j - 1, x);
      InBoth(d[..size], d[size..], x);
    } else {
      HandsAreDisjoint(d[size..], players - 1, size, i - 1, j - 1, x);
    }
  }

  /** Of two hands dealt from a deck without duplicates exactly one beats the other. */
  lemma DealtHandsAreRanked(d: seq<nat>, players: nat, i: nat, j: nat)
    requires players * 5 <= |d| && NoDuplicates(d) && i < players && j < players && i != j
    requires forall x :: x in d ==> x > 0
    ensures var hands := Deal(d, players, 5); Beats(hands[i], hands[j]) != Beats(hands[j], hands[i])
  {
    var hands := Deal(d, players, 5);
    var m := MaxCard(hands[i]);
    if MaxCard(hands[j]) == m {
      MaxIsHeld(d, players, i);
      MaxIsHeld(d, players, j);
      HandsAreDisjoint(d, players, 5, if i < j then i else j, if i < j then j else i, m);
      HandFromDeck(d, players, 5, i, m);
    }
  }

  lemma MaxIsHeld(d: seq<nat>, players: nat, i: nat)
    requires players * 5 <= |d| && i < players && forall x :: x in d ==> x > 0
    ensures MaxCard(Deal(d, players, 5)[i]) in Deal(d, players, 5)[i]
  {
    var h := Deal(d, players, 5)[i];
    assert h[0] in h;
    HandFromDeck(d, players, 5, i, h[0]);
    assert h[0] <= MaxCard(h);
  }

  predicate Increasing(d: seq<nat>) {
    forall i, j :: 0 <= i < j < |d| ==> d[i] < d[j]
  }

  lemma {:induction false} IncreasingHasNoDuplicates(d: seq<nat>)
    requires Increasing(d)
    ensures NoDuplicates(d)
  {
    if d != [] {
      var n := |d| - 1;
      assert d == d[..n] + [d[n]];
      IncreasingHasNoDuplicates(d[..n]);
      assert d[n] !in d[..n];
    }
  }

  /** Suit after suit of 13 cards, 16 codes apart; then the jokers. */
  lemma CardAt(i: nat)
    requires i < 54
    ensures |COMMON_CARD| == 54 && COMMON_CARD[i] == if i < 52 then i + 3 * (i / 13) + 1 else i + 26
  {
    if i < 13 {
      assert COMMON_CARD[i] == Suit(0)[i];
    } else if i < 26 {
      assert COMMON_CARD[i] == Suit(1)[i - 13];
    } else if i < 39 {
      assert COMMON_CARD[i] == Suit(2)[i - 26];
    } else if i < 52 {
      assert COMMON_CARD[i] == Suit(3)[i - 39];
    }
  }

  lemma DeckIsProper(needJoker: bool)
    ensures NoDuplicates(Deck(needJoker)) && forall x :: x in Deck(needJoker) ==> x > 0
  {
    forall i, j | 0 <= i < j < |Deck(needJoker)|
      ensures Deck(needJoker)[i] < Deck(needJoker)[j]
    {
      CardAt(i);
      CardAt(j);
    }
    forall x | x in Deck(needJoker)
      ensures x > 0
    {
      var i :| 0 <= i < |Deck(needJoker)| && Deck(needJoker)[i] == x;
      CardAt(i);
    }
    IncreasingHasNoDuplicates(Deck(needJoker));
  }

  /** The cards of a game, with or without jokers. */
  predicate Played(c: Card, needJoker: bool) {
    Genuine(c) && (c.Plain? || needJoker)
  }

  /** Where a card stands in the full deck. */
  lemma CardInDeck(needJoker: bool, c: Card) returns (i: nat)
    requires Played(c, needJoker)
    ensures i < |Deck(needJoker)| && Deck(needJoker)[i] == Code(c)
  {
    i := match c case Plain(suit, rank) => 13 * suit + rank - 1 case SmallJoker => 52 case BigJoker => 53;
    CardAt(i);
  }

  lemma CardOfPlace(needJoker: bool, i: nat) returns (c: Card)
    requires i < |Deck(needJoker)|
    ensures Played(c, needJoker) && Deck(needJoker)[i] == Code(c)
  {
    CardAt(i);
    c := if i < 52 then Plain(i / 13, i % 13 + 1) else if i == 52 then SmallJoker else BigJoker;
  }

  /** The full deck holds every card once, the jokers only if they are wanted, and nothing else. */
  lemma DeckHoldsEveryCard(needJoker: bool, x: nat)
    ensures multiset(Deck(needJoker))[x] == if exists c :: Played(c, needJoker) && Code(c) == x then 1 else 0
  {
    DeckIsProper(needJoker);
    if c :| Played(c, needJoker) && Code(c) == x {
      var i := CardInDeck(needJoker, c);
      assert x in Deck(needJoker);
    } else if x in Deck(needJoker) {
      var i :| 0 <= i < |Deck(needJoker)| && Deck(needJoker)[i] == x;
      var c := CardOfPlace(needJoker, i);
      assert false;
    }
  }

  lemma OneLess(n: nat, size: nat)
    requires n > 0
    ensures 0 <= (n - 1) * size == n * size - size
  {
  }

  /** Dealing one hand, and then the others from what is left. */
  lemma DealOne(d: seq<nat>, next: nat, players: nat, size: nat, dealt: seq<seq<nat>>)
    requires next + size <= |d| && players > 0
    requires players * size <= |d| - next && (players - 1) * size <= |d| - next - size
    ensures dealt + Deal(d[next..], players, size) ==
            dealt + [d[next..next + size]] + Deal(d[next + size..], players - 1, size)
  {
    assert d[next..][..size] == d[next..next + size] && d[next..][size..] == d[next + size..];
    var more := Deal(d[next + size..], players - 1, size);
    assert Deal(d[next..], players, size) == [d[next..next + size]] + more;
    assert dealt + ([d[next..next + size]] + more) == dealt + [d[next..next + size]] + more;
  }

  class BullFightingShuffler {
    const needJoker: bool
    const gameCard: array<nat>
    var result: seq<seq<nat>>

    /** The deck in play is a rearrangement of the full deck. */
    ghost predicate Valid()
      reads this, gameCard
    {
      multiset(gameCard[..]) == multiset(Deck(needJoker))
    }

    constructor (needJoker: bool)
      ensures Valid() && this.needJoker == needJoker && fresh(gameCard)
      ensures gameCard[..] == Deck(needJoker) && result == []
    {
      this.needJoker := needJoker;
      var deck := Deck(needJoker);
      gameCard := new nat[|deck|](i requires 0 <= i < |deck| => deck[i]);
      result := [];
      new;
      assert gameCard[..] == deck;
    }

    /** Shuffles in place and deals.  `choice(i)` is what the random generator answers in round i. */
    method Shuffle(players: int, size: int, choice: nat -> nat) returns (ok: bool)
      requires Valid() && forall i :: choice(i) < gameCard.Length
      modifies this, gameCard
      ensures Valid()
      ensures ok <==> players > 0 && size > 0 && players * size <= gameCard.Length
      ensures ok ==> gameCard[..] == Mixed(old(gameCard[..]), choice, gameCard.Length)
      ensures ok ==> result == Deal(gameCard[..], players, size)
      ensures !ok ==> gameCard[..] == old(gameCard[..]) && result == old(result)
    {
      ok := players > 0 && size > 0 && players * size <= gameCard.Length;
      if ok {
        Mix(choice);
        DealCards(players, size);
      }
    }

    method Mix(choice: nat -> nat)
      requires Valid() && forall i :: choice(i) < gameCard.Length
      modifies gameCard
      ensures Valid() && gameCard[..] == Mixed(old(gameCard[..]), choice, gameCard.Length)
    {
      ghost var deck := gameCard[..];
      for i := 0 to gameCard.Length
        invariant gameCard[..] == Mixed(deck, choice, i)
      {
        Exchange(i, choice(i));
      }
      MixedPermutes(deck, choice, gameCard.Length);
    }

    /** Two cards change places. */
    method Exchange(i: nat, t: nat)
      requires i < gameCard.Length && t < gameCard.Length
      modifies gameCard
      ensures gameCard[..] == Swap(old(gameCard[..]), i, t)
    {
      if i != t {
        gameCard[i], gameCard[t] := gameCard[t], gameCard[i];
      }
    }

    method DealCards(players: nat, size: nat)
      requires players * size <= gameCard.Length
      modifies this`result
      ensures result == Deal(gameCard[..], players, size)
    {
      result := [];
      var next: nat := 0;
      ghost var deck, left := gameCard[..], players;
      assert deck[next..] == deck;
      for i := 0 to players
        invariant left == players - i && next <= |deck| && left * size <= |deck| - next
        invariant result + Deal(deck[next..], left, size) == Deal(deck, players, size)
      {
        OneLess(left, size);
        DealOne(deck, next, left, size, result);
        var hand := TakeHand(next, size);
        next := next + size;
        result := result + [hand];
        left := left - 1;
      }
    }

    /** The next cards, one by one. */
    method TakeHand(start: nat, size: nat) returns (hand: seq<nat>)
      requires start + size <= gameCard.Length
      ensures hand == gameCard[start..start + size]
    {
      hand := [];
      for j := 0 to size
        invariant hand == gameCard[start..start + j]
      {
        hand := hand + [gameCard[start + j]];
      }
    }
  }
}
