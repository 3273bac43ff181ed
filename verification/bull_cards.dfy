/** Ranking five-card hands. */
module BullCards {
  import opened Sequences

  /** A hand of five card codes: the low four bits are the rank, the bits above it the suit. */
  type Hand = h: seq<nat> | |h| == 5 witness [1, 2, 3, 4, 5]

  function GetPoint(card: nat): nat {
    card % 0x10
  }

  /** The bits 0x08 and, of 0x06, at least one: the tens, the court cards and the jokers. */
  predicate IsTenPointCard(card: nat) {
    card / 8 % 2 == 1 && card / 2 % 4 != 0
  }

  function Value(card: nat): nat {
    if IsTenPointCard(card) then 10 else GetPoint(card)
  }

  function Each(f: nat -> nat, s: seq<nat>): (r: seq<nat>)
    ensures |r| == |s|
  {
    if s == [] then [] else [f(s[0])] + Each(f, s[1..])
  }

  function Values(h: seq<nat>): (v: seq<nat>)
    ensures |v| == |h|
  {
    Each(Value, h)
  }

  function Total(v: seq<nat>): nat {
    if v == [] then 0 else v[|v| - 1] + Total(v[..|v| - 1])
  }

  function MaxCard(h: seq<nat>): (m: nat)
    ensures forall i :: 0 <= i < |h| ==> h[i] <= m
    ensures h != [] ==> m in h || m == 0
  {
    if h == [] then 0
    else
      var n := |h| - 1;
      var m := MaxCard(h[..n]);
      if h[n] > m then h[n] else m
  }

  predicate BullAt(v: seq<nat>, i: nat, j: nat, k: nat) {
    i < |v| && j < |v| && k < |v| && (v[i] + v[j] + v[k]) % 10 == 0
  }

  /** Some three of the cards make up whole tens. */
  predicate HasBull(v: seq<nat>) {
    exists i, j, k | 0 <= i < |v| && 0 <= j < |v| && 0 <= k < |v| :: i != j && j != k && i != k && BullAt(v, i, j, k)
  }

  /** 0 without a bull; with one the points beyond whole tens, of which none counts as 10. */
  function BullPoint(h: Hand): nat {
    var t := Total(Values(h)) % 10;
    if !HasBull(Values(h)) then 0 else if t == 0 then 10 else t
  }

  // ---- What the codes stand for ----

  /** A card as players know it; an ace is of rank 1, a king of rank 13. */
  datatype Card = Plain(suit: nat, rank: nat) | SmallJoker | BigJoker

  predicate Genuine(c: Card) {
    c.Plain? ==> c.suit < 4 && 1 <= c.rank <= 13
  }

  function Code(c: Card): nat {
    match c
    case Plain(suit, rank) => 16 * suit + rank
    case SmallJoker => 78
    case BigJoker => 79
  }

  /** What a card counts: its rank, but never more than ten, and a joker ten. */
  function Counts(c: Card): nat {
    match c
    case Plain(_, rank) => if rank < 10 then rank else 10
    case _ => 10
  }

  /** The bits tell what a card counts. */
  lemma ValueIsCount(c: Card)
    requires Genuine(c)
    ensures Value(Code(c)) == Counts(c)
  {
    if c.Plain? {
      RankBits(c.suit, c.rank);
    }
  }

  lemma RankBits(k: nat, r: nat)
    requires r < 16
    ensures (16 * k + r) % 16 == r && (16 * k + r) / 8 % 2 == r / 8 && (16 * k + r) / 2 % 4 == r / 2 % 4
  {
    assert (16 * k + r) / 8 == 2 * k + r / 8;
    assert (16 * k + r) / 2 == 8 * k + r / 2;
  }

  /** One card is higher than another by its suit, and only within a suit by its rank; the jokers are the
      highest. */
  lemma HigherBySuit(c: Card, d: Card)
    requires Genuine(c) && Genuine(d)
    ensures Code(c) > Code(d) <==>
              match d
              case Plain(suit, rank) => c.Plain? ==> c.suit > suit || (c.suit == suit && c.rank > rank)
              case SmallJoker => c == BigJoker
              case BigJoker => false
  {
  }

  // ---- A hand is a set of cards: the order in which they are held does not matter ----

  predicate Triple(m: multiset<nat>, x: nat, y: nat, z: nat) {
    multiset{x, y, z} <= m && (x + y + z) % 10 == 0
  }

  lemma Without(v: seq<nat>, i: nat)
    requires i < |v|
    ensures multiset(v[..i] + v[i + 1..]) + multiset{v[i]} == multiset(v)
  {
    assert v == v[..i] + [v[i]] + v[i + 1..];
  }

  lemma Cancel(m: multiset<nat>, n: multiset<nat>, x: nat)
    requires m + multiset{x} == n + multiset{x}
    ensures m == n
  {
    assert m == m + multiset{x} - multiset{x};
    assert n == n + multiset{x} - multiset{x};
  }

  /** Where an element of the sequence without its i-th stands in the whole sequence. */
  function Back(i: nat, k: nat): nat {
    if k < i then k else k + 1
  }

  /** Takes an element that the sequence is known to hold out of it. */
  lemma Take(v: seq<nat>, x: nat) returns (i: nat, w: seq<nat>)
    requires x in multiset(v)
    ensures i < |v| && v[i] == x && |w| == |v| - 1 && forall k :: 0 <= k < |w| ==> w[k] == v[Back(i, k)]
    ensures multiset(w) + multiset{x} == multiset(v)
  {
    i :| 0 <= i < |v| && v[i] == x;
    w := v[..i] + v[i + 1..];
    Without(v, i);
  }

  lemma PairIsHeld(v: seq<nat>, i: nat, j: nat)
    requires i != j && i < |v| && j < |v|
    ensures multiset{v[i], v[j]} <= multiset(v)
  {
    var w := v[..i] + v[i + 1..];
    Without(v, i);
    assert w[if j < i then j else j - 1] == v[j];
  }

  lemma BullIsTriple(v: seq<nat>, i: nat, j: nat, k: nat)
    requires i != j && j != k && i != k && BullAt(v, i, j, k)
    ensures Triple(multiset(v), v[i], v[j], v[k])
  {
    var w := v[..i] + v[i + 1..];
    Without(v, i);
    var j', k' := if j < i then j else j - 1, if k < i then k else k - 1;
    assert w[j'] == v[j] && w[k'] == v[k];
    PairIsHeld(w, j', k');
  }

  lemma Contains(m: multiset<nat>, n: multiset<nat>, part: multiset<nat>, x: nat)
    requires part + multiset{x} <= m && n + multiset{x} == m
    ensures part <= n
  {
    forall e
      ensures part[e] <= n[e]
    {
      assert (part + multiset{x})[e] <= m[e] == (n + multiset{x})[e];
    }
  }

  lemma HeldPair(v: seq<nat>, y: nat, z: nat) returns (j: nat, k: nat)
    requires multiset{y, z} <= multiset(v)
    ensures j != k && j < |v| && k < |v| && v[j] == y && v[k] == z
  {
    var u;
    j, u := Take(v, y);
    assert multiset{y, z} == multiset{z} + multiset{y};
    Contains(multiset(v), multiset(u), multiset{z}, y);
    assert z in multiset{z};
    var k', _ := Take(u, z);
    k := Back(j, k');
  }

  lemma TripleIsBull(v: seq<nat>, x: nat, y: nat, z: nat)
    requires Triple(multiset(v), x, y, z)
    ensures HasBull(v)
  {
    var part := multiset{y, z};
    assert multiset{x, y, z} == part + multiset{x};
    assert x in multiset{x, y, z};
    var i, w := Take(v, x);
    Contains(multiset(v), multiset(w), part, x);
    var j, k := HeldPair(w, y, z);
    assert BullAt(v, i, Back(i, j), Back(i, k));
  }

  lemma {:induction false} TotalPermutes(a: seq<nat>, b: seq<nat>)
    requires multiset(a) == multiset(b)
    ensures Total(a) == Total(b)
    decreases |a|
  {
    if a == [] {
      assert |b| == |multiset(b)|;
    } else {
      var n := |a| - 1;
      assert a == a[..n] + [a[n]];
      assert a[n] in multiset(a);
      var i :| 0 <= i < |b| && b[i] == a[n];
      Without(b, i);
      Cancel(multiset(a[..n]), multiset(b[..i] + b[i + 1..]), a[n]);
      TotalPermutes(a[..n], b[..i] + b[i + 1..]);
      TotalWithout(b, i);
    }
  }

  lemma {:induction false} TotalWithout(b: seq<nat>, i: nat)
    requires i < |b|
    ensures Total(b) == b[i] + Total(b[..i] + b[i + 1..])
    decreases |b|
  {
    var n := |b| - 1;
    var rest := b[..i] + b[i + 1..];
    if i < n {
      TotalWithout(b[..n], i);
      assert rest[..n - 1] == b[..n][..i] + b[..n][i + 1..] && rest[n - 1] == b[n];
    } else {
      assert rest == b[..n];
    }
  }

  lemma {:induction false} EachConcat(f: nat -> nat, a: seq<nat>, b: seq<nat>)
    ensures Each(f, a + b) == Each(f, a) + Each(f, b)
  {
    if a == [] {
      assert a + b == b;
    } else {
      EachConcat(f, a[1..], b);
      assert (a + b)[1..] == a[1..] + b;
      Regroup([f(a[0])], Each(f, a[1..]), Each(f, b));
    }
  }

  lemma EachWithout(f: nat -> nat, b: seq<nat>, i: nat)
    requires i < |b|
    ensures multiset(Each(f, b[..i] + b[i + 1..])) + multiset{f(b[i])} == multiset(Each(f, b))
  {
    var l, r := b[..i], b[i + 1..];
    EachConcat(f, l, r);
    assert b == l + b[i..] && b[i..][1..] == r;
    EachConcat(f, l, b[i..]);
    MiddleOut(Each(f, l), f(b[i]), Each(f, r));
  }

  lemma MiddleOut(l: seq<nat>, x: nat, r: seq<nat>)
    ensures multiset(l + r) + multiset{x} == multiset(l + ([x] + r))
  {
  }

  /** Takes the first element of one sequence out of another with the same elements. */
  lemma TakeFirst(a: seq<nat>, b: seq<nat>) returns (i: nat)
    requires multiset(a) == multiset(b) && a != []
    ensures i < |b| && b[i] == a[0] && multiset(a[1..]) == multiset(b[..i] + b[i + 1..])
  {
    assert a == [a[0]] + a[1..] && a[0] in multiset(a);
    i :| 0 <= i < |b| && b[i] == a[0];
    Without(b, i);
    Cancel(multiset(a[1..]), multiset(b[..i] + b[i + 1..]), a[0]);
  }

  lemma {:induction false} EachPermutes(f: nat -> nat, a: seq<nat>, b: seq<nat>)
    requires multiset(a) == multiset(b)
    ensures multiset(Each(f, a)) == multiset(Each(f, b))
    decreases |a|
  {
    if a == [] {
      assert |b| == |multiset(b)|;
    } else {
      var i := TakeFirst(a, b);
      var rest := b[..i] + b[i + 1..];
      EachPermutes(f, a[1..], rest);
      assert Each(f, a) == [f(a[0])] + Each(f, a[1..]);
      EachWithout(f, b, i);
    }
  }

  lemma MaxPermutes(a: seq<nat>, b: seq<nat>)
    requires multiset(a) == multiset(b)
    ensures MaxCard(a) == MaxCard(b)
  {
    assert |a| == |multiset(a)| && |b| == |multiset(b)|;
    assert forall x :: x in a ==> x in multiset(b);
    assert forall x :: x in b ==> x in multiset(a);
  }

  /** Neither the bull point nor the highest card depends on the order of the cards, and so not on
      which three cards the search happens to find first. */
  lemma OrderDoesNotMatter(a: Hand, b: Hand)
    requires multiset(a) == multiset(b)
    ensures HasBull(Values(a)) == HasBull(Values(b)) && BullPoint(a) == BullPoint(b) && MaxCard(a) == MaxCard(b)
  {
    EachPermutes(Value, a, b);
    TotalPermutes(Values(a), Values(b));
    MaxPermutes(a, b);
    if HasBull(Values(a)) {
      BullPermutes(Values(a), Values(b));
    }
    if HasBull(Values(b)) {
      BullPermutes(Values(b), Values(a));
    }
  }

  lemma BullPermutes(v: seq<nat>, w: seq<nat>)
    requires multiset(v) == multiset(w) && HasBull(v)
    ensures HasBull(w)
  {
    var i, j, k :| 0 <= i < |v| && 0 <= j < |v| && 0 <= k < |v| && i != j && j != k && i != k && BullAt(v, i, j, k);
    BullIsTriple(v, i, j, k);
    TripleIsBull(w, v[i], v[j], v[k]);
  }

  /** The hand of these cards. */
  function Held(a: Card, b: Card, c: Card, d: Card, e: Card): Hand {
    [Code(a), Code(b), Code(c), Code(d), Code(e)]
  }

  lemma ValuesOfFive(h: Hand)
    ensures Values(h) == [Value(h[0]), Value(h[1]), Value(h[2]), Value(h[3]), Value(h[4])]
  {
    assert Each(Value, h[4..]) == [Value(h[4])] + Each(Value, h[4..][1..]);
    assert Each(Value, h[3..]) == [Value(h[3])] + Each(Value, h[3..][1..]) && h[3..][1..] == h[4..];
    assert Each(Value, h[2..]) == [Value(h[2])] + Each(Value, h[2..][1..]) && h[2..][1..] == h[3..];
    assert Each(Value, h[1..]) == [Value(h[1])] + Each(Value, h[1..][1..]) && h[1..][1..] == h[2..];
    assert h[4..][1..] == [];
  }

  predicate AllGenuine(cards: seq<Card>) {
    forall i :: 0 <= i < |cards| ==> Genuine(cards[i])
  }

  predicate WholeTens(c: Card, d: Card, e: Card) {
    var sum := Counts(c) + Counts(d) + Counts(e);
    sum == 10 || sum == 20 || sum == 30
  }

  lemma ValuesOfCards(a: Card, b: Card, c: Card, d: Card, e: Card)
    requires Genuine(a) && Genuine(b) && Genuine(c) && Genuine(d) && Genuine(e)
    ensures Values(Held(a, b, c, d, e)) ==
            [Counts(a), Counts(b), Counts(c), Counts(d), Counts(e)]
  {
    ValuesOfFive(Held(a, b, c, d, e));
    ValueIsCount(a);
    ValueIsCount(b);
    ValueIsCount(c);
    ValueIsCount(d);
    ValueIsCount(e);
  }

  /** If three cards of a hand count 10, 20 or 30 together, the hand has what the other two count, or ten less
      if that is more than 10.  The cards may be held in any order. */
  lemma PointOfOtherTwo(h: Hand, a: Card, b: Card, c: Card, d: Card, e: Card)
    requires Genuine(a) && Genuine(b) && Genuine(c) && Genuine(d) && Genuine(e) && WholeTens(a, b, c)
    requires multiset(h) == multiset(Held(a, b, c, d, e))
    ensures var more := Counts(d) + Counts(e); BullPoint(h) == if more <= 10 then more else more - 10
  {
    ValuesOfCards(a, b, c, d, e);
    PointInAnyOrder(h, Held(a, b, c, d, e), Counts(a), Counts(b), Counts(c), Counts(d), Counts(e));
  }

  /** What is left of a total beyond whole tens. */
  lemma LeftOver(tens: nat, more: nat)
    requires (tens == 10 || tens == 20 || tens == 30) && 2 <= more <= 20
    ensures tens % 10 == 0
    ensures (if (tens + more) % 10 == 0 then 10 else (tens + more) % 10) == if more <= 10 then more else more - 10
  {
  }

  lemma PointOfFive(h: Hand, a: nat, b: nat, c: nat, d: nat, e: nat)
    requires Values(h) == [a, b, c, d, e] && (a + b + c == 10 || a + b + c == 20 || a + b + c == 30)
    requires 1 <= d <= 10 && 1 <= e <= 10
    ensures BullPoint(h) == if d + e <= 10 then d + e else d + e - 10
  {
    LeftOver(a + b + c, d + e);
    FirstThree(Values(h));
  }

  lemma PointInAnyOrder(h: Hand, inOrder: Hand, a: nat, b: nat, c: nat, d: nat, e: nat)
    requires multiset(h) == multiset(inOrder) && Values(inOrder) == [a, b, c, d, e]
    requires a + b + c == 10 || a + b + c == 20 || a + b + c == 30
    requires 1 <= d <= 10 && 1 <= e <= 10
    ensures BullPoint(h) == if d + e <= 10 then d + e else d + e - 10
  {
    OrderDoesNotMatter(h, inOrder);
    PointOfFive(inOrder, a, b, c, d, e);
  }

  lemma FirstThree(v: seq<nat>)
    requires |v| == 5 && (v[0] + v[1] + v[2]) % 10 == 0
    ensures HasBull(v) && Total(v) == (v[0] + v[1] + v[2]) + (v[3] + v[4])
  {
    assert BullAt(v, 0, 1, 2);
    TotalOfFive(v);
  }

  /** A hand has no point exactly if no three of its cards make up whole tens. */
  lemma NoPointIff(cards: seq<Card>)
    requires |cards| == 5 && AllGenuine(cards)
    ensures BullPoint(Held(cards[0], cards[1], cards[2], cards[3], cards[4])) == 0 <==>
              forall i, j, k :: 0 <= i < j < k < 5 ==> !WholeTens(cards[i], cards[j], cards[k])
  {
    var h := Held(cards[0], cards[1], cards[2], cards[3], cards[4]);
    ValuesOfCards(cards[0], cards[1], cards[2], cards[3], cards[4]);
    PointTellsBull(h);
    NoBullIff(Values(h), cards);
  }

  lemma TensOfThree(a: nat, b: nat, c: nat)
    requires 1 <= a <= 10 && 1 <= b <= 10 && 1 <= c <= 10
    ensures (a + b + c) % 10 == 0 <==> a + b + c == 10 || a + b + c == 20 || a + b + c == 30
  {
  }

  lemma NoBullIff(v: seq<nat>, cards: seq<Card>)
    requires |v| == |cards| == 5 && forall i: nat :: i < 5 ==> 1 <= v[i] == Counts(cards[i]) <= 10
    ensures !HasBull(v) <==> forall i, j, k :: 0 <= i < j < k < 5 ==> !WholeTens(cards[i], cards[j], cards[k])
  {
    if HasBull(v) {
      var i, j, k := BullInOrder(v);
      TensOfThree(v[i], v[j], v[k]);
      assert WholeTens(cards[i], cards[j], cards[k]);
    } else {
      forall i, j, k | 0 <= i < j < k < 5
        ensures !WholeTens(cards[i], cards[j], cards[k])
      {
        assert !BullAt(v, i, j, k);
      }
    }
  }

  lemma BullInOrder(v: seq<nat>) returns (i: nat, j: nat, k: nat)
    requires HasBull(v)
    ensures i < j < k < |v| && BullAt(v, i, j, k)
  {
    i, j, k :| i < |v| && j < |v| && k < |v| && i != j && j != k && i != k && BullAt(v, i, j, k);
    if j < i { i, j := j, i; }
    if k < j { j, k := k, j; }
    if j < i { i, j := j, i; }
  }

  // ---- The helper that the table uses ----

  /** Tries the triples in order and reports the first that makes up whole tens. */
  method IsBull(v: seq<nat>) returns (isBull: bool, tens: nat)
    requires |v| == 5
    ensures isBull == HasBull(v)
    ensures isBull ==> tens % 10 == 0 && tens <= Total(v)
  {
    isBull, tens := false, 0;
    for i := 0 to 3
      invariant forall a, b, c :: 0 <= a < b < c < 5 && a < i ==> !BullAt(v, a, b, c)
    {
      for j := i + 1 to 4
        invariant forall a, b, c :: 0 <= a < b < c < 5 && (a < i || (a == i && b < j)) ==> !BullAt(v, a, b, c)
      {
        for k := j + 1 to 5
          invariant forall a, b, c :: 0 <= a < b < c < 5 && (a < i || (a == i && (b < j || (b == j && c < k)))) ==>
            !BullAt(v, a, b, c)
        {
          tens := v[i] + v[j] + v[k];
          if tens % 10 == 0 {
            assert BullAt(v, i, j, k);
            TotalOfFive(v);
            return true, tens;
          }
        }
      }
    }
    if HasBull(v) {
      var _, _, _ := BullInOrder(v);
    }
  }

  lemma TotalOfFive(v: seq<nat>)
    requires |v| == 5
    ensures Total(v) == v[0] + v[1] + v[2] + v[3] + v[4]
  {
    assert Total(v) == v[4] + Total(v[..4]);
    assert Total(v[..4]) == v[3] + Total(v[..4][..3]) && v[..4][..3] == v[..3];
    assert Total(v[..3]) == v[2] + Total(v[..3][..2]) && v[..3][..2] == v[..2];
    assert Total(v[..2]) == v[1] + Total(v[..2][..1]) && v[..2][..1] == v[..1];
    assert Total(v[..1]) == v[0] + Total(v[..1][..0]);
  }

  lemma EachOneMore(f: nat -> nat, h: seq<nat>, i: nat)
    requires i < |h|
    ensures Each(f, h[..i + 1]) == Each(f, h[..i]) + [f(h[i])]
  {
    assert h[..i + 1] == h[..i] + [h[i]];
    EachConcat(f, h[..i], [h[i]]);
  }

  lemma TotalOneMore(v: seq<nat>, x: nat)
    ensures Total(v + [x]) == Total(v) + x
  {
    assert (v + [x])[..|v|] == v;
  }

  lemma MaxOneMore(h: seq<nat>, i: nat)
    requires i < |h|
    ensures MaxCard(h[..i + 1]) == if h[i] > MaxCard(h[..i]) then h[i] else MaxCard(h[..i])
  {
    assert h[..i + 1][..i] == h[..i];
  }

  /** The points of the cards, their sum, and the highest card. */
  method ReadHand(h: Hand) returns (values: seq<nat>, total: nat, max: nat)
    ensures values == Values(h) && total == Total(values) && max == MaxCard(h)
  {
    values, total, max := [], 0, 0;
    for i := 0 to |h|
      invariant values == Values(h[..i]) && total == Total(values) && max == MaxCard(h[..i])
    {
      EachOneMore(Value, h, i);
      MaxOneMore(h, i);
      if h[i] > max {
        max := h[i];
      }
      var value := Value(h[i]);
      TotalOneMore(values, value);
      values := values + [value];
      total := total + value;
    }
    assert h[..|h|] == h;
  }

  /** Whole tens taken away from the total do not change what it is beyond whole tens. */
  lemma BeyondTens(total: nat, tens: nat)
    requires tens % 10 == 0 && tens <= total
    ensures (total - tens) % 10 == total % 10
  {
    assert tens == 10 * (tens / 10);
  }

  method GetBullPoint(h: Hand) returns (isBull: bool, point: nat, max: nat)
    ensures isBull == HasBull(Values(h)) && point == BullPoint(h) && max == MaxCard(h)
  {
    var values, total, tens;
    values, total, max := ReadHand(h);
    isBull, tens := IsBull(values);
    point := 0;
    if isBull {
      BeyondTens(total, tens);
      point := (total - tens) % 10;
      if point == 0 {
        point := 10;
      }
    }
  }

  /** Hands are ranked by bull point, and among equals by the highest card. */
  predicate Beats(a: Hand, b: Hand) {
    BullPoint(a) > BullPoint(b) || (BullPoint(a) == BullPoint(b) && MaxCard(a) > MaxCard(b))
  }

  /** No hand beats itself, and what beats a better hand beats the worse one. */
  lemma BeatsIsAnOrder(a: Hand, b: Hand, c: Hand)
    ensures !Beats(a, a)
    ensures Beats(a, b) && Beats(b, c) ==> Beats(a, c)
  {
  }

  /** Among hands of the same point that one wins which holds a card higher than all of the other's. */
  lemma HigherHandWins(a: Hand, b: Hand)
    ensures Beats(a, b) <==>
              || BullPoint(a) > BullPoint(b)
              || (BullPoint(a) == BullPoint(b) && exists i | 0 <= i < 5 :: forall j :: 0 <= j < 5 ==> a[i] > b[j])
  {
    var m := MaxCard(a);
    if m > MaxCard(b) {
      var i :| 0 <= i < 5 && a[i] == m;
      assert forall j :: 0 <= j < 5 ==> a[i] > b[j];
    }
    forall i | 0 <= i < 5 && forall j :: 0 <= j < 5 ==> a[i] > b[j]
      ensures MaxCard(a) > MaxCard(b)
    {
      assert a[i] > b[0];
      assert MaxCard(b) == 0 || MaxCard(b) in b;
    }
  }

  /** What the second hand owes the first, per coin: the winner's odds, negative if it is the second. */
  function WinOdds(a: Hand, b: Hand, odds: nat -> int): int {
    if Beats(a, b) then odds(BullPoint(a)) else -odds(BullPoint(b))
  }

  /** Whichever hand is asked about first, the odds are those of the hand that wins. */
  lemma WinnerSetsOdds(a: Hand, b: Hand, odds: nat -> int)
    requires Beats(a, b)
    ensures WinOdds(a, b, odds) == odds(BullPoint(a)) && WinOdds(b, a, odds) == -odds(BullPoint(a))
  {
    assert !Beats(b, a);
  }

  method CompareCard(a: Hand, b: Hand, odds: nat -> int) returns (formerWin: bool, winOdds: int)
    ensures formerWin == Beats(a, b) && winOdds == WinOdds(a, b, odds)
  {
    var isBull1, point1, max1 := GetBullPoint(a);
    var isBull2, point2, max2 := GetBullPoint(b);
    PointTellsBull(a);
    PointTellsBull(b);
    if isBull1 == isBull2 {
      if isBull1 && point1 != point2 {
        formerWin := point1 > point2;
      } else {
        formerWin := max1 > max2;
      }
    } else {
      formerWin := isBull1;
    }
    winOdds := if formerWin then odds(point1) else odds(point2) * -1;
  }

  lemma PointTellsBull(h: Hand)
    ensures BullPoint(h) <= 10 && (BullPoint(h) > 0 <==> HasBull(Values(h)))
  {
  }

  /** Which of two hands is asked about first makes no difference but for the sign, exactly when
      the hands differ in point or highest card. */
  lemma SwappingNegates(a: Hand, b: Hand, odds: nat -> int)
    requires odds(BullPoint(a)) > 0 && odds(BullPoint(b)) > 0
    ensures WinOdds(b, a, odds) == -WinOdds(a, b, odds) <==>
            BullPoint(a) != BullPoint(b) || MaxCard(a) != MaxCard(b)
  {
    assert Beats(a, b) ==> !Beats(b, a);
  }
}
