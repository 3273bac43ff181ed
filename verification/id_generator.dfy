/** Numbers of a range handed out in random order and taken back. */
module IdGenerators {
  import opened Options
  import opened Sequences

  function Range(min: int, max: int): seq<int>
    requires min <= max + 1
  {
    seq(max + 1 - min, k => min + k)
  }

  /** `choice(i)` is what the i-th call of the random generator answers; each call asks for a
      number between `min` and a bound that drops by one every time. */
  predicate Fair(choice: nat -> int, min: int, max: int) {
    forall i: nat :: i <= max - min ==> min <= choice(i) <= max - i
  }

  /** The textbook shuffle of a whole array: the chosen element leaves, the last takes its place. */
  function FisherYates(a: seq<int>, min: int, choice: nat -> int, i: nat): seq<int>
    requires Fair(choice, min, min + i + |a| - 1)
    decreases |a|
  {
    if a == [] then []
    else
      var k, last := choice(i) - min, |a| - 1;
      [a[k]] + FisherYates(a[k := a[last]][..last], min, choice, i + 1)
  }

  lemma LastFillsGap(a: seq<int>, k: nat)
    requires k < |a|
    ensures var last := |a| - 1; multiset(a[k := a[last]][..last]) + multiset{a[k]} == multiset(a)
  {
    var last := |a| - 1;
    assert a == a[..last] + [a[last]];
    if k < last {
      assert a[..last] == a[..k] + [a[k]] + a[k + 1..last];
      assert a[k := a[last]][..last] == a[..k] + [a[last]] + a[k + 1..last];
    } else {
      assert a[k := a[last]][..last] == a[..last];
    }
  }

  /** Whatever the random generator answers, the result is a rearrangement of the array. */
  lemma {:induction false} FisherYatesPermutes(a: seq<int>, min: int, choice: nat -> int, i: nat)
    requires Fair(choice, min, min + i + |a| - 1)
    ensures multiset(FisherYates(a, min, choice, i)) == multiset(a)
    decreases |a|
  {
    if a != [] {
      var k, last := choice(i) - min, |a| - 1;
      LastFillsGap(a, k);
      FisherYatesPermutes(a[k := a[last]][..last], min, choice, i + 1);
    }
  }

  /** The generator that answers `rand` in round i, and as before in the others. */
  function Answering(choice: nat -> int, i: nat, rand: int): nat -> int {
    (n: nat) => if n == i then rand else choice(n)
  }

  /** From round i on, some answers yield any given arrangement; earlier rounds are left as they are. */
  lemma {:induction false} OrderCanCome(a: seq<int>, b: seq<int>, min: int, before: nat -> int, i: nat)
    returns (choice: nat -> int)
    requires multiset(b) == multiset(a) && Fair(before, min, min + i + |a| - 1)
    ensures Fair(choice, min, min + i + |a| - 1) && FisherYates(a, min, choice, i) == b
    ensures forall n: nat :: n < i ==> choice(n) == before(n)
    decreases |a|
  {
    assert |multiset(a)| == |a| && |multiset(b)| == |b|;
    if a == [] {
      choice := before;
    } else {
      var last := |a| - 1;
      assert b[0] in multiset(a);
      var k: nat :| k < |a| && a[k] == b[0];
      var rest := a[k := a[last]][..last];
      RestOf(a, b, k);
      var now := Answering(before, i, min + k);
      StillFair(before, min, min + i + last, i, min + k);
      choice := OrderCanCome(rest, b[1..], min, now, i + 1);
      assert choice(i) == now(i) == min + k;
      FirstDrawn(a, min, choice, i);
      SameSeq(FisherYates(a, min, choice, i), b);
    }
  }

  lemma SameSeq(a: seq<int>, b: seq<int>)
    requires a != [] && b != [] && a[0] == b[0] && a[1..] == b[1..]
    ensures a == b
  {
    assert a == [a[0]] + a[1..] && b == [b[0]] + b[1..];
  }

  lemma StillFair(choice: nat -> int, min: int, max: int, i: nat, rand: int)
    requires Fair(choice, min, max) && min <= rand <= max - i
    ensures Fair(Answering(choice, i, rand), min, max)
  {
  }

  lemma FirstDrawn(a: seq<int>, min: int, choice: nat -> int, i: nat)
    requires Fair(choice, min, min + i + |a| - 1) && a != []
    ensures var k, last := choice(i) - min, |a| - 1;
            && 0 <= k <= last && Fair(choice, min, min + (i + 1) + last - 1)
            && FisherYates(a, min, choice, i) != [] && FisherYates(a, min, choice, i)[0] == a[k]
            && FisherYates(a, min, choice, i)[1..] == FisherYates(a[k := a[last]][..last], min, choice, i + 1)
  {
  }

  lemma RestOf(a: seq<int>, b: seq<int>, k: nat)
    requires multiset(b) == multiset(a) && k < |a| && b != [] && a[k] == b[0]
    ensures multiset(b[1..]) == multiset(a[k := a[|a| - 1]][..|a| - 1])
  {
    LastFillsGap(a, k);
    assert b == [b[0]] + b[1..];
    var rest, all := multiset(a[k := a[|a| - 1]][..|a| - 1]), multiset(a);
    assert rest == all - multiset{a[k]} && multiset(b[1..]) == all - multiset{b[0]};
  }

  predicate Distinct(a: seq<int>) {
    forall i, j :: 0 <= i < j < |a| ==> a[i] != a[j]
  }

  /** Different answers yield different arrangements. */
  lemma {:induction false} AnswersTell(a: seq<int>, min: int, choice: nat -> int, other: nat -> int, i: nat)
    requires Fair(choice, min, min + i + |a| - 1) && Fair(other, min, min + i + |a| - 1) && Distinct(a)
    requires FisherYates(a, min, choice, i) == FisherYates(a, min, other, i)
    ensures forall n: nat :: i <= n < i + |a| ==> choice(n) == other(n)
    decreases |a|
  {
    if a != [] {
      var k, k', last := choice(i) - min, other(i) - min, |a| - 1;
      FirstDrawn(a, min, choice, i);
      FirstDrawn(a, min, other, i);
      AnswersTell(a[k := a[last]][..last], min, choice, other, i + 1);
    }
  }

  /** Each arrangement of the range comes of some answers of the generator, and only of these: if the answers
      are equally likely, so are the arrangements. */
  lemma EachOrderOnce(min: int, max: int, ids: seq<int>) returns (choice: nat -> int)
    requires min <= max && multiset(ids) == multiset(Range(min, max))
    ensures Fair(choice, min, max) && FisherYates(Range(min, max), min, choice, 0) == ids
    ensures forall other: nat -> int :: Fair(other, min, max) && FisherYates(Range(min, max), min, other, 0) == ids ==>
              forall i: nat :: i <= max - min ==> other(i) == choice(i)
  {
    choice := OrderCanCome(Range(min, max), ids, min, _ => min, 0);
    forall other: nat -> int | Fair(other, min, max) && FisherYates(Range(min, max), min, other, 0) == ids
      ensures forall i: nat :: i <= max - min ==> other(i) == choice(i)
    {
      AnswersTell(Range(min, max), min, other, choice, 0);
    }
  }

  /** The entry of an array of which only the displaced entries are stored. */
  function At(temp: map<int, int>, k: int): int {
    if k in temp then temp[k] else k
  }

  /** The array that the displaced entries stand for. */
  function Dense(temp: map<int, int>, min: int, top: int): seq<int>
    requires min <= top + 1
  {
    seq(top + 1 - min, k => At(temp, min + k))
  }

  lemma NothingDisplaced(min: int, top: int)
    requires min <= top + 1
    ensures Dense(map[], min, top) == Range(min, top)
  {
    forall k | 0 <= k < top + 1 - min
      ensures Dense(map[], min, top)[k] == Range(min, top)[k]
    {
      assert Dense(map[], min, top)[k] == At(map[], min + k);
    }
  }

  /** One round of the sparse shuffle does to the array it stands for what the dense one does. */
  lemma DenseStep(temp: map<int, int>, min: int, top: int, rand: int)
    requires min <= rand <= top
    ensures var dense := Dense(temp, min, top);
            var temp' := Displaced(temp, top, rand);
            dense[rand - min] == At(temp, rand) &&
            dense[rand - min := dense[top - min]][..top - min] == Dense(temp', min, top - 1)
  {
    var dense := Dense(temp, min, top);
    var temp' := Displaced(temp, top, rand);
    assert dense[rand - min] == At(temp, rand) && dense[top - min] == At(temp, top);
    var a, b := dense[rand - min := dense[top - min]][..top - min], Dense(temp', min, top - 1);
    forall k | 0 <= k < |a|
      ensures a[k] == b[k]
    {
      assert dense[k] == At(temp, min + k);
    }
  }

  /** The table of displaced entries after a draw. */
  function Displaced(temp: map<int, int>, top: int, rand: int): map<int, int> {
    if rand != top then temp[rand := At(temp, top)] else temp
  }

  /** What has been drawn, and what would still be drawn from the array that the table stands for, is the
      shuffled range. */
  ghost predicate Drawing(drawn: seq<int>, temp: map<int, int>, min: int, top: int, choice: nat -> int, i: nat,
                          all: seq<int>) {
    && min <= top + 1 && Fair(choice, min, top + i)
    && drawn + FisherYates(Dense(temp, min, top), min, choice, i) == all
  }

  /** One round of the sparse shuffle: a number is drawn, and the rest is shuffled as it would be. */
  lemma SparseRound(drawn: seq<int>, temp: map<int, int>, min: int, top: int, choice: nat -> int, i: nat, all: seq<int>)
    requires min <= top && Drawing(drawn, temp, min, top, choice, i, all)
    ensures Drawing(drawn + [At(temp, choice(i))], Displaced(temp, top, choice(i)), min, top - 1, choice, i + 1, all)
  {
    var rand := choice(i);
    DenseStep(temp, min, top, rand);
    var rest := FisherYates(Dense(Displaced(temp, top, rand), min, top - 1), min, choice, i + 1);
    assert FisherYates(Dense(temp, min, top), min, choice, i) == [At(temp, rand)] + rest;
    Regroup(drawn, [At(temp, rand)], rest);
  }

  lemma AllDrawn(drawn: seq<int>, temp: map<int, int>, min: int, choice: nat -> int, i: nat, all: seq<int>)
    requires Drawing(drawn, temp, min, min - 1, choice, i, all)
    ensures drawn == all
  {
    assert drawn + [] == drawn;
  }

  datatype Step = Get | GiveBack(id: int)

  /** Free numbers in the order in which they will be handed out, and those handed out. */
  datatype Pool = Pool(free: seq<int>, issued: multiset<int>)

  function Next(p: Pool, step: Step, min: int, max: int): Pool {
    match step
    case Get => if p.free == [] then p else Pool(p.free[1..], p.issued + multiset{p.free[0]})
    case GiveBack(id) => if min <= id <= max then Pool(p.free + [id], p.issued - multiset{id}) else p
  }

  class IdGenerator {
    const min: int
    const max: int
    var ids: seq<int>
    /** The numbers handed out and not taken back. */
    ghost var issued: multiset<int>

    ghost function View(): Pool
      reads this
    {
      Pool(ids, issued)
    }

    constructor (min: int, max: int, choice: nat -> int)
      requires min < max && Fair(choice, min, max)
      ensures this.min == min && this.max == max
      ensures View() == Pool(FisherYates(Range(min, max), min, choice, 0), multiset{})
    {
      this.min, this.max := min, max;
      ids, issued := [], multiset{};
      new;
      Init(choice);
    }

    /** Shuffles the range without ever storing it: the sparse table does what the array does. */
    method Init(choice: nat -> int)
      requires min < max && Fair(choice, min, max)
      modifies this`ids
      ensures ids == FisherYates(Range(min, max), min, choice, 0)
    {
      var ret, temp: map<int, int>, top := [], map[], max;
      ghost var all := FisherYates(Range(min, max), min, choice, 0);
      NothingDisplaced(min, max);
      for i := 0 to max + 1 - min
        invariant top == max - i && Drawing(ret, temp, min, top, choice, i, all)
      {
        var rand := choice(i);
        SparseRound(ret, temp, min, top, choice, i, all);
        var result := if rand in temp then temp[rand] else rand;
        ret := ret + [result];
        if rand != top {
          temp := temp[rand := if top in temp then temp[top] else top];
        }
        top := top - 1;
      }
      AllDrawn(ret, temp, min, choice, max + 1 - min, all);
      ids := ret;
    }

    /** The next free number, if there is one. */
    method GetOne() returns (id: Option<int>)
      modifies this
      ensures id == if old(ids) == [] then None else Some(old(ids)[0])
      ensures View() == Next(old(View()), Get, min, max)
    {
      if ids == [] {
        id := None;
      } else {
        id, ids := Some(ids[0]), ids[1..];
        issued := issued + multiset{id.value};
      }
    }

    method Return(id: int)
      modifies this
      ensures View() == Next(old(View()), GiveBack(id), min, max)
    {
      if id >= min && id <= max {
        ids := ids + [id];
        issued := issued - multiset{id};
      }
    }
  }

  // ---- Over whole runs ----

  /** Every number of the range is either free or issued, and that once. */
  predicate Partition(p: Pool, min: int, max: int)
    requires min <= max + 1
  {
    multiset(p.free) + p.issued == multiset(Range(min, max))
  }

  /** Handing out keeps the partition; taking back keeps it exactly when the number had been handed
      out, or is none of the generator's. */
  lemma StepKeepsPartition(p: Pool, step: Step, min: int, max: int)
    requires min <= max && Partition(p, min, max)
    ensures Partition(Next(p, step, min, max), min, max) <==>
            (step.GiveBack? && min <= step.id <= max ==> step.id in p.issued)
  {
    match step
    case Get => GetKeepsPartition(p, min, max);
    case GiveBack(id) => GiveBackKeepsPartition(p, id, min, max);
  }

  lemma GetKeepsPartition(p: Pool, min: int, max: int)
    requires min <= max && Partition(p, min, max)
    ensures Partition(Next(p, Get, min, max), min, max)
  {
    if p.free != [] {
      assert p.free == [p.free[0]] + p.free[1..];
    }
  }

  lemma GiveBackKeepsPartition(p: Pool, id: int, min: int, max: int)
    requires min <= max && Partition(p, min, max)
    ensures Partition(Next(p, GiveBack(id), min, max), min, max) <==> (min <= id <= max ==> id in p.issued)
  {
    if min <= id <= max {
      var q := Next(p, GiveBack(id), min, max);
      assert multiset(q.free) == multiset(p.free) + multiset{id};
      assert (multiset(q.free) + q.issued)[id] == multiset(p.free)[id] + 1 + q.issued[id];
    }
  }

  predicate Legal(p: Pool, run: seq<Step>, min: int, max: int)
    decreases |run|
  {
    run == [] ||
    ((run[0].GiveBack? ==> run[0].id in p.issued) && Legal(Next(p, run[0], min, max), run[1..], min, max))
  }

  function Run(p: Pool, run: seq<Step>, min: int, max: int): Pool
    decreases |run|
  {
    if run == [] then p else Run(Next(p, run[0], min, max), run[1..], min, max)
  }

  /** What a run hands out, in order. */
  function Handed(p: Pool, run: seq<Step>, min: int, max: int): seq<int>
    decreases |run|
  {
    if run == [] then []
    else
      var first := if run[0].Get? && p.free != [] then [p.free[0]] else [];
      first + Handed(Next(p, run[0], min, max), run[1..], min, max)
  }

  /** What a run takes back, in order. */
  function TakenBack(run: seq<Step>, min: int, max: int): seq<int> {
    if run == [] then []
    else
      var first := if run[0].GiveBack? && min <= run[0].id <= max then [run[0].id] else [];
      first + TakenBack(run[1..], min, max)
  }

  /** Over every run, first come, first served: what has been handed out, and then what is free, are what was
      free before and then what was taken back, in the same order.  A number is handed out again only after
      all that were free when it came back. */
  lemma {:induction false} FirstBackFirstOut(p: Pool, run: seq<Step>, min: int, max: int)
    ensures Handed(p, run, min, max) + Run(p, run, min, max).free == p.free + TakenBack(run, min, max)
    decreases |run|
  {
    if run == [] {
      assert p.free + [] == p.free;
    } else {
      var q := Next(p, run[0], min, max);
      FirstBackFirstOut(q, run[1..], min, max);
      var handed, back := Handed(q, run[1..], min, max), TakenBack(run[1..], min, max);
      match run[0]
      case Get =>
        if p.free != [] {
          Regroup([p.free[0]], handed, Run(q, run[1..], min, max).free);
          assert [p.free[0]] + (q.free + back) == p.free + back;
        }
        assert [] + handed == handed && [] + back == back;
      case GiveBack(id) =>
        assert [] + handed == handed && [] + back == back;
        assert p.free + [id] + back == p.free + ([id] + back);
    }
  }

  lemma RangeHasNoDuplicates(min: int, max: int, x: int)
    requires min <= max + 1
    ensures multiset(Range(min, max))[x] == if min <= x <= max then 1 else 0
    decreases max + 1 - min
  {
    if min <= max {
      RangeHasNoDuplicates(min, max - 1, x);
      assert Range(min, max) == Range(min, max - 1) + [max];
    }
  }

  lemma {:induction false} RunKeepsPartition(p: Pool, run: seq<Step>, min: int, max: int)
    requires min <= max && Partition(p, min, max) && Legal(p, run, min, max)
    ensures Partition(Run(p, run, min, max), min, max)
    decreases |run|
  {
    if run != [] {
      StepKeepsPartition(p, run[0], min, max);
      RunKeepsPartition(Next(p, run[0], min, max), run[1..], min, max);
    }
  }

  /** From a freshly shuffled pool, over any run of handing out and taking back what was handed
      out, and whatever the random generator answered: each number of the range is at any time
      either free or issued but not both, and no number is issued to two holders. */
  lemma NeverIssuedTwice(choice: nat -> int, run: seq<Step>, min: int, max: int, x: int)
    requires min < max && Fair(choice, min, max)
    requires Legal(Pool(FisherYates(Range(min, max), min, choice, 0), multiset{}), run, min, max)
    ensures var p := Run(Pool(FisherYates(Range(min, max), min, choice, 0), multiset{}), run, min, max);
            multiset(p.free)[x] + p.issued[x] == if min <= x <= max then 1 else 0
  {
    FisherYatesPermutes(Range(min, max), min, choice, 0);
    var start := Pool(FisherYates(Range(min, max), min, choice, 0), multiset{});
    RunKeepsPartition(start, run, min, max);
    RangeHasNoDuplicates(min, max, x);
    var p := Run(start, run, min, max);
    assert (multiset(p.free) + p.issued)[x] == multiset(Range(min, max))[x];
  }
}
