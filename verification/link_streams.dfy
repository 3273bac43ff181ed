/** Replies that arrive over several links into one receive packet: whose bytes a packet is cut from. */
module LinkStreams {
  import opened Options
  import opened Wire
  import opened NetPackets
  import Sequences

  /** The servers behind the gateway. */
  datatype Link = Login | Logic | Room

  datatype Chunk = Chunk(link: Link, data: seq<Byte>)

  /** The bytes of all links, in the order of arrival. */
  function Stream(chunks: seq<Chunk>): seq<Byte> {
    if chunks == [] then [] else Stream(chunks[..|chunks| - 1]) + chunks[|chunks| - 1].data
  }

  /** The bytes of one link. */
  function OfLink(chunks: seq<Chunk>, link: Link): seq<Byte> {
    if chunks == [] then []
    else
      var n := |chunks| - 1;
      if chunks[n].link == link then OfLink(chunks[..n], link) + chunks[n].data else OfLink(chunks[..n], link)
  }

  function Copies(link: Link, n: nat): (r: seq<Link>)
    ensures |r| == n && forall i :: 0 <= i < n ==> r[i] == link
  {
    if n == 0 then [] else Copies(link, n - 1) + [link]
  }

  /** Where each byte of the stream has come from. */
  function Sources(chunks: seq<Chunk>): (r: seq<Link>)
    ensures |r| == |Stream(chunks)|
  {
    if chunks == [] then []
    else
      var n := |chunks| - 1;
      Sources(chunks[..n]) + Copies(chunks[n].link, |chunks[n].data|)
  }

  /** The packets of a stream, and what is left of it. */
  function Parts(s: seq<Byte>): seq<seq<Byte>>
    requires Sane(s)
  {
    Split(s).0 + [Split(s).1]
  }

  predicate AllSame(sources: seq<Link>) {
    forall i, j :: 0 <= i < |sources| && 0 <= j < |sources| ==> sources[i] == sources[j]
  }

  /** Every part consists of bytes of one link only. */
  predicate Unmixed(parts: seq<seq<Byte>>, sources: seq<Link>)
    requires |sources| == |Concat(parts)|
  {
    parts == [] || (AllSame(sources[..|parts[0]|]) && Unmixed(parts[1..], sources[|parts[0]|..]))
  }

  /** Another link is heard only while nothing is left over. */
  predicate SwitchesWhenEmpty(chunks: seq<Chunk>)
    requires Sane(Stream(chunks))
  {
    chunks == [] ||
    var n := |chunks| - 1;
    SaneBefore(chunks);
    && SwitchesWhenEmpty(chunks[..n])
    && KeepsLink(chunks[..n], chunks[n])
  }

  /** The chunk does not come amid a packet of another link. */
  predicate KeepsLink(before: seq<Chunk>, chunk: Chunk)
    requires Sane(Stream(before))
  {
    Split(Stream(before)).1 == [] || chunk.data == [] || Last(Sources(before)) == Some(chunk.link)
  }

  function Last(sources: seq<Link>): Option<Link> {
    if sources == [] then None else Some(sources[|sources| - 1])
  }

  lemma SaneBefore(chunks: seq<Chunk>)
    requires Sane(Stream(chunks)) && chunks != []
    ensures var n := |chunks| - 1;
            Sane(Stream(chunks[..n])) && Sane(Split(Stream(chunks[..n])).1 + chunks[n].data)
  {
    var n := |chunks| - 1;
    SplitConcat(Stream(chunks[..n]), chunks[n].data);
  }

  // ---- Whose bytes the packets are ----

  lemma {:induction false} ConcatConcat(a: seq<seq<Byte>>, b: seq<seq<Byte>>)
    ensures Concat(a + b) == Concat(a) + Concat(b)
  {
    if a == [] {
      assert a + b == b;
    } else {
      ConcatConcat(a[1..], b);
      assert (a + b)[1..] == a[1..] + b;
      Sequences.Regroup(a[0], Concat(a[1..]), Concat(b));
    }
  }

  lemma {:induction false} UnmixedConcat(a: seq<seq<Byte>>, b: seq<seq<Byte>>, x: seq<Link>, y: seq<Link>)
    requires |x| == |Concat(a)| && |y| == |Concat(b)|
    ensures |x + y| == |Concat(a + b)|
    ensures Unmixed(a + b, x + y) <==> Unmixed(a, x) && Unmixed(b, y)
  {
    ConcatConcat(a, b);
    if a == [] {
      assert a + b == b && x + y == y;
    } else {
      var n := |a[0]|;
      UnmixedConcat(a[1..], b, x[n..], y);
      assert (a + b)[1..] == a[1..] + b;
      assert (x + y)[..n] == x[..n] && (x + y)[n..] == x[n..] + y;
    }
  }

  lemma {:induction false} UniformIsUnmixed(parts: seq<seq<Byte>>, sources: seq<Link>)
    requires |sources| == |Concat(parts)| && AllSame(sources)
    ensures Unmixed(parts, sources)
  {
    if parts != [] {
      UniformIsUnmixed(parts[1..], sources[|parts[0]|..]);
    }
  }

  lemma PartsMakeUp(s: seq<Byte>)
    requires Sane(s)
    ensures Concat(Parts(s)) == s
  {
    SplitIsExact(s);
    ConcatAppend(Split(s).0, Split(s).1);
  }

  /** The first part of a stream that begins amid a packet goes beyond what had arrived of it. */
  lemma FirstPartGoesOn(r: seq<Byte>, data: seq<Byte>)
    requires IsPartial(r) && Sane(r + data) && data != []
    ensures |Parts(r + data)[0]| > |r|
  {
    if |r| >= LEN_SIZE {
      PrefixUint(r, data);
    }
  }

  /** More bytes leave every part unmixed exactly if what was left over was so and they come from the
      same link, or one of the two is nothing. */
  lemma MoreBytes(r: seq<Byte>, sources: seq<Link>, chunk: Chunk)
    requires IsPartial(r) && |sources| == |r| && Sane(r + chunk.data)
    ensures |Concat(Parts(r + chunk.data))| == |r| + |chunk.data|
    ensures Unmixed(Parts(r + chunk.data), sources + Copies(chunk.link, |chunk.data|)) <==>
            AllSame(sources) && (r == [] || chunk.data == [] || Last(sources) == Some(chunk.link))
  {
    var all := sources + Copies(chunk.link, |chunk.data|);
    var parts := Parts(r + chunk.data);
    PartsMakeUp(r + chunk.data);
    if chunk.data == [] {
      assert r + chunk.data == r && all == sources && parts == [r];
      assert all[..|r|] == all && parts[1..] == [];
    } else if AllSame(sources) && (r == [] || Last(sources) == Some(chunk.link)) {
      UniformIsUnmixed(parts, all);
    } else {
      FirstPartGoesOn(r, chunk.data);
      PartWithin(parts, |all|);
      BeginsMixed(sources, chunk.link, |chunk.data|, |parts[0]|);
    }
  }

  /** Beyond bytes of several links, or before a byte of another, there is more than one link. */
  lemma BeginsMixed(sources: seq<Link>, link: Link, more: nat, n: nat)
    requires |sources| < n <= |sources| + more
    requires !AllSame(sources) || (sources != [] && Last(sources) != Some(link))
    ensures !AllSame((sources + Copies(link, more))[..n])
  {
    var first := (sources + Copies(link, more))[..n];
    assert forall i :: 0 <= i < |sources| ==> first[i] == sources[i];
    assert first[|sources|] == Copies(link, more)[0] == link;
  }

  lemma PartWithin(parts: seq<seq<Byte>>, n: nat)
    requires parts != [] && |Concat(parts)| == n
    ensures |parts[0]| <= n
  {
  }

  lemma OnePart(r: seq<Byte>, sources: seq<Link>)
    requires |sources| == |r|
    ensures |Concat([r])| == |r| && (Unmixed([r], sources) <==> AllSame(sources))
  {
    ConcatOne(r);
    assert [r][1..] == [] && sources[..|r|] == sources && sources[|r|..] == [];
  }

  /** Cutting more bytes off cuts what was left over, and leaves the packets before alone. */
  lemma {:induction false} PartsConcat(s: seq<Byte>, data: seq<Byte>)
    requires Sane(s + data)
    ensures Sane(s) && IsPartial(Split(s).1) && Sane(Split(s).1 + data)
    ensures Parts(s + data) == Split(s).0 + Parts(Split(s).1 + data)
    ensures |Concat(Split(s).0)| + |Split(s).1| == |s|
  {
    SplitConcat(s, data);
    SplitIsExact(s);
    var cut := Split(Split(s).1 + data);
    assert Split(s).0 + cut.0 + [cut.1] == Split(s).0 + (cut.0 + [cut.1]);
  }

  lemma UnmixedStep(s: seq<Byte>, sources: seq<Link>, chunk: Chunk)
    requires Sane(s + chunk.data) && |sources| == |s|
    ensures Sane(s) && |Concat(Parts(s))| == |s| && |Concat(Parts(s + chunk.data))| == |s| + |chunk.data|
    ensures Unmixed(Parts(s + chunk.data), sources + Copies(chunk.link, |chunk.data|)) <==>
            && Unmixed(Parts(s), sources)
            && (Split(s).1 == [] || chunk.data == [] || Last(sources) == Some(chunk.link))
  {
    PartsConcat(s, chunk.data);
    PartsMakeUp(s);
    PartsMakeUp(s + chunk.data);
    var packets, r, copies := Split(s).0, Split(s).1, Copies(chunk.link, |chunk.data|);
    var a := |Concat(packets)|;
    var x, y := sources[..a], sources[a..];
    assert sources == x + y;
    OnePart(r, y);
    UnmixedConcat(packets, [r], x, y);
    MoreBytes(r, y, chunk);
    var parts := Parts(r + chunk.data);
    UnmixedConcat(packets, parts, x, y + copies);
    Sequences.Regroup(x, y, copies);
    assert r != [] ==> Last(y) == Last(sources);
  }

  /** The packets cut from the common stream, and what is left of it, are each made of bytes of one link
      exactly if another link is heard only while nothing is left over. */
  lemma {:induction false} UnmixedIff(chunks: seq<Chunk>)
    requires Sane(Stream(chunks))
    ensures |Concat(Parts(Stream(chunks)))| == |Sources(chunks)|
    ensures Unmixed(Parts(Stream(chunks)), Sources(chunks)) <==> SwitchesWhenEmpty(chunks)
  {
    PartsMakeUp(Stream(chunks));
    if chunks != [] {
      var n := |chunks| - 1;
      var before, chunk := chunks[..n], chunks[n];
      SaneBefore(chunks);
      UnmixedIff(before);
      UnmixedStep(Stream(before), Sources(before), chunk);
    } else {
      assert Parts([]) == [[]];
    }
  }

  // ---- What each link gets ----

  /** The packets that the chunks of one link complete. */
  function PacketsOf(chunks: seq<Chunk>, link: Link): seq<seq<Byte>>
    requires Sane(Stream(chunks))
  {
    if chunks == [] then []
    else
      var n := |chunks| - 1;
      SaneBefore(chunks);
      PacketsOf(chunks[..n], link) +
      if chunks[n].link == link then Split(Split(Stream(chunks[..n])).1 + chunks[n].data).0 else []
  }

  /** A chunk goes on with the bytes of its own link, if what is left of them is what is left at all. */
  lemma {:induction false} OwnChunk(own: seq<Byte>, s: seq<Byte>, data: seq<Byte>)
    requires Sane(own) && Sane(s + data) && Sane(s) && Split(own).1 == Split(s).1
    ensures Sane(Split(s).1 + data) && Sane(own + data)
    ensures Split(own + data) == (Split(own).0 + Split(Split(s).1 + data).0, Split(s + data).1)
  {
    SplitConcat(s, data);
    SaneConcat(own, data);
    SplitConcat(own, data);
  }

  /** An empty chunk changes nothing. */
  lemma EmptyChunk(s: seq<Byte>)
    requires Sane(s)
    ensures s + [] == s && Split(s).1 + [] == Split(s).1
    ensures Sane(Split(s).1) && Split(Split(s).1) == ([], Split(s).1)
  {
    SplitIsExact(s);
  }

  /** What the link has been given so far, and what is left of its bytes. */
  predicate Given(own: seq<Byte>, packets: seq<seq<Byte>>, left: seq<Byte>) {
    Sane(own) && Split(own) == (packets, left)
  }

  function LeftTo(chunks: seq<Chunk>, link: Link): seq<Byte>
    requires Sane(Stream(chunks))
  {
    if Last(Sources(chunks)) == Some(link) then Split(Stream(chunks)).1 else []
  }

  lemma GivenMore(chunks: seq<Chunk>, link: Link)
    requires chunks != [] && Sane(Stream(chunks)) && SwitchesWhenEmpty(chunks)
    requires var before := chunks[..|chunks| - 1];
             Sane(Stream(before)) && Given(OfLink(before, link), PacketsOf(before, link), LeftTo(before, link))
    ensures Given(OfLink(chunks, link), PacketsOf(chunks, link), LeftTo(chunks, link))
  {
    var n := |chunks| - 1;
    var before, chunk := chunks[..n], chunks[n];
    var s := Stream(before);
    LastAfter(chunks);
    assert PacketsOf(before, link) + [] == PacketsOf(before, link);
    if chunk.data == [] {
      EmptyChunk(s);
      EmptyChunk(OfLink(before, link));
    } else if chunk.link == link {
      OwnChunk(OfLink(before, link), s, chunk.data);
    }
  }

  /** If another link is heard only while nothing is left over, the packets that each link completes are
      exactly its own, in order: those of all its bytes, cut by themselves. */
  lemma {:induction false} LinkGetsItsPackets(chunks: seq<Chunk>, link: Link)
    requires Sane(Stream(chunks)) && SwitchesWhenEmpty(chunks)
    ensures Sane(OfLink(chunks, link)) && PacketsOf(chunks, link) == Split(OfLink(chunks, link)).0
    ensures Split(OfLink(chunks, link)).1 == LeftTo(chunks, link)
  {
    if chunks != [] {
      SaneBefore(chunks);
      LinkGetsItsPackets(chunks[..|chunks| - 1], link);
      GivenMore(chunks, link);
    }
  }

  lemma LastAfter(chunks: seq<Chunk>)
    requires chunks != []
    ensures var n := |chunks| - 1;
            Last(Sources(chunks)) ==
            if chunks[n].data == [] then Last(Sources(chunks[..n])) else Some(chunks[n].link)
  {
    var n := |chunks| - 1;
    var copies := Copies(chunks[n].link, |chunks[n].data|);
    if chunks[n].data == [] {
      assert Sources(chunks[..n]) + copies == Sources(chunks[..n]);
    }
  }

  // ---- A switch amid a packet ----

  lemma BeginsIfKept(r: seq<Byte>, c: seq<Byte>, d: seq<Byte>)
    requires Sane(r + d) && Split(r + d).0 != [] && Split(r + d).0[0] == r + c
    ensures c <= d
  {
    FirstIsFront(r + d);
    TailsFollow(r, c, d);
  }

  lemma KeptIfBegins(r: seq<Byte>, c: seq<Byte>, d: seq<Byte>)
    requires IsPacket(r + c) && c <= d && Sane(r + d)
    ensures Split(r + d).0 != [] && Split(r + d).0[0] == r + c
  {
    var more := d[|c|..];
    assert r + d == (r + c) + more;
    PacketComes(r + c, r + d, more);
  }

  /** A packet of which `r` has arrived and `c` is missing survives a chunk from elsewhere exactly if that
      chunk happens to begin with what is missing. */
  lemma {:induction false} SwitchKeepsPacketIff(r: seq<Byte>, c: seq<Byte>, d: seq<Byte>)
    requires IsPacket(r + c) && |c| <= |d| && Sane(r + d)
    ensures Split(r + d).0 != [] && Split(r + d).0[0] == r + c <==> c <= d
  {
    if c <= d {
      KeptIfBegins(r, c, d);
    } else if Split(r + d).0 != [] && Split(r + d).0[0] == r + c {
      BeginsIfKept(r, c, d);
      assert false;
    }
  }

  lemma TailsFollow(r: seq<Byte>, c: seq<Byte>, d: seq<Byte>)
    requires r + c <= r + d
    ensures c <= d
  {
    assert c == (r + c)[|r|..] && d == (r + d)[|r|..];
  }

  lemma PacketComes(p: seq<Byte>, s: seq<Byte>, more: seq<Byte>)
    requires IsPacket(p) && Sane(s) && s == p + more
    ensures Split(s).0 != [] && Split(s).0[0] == p
  {
    ConcatOne(p);
    SplitFront([p], more);
  }

  lemma FirstIsFront(s: seq<Byte>)
    requires Sane(s) && Split(s).0 != []
    ensures Split(s).0[0] <= s
  {
  }
}
