/** Whatever the reader accepts is a text of the grammar, so that the grammar is exactly its language. */
module JsonExactness {
  import opened Options
  import opened Sequences
  import opened JsonText
  import opened Json
  import opened JsonGrammar
  import opened JsonLanguage

  /** The text is that of a tree, with what may stand before it, in front of the rest. */
  predicate IsText(t: string, lead: Lead, tree: Tree, rest: string) {
    GoodLead(lead) && Good(tree, rest) && t == LeadText(lead, Text(tree, rest))
  }

  lemma {:induction false} BlankBefore(t: string) returns (blank: string)
    ensures Blank(blank) && t == blank + SkipSpace(t)
  {
    if t != "" && IsSpace(t[0]) {
      var more := BlankBefore(t[1..]);
      blank := [t[0]] + more;
      assert t == [t[0]] + t[1..];
      assert t[0] in " \n\r\t" by {
        assert " \n\r\t"[0] == ' ' && " \n\r\t"[1] == '\n' && " \n\r\t"[2] == '\r' && " \n\r\t"[3] == '\t';
      }
    } else {
      blank := "";
    }
  }

  lemma {:induction false} CommentBefore(t: string) returns (text: string)
    requires AfterComment(t).Some?
    ensures Endless(text) && t == text + ("*/" + AfterComment(t).value)
  {
    if StartsWith(t, "*/") {
      text := "";
      assert t == t[..2] + t[2..];
    } else {
      var more := CommentBefore(t[1..]);
      text := [t[0]] + more;
      EndlessMore(t, more);
    }
  }

  lemma EndlessMore(t: string, more: string)
    requires t != "" && !StartsWith(t, "*/") && Endless(more) && more + "*/" <= t[1..]
    ensures Endless([t[0]] + more)
  {
    var text := [t[0]] + more;
    assert text + "*/" == [t[0]] + (more + "*/");
    forall i: nat | i < |text|
      ensures !EndsAt(text + "*/", i)
    {
      if i > 0 {
        assert !EndsAt(more + "*/", i - 1);
      } else {
        assert (text + "*/")[1] == (more + "*/")[0] == t[1..][0];
        assert t[..2] == [t[0], t[1]];
      }
    }
  }

  // ---- Strings ----

  lemma {:induction false} DigitRunEnds(t: string, most: nat)
    ensures DigitRun(t, most) < most && DigitRun(t, most) < |t| ==> !IsDigit(t[DigitRun(t, most)])
  {
    if most > 0 && t != "" && IsDigit(t[0]) {
      DigitRunEnds(t[1..], most - 1);
    }
  }

  /** The text begins with this piece. */
  predicate BeginsWith(t: string, p: Piece, quote: char) {
    && GoodPiece(p, quote) && PieceText(p) <= t
    && var more := t[|PieceText(p)|..];
       Parted(p, more) && Unescape(t) == Prepend(StandsFor(p), Unescape(more))
  }

  lemma DecimalFirst(t: string, quote: char) returns (p: Piece)
    requires |t| > 1 && t[0] == '\\' && IsDigit(t[1]) && Unescape(t).Some?
    ensures BeginsWith(t, p, quote)
  {
    var n := DigitRun(t[1..], 3);
    DigitRunEnds(t[1..], 3);
    p := Decimal(t[1..n + 1]);
    assert t[1..n + 1] == t[1..][..n];
    assert t == PieceText(p) + t[n + 1..];
  }

  /** How many characters a line break after a backslash takes, with the backslash. */
  function BreakLength(t: string): nat
    requires |t| > 1
  {
    if |t| > 2 && IsNewline(t[2]) && t[2] != t[1] then 3 else 2
  }

  lemma BreakTaken(t: string)
    requires |t| > 1 && t[0] == '\\' && IsNewline(t[1])
    ensures Unescape(t) == Prepend('\n', Unescape(t[BreakLength(t)..]))
  {
  }

  lemma BreakText(t: string)
    requires |t| > 1 && t[0] == '\\' && IsNewline(t[1])
    ensures GoodPiece(Break(t[1..BreakLength(t)]), '"')
    ensures "\\" + t[1..BreakLength(t)] == t[..BreakLength(t)]
  {
    if BreakLength(t) == 3 {
      assert t[1..3] == [t[1], t[2]];
    } else {
      assert t[1..2] == [t[1]];
    }
  }

  lemma BreakFirst(t: string, quote: char) returns (p: Piece)
    requires |t| > 1 && t[0] == '\\' && IsNewline(t[1]) && Unescape(t).Some?
    ensures BeginsWith(t, p, quote)
  {
    var k := BreakLength(t);
    p := Break(t[1..k]);
    BreakText(t);
    BreakTaken(t);
    NoBreakNext(t[k..]);
  }

  lemma LetterFirst(t: string, quote: char) returns (p: Piece)
    requires |t| > 1 && t[0] == '\\' && !IsDigit(t[1]) && !IsNewline(t[1]) && Unescape(t).Some?
    ensures BeginsWith(t, p, quote)
  {
    p := Letter(t[1]);
    assert t == PieceText(p) + t[2..];
    NoBreakNext(t[2..]);
  }

  lemma RawFirst(t: string, quote: char) returns (p: Piece)
    requires t != "" && t[0] != '\\' && t[0] != quote && Unescape(t).Some?
    ensures BeginsWith(t, p, quote)
  {
    p := Raw(t[0]);
    assert t == PieceText(p) + t[1..];
    NoBreakNext(t[1..]);
  }

  lemma NoBreakNext(t: string)
    ensures Unescape(t).Some? ==> t == "" || !IsNewline(t[0])
  {
  }

  /** The first piece of the text between two quotes. */
  lemma FirstPiece(t: string, quote: char) returns (p: Piece)
    requires t != "" && t[0] != quote && Unescape(t).Some?
    ensures BeginsWith(t, p, quote)
  {
    if t[0] != '\\' {
      p := RawFirst(t, quote);
    } else if IsDigit(t[1]) {
      p := DecimalFirst(t, quote);
    } else if IsNewline(t[1]) {
      p := BreakFirst(t, quote);
    } else {
      p := LetterFirst(t, quote);
    }
  }

  lemma ScanGoesOn(p: Piece, more: string, quote: char, rest: string)
    requires IsQuote(quote) && GoodPiece(p, quote)
    requires ScanQuoted(PieceText(p) + more + ([quote] + rest), quote, false) == Some(|PieceText(p) + more|)
    ensures ScanQuoted(more + ([quote] + rest), quote, false) == Some(|more|)
  {
    Regroup(PieceText(p), more, [quote] + rest);
    PieceScanned(p, more + ([quote] + rest), quote);
  }

  lemma {:induction false} PiecesOf(t: string, quote: char, rest: string) returns (pieces: seq<Piece>)
    requires IsQuote(quote) && Unescape(t).Some?
    requires ScanQuoted(t + ([quote] + rest), quote, false) == Some(|t|)
    ensures GoodPieces(pieces, quote) && PiecesText(pieces) == t && StringOf(pieces) == Unescape(t).value
    decreases |t|
  {
    if t == "" {
      pieces := [];
    } else {
      assert (t + ([quote] + rest))[0] == t[0];
      var p := FirstPiece(t, quote);
      var more := t[|PieceText(p)|..];
      assert t == PieceText(p) + more;
      ScanGoesOn(p, more, quote, rest);
      var tail := PiecesOf(more, quote, rest);
      pieces := [p] + tail;
      JoinPieces(p, tail, quote);
      assert pieces[1..] == tail;
    }
  }

  lemma JoinPieces(p: Piece, tail: seq<Piece>, quote: char)
    requires GoodPiece(p, quote) && GoodPieces(tail, quote) && Parted(p, PiecesText(tail))
    ensures GoodPieces([p] + tail, quote)
  {
    var pieces := [p] + tail;
    if tail != [] {
      assert PiecesText(tail)[0] == PieceText(tail[0])[0];
      assert Apart(p, tail[0]);
    }
    forall i | 0 <= i < |pieces| - 1
      ensures Apart(pieces[i], pieces[i + 1])
    {
      if i > 0 {
        assert Apart(tail[i - 1], tail[i]);
      }
    }
  }

  lemma QuotedSplit(t: string, n: nat)
    requires n + 1 < |t| && t[n + 1] == t[0]
    ensures t[1..] == t[1..][..n] + ([t[0]] + t[n + 2..])
    ensures t == [t[0]] + (t[1..][..n] + ([t[0]] + t[n + 2..]))
  {
  }

  lemma QuotedOf(t: string) returns (quote: char, pieces: seq<Piece>)
    requires t != "" && IsQuote(t[0]) && ParseString(t).Found?
    ensures GoodQuoted(quote, pieces) && t == QuotedText(quote, pieces, ParseString(t).rest)
    ensures ParseString(t).value == Str(StringOf(pieces))
  {
    quote := t[0];
    var n := ScanQuoted(t[1..], quote, false).value;
    QuotedSplit(t, n);
    pieces := PiecesOf(t[1..][..n], quote, t[n + 2..]);
  }

  // ---- Numbers ----

  lemma {:induction false} ZerosAppend(k: nat)
    ensures Zeros(k) + "0" == Zeros(k + 1)
  {
    if k > 0 {
      ZerosAppend(k - 1);
      assert Zeros(k) + "0" == "0" + (Zeros(k - 1) + "0");
    }
  }

  lemma OneDigit(c: char)
    requires IsDigit(c)
    ensures AllDigits([c]) && Digits(c as int - '0' as int) == [c] && NumberOf([c]) == c as int - '0' as int
  {
    var d := c as int - '0' as int;
    assert 0 <= d < 10 && d % 10 == d && ('0' as int + d) as char == c;
    assert [c][..0] == "" && NumberOf("") == 0;
  }

  /** A digit at the end of a number without needless zeros, or of zeros. */
  lemma DigitAppended(zeros: nat, n: nat, c: char) returns (more: nat)
    requires IsDigit(c)
    ensures Zeros(zeros) + Digits(n) + [c] == Zeros(more) + Digits(10 * n + (c as int - '0' as int))
  {
    OneDigit(c);
    var d := c as int - '0' as int;
    if n == 0 {
      ZerosAppend(zeros);
      more := zeros + 1;
    } else {
      more := zeros;
      assert Digits(10 * n + d) == Digits(n) + [c];
      Regroup(Zeros(zeros), Digits(n), [c]);
    }
  }

  /** Any digits are zeros and then a number without needless ones. */
  lemma {:induction false} DigitsOf(s: string) returns (zeros: nat)
    requires s != "" && AllDigits(s)
    ensures s == Zeros(zeros) + Digits(NumberOf(s))
  {
    var n := |s| - 1;
    assert s == s[..n] + [s[n]];
    OneDigit(s[n]);
    if n == 0 {
      zeros := 0;
      assert s == [s[n]] && Zeros(0) + Digits(NumberOf(s)) == Digits(NumberOf(s));
    } else {
      zeros := DigitsOf(s[..n]);
      zeros := DigitAppended(zeros, NumberOf(s[..n]), s[n]);
    }
  }

  lemma NumberParts(text: string) returns (minus: bool, zeros: nat, n: Amount)
    requires WholeOf(text).Some?
    ensures text == NumberText(minus, zeros, n) && zeros + |Digits(n)| <= 14
    ensures WholeOf(text) == Some(Signed(minus, n))
  {
    minus := text != "" && text[0] == '-';
    var digits := if minus then text[1..] else text;
    zeros := DigitsOf(digits);
    var k: int := NumberOf(digits);
    n := k;
    assert minus ==> text == "-" + digits;
  }

  lemma {:induction false} NumericRunEnds(t: string)
    ensures NumericRun(t) < |t| ==> !IsNumeric(t[NumericRun(t)])
  {
    if t != "" && IsNumeric(t[0]) {
      NumericRunEnds(t[1..]);
    }
  }

  lemma NumericRunEnded(t: string)
    ensures t == t[..NumericRun(t)] + t[NumericRun(t)..] && Ended(t[NumericRun(t)..])
  {
    NumericRunEnds(t);
    if NumericRun(t) < |t| {
      NumericIs(t[NumericRun(t)]);
    }
  }

  lemma NumberOfText(t: string) returns (tree: Tree)
    requires t != "" && IsNumeric(t[0]) && ParseNumber(t).Found?
    ensures Good(tree, ParseNumber(t).rest) && t == Text(tree, ParseNumber(t).rest)
    ensures ParseNumber(t).value == ValueOf(tree)
  {
    var minus, zeros, k := NumberParts(t[..NumericRun(t)]);
    tree := Number(minus, zeros, k);
    NumericRunEnded(t);
  }

  lemma WordOfText(t: string) returns (tree: Tree)
    requires ParseConstant(t).Found?
    ensures Good(tree, ParseConstant(t).rest) && t == Text(tree, ParseConstant(t).rest)
    ensures ParseConstant(t).value == ValueOf(tree)
  {
    var b := if StartsWith(t, "true") then Some(true) else if StartsWith(t, "false") then Some(false) else None;
    tree := Word(b);
    assert t == t[..|WordText(b)|] + t[|WordText(b)|..];
  }

  // ---- Trees ----

  lemma ObjectIsText(u: string, members: seq<Member>, blank: string, rest: string)
    requires u != "" && u[0] == '{' && u[1..] == ObjectText(members, blank + ("}" + rest))
    requires Blank(blank) && GoodMembers(members, blank + ("}" + rest))
    ensures Good(Object(members, blank), rest) && u == Text(Object(members, blank), rest)
  {
    assert u == "{" + u[1..];
  }

  lemma ListIsText(u: string, items: seq<Item>, blank: string, rest: string)
    requires u != "" && u[0] == '[' && u[1..] == ListText(items, blank + ("]" + rest))
    requires Blank(blank) && GoodItems(items, blank + ("]" + rest))
    ensures Good(List(items, blank), rest) && u == Text(List(items, blank), rest)
  {
    assert u == "[" + u[1..];
  }

  /** What is read where a value begins. */
  lemma ParsedAs(u: string)
    requires u != "" && !IsSpace(u[0]) && !StartsWith(u, "/*")
    ensures Parse(u) == if u[0] == '{' then ParseFields(u[1..], [])
                        else if u[0] == '[' then ParseItems(u[1..], [])
                        else if IsNumeric(u[0]) then ParseNumber(u)
                        else if IsQuote(u[0]) then ParseString(u)
                        else ParseConstant(u)
  {
  }

  lemma {:induction false} BareOf(u: string) returns (tree: Tree)
    requires u != "" && !IsSpace(u[0]) && !StartsWith(u, "/*") && Parse(u).Found?
    ensures Good(tree, Parse(u).rest) && u == Text(tree, Parse(u).rest) && ValueOf(tree) == Parse(u).value
    decreases |u|, 0
  {
    ParsedAs(u);
    if u[0] == '{' {
      var members, end := ObjectOf(u[1..], []);
      tree := Object(members, end);
      ObjectIsText(u, members, end, Parse(u).rest);
    } else if u[0] == '[' {
      var items, end := ListOf(u[1..], []);
      tree := List(items, end);
      ListIsText(u, items, end, Parse(u).rest);
      assert [] + ItemsOf(items) == ItemsOf(items);
    } else if IsNumeric(u[0]) {
      tree := NumberOfText(u);
    } else if IsQuote(u[0]) {
      var quote, pieces := QuotedOf(u);
      tree := Quoted(quote, pieces);
    } else {
      tree := WordOfText(u);
    }
  }

  lemma CommentParsed(t: string)
    requires StartsWith(SkipSpace(t), "/*") && Parse(t).Found?
    ensures var after := AfterComment(SkipSpace(t)[2..]); after.Some? && Parse(t) == Parse(after.value)
  {
    assert SkipSpace(t)[..2][0] == '/';
  }

  /** What is read is a tree, after blanks and comments. */
  lemma {:induction false} TreeOf(t: string) returns (lead: Lead, tree: Tree)
    requires Parse(t).Found?
    ensures IsText(t, lead, tree, Parse(t).rest) && ValueOf(tree) == Parse(t).value
    decreases |t|, 1
  {
    var u := SkipSpace(t);
    var blank := BlankBefore(t);
    if StartsWith(u, "/*") {
      CommentParsed(t);
      var text := CommentBefore(u[2..]);
      var w := AfterComment(u[2..]).value;
      var more;
      more, tree := TreeOf(w);
      lead := LeadMore(u, blank, text, more, w);
    } else {
      ParseSkips(t);
      lead := Lead([], blank);
      tree := BareOf(u);
    }
  }

  lemma LeadMore(u: string, blank: string, text: string, more: Lead, w: string) returns (lead: Lead)
    requires StartsWith(u, "/*") && u[2..] == text + ("*/" + w) && Blank(blank) && Endless(text) && GoodLead(more)
    ensures GoodLead(lead)
    ensures forall rest :: w == LeadText(more, rest) ==> blank + u == LeadText(lead, rest)
  {
    lead := Lead([Comment(blank, text)] + more.comments, more.blank);
    assert lead.comments[1..] == more.comments;
    assert u == u[..2] + u[2..];
  }

  /** What is read as the rest of a list is made of items. */
  lemma {:induction false} ListOf(t: string, before: seq<Value>) returns (items: seq<Item>, blank: string)
    requires AllPure(before) && ParseItems(t, before).Found?
    ensures var p := ParseItems(t, before);
            && Blank(blank) && GoodItems(items, blank + ("]" + p.rest)) && t == ListText(items, blank + ("]" + p.rest))
            && p.value == Table(before + ItemsOf(items), [])
    decreases |t|, 3
  {
    var u := SkipSpace(t);
    var front := BlankBefore(t);
    if u[0] == ']' {
      items, blank := [], front;
      assert before + ItemsOf(items) == before;
    } else {
      var comma, lead, value, w := ItemOf(t, before);
      var tail;
      tail, blank := ListOf(w, Insert(before, ValueOf(value)));
      items := [Item(comma, lead, value)] + tail;
      assert items[1..] == tail;
      InsertThen(before, ValueOf(value), ItemsOf(tail));
    }
  }

  lemma {:induction false} ItemOf(t: string, before: seq<Value>)
    returns (comma: Option<string>, lead: Lead, value: Tree, w: string)
    requires AllPure(before) && ParseItems(t, before).Found? && SkipSpace(t)[0] != ']'
    ensures GoodComma(comma) && GoodLead(lead) && Good(value, w) && |w| < |t|
    ensures t == CommaText(comma, LeadText(lead, Text(value, w)))
    ensures AllPure(Insert(before, ValueOf(value)))
    ensures ParseItems(t, before) == ParseItems(w, Insert(before, ValueOf(value)))
    decreases |t|, 2
  {
    var u := SkipSpace(t);
    var front := BlankBefore(t);
    ItemBegins(t, before);
    PureInsert(before, Parse(SkipComma(u)).value);
    if u[0] == ',' {
      ParseSkips(u[1..]);
      comma := Some(front);
      lead, value := TreeOf(u[1..]);
      w := Parse(u[1..]).rest;
      assert u == "," + u[1..];
    } else {
      ParseSkips(t);
      comma := None;
      lead, value := TreeOf(t);
      w := Parse(t).rest;
    }
  }

  /** What is read as the rest of an object is made of members. */
  lemma {:induction false} ObjectOf(t: string, before: seq<Field>) returns (members: seq<Member>, blank: string)
    requires FieldsPure(before) && ParseFields(t, before).Found?
    ensures var p := ParseFields(t, before);
            && Blank(blank) && GoodMembers(members, blank + ("}" + p.rest))
            && t == ObjectText(members, blank + ("}" + p.rest))
            && p.value == Table([], FieldsOf(members, before))
    decreases |t|, 4
  {
    var u := SkipSpace(t);
    var front := BlankBefore(t);
    if u[0] == '}' {
      members, blank := [], front;
    } else {
      var m, w := MemberOf(t, before);
      var tail;
      tail, blank := ObjectOf(w, Put(before, StringOf(m.key), ValueOf(m.value)));
      members := [m] + tail;
      assert members[1..] == tail;
    }
  }

  lemma {:induction false} KeyOf(t: string) returns (comma: Option<string>, lead: Lead, quote: char, key: seq<Piece>)
    requires var u := SkipSpace(t); u != "" && SkipComma(u) != ""
    requires var p := Parse(SkipComma(SkipSpace(t))); p.Found? && p.value.Str?
    ensures var p := Parse(SkipComma(SkipSpace(t)));
            && GoodComma(comma) && GoodLead(lead) && GoodQuoted(quote, key) && p.value.s == StringOf(key)
            && t == CommaText(comma, LeadText(lead, QuotedText(quote, key, p.rest)))
    decreases |t|, 2
  {
    var u := SkipSpace(t);
    var front := BlankBefore(t);
    var tree: Tree;
    if u[0] == ',' {
      ParseSkips(u[1..]);
      comma := Some(front);
      lead, tree := TreeOf(u[1..]);
      assert u == "," + u[1..];
    } else {
      ParseSkips(t);
      comma := None;
      lead, tree := TreeOf(t);
    }
    quote, key := tree.quote, tree.pieces;
  }

  lemma {:induction false} AssignedOf(t: string) returns (colon: string, gap: Lead, value: Tree)
    requires ParseAssigned(t).Found?
    ensures var p := ParseAssigned(t);
            && Blank(colon) && GoodLead(gap) && Good(value, p.rest) && ValueOf(value) == p.value
            && t == AssignedText(colon, gap, Text(value, p.rest))
    decreases |t|, 2
  {
    var u := SkipSpace(t);
    colon := BlankBefore(t);
    ParseSkips(u[1..]);
    gap, value := TreeOf(u[1..]);
    assert u == ":" + u[1..];
  }

  lemma {:induction false} MemberOf(t: string, before: seq<Field>) returns (m: Member, w: string)
    requires FieldsPure(before) && ParseFields(t, before).Found? && SkipSpace(t)[0] != '}'
    ensures GoodComma(m.comma) && GoodLead(m.lead) && GoodQuoted(m.quote, m.key) && Blank(m.colon) && GoodLead(m.gap)
    ensures Good(m.value, w) && |w| < |t|
    ensures t == CommaText(m.comma, LeadText(m.lead, QuotedText(m.quote, m.key,
                   AssignedText(m.colon, m.gap, Text(m.value, w)))))
    ensures ParseFields(t, before) == ParseFields(w, Put(before, StringOf(m.key), ValueOf(m.value)))
    decreases |t|, 3
  {
    MemberBegins(t, before);
    var rest := Parse(SkipComma(SkipSpace(t))).rest;
    var comma, lead, quote, key := KeyOf(t);
    var colon, gap, value := AssignedOf(rest);
    w := ParseAssigned(rest).rest;
    m := Member(comma, lead, quote, key, colon, gap, value);
  }

  /** The reader accepts exactly the texts of the grammar: it reads a value up to some rest if and only if the
      text is that of a tree which stands for the value, in front of that rest. */
  lemma ReadsExactly(t: string, v: Value, rest: string)
    ensures Parse(t) == Found(v, rest) <==> exists lead, tree :: IsText(t, lead, tree, rest) && ValueOf(tree) == v
  {
    if Parse(t) == Found(v, rest) {
      var lead, tree := TreeOf(t);
      assert IsText(t, lead, tree, rest) && ValueOf(tree) == v;
    }
    forall lead, tree | IsText(t, lead, tree, rest)
      ensures Parse(t) == Found(ValueOf(tree), rest)
    {
      LeadSkipped(lead, Text(tree, rest));
      TreeRead(tree, rest);
    }
  }
}
