/** The reader accepts exactly the texts of the grammar, and reads each as what it stands for. */
module JsonLanguage {
  import opened Options
  import opened JsonText
  import opened Json
  import opened JsonGrammar

  // ---- Every tree is read as what it stands for ----

  lemma {:induction false} BlankSkipped(b: string, t: string)
    requires Blank(b)
    ensures SkipSpace(b + t) == SkipSpace(t)
  {
    if b == "" {
      assert b + t == t;
    } else {
      BlankSkipped(b[1..], t);
      assert (b + t)[1..] == b[1..] + t;
      assert b[0] in " \n\r\t";
    }
  }

  lemma {:induction false} CommentSkipped(text: string, rest: string)
    requires Endless(text)
    ensures AfterComment(text + ("*/" + rest)) == Some(rest)
  {
    var t := text + ("*/" + rest);
    if text == "" {
      assert t[..2] == "*/" && t[2..] == rest;
    } else {
      assert t[1..] == text[1..] + ("*/" + rest);
      assert !EndsAt(text + "*/", 0);
      assert t[0] == (text + "*/")[0] && t[1] == (text + "*/")[1];
      assert !StartsWith(t, "*/") by {
        assert t[..2][0] == t[0] && t[..2][1] == t[1];
      }
      EndlessTail(text);
      CommentSkipped(text[1..], rest);
    }
  }

  lemma EndlessTail(text: string)
    requires Endless(text) && text != ""
    ensures Endless(text[1..])
  {
    assert (text + "*/")[1..] == text[1..] + "*/";
    forall i: nat | i < |text| - 1
      ensures !EndsAt(text[1..] + "*/", i)
    {
      assert !EndsAt(text + "*/", i + 1);
    }
  }

  lemma SkippedTwice(t: string)
    ensures SkipSpace(SkipSpace(t)) == SkipSpace(t)
  {
  }

  lemma ParseAfterBlank(b: string, t: string)
    requires Blank(b)
    ensures Parse(b + t) == Parse(t)
  {
    BlankSkipped(b, t);
  }

  lemma ParseAfterComment(text: string, rest: string)
    requires Endless(text)
    ensures Parse("/*" + (text + ("*/" + rest))) == Parse(rest)
  {
    var t := "/*" + (text + ("*/" + rest));
    assert t[0] == '/' && t[..2] == "/*" && t[2..] == text + ("*/" + rest);
    CommentSkipped(text, rest);
  }

  /** Blanks and comments before a value do not matter. */
  lemma {:induction false} LeadSkipped(lead: Lead, rest: string)
    requires GoodLead(lead)
    ensures Parse(LeadText(lead, rest)) == Parse(rest)
    decreases |lead.comments|
  {
    if lead.comments == [] {
      ParseAfterBlank(lead.blank, rest);
    } else {
      var c, more := lead.comments[0], Lead(lead.comments[1..], lead.blank);
      LeadSkipped(more, rest);
      ParseAfterComment(c.text, LeadText(more, rest));
      ParseAfterBlank(c.blank, "/*" + (c.text + ("*/" + LeadText(more, rest))));
    }
  }

  /** What a value with its lead may begin with, once blanks are skipped. */
  predicate Opens(t: string) {
    var u := SkipSpace(t);
    u != "" && u[0] != ',' && u[0] != ']' && u[0] != '}' && u[0] != ':'
  }

  lemma LeadOpens(lead: Lead, rest: string)
    requires GoodLead(lead) && Opens(rest)
    ensures Opens(LeadText(lead, rest))
  {
    if lead.comments == [] {
      BlankSkipped(lead.blank, rest);
    } else {
      var c := lead.comments[0];
      var more := "/*" + (c.text + ("*/" + LeadText(Lead(lead.comments[1..], lead.blank), rest)));
      BlankSkipped(c.blank, more);
      assert more[0] == '/';
    }
  }

  lemma TextOpens(tree: Tree, rest: string)
    requires Good(tree, rest)
    ensures Opens(Text(tree, rest))
  {
    match tree
    case Word(b) => assert Text(tree, rest)[0] == WordText(b)[0];
    case Number(minus, zeros, n) =>
      NumberStarts(minus, zeros, n);
      assert Text(tree, rest)[0] == NumberText(minus, zeros, n)[0];
    case _ =>
  }

  lemma NumberStarts(minus: bool, zeros: nat, n: nat)
    ensures var t := NumberText(minus, zeros, n); t != "" && (t[0] == '-' || IsDigit(t[0])) && AllNumeric(t)
  {
    ZerosAreDigits(zeros);
    var digits := Zeros(zeros) + Digits(n);
    assert forall i :: 0 <= i < |digits| ==> IsDigit(digits[i]);
  }

  lemma {:induction false} ZerosAreDigits(k: nat)
    ensures AllDigits(Zeros(k))
  {
    if k > 0 {
      ZerosAreDigits(k - 1);
    }
  }

  lemma WordRead(b: Option<bool>, rest: string)
    ensures Parse(WordText(b) + rest) == Found(ValueOf(Word(b)), rest)
  {
    ConstantPrinted(WordText(b), rest);
  }

  // ---- Numbers ----

  lemma {:induction false} ZerosAddNothing(k: nat, digits: string)
    requires AllDigits(digits)
    ensures AllDigits(Zeros(k) + digits) && NumberOf(Zeros(k) + digits) == NumberOf(digits)
  {
    ZerosAreDigits(k);
    PlaceValue(Zeros(k), digits);
    ZerosAreNothing(k);
  }

  lemma {:induction false} ZerosAreNothing(k: nat)
    ensures AllDigits(Zeros(k)) && NumberOf(Zeros(k)) == 0
  {
    ZerosAreDigits(k);
    if k > 0 {
      ZerosAreNothing(k - 1);
      PlaceValue("0", Zeros(k - 1));
      assert NumberOf("0") == 0;
    }
  }

  lemma NumericIs(c: char)
    ensures IsNumeric(c) <==> c in "+-0123456789.e"
  {
    var all := "+-0123456789.e";
    assert all[0] == '+' && all[1] == '-' && all[2] == '0' && all[3] == '1' && all[4] == '2' && all[5] == '3';
    assert all[6] == '4' && all[7] == '5' && all[8] == '6' && all[9] == '7' && all[10] == '8' && all[11] == '9';
    assert all[12] == '.' && all[13] == 'e';
  }

  lemma NumberRead(minus: bool, zeros: nat, n: Amount, rest: string)
    requires Good(Number(minus, zeros, n), rest)
    ensures Parse(NumberText(minus, zeros, n) + rest) == Found(Num(Signed(minus, n)), rest)
  {
    var t := NumberText(minus, zeros, n);
    NumberStarts(minus, zeros, n);
    NumericRunOf(t, rest);
    WholeOfText(minus, zeros, n);
    assert (t + rest)[..|t|] == t && (t + rest)[|t|..] == rest && (t + rest)[0] == t[0];
  }

  lemma WholeOfText(minus: bool, zeros: nat, n: Amount)
    requires zeros + |Digits(n)| <= 14
    ensures WholeOf(NumberText(minus, zeros, n)) == Some(Signed(minus, n))
  {
    var digits := Zeros(zeros) + Digits(n);
    ZerosAddNothing(zeros, Digits(n));
    NumberOfDigits(n);
    if minus {
      assert NumberText(minus, zeros, n)[1..] == digits;
    } else {
      assert NumberText(minus, zeros, n) == digits && IsDigit(digits[0]);
    }
  }

  // ---- Strings ----

  lemma {:induction false} PlainScanned(a: string, t: string, quote: char)
    requires IsQuote(quote) && forall i :: 0 <= i < |a| ==> a[i] != quote && a[i] != '\\'
    ensures ScanQuoted(a + t, quote, false) == Shift(ScanQuoted(t, quote, false), |a|)
  {
    if a == "" {
      assert a + t == t;
    } else {
      PlainScanned(a[1..], t, quote);
      ScanChar(a[0], a[1..] + t, quote);
      assert a + t == [a[0]] + (a[1..] + t);
    }
  }

  /** The scan for the closing quote steps over a piece. */
  lemma PieceScanned(p: Piece, t: string, quote: char)
    requires IsQuote(quote) && GoodPiece(p, quote)
    ensures ScanQuoted(PieceText(p) + t, quote, false) == Shift(ScanQuoted(t, quote, false), |PieceText(p)|)
  {
    match p
    case Raw(c) => ScanChar(c, t, quote);
    case Letter(c) => ScanPair(c, t, quote);
    case Decimal(digits) => EscapeScanned(digits, t, quote);
    case Break(line) => EscapeScanned(line, t, quote);
  }

  lemma EscapeScanned(a: string, t: string, quote: char)
    requires IsQuote(quote) && a != "" && forall i :: 0 <= i < |a| ==> a[i] != quote && a[i] != '\\'
    ensures ScanQuoted("\\" + a + t, quote, false) == Shift(ScanQuoted(t, quote, false), 1 + |a|)
  {
    PlainScanned(a[1..], t, quote);
    ScanPair(a[0], a[1..] + t, quote);
    assert "\\" + a + t == ['\\', a[0]] + (a[1..] + t);
  }

  lemma GoodTail(pieces: seq<Piece>, quote: char)
    requires GoodPieces(pieces, quote) && pieces != []
    ensures GoodPiece(pieces[0], quote) && GoodPieces(pieces[1..], quote)
    ensures |pieces| > 1 ==> Apart(pieces[0], pieces[1])
  {
    var tail := pieces[1..];
    forall i | 0 <= i < |tail| - 1
      ensures Apart(tail[i], tail[i + 1])
    {
      assert Apart(pieces[i + 1], pieces[i + 2]);
    }
  }

  lemma {:induction false} PiecesScanned(pieces: seq<Piece>, quote: char, rest: string)
    requires IsQuote(quote) && GoodPieces(pieces, quote)
    ensures ScanQuoted(PiecesText(pieces) + ([quote] + rest), quote, false) == Some(|PiecesText(pieces)|)
  {
    var end := [quote] + rest;
    if pieces == [] {
      assert PiecesText(pieces) + end == end;
    } else {
      GoodTail(pieces, quote);
      PiecesScanned(pieces[1..], quote, rest);
      PieceScanned(pieces[0], PiecesText(pieces[1..]) + end, quote);
      assert PiecesText(pieces) + end == PieceText(pieces[0]) + (PiecesText(pieces[1..]) + end);
    }
  }

  lemma {:induction false} DigitRunIs(digits: string, t: string, most: nat)
    requires AllDigits(digits) && |digits| <= most && (|digits| == most || t == "" || !IsDigit(t[0]))
    ensures DigitRun(digits + t, most) == |digits|
  {
    if digits == "" {
      assert digits + t == t;
    } else {
      DigitRunIs(digits[1..], t, most - 1);
      assert (digits + t)[1..] == digits[1..] + t;
    }
  }

  /** What follows a piece does not go on with it. */
  predicate Parted(p: Piece, t: string) {
    t == "" || !(if p.Decimal? && |p.digits| < 3 then IsDigit(t[0]) else IsNewline(t[0]))
  }

  lemma DecimalUnescaped(digits: string, t: string, quote: char)
    requires GoodPiece(Decimal(digits), quote) && Parted(Decimal(digits), t)
    ensures Unescape("\\" + digits + t) == Prepend(StandsFor(Decimal(digits)), Unescape(t))
  {
    var u := "\\" + digits + t;
    assert u[0] == '\\' && u[1..] == digits + t && u[1] == digits[0];
    DigitRunIs(digits, t, 3);
    assert u[1..|digits| + 1] == digits && u[|digits| + 1..] == t;
  }

  lemma BreakUnescaped(line: string, t: string, quote: char)
    requires GoodPiece(Break(line), quote) && Parted(Break(line), t)
    ensures Unescape("\\" + line + t) == Prepend('\n', Unescape(t))
  {
    var u := "\\" + line + t;
    assert u[0] == '\\' && u[1] == line[0] && u[|line| + 1..] == t;
    if |line| == 2 {
      assert u[2] == line[1];
    } else if t != "" {
      assert u[2] == t[0];
    }
  }

  lemma PieceUnescaped(p: Piece, t: string, quote: char)
    requires GoodPiece(p, quote) && Parted(p, t)
    ensures Unescape(PieceText(p) + t) == Prepend(StandsFor(p), Unescape(t))
  {
    match p
    case Raw(c) => UnescapeChar(c, t);
    case Letter(c) => UnescapePair(c, t);
    case Decimal(digits) => DecimalUnescaped(digits, t, quote);
    case Break(line) => BreakUnescaped(line, t, quote);
  }

  lemma {:induction false} PiecesUnescaped(pieces: seq<Piece>, quote: char)
    requires GoodPieces(pieces, quote)
    ensures Unescape(PiecesText(pieces)) == Some(StringOf(pieces))
  {
    if pieces != [] {
      GoodTail(pieces, quote);
      PiecesUnescaped(pieces[1..], quote);
      if |pieces| > 1 {
        GoodTail(pieces[1..], quote);
        assert PiecesText(pieces[1..])[0] == PieceText(pieces[1])[0];
      }
      PieceUnescaped(pieces[0], PiecesText(pieces[1..]), quote);
    }
  }

  lemma QuotedParts(quote: char, inner: string, rest: string)
    ensures var t := [quote] + (inner + ([quote] + rest));
            && t[0] == quote && t[1..] == inner + ([quote] + rest)
            && t[1..][..|inner|] == inner && t[|inner| + 2..] == rest
  {
  }

  lemma QuotedParsed(t: string)
    requires t != "" && IsQuote(t[0])
    ensures Parse(t) == ParseString(t)
  {
  }

  lemma StringRead(quote: char, pieces: seq<Piece>, rest: string)
    requires GoodQuoted(quote, pieces)
    ensures Parse(QuotedText(quote, pieces, rest)) == Found(Str(StringOf(pieces)), rest)
  {
    PiecesScanned(pieces, quote, rest);
    PiecesUnescaped(pieces, quote);
    QuotedParts(quote, PiecesText(pieces), rest);
    QuotedParsed(QuotedText(quote, pieces, rest));
  }

  // ---- Tables ----

  lemma ParseSkips(t: string)
    ensures Parse(SkipSpace(t)) == Parse(t)
  {
    SkippedTwice(t);
  }

  /** Where an item or a key begins, with or without a comma before it. */
  lemma ItemBegins(t: string, before: seq<Value>)
    requires var u := SkipSpace(t); u != "" && u[0] != ']' && SkipComma(u) != ""
    requires AllPure(before)
    ensures ParseItems(t, before) == ItemsAfter(Parse(SkipComma(SkipSpace(t))), before)
  {
  }

  lemma MemberBegins(t: string, before: seq<Field>)
    requires var u := SkipSpace(t); u != "" && u[0] != '}' && SkipComma(u) != ""
    requires FieldsPure(before)
    ensures ParseFields(t, before) == FieldFrom(SkipComma(SkipSpace(t)), before)
  {
  }

  lemma CommaSkipped(comma: Option<string>, t: string)
    requires GoodComma(comma) && Opens(t)
    ensures var u := SkipSpace(CommaText(comma, t));
            u != "" && u[0] != ']' && u[0] != '}' && SkipComma(u) == SkipSpace(t)
  {
    if comma.Some? {
      BlankSkipped(comma.value, "," + t);
      assert ("," + t)[0] == ',' && ("," + t)[1..] == t;
    }
  }

  lemma ItemAfterComma(comma: Option<string>, t: string, before: seq<Value>)
    requires GoodComma(comma) && Opens(t) && AllPure(before)
    ensures ParseItems(CommaText(comma, t), before) == ItemsAfter(Parse(t), before)
  {
    CommaSkipped(comma, t);
    ItemBegins(CommaText(comma, t), before);
    ParseSkips(t);
  }

  lemma MemberAfterComma(comma: Option<string>, t: string, before: seq<Field>)
    requires GoodComma(comma) && Opens(t) && FieldsPure(before)
    ensures ParseFields(CommaText(comma, t), before) == FieldFrom(t, before)
  {
    CommaSkipped(comma, t);
    MemberBegins(CommaText(comma, t), before);
    ParseSkips(t);
  }

  lemma ValueAfterColon(blank: string, t: string)
    requires Blank(blank) && Opens(t)
    ensures ParseAssigned(blank + (":" + t)) == Parse(t)
  {
    SkippedTwice(t);
    BlankSkipped(blank, ":" + t);
    assert (":" + t)[0] == ':' && (":" + t)[1..] == t;
  }

  /** An item after blanks, an optional comma, and more blanks and comments. */
  lemma ItemRead(comma: Option<string>, lead: Lead, w: string, before: seq<Value>)
    requires GoodComma(comma) && GoodLead(lead) && Opens(w) && AllPure(before)
    ensures ParseItems(CommaText(comma, LeadText(lead, w)), before) == ItemsAfter(Parse(w), before)
  {
    LeadSkipped(lead, w);
    LeadOpens(lead, w);
    ItemAfterComma(comma, LeadText(lead, w), before);
  }

  lemma MemberRead(comma: Option<string>, lead: Lead, w: string, before: seq<Field>)
    requires GoodComma(comma) && GoodLead(lead) && Opens(w) && FieldsPure(before)
    ensures ParseFields(CommaText(comma, LeadText(lead, w)), before) == FieldFrom(w, before)
  {
    LeadSkipped(lead, w);
    LeadOpens(lead, w);
    MemberAfterComma(comma, LeadText(lead, w), before);
  }

  lemma AssignedRead(colon: string, gap: Lead, w: string)
    requires Blank(colon) && GoodLead(gap) && Opens(w)
    ensures ParseAssigned(AssignedText(colon, gap, w)) == Parse(w)
  {
    LeadSkipped(gap, w);
    LeadOpens(gap, w);
    ValueAfterColon(colon, LeadText(gap, w));
  }

  lemma ListClosed(blank: string, rest: string, items: seq<Value>)
    requires Blank(blank) && AllPure(items)
    ensures ParseItems(blank + ("]" + rest), items) == Found(Table(items, []), rest)
  {
    BlankSkipped(blank, "]" + rest);
    assert ("]" + rest)[0] == ']' && ("]" + rest)[1..] == rest;
  }

  lemma ObjectClosed(blank: string, rest: string, fields: seq<Field>)
    requires Blank(blank) && FieldsPure(fields)
    ensures ParseFields(blank + ("}" + rest), fields) == Found(Table([], fields), rest)
  {
    BlankSkipped(blank, "}" + rest);
    assert ("}" + rest)[0] == '}' && ("}" + rest)[1..] == rest;
  }

  lemma QuotedOpens(quote: char, pieces: seq<Piece>, rest: string)
    requires GoodQuoted(quote, pieces)
    ensures Opens(QuotedText(quote, pieces, rest))
  {
    assert QuotedText(quote, pieces, rest)[0] == quote;
  }

  /** Every text of the grammar is read as what it stands for, up to what follows it. */
  lemma {:induction false} TreeRead(tree: Tree, rest: string)
    requires Good(tree, rest)
    ensures Parse(Text(tree, rest)) == Found(ValueOf(tree), rest)
    decreases tree
  {
    match tree
    case Word(b) => WordRead(b, rest);
    case Number(minus, zeros, n) => NumberRead(minus, zeros, n, rest);
    case Quoted(quote, pieces) => StringRead(quote, pieces, rest);
    case List(items, blank) =>
      ItemsRead(items, blank, rest, []);
      Opened('[', ListText(items, blank + ("]" + rest)));
      assert [] + ItemsOf(items) == ItemsOf(items);
    case Object(members, blank) =>
      MembersRead(members, blank, rest, []);
      Opened('{', ObjectText(members, blank + ("}" + rest)));
  }

  lemma Opened(bracket: char, t: string)
    requires bracket == '[' || bracket == '{'
    ensures Parse([bracket] + t) == if bracket == '[' then ParseItems(t, []) else ParseFields(t, [])
  {
    assert ([bracket] + t)[0] == bracket && ([bracket] + t)[1..] == t;
  }

  lemma InsertThen(before: seq<Value>, x: Value, tail: seq<Value>)
    ensures Insert(before, x) + tail == before + ((if x == Nil then [] else [x]) + tail)
  {
  }

  lemma PureInsert(before: seq<Value>, x: Value)
    requires AllPure(before) && Pure(x)
    ensures AllPure(Insert(before, x))
  {
  }

  lemma {:induction false} ItemsRead(items: seq<Item>, blank: string, rest: string, before: seq<Value>)
    requires GoodItems(items, blank + ("]" + rest)) && Blank(blank) && AllPure(before)
    ensures AllPure(before + ItemsOf(items))
    ensures ParseItems(ListText(items, blank + ("]" + rest)), before) ==
            Found(Table(before + ItemsOf(items), []), rest)
    decreases items
  {
    if items == [] {
      ListClosed(blank, rest, before);
      assert before + ItemsOf(items) == before;
    } else {
      var item, more := items[0], ListText(items[1..], blank + ("]" + rest));
      assert item.value < item;
      TreeRead(item.value, more);
      TextOpens(item.value, more);
      ItemRead(item.comma, item.lead, Text(item.value, more), before);
      InsertThen(before, ValueOf(item.value), ItemsOf(items[1..]));
      PureInsert(before, ValueOf(item.value));
      ItemsRead(items[1..], blank, rest, Insert(before, ValueOf(item.value)));
    }
  }

  lemma {:induction false} MembersRead(members: seq<Member>, blank: string, rest: string, before: seq<Field>)
    requires GoodMembers(members, blank + ("}" + rest)) && Blank(blank) && FieldsPure(before)
    ensures ParseFields(ObjectText(members, blank + ("}" + rest)), before) ==
            Found(Table([], FieldsOf(members, before)), rest)
    decreases members
  {
    if members == [] {
      ObjectClosed(blank, rest, before);
    } else {
      var m, more := members[0], ObjectText(members[1..], blank + ("}" + rest));
      assert m.value < m;
      TreeRead(m.value, more);
      TextOpens(m.value, more);
      AssignedRead(m.colon, m.gap, Text(m.value, more));
      var value := AssignedText(m.colon, m.gap, Text(m.value, more));
      StringRead(m.quote, m.key, value);
      QuotedOpens(m.quote, m.key, value);
      MemberRead(m.comma, m.lead, QuotedText(m.quote, m.key, value), before);
      MembersRead(members[1..], blank, rest, Put(before, StringOf(m.key), ValueOf(m.value)));
    }
  }
}
