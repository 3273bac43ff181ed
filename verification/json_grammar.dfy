/** What the reader accepts, as a grammar: trees that keep every character of a text, and what each stands for.
    Nothing here is defined by how the text is read. */
module JsonGrammar {
  import opened Options
  import opened JsonText
  import opened Json

  // ---- Blanks and comments ----

  predicate Blank(s: string) {
    forall i :: 0 <= i < |s| ==> s[i] in " \n\r\t"
  }

  datatype Comment = Comment(blank: string, text: string)

  /** What may stand before a value or a key. */
  datatype Lead = Lead(comments: seq<Comment>, blank: string)

  predicate EndsAt(t: string, i: nat) {
    i + 2 <= |t| && t[i] == '*' && t[i + 1] == '/'
  }

  /** A comment does not hold its own end. */
  predicate Endless(text: string) {
    forall i: nat :: i < |text| ==> !EndsAt(text + "*/", i)
  }

  predicate GoodLead(lead: Lead) {
    && Blank(lead.blank)
    && forall i :: 0 <= i < |lead.comments| ==> Blank(lead.comments[i].blank) && Endless(lead.comments[i].text)
  }

  /** Texts are written in front of what follows them. */
  function LeadText(lead: Lead, rest: string): string
    decreases |lead.comments|
  {
    if lead.comments == [] then lead.blank + rest
    else
      var c := lead.comments[0];
      c.blank + ("/*" + (c.text + ("*/" + LeadText(Lead(lead.comments[1..], lead.blank), rest))))
  }

  // ---- Strings ----

  /** A character as it is, a backslash before a character, a decimal code, or a line break after a
      backslash. */
  datatype Piece = Raw(c: char) | Letter(c: char) | Decimal(digits: string) | Break(line: string)

  const ESCAPES: map<char, char> := map[
    'a' := 7 as char, 'b' := 8 as char, 't' := 9 as char, 'n' := 10 as char, 'v' := 11 as char, 'f' := 12 as char,
    'r' := 13 as char]

  function PieceText(p: Piece): (t: string) {
    match p
    case Raw(c) => [c]
    case Letter(c) => ['\\', c]
    case Decimal(digits) => "\\" + digits
    case Break(line) => "\\" + line
  }

  predicate GoodPiece(p: Piece, quote: char) {
    match p
    case Raw(c) => c != '\\' && c != quote && c != '\n' && c != '\r'
    case Letter(c) => !('0' <= c <= '9') && c != '\n' && c != '\r'
    case Decimal(digits) => 1 <= |digits| <= 3 && AllDigits(digits) && NumberOf(digits) <= 255
    case Break(line) => line == "\n" || line == "\r" || line == "\n\r" || line == "\r\n"
  }

  /** A decimal code takes up to three digits. */
  predicate Apart(p: Piece, next: Piece) {
    p.Decimal? && |p.digits| < 3 && next.Raw? ==> !('0' <= next.c <= '9')
  }

  predicate GoodPieces(pieces: seq<Piece>, quote: char) {
    && (forall i :: 0 <= i < |pieces| ==> GoodPiece(pieces[i], quote))
    && forall i :: 0 <= i < |pieces| - 1 ==> Apart(pieces[i], pieces[i + 1])
  }

  function PiecesText(pieces: seq<Piece>): string {
    if pieces == [] then "" else PieceText(pieces[0]) + PiecesText(pieces[1..])
  }

  function StandsFor(p: Piece): char {
    match p
    case Raw(c) => c
    case Letter(c) => if c in ESCAPES then ESCAPES[c] else c
    case Decimal(digits) => if AllDigits(digits) && NumberOf(digits) <= 255 then NumberOf(digits) as char else ' '
    case Break(_) => '\n'
  }

  function StringOf(pieces: seq<Piece>): string {
    if pieces == [] then "" else [StandsFor(pieces[0])] + StringOf(pieces[1..])
  }

  // ---- Values ----

  type Amount = n: int | 0 <= n < LIMIT

  /** An item or member may have a comma before it, after blanks. */
  datatype Tree =
    | Word(b: Option<bool>)
    | Number(minus: bool, zeros: nat, n: Amount)
    | Quoted(quote: char, pieces: seq<Piece>)
    | List(items: seq<Item>, blank: string)
    | Object(members: seq<Member>, blank: string)

  datatype Item = Item(comma: Option<string>, lead: Lead, value: Tree)

  datatype Member = Member(comma: Option<string>, lead: Lead, quote: char, key: seq<Piece>, colon: string, gap: Lead,
                           value: Tree)

  function WordText(b: Option<bool>): string {
    match b
    case None => "null"
    case Some(b) => if b then "true" else "false"
  }

  function Zeros(k: nat): (s: string)
    ensures |s| == k
  {
    if k == 0 then "" else "0" + Zeros(k - 1)
  }

  function NumberText(minus: bool, zeros: nat, n: nat): string {
    (if minus then "-" else "") + (Zeros(zeros) + Digits(n))
  }

  function CommaText(comma: Option<string>, rest: string): string {
    match comma
    case None => rest
    case Some(blank) => blank + ("," + rest)
  }

  function QuotedText(quote: char, pieces: seq<Piece>, rest: string): string {
    [quote] + (PiecesText(pieces) + ([quote] + rest))
  }

  function Text(tree: Tree, rest: string): string
    decreases tree
  {
    match tree
    case Word(b) => WordText(b) + rest
    case Number(minus, zeros, n) => NumberText(minus, zeros, n) + rest
    case Quoted(quote, pieces) => QuotedText(quote, pieces, rest)
    case List(items, blank) => "[" + ListText(items, blank + ("]" + rest))
    case Object(members, blank) => "{" + ObjectText(members, blank + ("}" + rest))
  }

  function ListText(items: seq<Item>, rest: string): string
    decreases items
  {
    if items == [] then rest
    else
      var item := items[0];
      assert item.value < item;
      CommaText(item.comma, LeadText(item.lead, Text(item.value, ListText(items[1..], rest))))
  }

  function ObjectText(members: seq<Member>, rest: string): string
    decreases members
  {
    if members == [] then rest
    else
      var m := members[0];
      CommaText(m.comma, LeadText(m.lead, QuotedText(m.quote, m.key, AssignedText(m.colon, m.gap,
        Text(m.value, ObjectText(members[1..], rest))))))
  }

  /** A colon, with what may stand before and after it. */
  function AssignedText(colon: string, gap: Lead, rest: string): string {
    colon + (":" + LeadText(gap, rest))
  }

  predicate GoodComma(comma: Option<string>) {
    comma.Some? ==> Blank(comma.value)
  }

  predicate GoodQuoted(quote: char, pieces: seq<Piece>) {
    (quote == '"' || quote == '\'') && GoodPieces(pieces, quote)
  }

  /** A number ends where no character follows that could go on it. */
  predicate Ended(rest: string) {
    rest == "" || rest[0] !in "+-0123456789.e"
  }

  /** The tree is proper in front of this text. */
  predicate Good(tree: Tree, rest: string)
    decreases tree
  {
    match tree
    case Word(_) => true
    case Number(_, zeros, n) => zeros + |Digits(n)| <= 14 && Ended(rest)
    case Quoted(quote, pieces) => GoodQuoted(quote, pieces)
    case List(items, blank) => Blank(blank) && GoodItems(items, blank + ("]" + rest))
    case Object(members, blank) => Blank(blank) && GoodMembers(members, blank + ("}" + rest))
  }

  predicate GoodItems(items: seq<Item>, rest: string)
    decreases items
  {
    items == [] ||
    var item := items[0];
    assert item.value < item;
    && GoodComma(item.comma) && GoodLead(item.lead)
    && Good(item.value, ListText(items[1..], rest)) && GoodItems(items[1..], rest)
  }

  predicate GoodMembers(members: seq<Member>, rest: string)
    decreases members
  {
    members == [] ||
    var m := members[0];
    && GoodComma(m.comma) && GoodLead(m.lead) && GoodQuoted(m.quote, m.key) && Blank(m.colon) && GoodLead(m.gap)
    && Good(m.value, ObjectText(members[1..], rest)) && GoodMembers(members[1..], rest)
  }

  // ---- What the trees stand for ----

  function ValueOf(tree: Tree): (v: Value)
    ensures Pure(v)
    decreases tree
  {
    match tree
    case Word(b) => if b.Some? then Bool(b.value) else Nil
    case Number(minus, _, n) => Num(Signed(minus, n))
    case Quoted(_, pieces) => Str(StringOf(pieces))
    case List(items, _) => Table(ItemsOf(items), [])
    case Object(members, _) => Table([], FieldsOf(members, []))
  }

  function Signed(minus: bool, n: Amount): Whole {
    var k: int := n;
    if minus then -k else k
  }

  /** Nulls are left out of a list. */
  function ItemsOf(items: seq<Item>): (r: seq<Value>)
    ensures AllPure(r)
    decreases items
  {
    if items == [] then []
    else
      var item := items[0];
      assert item.value < item;
      (if ValueOf(item.value) == Nil then [] else [ValueOf(item.value)]) + ItemsOf(items[1..])
  }

  function FieldsOf(members: seq<Member>, before: seq<Field>): (r: seq<Field>)
    requires FieldsPure(before)
    ensures FieldsPure(r)
    decreases members
  {
    if members == [] then before
    else
      var m := members[0];
      FieldsOf(members[1..], Put(before, StringOf(m.key), ValueOf(m.value)))
  }
}
