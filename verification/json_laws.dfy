/** What users of the reader rely on: how a text is laid out does not matter, and of members with the same key
    the last one counts. */
module JsonLaws {
  import opened Options
  import opened JsonText
  import opened Json
  import opened JsonGrammar
  import opened JsonLanguage

  // ---- Layout ----

  const NO_LEAD := Lead([], "")

  function BareComma(comma: Option<string>): Option<string> {
    if comma.Some? then Some("") else None
  }

  /** The same tokens without blanks and comments. */
  function Bare(tree: Tree): Tree
    decreases tree
  {
    match tree
    case List(items, _) => List(BareItems(items), "")
    case Object(members, _) => Object(BareMembers(members), "")
    case _ => tree
  }

  function BareItems(items: seq<Item>): seq<Item>
    decreases items
  {
    if items == [] then []
    else
      var item := items[0];
      assert item.value < item;
      [Item(BareComma(item.comma), NO_LEAD, Bare(item.value))] + BareItems(items[1..])
  }

  function BareMembers(members: seq<Member>): seq<Member>
    decreases members
  {
    if members == [] then []
    else
      var m := members[0];
      assert m.value < m;
      [Member(BareComma(m.comma), NO_LEAD, m.quote, m.key, "", NO_LEAD, Bare(m.value))] + BareMembers(members[1..])
  }

  /** Blanks and comments stand for nothing. */
  lemma {:induction false} BareStandsForSame(tree: Tree)
    ensures ValueOf(Bare(tree)) == ValueOf(tree)
    decreases tree
  {
    match tree
    case List(items, _) => BareItemsSame(items);
    case Object(members, _) => BareMembersSame(members, []);
    case _ =>
  }

  lemma {:induction false} BareItemsSame(items: seq<Item>)
    ensures ItemsOf(BareItems(items)) == ItemsOf(items)
    decreases items
  {
    if items != [] {
      var item := items[0];
      assert item.value < item;
      BareStandsForSame(item.value);
      BareItemsSame(items[1..]);
      assert BareItems(items)[1..] == BareItems(items[1..]);
    }
  }

  lemma {:induction false} BareMembersSame(members: seq<Member>, before: seq<Field>)
    requires FieldsPure(before)
    ensures FieldsOf(BareMembers(members), before) == FieldsOf(members, before)
    decreases members
  {
    if members != [] {
      var m := members[0];
      assert m.value < m;
      BareStandsForSame(m.value);
      BareMembersSame(members[1..], Put(before, StringOf(m.key), ValueOf(m.value)));
      assert BareMembers(members)[1..] == BareMembers(members[1..]);
    }
  }

  /** A printed value with blanks of any kind between its tokens, and with comments before values and keys, is
      read as the value printed. */
  lemma LayoutDoesNotMatter(v: Value, lead: Lead, tree: Tree, rest: string)
    requires Solid(v) && Pure(v) && NoReturn(v)
    requires GoodLead(lead) && Good(tree, rest) && Good(Bare(tree), "") && Text(Bare(tree), "") == Encode(v)
    ensures Parse(LeadText(lead, Text(tree, rest))) == Found(Normal(v), rest)
  {
    LeadSkipped(lead, Text(tree, rest));
    TreeRead(tree, rest);
    BareStandsForSame(tree);
    TreeRead(Bare(tree), "");
    ParsePrinted(v, "");
    assert Encode(v) + "" == Encode(v);
  }

  /** The pieces of a printed string, one for each character: quotes of both kinds, backslashes, line feeds and
      tabs are never printed as they are, and only they are escaped. */
  lemma {:induction false} PrintedPieces(s: string) returns (pieces: seq<Piece>)
    requires '\r' !in s
    ensures GoodPieces(pieces, '"') && PiecesText(pieces) == Escaped(s) && |pieces| == |s|
    ensures forall i :: 0 <= i < |s| ==> if s[i] in "\\\"\'\n\t" then pieces[i].Letter? else pieces[i] == Raw(s[i])
  {
    if s == "" {
      pieces := [];
    } else {
      var tail := PrintedPieces(s[1..]);
      var e := EscapeChar(s[0]);
      EscapePair(s[0]);
      pieces := [if |e| == 2 then Letter(e[1]) else Raw(s[0])] + tail;
      assert pieces[1..] == tail;
      assert s[0] in s;
    }
  }

  /** A value is printed as a tree without blanks and comments. */
  lemma {:induction false} PrintedTree(v: Value, rest: string) returns (tree: Tree)
    requires Solid(v) && Pure(v) && NoReturn(v) && Ended(rest)
    ensures Bare(tree) == tree && Good(tree, rest) && Text(tree, rest) == Encode(v) + rest
    decreases v
  {
    match v
    case Nil => tree := Word(None);
    case Bool(b) => tree := Word(Some(b));
    case Num(n) => tree := PrintedNumber(n, rest);
    case Str(s) =>
      var pieces := PrintedPieces(s);
      tree := Quoted('"', pieces);
      EncodeStringEscapes(s);
      QuotedJoin(Escaped(s), rest);
    case Table(items, fields) =>
      if IsArray(items, fields) {
        var list := PrintedItems(items, "", "]" + rest);
        tree := List(list, "");
        ListPrinted(items, fields, list, rest);
      } else {
        var members := PrintedMembers(fields, "", "}" + rest);
        tree := Object(members, "");
        ObjectPrinted(fields, members, rest);
      }
  }

  lemma ListPrinted(items: seq<Value>, fields: seq<Field>, list: seq<Item>, rest: string)
    requires IsArray(items, fields) && ListText(list, "]" + rest) == EncodeItems(items, "") + ("]" + rest)
    requires BareItems(list) == list && GoodItems(list, "]" + rest)
    ensures Bare(List(list, "")) == List(list, "") && Good(List(list, ""), rest)
    ensures Text(List(list, ""), rest) == Encode(Table(items, fields)) + rest
  {
    BracketJoin("[", EncodeItems(items, ""), "]", rest);
  }

  lemma ObjectPrinted(fields: seq<Field>, members: seq<Member>, rest: string)
    requires !IsArray([], fields) && ObjectText(members, "}" + rest) == EncodeFields(fields, "") + ("}" + rest)
    requires BareMembers(members) == members && GoodMembers(members, "}" + rest)
    ensures Bare(Object(members, "")) == Object(members, "") && Good(Object(members, ""), rest)
    ensures Text(Object(members, ""), rest) == Encode(Table([], fields)) + rest
  {
    assert EncodeNumbered([], 1) == "";
    BracketJoin("{", EncodeFields(fields, ""), "}", rest);
  }

  lemma QuotedJoin(inner: string, rest: string)
    ensures ['"'] + (inner + (['"'] + rest)) == "\"" + inner + "\"" + rest
  {
  }

  lemma BracketJoin(open: string, inner: string, close: string, rest: string)
    ensures open + inner + close + rest == open + (inner + (close + rest))
    ensures "" + (close + rest) == close + rest
    ensures open + "" + inner + close == open + inner + close
  {
  }

  lemma PrintedNumber(n: Whole, rest: string) returns (tree: Tree)
    requires Ended(rest)
    ensures Bare(tree) == tree && Good(tree, rest) && Text(tree, rest) == PrintInt(n) + rest
  {
    var k: int := if n < 0 then -n else n;
    tree := Number(n < 0, 0, k);
    FourteenDigits();
    DigitsFit(k, 14);
    assert Zeros(0) + Digits(k) == Digits(k);
    assert "" + Digits(k) == Digits(k);
  }

  lemma ItemJoin(lead: string, value: string, more: string, rest: string)
    ensures lead + value + more + rest == lead + (value + (more + rest))
  {
  }

  lemma {:induction false} PrintedItems(items: seq<Value>, lead: string, rest: string) returns (list: seq<Item>)
    requires ProperItems(items) && ItemsNoReturn(items) && (lead == "" || lead == ",") && rest != "" && Ended(rest)
    ensures BareItems(list) == list && GoodItems(list, rest) && ListText(list, rest) == EncodeItems(items, lead) + rest
    decreases items
  {
    if items == [] {
      list := [];
    } else {
      var more := EncodeItems(items[1..], ",") + rest;
      var tail := PrintedItems(items[1..], ",", rest);
      var value := PrintedTree(items[0], more);
      list := [Item(if lead == "" then None else Some(""), NO_LEAD, value)] + tail;
      assert list[1..] == tail;
      ItemJoin(lead, Encode(items[0]), EncodeItems(items[1..], ","), rest);
      LeadingComma(lead, Encode(items[0]) + more);
    }
  }

  lemma LeadingComma(lead: string, t: string)
    requires lead == "" || lead == ","
    ensures CommaText(if lead == "" then None else Some(""), LeadText(NO_LEAD, t)) == lead + t
  {
    assert "" + t == t && "" + ("," + t) == "," + t;
  }

  lemma {:induction false} PrintedMembers(fields: seq<Field>, lead: string, rest: string) returns (members: seq<Member>)
    requires ProperFields(fields) && FieldsNoReturn(fields) && (lead == "" || lead == ",") && rest != "" && Ended(rest)
    ensures BareMembers(members) == members && GoodMembers(members, rest)
    ensures ObjectText(members, rest) == EncodeFields(fields, lead) + rest
    decreases fields
  {
    if fields == [] {
      members := [];
    } else {
      var f, more := fields[0], EncodeFields(fields[1..], ",") + rest;
      var tail := PrintedMembers(fields[1..], ",", rest);
      var value := PrintedTree(f.value, more);
      var key := PrintedPieces(f.key);
      var m := Member(if lead == "" then None else Some(""), NO_LEAD, '"', key, "", NO_LEAD, value);
      members := [m] + tail;
      JoinMember(m, tail, rest);
      EncodeStringEscapes(f.key);
      MemberText(lead, f, key, EncodeFields(fields[1..], ","), rest);
    }
  }

  lemma JoinMember(m: Member, tail: seq<Member>, rest: string)
    requires BareComma(m.comma) == m.comma && m.lead == m.gap == NO_LEAD && m.colon == "" && Bare(m.value) == m.value
    requires GoodComma(m.comma) && GoodQuoted(m.quote, m.key) && Good(m.value, ObjectText(tail, rest))
    requires BareMembers(tail) == tail && GoodMembers(tail, rest)
    ensures BareMembers([m] + tail) == [m] + tail && GoodMembers([m] + tail, rest)
    ensures ObjectText([m] + tail, rest) == CommaText(m.comma, LeadText(NO_LEAD, QuotedText(m.quote, m.key,
              AssignedText("", NO_LEAD, Text(m.value, ObjectText(tail, rest))))))
  {
    assert ([m] + tail)[1..] == tail;
  }

  /** How a printed member reads as a text of the grammar. */
  lemma MemberText(lead: string, f: Field, key: seq<Piece>, tail: string, rest: string)
    requires (lead == "" || lead == ",") && PiecesText(key) == EncodeString(f.key)
    ensures CommaText(if lead == "" then None else Some(""), LeadText(NO_LEAD, QuotedText('"', key,
              AssignedText("", NO_LEAD, Encode(f.value) + (tail + rest))))) ==
            lead + EncodeKey(f.key) + Encode(f.value) + tail + rest
  {
    KeyJoin(f.key, Encode(f.value) + (tail + rest));
    LeadingComma(lead, EncodeKey(f.key) + (Encode(f.value) + (tail + rest)));
    MemberJoin(lead, EncodeKey(f.key), Encode(f.value), tail, rest);
  }

  lemma KeyJoin(key: string, value: string)
    ensures ['"'] + (EncodeString(key) + (['"'] + AssignedText("", NO_LEAD, value))) == EncodeKey(key) + value
  {
    assert "" + value == value && "" + (":" + value) == ":" + value;
  }

  lemma MemberJoin(lead: string, key: string, value: string, more: string, rest: string)
    ensures lead + key + value + more + rest == lead + (key + (value + (more + rest)))
  {
  }

  /** A comment is not accepted where no value or key can follow, as before a closing bracket. */
  lemma NoCommentBeforeBracket(lead: Lead, rest: string)
    requires GoodLead(lead)
    ensures Parse("[" + LeadText(lead, "]" + rest)) ==
            if lead.comments == [] then Found(Table([], []), rest) else Malformed
  {
    var t := LeadText(lead, "]" + rest);
    Opened('[', t);
    if lead.comments == [] {
      ListClosed(lead.blank, rest, []);
    } else {
      CommentOpens(lead, "]" + rest);
      LeadSkipped(lead, "]" + rest);
      ItemAfterComma(None, t, []);
      BracketIsNoValue(rest);
    }
  }

  lemma CommentOpens(lead: Lead, rest: string)
    requires GoodLead(lead) && lead.comments != []
    ensures Opens(LeadText(lead, rest))
  {
    var c := lead.comments[0];
    var more := "/*" + (c.text + ("*/" + LeadText(Lead(lead.comments[1..], lead.blank), rest)));
    BlankSkipped(c.blank, more);
    assert more[0] == '/';
  }

  lemma BracketIsNoValue(rest: string)
    ensures Parse("]" + rest) == Malformed
  {
    var t := "]" + rest;
    assert t[0] == ']';
    assert !StartsWith(t, "/*") && !StartsWith(t, "true") && !StartsWith(t, "false") && !StartsWith(t, "null") by {
      assert forall k :: 1 <= k <= |t| ==> t[..k][0] == ']';
    }
  }

  // ---- Members with the same key ----

  function FieldOf(fields: seq<Field>, key: string): Option<Value> {
    if fields == [] then None else if fields[0].key == key then Some(fields[0].value) else FieldOf(fields[1..], key)
  }

  /** A null is no field. */
  function Kept(x: Value): Option<Value> {
    if x == Nil then None else Some(x)
  }

  lemma {:induction false} KeyIsField(fields: seq<Field>, key: string)
    ensures FieldOf(fields, key) == None <==> forall i :: 0 <= i < |fields| ==> fields[i].key != key
  {
    if fields != [] {
      KeyIsField(fields[1..], key);
      assert forall i :: 1 <= i < |fields| ==> fields[i] == fields[1..][i - 1];
    }
  }

  lemma DistinctTail(fields: seq<Field>)
    requires Distinct(fields) && fields != []
    ensures Distinct(fields[1..]) && FieldOf(fields[1..], fields[0].key) == None
  {
    KeyIsField(fields[1..], fields[0].key);
  }

  lemma DistinctJoin(f: Field, fields: seq<Field>)
    requires Distinct(fields) && FieldOf(fields, f.key) == None
    ensures Distinct([f] + fields)
  {
    KeyIsField(fields, f.key);
  }

  lemma FirstField(f: Field, tail: seq<Field>, key: string)
    ensures FieldOf([f] + tail, key) == if f.key == key then Some(f.value) else FieldOf(tail, key)
  {
    assert ([f] + tail)[1..] == tail;
  }

  lemma {:induction false} PutIs(fields: seq<Field>, key: string, x: Value, other: string)
    requires FieldsPure(fields) && Pure(x) && Distinct(fields)
    ensures Distinct(Put(fields, key, x))
    ensures FieldOf(Put(fields, key, x), other) == if other == key then Kept(x) else FieldOf(fields, other)
  {
    if fields != [] {
      var f, tail := fields[0], fields[1..];
      DistinctTail(fields);
      if f.key == key {
        if x == Nil {
          assert [] + tail == tail;
        } else {
          DistinctJoin(Field(key, x), tail);
          FirstField(Field(key, x), tail, other);
        }
      } else {
        PutIs(tail, key, x, other);
        PutIs(tail, key, x, f.key);
        DistinctJoin(f, Put(tail, key, x));
        FirstField(f, Put(tail, key, x), other);
      }
    }
  }

  lemma {:induction false} FieldsThen(a: seq<Member>, b: seq<Member>, before: seq<Field>)
    requires FieldsPure(before)
    ensures FieldsOf(a + b, before) == FieldsOf(b, FieldsOf(a, before))
  {
    if a == [] {
      assert a + b == b;
    } else {
      FieldsThen(a[1..], b, Put(before, StringOf(a[0].key), ValueOf(a[0].value)));
      assert (a + b)[1..] == a[1..] + b;
    }
  }

  lemma {:induction false} FieldsDistinct(members: seq<Member>, before: seq<Field>)
    requires FieldsPure(before) && Distinct(before)
    ensures Distinct(FieldsOf(members, before))
  {
    if members != [] {
      var m := members[0];
      PutIs(before, StringOf(m.key), ValueOf(m.value), "");
      FieldsDistinct(members[1..], Put(before, StringOf(m.key), ValueOf(m.value)));
    }
  }

  lemma {:induction false} OtherKeysKept(members: seq<Member>, before: seq<Field>, key: string)
    requires FieldsPure(before) && Distinct(before)
    requires forall i :: 0 <= i < |members| ==> StringOf(members[i].key) != key
    ensures FieldOf(FieldsOf(members, before), key) == FieldOf(before, key)
  {
    if members != [] {
      var m := members[0];
      PutIs(before, StringOf(m.key), ValueOf(m.value), key);
      OtherKeysKept(members[1..], Put(before, StringOf(m.key), ValueOf(m.value)), key);
    }
  }

  lemma OneMemberMore(m: Member, back: seq<Member>, before: seq<Field>)
    requires FieldsPure(before)
    ensures FieldsOf([m] + back, before) == FieldsOf(back, Put(before, StringOf(m.key), ValueOf(m.value)))
  {
    assert ([m] + back)[1..] == back;
  }

  /** Of the members with a key the last one counts; if it is null, the object has no such field. */
  lemma LastMemberWins(front: seq<Member>, m: Member, back: seq<Member>)
    requires forall j :: 0 <= j < |back| ==> StringOf(back[j].key) != StringOf(m.key)
    ensures Distinct(FieldsOf(front + ([m] + back), []))
    ensures FieldOf(FieldsOf(front + ([m] + back), []), StringOf(m.key)) == Kept(ValueOf(m.value))
  {
    FieldsThen(front, [m] + back, []);
    FieldsDistinct(front, []);
    FieldsDistinct(front + ([m] + back), []);
    LastPut(m, back, FieldsOf(front, []));
  }

  lemma LastPut(m: Member, back: seq<Member>, before: seq<Field>)
    requires FieldsPure(before) && Distinct(before)
    requires forall j :: 0 <= j < |back| ==> StringOf(back[j].key) != StringOf(m.key)
    ensures FieldOf(FieldsOf([m] + back, before), StringOf(m.key)) == Kept(ValueOf(m.value))
  {
    OneMemberMore(m, back, before);
    PutIs(before, StringOf(m.key), ValueOf(m.value), StringOf(m.key));
    OtherKeysKept(back, Put(before, StringOf(m.key), ValueOf(m.value)), StringOf(m.key));
  }
}
