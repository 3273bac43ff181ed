/** Values, their JSON text, and reading them back. */
module Json {
  import opened Options
  import opened Sequences
  import opened JsonText

  datatype Field = Field(key: string, value: Value)

  /** A table has a list part and named fields; these stand in the order in which the table yields
      them, which may be any. */
  datatype Value =
    | Nil
    | Bool(b: bool)
    | Num(n: Whole)
    | Str(s: string)
    | Table(items: seq<Value>, fields: seq<Field>)

  // ---- Printing ----

  /** A table is taken for an array if it has no fields, or none but an `n` that is its length. */
  predicate IsArray(items: seq<Value>, fields: seq<Field>) {
    forall i :: 0 <= i < |fields| ==> fields[i].key == "n" && fields[i].value.Num? && fields[i].value.n == |items|
  }

  function Encode(v: Value): string {
    match v
    case Nil => "null"
    case Bool(b) => if b then "true" else "false"
    case Num(n) => PrintInt(n)
    case Str(s) => "\"" + EncodeString(s) + "\""
    case Table(items, fields) =>
      if IsArray(items, fields) then "[" + EncodeItems(items, "") + "]"
      else "{" + EncodeNumbered(items, 1) + EncodeFields(fields, if items == [] then "" else ",") + "}"
  }

  /** The items with commas between them; `lead` is what comes before the first. */
  function EncodeItems(items: seq<Value>, lead: string): string {
    if items == [] then "" else lead + Encode(items[0]) + EncodeItems(items[1..], ",")
  }

  function EncodeFields(fields: seq<Field>, lead: string): string {
    if fields == [] then ""
    else lead + EncodeKey(fields[0].key) + Encode(fields[0].value) + EncodeFields(fields[1..], ",")
  }

  function EncodeKey(key: string): string {
    "\"" + EncodeString(key) + "\":"
  }

  /** The list part of a table that is not an array: its indexes become keys. */
  function EncodeNumbered(items: seq<Value>, index: nat): string
    decreases items
  {
    if items == [] then ""
    else
      var lead := if index == 1 then "" else ",";
      lead + EncodeKey(PrintInt(index)) + Encode(items[0]) + EncodeNumbered(items[1..], index + 1)
  }

  // ---- Reading ----

  datatype Parsed = Found(value: Value, rest: string) | Malformed

  predicate IsSpace(c: char) {
    c == ' ' || c == '\n' || c == '\r' || c == '\t'
  }

  predicate IsNumeric(c: char) {
    IsDigit(c) || c == '+' || c == '-' || c == '.' || c == 'e'
  }

  function SkipSpace(t: string): (u: string)
    ensures |u| <= |t| && (u != "" ==> !IsSpace(u[0]))
  {
    if t != "" && IsSpace(t[0]) then SkipSpace(t[1..]) else t
  }

  /** How many characters of a number the text begins with. */
  function NumericRun(t: string): (n: nat)
    ensures n <= |t|
  {
    if t == "" || !IsNumeric(t[0]) then 0 else 1 + NumericRun(t[1..])
  }

  function ParseNumber(t: string): Parsed {
    var n := NumericRun(t);
    match WholeOf(t[..n])
    case None => Malformed
    case Some(k) => Found(Num(k), t[n..])
  }

  function ParseString(t: string): Parsed
    requires t != "" && IsQuote(t[0])
  {
    match ScanQuoted(t[1..], t[0], false)
    case None => Malformed
    case Some(n) =>
      match Unescape(t[1..][..n])
      case None => Malformed
      case Some(s) => Found(Str(s), t[n + 2..])
  }

  predicate StartsWith(t: string, word: string) {
    |word| <= |t| && t[..|word|] == word
  }

  function ParseConstant(t: string): Parsed {
    if StartsWith(t, "true") then Found(Bool(true), t[4..])
    else if StartsWith(t, "false") then Found(Bool(false), t[5..])
    else if StartsWith(t, "null") then Found(Nil, t[4..])
    else Malformed
  }

  /** The text after the first end of a comment. */
  function AfterComment(t: string): (u: Option<string>)
    ensures u.Some? ==> |u.value| < |t|
  {
    if t == "" then None else if StartsWith(t, "*/") then Some(t[2..]) else AfterComment(t[1..])
  }

  /** Reads a value; what is read is never a table with both a list part and fields. */
  function Parse(t: string): (p: Parsed)
    ensures p.Found? ==> |p.rest| < |t| && Pure(p.value)
    decreases |t|, 0
  {
    var u := SkipSpace(t);
    if u == "" then Malformed
    else if u[0] == '{' then ParseFields(u[1..], [])
    else if u[0] == '[' then ParseItems(u[1..], [])
    else if IsNumeric(u[0]) then ParseNumber(u)
    else if IsQuote(u[0]) then ParseString(u)
    else if StartsWith(u, "/*") then
      match AfterComment(u[2..])
      case None => Malformed
      case Some(w) => Parse(w)
    else ParseConstant(u)
  }

  /** The rest of a list after `items`.  A null adds nothing to it. */
  function ParseItems(t: string, items: seq<Value>): (p: Parsed)
    requires AllPure(items)
    ensures p.Found? ==> |p.rest| < |t| && Pure(p.value)
    decreases |t|, 1
  {
    var u := SkipSpace(t);
    if u == "" then Malformed
    else if u[0] == ']' then Found(Table(items, []), u[1..])
    else
      var v := SkipComma(u);
      if v == "" then Malformed
      else
        match Parse(v)
        case Malformed => Malformed
        case Found(x, w) => ParseItems(w, Insert(items, x))
  }

  function SkipComma(u: string): (v: string)
    requires u != ""
    ensures |v| <= |u|
  {
    if u[0] == ',' then SkipSpace(u[1..]) else u
  }

  function Insert(items: seq<Value>, x: Value): seq<Value> {
    if x == Nil then items else items + [x]
  }

  /** The rest of an object after `fields`.  Keys have to be strings. */
  function ParseFields(t: string, fields: seq<Field>): (p: Parsed)
    requires FieldsPure(fields)
    ensures p.Found? ==> |p.rest| < |t| && Pure(p.value)
    decreases |t|, 1
  {
    var u := SkipSpace(t);
    if u == "" then Malformed
    else if u[0] == '}' then Found(Table([], fields), u[1..])
    else
      var v := SkipComma(u);
      if v == "" then Malformed
      else
        match Parse(v)
        case Malformed => Malformed
        case Found(key, w) =>
          if !key.Str? then Malformed
          else
            match ParseAssigned(w)
            case Malformed => Malformed
            case Found(x, w') => ParseFields(w', Put(fields, key.s, x))
  }

  /** A colon and the value of a field. */
  function ParseAssigned(t: string): (p: Parsed)
    ensures p.Found? ==> |p.rest| < |t| && Pure(p.value)
    decreases |t|, 0
  {
    var u := SkipSpace(t);
    if u == "" || u[0] != ':' then Malformed
    else
      var v := SkipSpace(u[1..]);
      if v == "" then Malformed else Parse(v)
  }

  function Put(fields: seq<Field>, key: string, x: Value): (r: seq<Field>)
    requires Pure(x) && FieldsPure(fields)
    ensures FieldsPure(r)
  {
    if fields == [] then if x == Nil then [] else [Field(key, x)]
    else if fields[0].key == key then (if x == Nil then [] else [Field(key, x)]) + fields[1..]
    else [fields[0]] + Put(fields[1..], key, x)
  }

  // ---- Which values come back ----

  /** No table has both a list part and fields. */
  predicate Pure(v: Value) {
    v.Table? ==>
      && (v.items == [] || v.fields == [])
      && (forall i :: 0 <= i < |v.items| ==> Pure(v.items[i]))
      && (forall i :: 0 <= i < |v.fields| ==> Pure(v.fields[i].value))
  }

  predicate AllPure(items: seq<Value>) {
    forall i :: 0 <= i < |items| ==> Pure(items[i])
  }

  predicate FieldsPure(fields: seq<Field>) {
    forall i :: 0 <= i < |fields| ==> Pure(fields[i].value)
  }

  predicate Distinct(fields: seq<Field>) {
    forall i, j :: 0 <= i < j < |fields| ==> fields[i].key != fields[j].key
  }

  /** Nothing in a table is nil, and no two fields of a table have the same key. */
  predicate Solid(v: Value) {
    v.Table? ==>
      && (forall i :: 0 <= i < |v.items| ==> Solid(v.items[i]) && v.items[i] != Nil)
      && (forall i :: 0 <= i < |v.fields| ==> Solid(v.fields[i].value) && v.fields[i].value != Nil)
      && Distinct(v.fields)
  }

  /** No string or key holds a raw carriage return. */
  predicate NoReturn(v: Value) {
    match v
    case Str(s) => '\r' !in s
    case Table(items, fields) => ItemsNoReturn(items) && FieldsNoReturn(fields)
    case _ => true
  }

  predicate ItemsNoReturn(items: seq<Value>) {
    items == [] || (NoReturn(items[0]) && ItemsNoReturn(items[1..]))
  }

  predicate FieldsNoReturn(fields: seq<Field>) {
    fields == [] || ('\r' !in fields[0].key && NoReturn(fields[0].value) && FieldsNoReturn(fields[1..]))
  }

  /** What a pure value becomes when it is printed and read back: a table whose only field is an `n`
      of 0 loses it. */
  function Normal(v: Value): Value {
    match v
    case Table(items, fields) =>
      if IsArray(items, fields) then Table(NormalItems(items), []) else Table([], NormalFields(fields))
    case _ => v
  }

  function NormalItems(items: seq<Value>): seq<Value> {
    if items == [] then [] else [Normal(items[0])] + NormalItems(items[1..])
  }

  function NormalFields(fields: seq<Field>): seq<Field> {
    if fields == [] then [] else [Field(fields[0].key, Normal(fields[0].value))] + NormalFields(fields[1..])
  }

  /** What comes back unchanged. */
  predicate Printable(v: Value) {
    Pure(v) && NoReturn(v) && NoLoneLength(v)
  }

  /** No table's only field is an `n` of 0. */
  predicate NoLoneLength(v: Value) {
    v.Table? ==>
      && (IsArray(v.items, v.fields) ==> v.fields == [])
      && (forall i :: 0 <= i < |v.items| ==> NoLoneLength(v.items[i]))
      && (forall i :: 0 <= i < |v.fields| ==> NoLoneLength(v.fields[i].value))
  }

  // ---- Scalars ----

  /** What a printed value may begin with. */
  predicate IsStarter(c: char) {
    !IsSpace(c) && c != ',' && c != ']' && c != '}' && c != ':' && c != '/'
  }

  /** What may follow a number. */
  predicate Delimited(t: string) {
    t == "" || !IsNumeric(t[0])
  }

  lemma EncodeStarts(v: Value)
    ensures Encode(v) != "" && IsStarter(Encode(v)[0])
  {
    if v.Num? && v.n >= 0 {
      assert IsDigit(Digits(v.n)[0]);
    }
  }

  predicate AllNumeric(a: string) {
    forall i :: 0 <= i < |a| ==> IsNumeric(a[i])
  }

  lemma {:induction false} NumericRunOf(a: string, t: string)
    requires Delimited(t) && AllNumeric(a)
    ensures NumericRun(a + t) == |a|
  {
    if a == "" {
      assert a + t == t;
    } else {
      NumericRunOf(a[1..], t);
      assert (a + t)[1..] == a[1..] + t;
    }
  }

  lemma NumberIsNumeric(n: int)
    ensures PrintInt(n) != "" && AllNumeric(PrintInt(n))
  {
    var digits := Digits(if n < 0 then -n else n);
    assert forall i :: 0 <= i < |digits| ==> IsDigit(digits[i]);
  }

  lemma NumberParsed(n: Whole, rest: string)
    requires Delimited(rest)
    ensures ParseNumber(PrintInt(n) + rest) == Found(Num(n), rest)
  {
    var a := PrintInt(n);
    NumberIsNumeric(n);
    NumericRunOf(a, rest);
    WholeOfPrinted(n);
    assert (a + rest)[..|a|] == a && (a + rest)[|a|..] == rest;
  }

  /** A printed integer is read to its end. */
  lemma NumberPrinted(n: Whole, rest: string)
    requires Delimited(rest)
    ensures Parse(PrintInt(n) + rest) == Found(Num(n), rest)
  {
    NumberIsNumeric(n);
    NumberParsed(n, rest);
    assert (PrintInt(n) + rest)[0] == PrintInt(n)[0];
  }

  /** A printed string is read to its end, whatever follows, unless it holds a carriage return. */
  lemma StringPrinted(s: string, rest: string)
    ensures Parse("\"" + EncodeString(s) + "\"" + rest) == if '\r' in s then Malformed else Found(Str(s), rest)
  {
    EncodeStringEscapes(s);
    ScanStopsAtEnd(s, rest);
    UnescapeEscaped(s);
    var e := Escaped(s);
    var t := "\"" + EncodeString(s) + "\"" + rest;
    assert t == "\"" + (e + "\"" + rest) && t[0] == '"' && t[1..] == e + "\"" + rest;
    assert t[1..][..|e|] == e && t[|e| + 2..] == rest;
  }

  lemma ConstantPrinted(word: string, rest: string)
    requires word == "true" || word == "false" || word == "null"
    ensures var v := if word == "true" then Bool(true) else if word == "false" then Bool(false) else Nil;
            Parse(word + rest) == Found(v, rest)
  {
    var t := word + rest;
    assert t[0] == word[0] && t[..|word|] == word && t[|word|..] == rest;
    assert !StartsWith(t, "/*");
    if word != "true" {
      assert t[..4] != "true" by { assert t[..4][0] != 't'; }
    }
    if word == "null" && |t| >= 5 {
      assert t[..5] != "false" by { assert t[..5][0] != 'f'; }
    }
  }

  // ---- Tables ----

  /** What becomes of a list once an item has been read. */
  function ItemsAfter(p: Parsed, items: seq<Value>): Parsed
    requires AllPure(items) && (p.Found? ==> Pure(p.value))
  {
    match p
    case Malformed => Malformed
    case Found(x, w) => ParseItems(w, Insert(items, x))
  }

  function FieldsAfter(p: Parsed, fields: seq<Field>, key: string): Parsed
    requires FieldsPure(fields) && (p.Found? ==> Pure(p.value))
  {
    match p
    case Malformed => Malformed
    case Found(x, w) => ParseFields(w, Put(fields, key, x))
  }

  lemma ReadItem(lead: string, v: Value, more: string, items: seq<Value>)
    requires lead == "" || lead == ","
    requires AllPure(items)
    ensures ParseItems(lead + Encode(v) + more, items) ==
            ItemsAfter(Parse(Encode(v) + more), items)
  {
    EncodeStarts(v);
    var t, u := lead + Encode(v) + more, Encode(v) + more;
    assert u[0] == Encode(v)[0];
    if lead == "" {
      assert t == u;
    } else {
      assert t[0] == ',' && t[1..] == u;
    }
  }

  lemma ItemsEnd(rest: string, items: seq<Value>)
    requires AllPure(items)
    ensures ParseItems("]" + rest, items) == Found(Table(items, []), rest)
  {
    assert ("]" + rest)[0] == ']' && ("]" + rest)[1..] == rest;
  }

  lemma ReadKey(key: string, value: string)
    ensures Parse(EncodeKey(key) + value) == if '\r' in key then Malformed else Found(Str(key), ":" + value)
  {
    assert EncodeKey(key) + value == "\"" + EncodeString(key) + "\"" + (":" + value);
    StringPrinted(key, ":" + value);
  }

  /** A value after its colon. */
  lemma ReadAssigned(value: string)
    requires value != "" && !IsSpace(value[0])
    ensures ParseAssigned(":" + value) == Parse(value)
  {
    assert (":" + value)[0] == ':' && (":" + value)[1..] == value;
  }

  /** After an optional comma comes a key. */
  lemma ReadLead(lead: string, u: string, fields: seq<Field>)
    requires (lead == "" || lead == ",") && u != "" && IsStarter(u[0]) && FieldsPure(fields)
    ensures ParseFields(lead + u, fields) == FieldFrom(u, fields)
  {
    if lead == "" {
      assert lead + u == u;
    } else {
      assert (lead + u)[0] == ',' && (lead + u)[1..] == u;
    }
  }

  function FieldFrom(u: string, fields: seq<Field>): Parsed
    requires FieldsPure(fields)
  {
    var key := Parse(u);
    if key.Found? && key.value.Str? then FieldsAfter(ParseAssigned(key.rest), fields, key.value.s) else Malformed
  }

  lemma ReadField(lead: string, f: Field, more: string, fields: seq<Field>)
    requires (lead == "" || lead == ",") && FieldsPure(fields)
    ensures ParseFields(lead + EncodeKey(f.key) + Encode(f.value) + more, fields) ==
            if '\r' in f.key then Malformed else FieldsAfter(Parse(Encode(f.value) + more), fields, f.key)
  {
    var value := Encode(f.value) + more;
    EncodeStarts(f.value);
    assert value[0] == Encode(f.value)[0];
    var u := EncodeKey(f.key) + value;
    assert lead + EncodeKey(f.key) + Encode(f.value) + more == lead + u && u[0] == '"';
    ReadLead(lead, u, fields);
    ReadKey(f.key, value);
    ReadAssigned(value);
  }

  lemma FieldsEnd(rest: string, fields: seq<Field>)
    requires FieldsPure(fields)
    ensures ParseFields("}" + rest, fields) == Found(Table([], fields), rest)
  {
    assert ("}" + rest)[0] == '}' && ("}" + rest)[1..] == rest;
  }

  predicate ProperItems(items: seq<Value>) {
    forall i :: 0 <= i < |items| ==> Solid(items[i]) && Pure(items[i]) && items[i] != Nil
  }

  predicate ProperFields(fields: seq<Field>) {
    forall i :: 0 <= i < |fields| ==> Solid(fields[i].value) && Pure(fields[i].value) && fields[i].value != Nil
  }

  /** Reading what was printed: everything comes back in its normal form, with the position left
      just after it; a carriage return anywhere makes the text unreadable. */
  lemma {:induction false} ParsePrinted(v: Value, rest: string)
    requires Solid(v) && Pure(v) && Delimited(rest)
    ensures Pure(Normal(v))
    ensures Parse(Encode(v) + rest) == if NoReturn(v) then Found(Normal(v), rest) else Malformed
    decreases v
  {
    match v
    case Nil => ConstantPrinted("null", rest);
    case Bool(b) => ConstantPrinted(if b then "true" else "false", rest);
    case Num(n) => NumberPrinted(n, rest);
    case Str(s) => StringPrinted(s, rest);
    case Table(items, fields) =>
      if IsArray(items, fields) {
        ItemsPrinted(items, "", [], rest);
        OpenArray(items, fields, rest);
        assert [] + NormalItems(items) == NormalItems(items);
        LengthHasNoReturn(fields);
      } else {
        FieldsPrinted(fields, "", [], rest);
        OpenObject(fields, rest);
        assert [] + NormalFields(fields) == NormalFields(fields);
      }
  }

  lemma OpenArray(items: seq<Value>, fields: seq<Field>, rest: string)
    requires IsArray(items, fields)
    ensures Parse(Encode(Table(items, fields)) + rest) == ParseItems(EncodeItems(items, "") + ("]" + rest), [])
  {
    var t, inner := Encode(Table(items, fields)) + rest, EncodeItems(items, "") + ("]" + rest);
    assert t == "[" + inner && t[0] == '[' && t[1..] == inner;
  }

  lemma OpenObject(fields: seq<Field>, rest: string)
    requires !IsArray([], fields)
    ensures Parse(Encode(Table([], fields)) + rest) == ParseFields(EncodeFields(fields, "") + ("}" + rest), [])
  {
    var t, inner := Encode(Table([], fields)) + rest, EncodeFields(fields, "") + ("}" + rest);
    assert EncodeNumbered([], 1) == "";
    assert "{" + "" + EncodeFields(fields, "") + "}" + rest == "{" + inner;
    assert t == "{" + inner && t[0] == '{' && t[1..] == inner;
  }

  lemma ItemsText(items: seq<Value>, lead: string, rest: string)
    requires items != []
    ensures var more := EncodeItems(items[1..], ",") + ("]" + rest);
            EncodeItems(items, lead) + ("]" + rest) == lead + Encode(items[0]) + more && Delimited(more)
  {
  }

  lemma FieldsText(fields: seq<Field>, lead: string, rest: string)
    requires fields != []
    ensures var more := EncodeFields(fields[1..], ",") + ("}" + rest);
            EncodeFields(fields, lead) + ("}" + rest) ==
            lead + EncodeKey(fields[0].key) + Encode(fields[0].value) + more && Delimited(more)
  {
    var front := lead + EncodeKey(fields[0].key) + Encode(fields[0].value);
    var back, end := EncodeFields(fields[1..], ","), "}" + rest;
    assert front + back + end == front + (back + end);
  }

  lemma {:induction false} ItemsPrinted(items: seq<Value>, lead: string, before: seq<Value>, rest: string)
    requires ProperItems(items) && AllPure(before) && (lead == "" || lead == ",")
    ensures AllPure(before + NormalItems(items))
    ensures ParseItems(EncodeItems(items, lead) + ("]" + rest), before) ==
            if ItemsNoReturn(items) then Found(Table(before + NormalItems(items), []), rest) else Malformed
    decreases items
  {
    if items == [] {
      assert EncodeItems(items, lead) + ("]" + rest) == "]" + rest && before + NormalItems(items) == before;
      ItemsEnd(rest, before);
    } else {
      var more := EncodeItems(items[1..], ",") + ("]" + rest);
      ItemsText(items, lead, rest);
      ReadItem(lead, items[0], more, before);
      ParsePrinted(items[0], more);
      var x, tail := Normal(items[0]), NormalItems(items[1..]);
      assert x != Nil;
      ItemsPrinted(items[1..], ",", before + [x], rest);
      Regroup(before, [x], tail);
    }
  }

  lemma {:induction false} FieldsPrinted(fields: seq<Field>, lead: string, before: seq<Field>, rest: string)
    requires ProperFields(fields) && FieldsPure(before) && (lead == "" || lead == ",")
    requires Distinct(before + fields)
    ensures FieldsPure(before + NormalFields(fields))
    ensures ParseFields(EncodeFields(fields, lead) + ("}" + rest), before) ==
            if FieldsNoReturn(fields) then Found(Table([], before + NormalFields(fields)), rest) else Malformed
    decreases fields
  {
    if fields == [] {
      assert EncodeFields(fields, lead) + ("}" + rest) == "}" + rest && before + NormalFields(fields) == before;
      FieldsEnd(rest, before);
    } else {
      var f, more := fields[0], EncodeFields(fields[1..], ",") + ("}" + rest);
      FieldsText(fields, lead, rest);
      ReadField(lead, f, more, before);
      ParsePrinted(f.value, more);
      var x, tail := Field(f.key, Normal(f.value)), NormalFields(fields[1..]);
      SameKeys(before, fields, x);
      PutNew(before, x);
      FieldsPrinted(fields[1..], ",", before + [x], rest);
      Regroup(before, [x], tail);
    }
  }

  /** Putting a field with a new key appends it. */
  lemma {:induction false} PutNew(fields: seq<Field>, f: Field)
    requires FieldsPure(fields) && Pure(f.value) && f.value != Nil
    requires forall i :: 0 <= i < |fields| ==> fields[i].key != f.key
    ensures Put(fields, f.key, f.value) == fields + [f]
  {
    if fields != [] {
      PutNew(fields[1..], f);
    }
  }

  lemma SameKeys(before: seq<Field>, fields: seq<Field>, f: Field)
    requires fields != [] && Distinct(before + fields) && f.key == fields[0].key
    ensures forall i :: 0 <= i < |before| ==> before[i].key != f.key
    ensures Distinct(before + [f] + fields[1..])
  {
    var all, now := before + fields, before + [f] + fields[1..];
    assert |now| == |all|;
    forall i | 0 <= i < |all| ensures now[i].key == all[i].key {}
    assert all[|before|] == fields[0];
    forall i | 0 <= i < |before| ensures before[i].key != f.key {
      assert all[i] == before[i];
    }
  }

  lemma LengthHasNoReturn(fields: seq<Field>)
    requires IsArray([], fields) || forall i :: 0 <= i < |fields| ==> fields[i].key == "n" && fields[i].value.Num?
    ensures FieldsNoReturn(fields)
  {
    if fields != [] {
      LengthHasNoReturn(fields[1..]);
    }
  }

  // ---- The round trip ----

  lemma {:induction false} NormalItemsIff(items: seq<Value>)
    requires AllPure(items)
    ensures NormalItems(items) == items <==> forall i :: 0 <= i < |items| ==> NoLoneLength(items[i])
    decreases items
  {
    if items != [] {
      NormalIff(items[0]);
      NormalItemsIff(items[1..]);
      assert items == [items[0]] + items[1..];
      assert forall i :: 0 <= i < |items| - 1 ==> items[1..][i] == items[i + 1];
      assert (forall i :: 0 <= i < |items| ==> NoLoneLength(items[i])) <==>
             NoLoneLength(items[0]) && forall i :: 0 <= i < |items[1..]| ==> NoLoneLength(items[1..][i]) by {
        assert forall i :: 1 <= i < |items| ==> items[i] == items[1..][i - 1];
      }
    }
  }

  lemma {:induction false} NormalFieldsIff(fields: seq<Field>)
    requires FieldsPure(fields)
    ensures NormalFields(fields) == fields <==> forall i :: 0 <= i < |fields| ==> NoLoneLength(fields[i].value)
    decreases fields
  {
    if fields != [] {
      NormalIff(fields[0].value);
      NormalFieldsIff(fields[1..]);
      assert fields == [fields[0]] + fields[1..];
      assert (forall i :: 0 <= i < |fields| ==> NoLoneLength(fields[i].value)) <==>
             NoLoneLength(fields[0].value) && forall i :: 0 <= i < |fields[1..]| ==>
               NoLoneLength(fields[1..][i].value) by {
        assert forall i :: 1 <= i < |fields| ==> fields[i] == fields[1..][i - 1];
      }
    }
  }

  lemma {:induction false} NormalIff(v: Value)
    requires Pure(v)
    ensures Normal(v) == v <==> NoLoneLength(v)
    decreases v
  {
    if v.Table? {
      NormalItemsIff(v.items);
      NormalFieldsIff(v.fields);
    }
  }

  /** Parsing what was printed gives the value back, with the position just after it, exactly for the
      printable values: for any order of the fields, and whatever follows that does not go on a
      number. */
  lemma RoundTripIff(v: Value, rest: string)
    requires Solid(v) && Delimited(rest)
    ensures Parse(Encode(v) + rest) == Found(v, rest) <==> Printable(v)
  {
    if Pure(v) {
      ParsePrinted(v, rest);
      NormalIff(v);
    }
  }

  /** Printable values that differ are printed differently. */
  lemma TextsDiffer(v: Value, w: Value)
    requires Solid(v) && Solid(w) && Printable(v) && Printable(w) && v != w
    ensures Encode(v) != Encode(w)
  {
    RoundTripIff(v, "");
    RoundTripIff(w, "");
  }

  lemma FirstTwoDiffer(fields: seq<Field>)
    requires Distinct(fields) && |fields| > 1
    ensures fields[0].key != fields[1].key
  {
  }

  /** A table with fields is taken for an array exactly if its one field is an `n` that is the length of
      its list; the field is lost, and the list comes back in its normal form. */
  lemma LengthFieldIsLost(v: Value, rest: string)
    requires v.Table? && v.fields != [] && Solid(v) && AllPure(v.items) && Delimited(rest)
    ensures IsArray(v.items, v.fields) <==>
              |v.fields| == 1 && v.fields[0].key == "n" && v.fields[0].value.Num? && v.fields[0].value.n == |v.items|
    ensures IsArray(v.items, v.fields) ==>
              Parse(Encode(v) + rest) ==
              if ItemsNoReturn(v.items) then Found(Table(NormalItems(v.items), []), rest) else Malformed
  {
    if IsArray(v.items, v.fields) {
      if |v.fields| > 1 {
        FirstTwoDiffer(v.fields);
        assert false;
      }
      ItemsPrinted(v.items, "", [], rest);
      OpenArray(v.items, v.fields, rest);
      assert [] + NormalItems(v.items) == NormalItems(v.items);
    }
  }
}
