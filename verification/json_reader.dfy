/** The scanners that read a value from a position of the text, each against what the text from
    there on says. */
module JsonReader {
  import opened Options
  import opened JsonText
  import opened Json

  /** Positions are counted from 0. */
  datatype Outcome = Decoded(value: Value, next: nat) | Error

  /** The outcome of reading at some position of `s`, where the text from there on parses to `p`. */
  predicate Agrees(r: Outcome, s: string, p: Parsed) {
    match p
    case Malformed => r.Error?
    case Found(v, rest) => r.Decoded? && r.value == v && r.next <= |s| && s[r.next..] == rest
  }

  lemma From(s: string, at: nat, k: nat)
    requires at + k <= |s|
    ensures s[at..][k..] == s[at + k..]
  {
  }

  lemma First(s: string, at: nat)
    requires at < |s|
    ensures s[at..] != "" && s[at..][0] == s[at] && s[at..][1..] == s[at + 1..]
  {
  }

  method ScanWhitespace(s: string, start: nat) returns (next: nat)
    requires start <= |s|
    ensures start <= next <= |s| && s[next..] == SkipSpace(s[start..])
  {
    next := start;
    while next < |s| && IsSpace(s[next])
      invariant start <= next <= |s| && SkipSpace(s[next..]) == SkipSpace(s[start..])
    {
      First(s, next);
      next := next + 1;
    }
    if next < |s| {
      First(s, next);
    }
  }

  method ScanNumber(s: string, start: nat) returns (r: Outcome)
    requires start < |s| && IsNumeric(s[start])
    ensures Agrees(r, s, ParseNumber(s[start..]))
  {
    First(s, start);
    var end := start + 1;
    while end < |s| && IsNumeric(s[end])
      invariant start < end <= |s| && NumericRun(s[start..]) == end - start + NumericRun(s[end..])
    {
      First(s, end);
      end := end + 1;
    }
    if end < |s| {
      First(s, end);
    }
    assert s[start..][..end - start] == s[start..end];
    From(s, start, end - start);
    match WholeOf(s[start..end]) {
      case None => r := Error;
      case Some(n) => r := Decoded(Num(n), end);
    }
  }

  /** The position after the quote that ends the string which begins at `start`. */
  method ScanToQuote(s: string, start: nat) returns (next: Option<nat>)
    requires start < |s| && IsQuote(s[start])
    ensures ScanQuoted(s[start + 1..], s[start], false) ==
            if next.Some? && start + 2 <= next.value <= |s| then Some(next.value - start - 2) else None
    ensures next.Some? ==> start + 2 <= next.value <= |s|
  {
    var quote, escaped, end := s[start], false, start + 1;
    while end < |s|
      invariant start < end <= |s|
      invariant ScanQuoted(s[start + 1..], quote, false) ==
                Shift(ScanQuoted(s[end..], quote, escaped), end - start - 1)
    {
      First(s, end);
      var curChar := s[end];
      end := end + 1;
      if !escaped {
        if curChar == '\\' {
          escaped := true;
        } else if curChar == quote {
          return Some(end);
        }
      } else {
        escaped := false;
      }
    }
    next := None;
  }

  method ScanString(s: string, start: nat) returns (r: Outcome)
    requires start < |s| && IsQuote(s[start])
    ensures Agrees(r, s, ParseString(s[start..]))
  {
    First(s, start);
    var next := ScanToQuote(s, start);
    if next.None? {
      return Error;
    }
    var end := next.value;
    assert s[start..][1..][..end - start - 2] == s[start + 1..end - 1];
    From(s, start, end - start);
    match Unescape(s[start + 1..end - 1]) {
      case None => r := Error;
      case Some(text) => r := Decoded(Str(text), end);
    }
  }

  /** The position after a comment that begins at `start`. */
  method ScanComment(s: string, start: nat) returns (next: Option<nat>)
    requires start + 2 <= |s| && StartsWith(s[start..], "/*")
    ensures next.None? ==> AfterComment(s[start + 2..]) == None
    ensures next.Some? ==> next.value <= |s| && AfterComment(s[start + 2..]) == Some(s[next.value..])
  {
    var at := start + 2;
    while at < |s|
      invariant start + 2 <= at <= |s| && AfterComment(s[at..]) == AfterComment(s[start + 2..])
    {
      First(s, at);
      if at + 2 <= |s| && s[at..at + 2] == "*/" {
        From(s, at, 2);
        assert s[at..][..2] == "*/";
        return Some(at + 2);
      }
      assert !StartsWith(s[at..], "*/") by {
        if |s[at..]| >= 2 {
          assert s[at..][..2] == s[at..at + 2];
        }
      }
      at := at + 1;
    }
    next := None;
  }

  method ScanConstant(s: string, start: nat) returns (r: Outcome)
    requires start < |s|
    ensures Agrees(r, s, ParseConstant(s[start..]))
  {
    var names, values := ["true", "false", "null"], [Bool(true), Bool(false), Nil];
    for i := 0 to 3
      invariant forall j :: 0 <= j < i ==> !StartsWith(s[start..], names[j])
    {
      var word := names[i];
      if start + |word| <= |s| && s[start..start + |word|] == word {
        assert s[start..][..|word|] == word;
        From(s, start, |word|);
        assert i > 0 ==> !StartsWith(s[start..], names[0]);
        assert i > 1 ==> !StartsWith(s[start..], names[1]);
        return Decoded(values[i], start + |word|);
      }
      assert !StartsWith(s[start..], word) by {
        if |s[start..]| >= |word| {
          assert s[start..][..|word|] == s[start..start + |word|];
        }
      }
    }
    assert !StartsWith(s[start..], names[0]) && !StartsWith(s[start..], names[1]) && !StartsWith(s[start..], names[2]);
    r := Error;
  }

  /** Reads the value that begins at or after `start`; a value read ends after `start`. */
  method Decode(s: string, start: nat) returns (r: Outcome)
    requires start <= |s|
    ensures Agrees(r, s, Parse(s[start..])) && (r.Decoded? ==> r.next > start)
    decreases |s| - start, 1
  {
    var at := ScanWhitespace(s, start);
    if at == |s| {
      return Error;
    }
    First(s, at);
    if s[at] == '{' {
      r := ScanObject(s, at);
    } else if s[at] == '[' {
      r := ScanArray(s, at);
    } else if IsNumeric(s[at]) {
      r := ScanNumber(s, at);
    } else if IsQuote(s[at]) {
      r := ScanString(s, at);
    } else if at + 2 <= |s| && s[at..at + 2] == "/*" {
      assert s[at..][..2] == "/*";
      From(s, at, 2);
      var next := ScanComment(s, at);
      if next.None? {
        return Error;
      }
      r := Decode(s, next.value);
    } else {
      assert !StartsWith(s[at..], "/*") by {
        if |s[at..]| >= 2 {
          assert s[at..][..2] == s[at..at + 2];
        }
      }
      r := ScanConstant(s, at);
    }
    Advances(s, start, r);
  }

  lemma Advances(s: string, start: nat, r: Outcome)
    requires start <= |s| && Agrees(r, s, Parse(s[start..]))
    ensures r.Decoded? ==> r.next > start
  {
  }

  /** The text `u` at which the next item or field begins, or the bracket that closes the table; it is
      empty if the text ends before. */
  ghost predicate Next(t: string, close: char, u: string) {
    var v := SkipSpace(t);
    u == if v == "" || v[0] == close then v else SkipComma(v)
  }

  /** Skips white space and a comma, up to the next item or field or to the closing bracket. */
  method ScanToNext(s: string, start: nat, close: char) returns (closed: bool, next: nat)
    requires start <= |s| && close != ','
    ensures start <= next <= |s| && Next(s[start..], close, s[next..])
    ensures closed <==> SkipSpace(s[start..]) != "" && SkipSpace(s[start..])[0] == close
    ensures closed ==> next < |s| && s[next] == close
  {
    next := ScanWhitespace(s, start);
    if next == |s| {
      return false, next;
    }
    First(s, next);
    if s[next] == close {
      return true, next;
    }
    if s[next] == ',' {
      next := ScanWhitespace(s, next + 1);
    }
    closed := false;
  }

  lemma ItemsNext(t: string, items: seq<Value>, u: string, closed: bool)
    requires AllPure(items) && Next(t, ']', u) && (closed <==> SkipSpace(t) != "" && SkipSpace(t)[0] == ']')
    ensures ParseItems(t, items) ==
            if u == "" then Malformed
            else if closed then Found(Table(items, []), u[1..])
            else ItemsAfter(Parse(u), items)
  {
  }

  lemma FieldsNext(t: string, fields: seq<Field>, u: string, closed: bool)
    requires FieldsPure(fields) && Next(t, '}', u) && (closed <==> SkipSpace(t) != "" && SkipSpace(t)[0] == '}')
    ensures ParseFields(t, fields) ==
            if u == "" then Malformed else if closed then Found(Table([], fields), u[1..]) else FieldFrom(u, fields)
  {
  }

  method ScanArray(s: string, start: nat) returns (r: Outcome)
    requires start < |s| && s[start] == '['
    ensures Agrees(r, s, ParseItems(s[start + 1..], []))
    decreases |s| - start, 0
  {
    var items: seq<Value>, at := [], start + 1;
    ghost var p := ParseItems(s[at..], items);
    while true
      invariant start < at <= |s| && AllPure(items) && ParseItems(s[at..], items) == p
      decreases |s| - at
    {
      ghost var t := s[at..];
      var closed;
      closed, at := ScanToNext(s, at, ']');
      ItemsNext(t, items, s[at..], closed);
      if at == |s| {
        return Error;
      }
      First(s, at);
      if closed {
        return Decoded(Table(items, []), at + 1);
      }
      var item := Decode(s, at);
      if item.Error? {
        return Error;
      }
      items := Insert(items, item.value);
      at := item.next;
    }
  }

  method ScanObject(s: string, start: nat) returns (r: Outcome)
    requires start < |s| && s[start] == '{'
    ensures Agrees(r, s, ParseFields(s[start + 1..], []))
    decreases |s| - start, 0
  {
    var fields: seq<Field>, at := [], start + 1;
    ghost var p := ParseFields(s[at..], fields);
    while true
      invariant start < at <= |s| && FieldsPure(fields) && ParseFields(s[at..], fields) == p
      decreases |s| - at
    {
      ghost var t := s[at..];
      var closed;
      closed, at := ScanToNext(s, at, '}');
      FieldsNext(t, fields, s[at..], closed);
      if at == |s| {
        return Error;
      }
      First(s, at);
      if closed {
        return Decoded(Table([], fields), at + 1);
      }
      var key := Decode(s, at);
      if key.Error? || !key.value.Str? {
        return Error;
      }
      var item := ScanAssigned(s, key.next);
      if item.Error? {
        return Error;
      }
      fields := Put(fields, key.value.s, item.value);
      at := item.next;
    }
  }

  method ScanAssigned(s: string, start: nat) returns (r: Outcome)
    requires start <= |s|
    ensures Agrees(r, s, ParseAssigned(s[start..])) && (r.Decoded? ==> r.next > start)
    decreases |s| - start, 2
  {
    var at := ScanWhitespace(s, start);
    if at == |s| {
      return Error;
    }
    First(s, at);
    if s[at] != ':' {
      return Error;
    }
    at := ScanWhitespace(s, at + 1);
    if at == |s| {
      return Error;
    }
    r := Decode(s, at);
  }

  /** What was printed, anywhere in a text, is read back from its position. */
  lemma PrintedIsDecoded(s: string, start: nat, v: Value, r: Outcome)
    requires start <= |s| && Solid(v) && Printable(v) && Encode(v) <= s[start..]
    requires Delimited(s[start..][|Encode(v)|..])
    requires Agrees(r, s, Parse(s[start..]))
    ensures r == Decoded(v, start + |Encode(v)|)
  {
    var rest := s[start..][|Encode(v)|..];
    assert s[start..] == Encode(v) + rest;
    RoundTripIff(v, rest);
  }
}
