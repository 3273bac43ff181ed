/** Strings and numbers as JSON text, and as the Lua reader takes them. */
module JsonText {
  import opened Options
  import opened Sequences

  // ---- Printing strings ----

  /** Replaces every occurrence of a character by a text. */
  function Gsub(s: string, c: char, sub: string): string {
    if s == "" then "" else (if s[0] == c then sub else [s[0]]) + Gsub(s[1..], c, sub)
  }

  /** Five substitutions, one after the other; each works on what the last has left. */
  function EncodeString(s: string): string {
    Gsub(Gsub(Gsub(Gsub(Gsub(s, '\\', "\\\\"), '"', "\\\""), '\'', "\\'"), '\n', "\\n"), '\t', "\\t")
  }

  function EscapeChar(c: char): (e: string)
    ensures 1 <= |e| <= 2
  {
    if c == '\\' then "\\\\"
    else if c == '"' then "\\\""
    else if c == '\'' then "\\'"
    else if c == '\n' then "\\n"
    else if c == '\t' then "\\t"
    else [c]
  }

  /** Every character escaped by itself. */
  function Escaped(s: string): string {
    if s == "" then "" else EscapeChar(s[0]) + Escaped(s[1..])
  }

  lemma {:induction false} GsubConcat(a: string, b: string, c: char, sub: string)
    ensures Gsub(a + b, c, sub) == Gsub(a, c, sub) + Gsub(b, c, sub)
  {
    if a == "" {
      assert a + b == b;
    } else {
      GsubConcat(a[1..], b, c, sub);
      assert (a + b)[1..] == a[1..] + b;
      var first := if a[0] == c then sub else [a[0]];
      Regroup(first, Gsub(a[1..], c, sub), Gsub(b, c, sub));
    }
  }

  lemma {:induction false} GsubLeaves(s: string, c: char, sub: string)
    requires c !in s
    ensures Gsub(s, c, sub) == s
  {
    if s != "" {
      GsubLeaves(s[1..], c, sub);
    }
  }

  lemma EncodeStringConcat(a: string, b: string)
    ensures EncodeString(a + b) == EncodeString(a) + EncodeString(b)
  {
    GsubConcat(a, b, '\\', "\\\\");
    var a1, b1 := Gsub(a, '\\', "\\\\"), Gsub(b, '\\', "\\\\");
    GsubConcat(a1, b1, '"', "\\\"");
    var a2, b2 := Gsub(a1, '"', "\\\""), Gsub(b1, '"', "\\\"");
    GsubConcat(a2, b2, '\'', "\\'");
    var a3, b3 := Gsub(a2, '\'', "\\'"), Gsub(b2, '\'', "\\'");
    GsubConcat(a3, b3, '\n', "\\n");
    GsubConcat(Gsub(a3, '\n', "\\n"), Gsub(b3, '\n', "\\n"), '\t', "\\t");
  }

  lemma GsubOne(c: char, d: char, sub: string)
    ensures Gsub([c], d, sub) == if c == d then sub else [c]
  {
    assert [c][1..] == "";
  }

  lemma EncodeChar(c: char)
    ensures EncodeString([c]) == EscapeChar(c)
  {
    var s1 := Gsub([c], '\\', "\\\\");
    GsubOne(c, '\\', "\\\\");
    var s2 := Gsub(s1, '"', "\\\"");
    if c == '\\' { GsubLeaves(s1, '"', "\\\""); } else { GsubOne(c, '"', "\\\""); }
    var s3 := Gsub(s2, '\'', "\\'");
    if c == '\\' || c == '"' { GsubLeaves(s2, '\'', "\\'"); } else { GsubOne(c, '\'', "\\'"); }
    var s4 := Gsub(s3, '\n', "\\n");
    if c == '\\' || c == '"' || c == '\'' { GsubLeaves(s3, '\n', "\\n"); } else { GsubOne(c, '\n', "\\n"); }
    if EscapeChar(c) != [c] && c != '\t' { GsubLeaves(s4, '\t', "\\t"); } else { GsubOne(c, '\t', "\\t"); }
  }

  /** The five substitutions do what escaping every character by itself does: none of them touches
      what another has put in. */
  lemma {:induction false} EncodeStringEscapes(s: string)
    ensures EncodeString(s) == Escaped(s)
  {
    if s != "" {
      EncodeStringEscapes(s[1..]);
      EncodeChar(s[0]);
      EncodeStringConcat([s[0]], s[1..]);
      assert [s[0]] + s[1..] == s;
    }
  }

  // ---- Reading strings ----

  predicate IsQuote(c: char) {
    c == '"' || c == '\''
  }

  /** How far it is to the closing quote.  A character after a backslash is accepted come what may. */
  function ScanQuoted(t: string, quote: char, escaped: bool): (n: Option<nat>)
    requires IsQuote(quote)
    ensures n.Some? ==> n.value < |t| && t[n.value] == quote
  {
    if t == "" then None
    else if !escaped && t[0] == quote then Some(0)
    else
      match ScanQuoted(t[1..], quote, !escaped && t[0] == '\\')
      case None => None
      case Some(n) => Some(n + 1)
  }

  predicate IsDigit(c: char) {
    '0' <= c <= '9'
  }

  predicate AllDigits(s: string) {
    forall i :: 0 <= i < |s| ==> IsDigit(s[i])
  }

  function NumberOf(digits: string): nat
    requires AllDigits(digits)
  {
    if digits == "" then 0
    else 10 * NumberOf(digits[..|digits| - 1]) + (digits[|digits| - 1] as int - '0' as int)
  }

  /** How many digits, at most `most`, the text begins with. */
  function DigitRun(t: string, most: nat): (n: nat)
    ensures n <= |t| && n <= most && AllDigits(t[..n])
    ensures t != "" && most > 0 && IsDigit(t[0]) ==> n > 0
  {
    if most == 0 || t == "" || !IsDigit(t[0]) then 0
    else
      var n := DigitRun(t[1..], most - 1);
      assert t[..n + 1] == [t[0]] + t[1..][..n];
      n + 1
  }

  /** What a letter stands for after a backslash; any other character stands for itself. */
  function Meaning(c: char): char {
    match c
    case 'a' => 7 as char
    case 'b' => 8 as char
    case 't' => '\t'
    case 'n' => '\n'
    case 'v' => 11 as char
    case 'f' => 12 as char
    case 'r' => '\r'
    case _ => c
  }

  predicate IsNewline(c: char) {
    c == '\n' || c == '\r'
  }

  function Prepend(c: char, s: Option<string>): Option<string> {
    match s
    case None => None
    case Some(t) => Some([c] + t)
  }

  /** What the Lua reader makes of the text between two quotes: a raw line break is an error. */
  function Unescape(t: string): Option<string>
    decreases |t|
  {
    if t == "" then Some("")
    else if IsNewline(t[0]) then None
    else if t[0] != '\\' then Prepend(t[0], Unescape(t[1..]))
    else if |t| == 1 then None
    else if IsDigit(t[1]) then
      var n := DigitRun(t[1..], 3);
      assert t[1..n + 1] == t[1..][..n];
      var code := NumberOf(t[1..n + 1]);
      if code > 255 then None else Prepend(code as char, Unescape(t[n + 1..]))
    else if IsNewline(t[1]) then
      var k := if |t| > 2 && IsNewline(t[2]) && t[2] != t[1] then 3 else 2;
      Prepend('\n', Unescape(t[k..]))
    else Prepend(Meaning(t[1]), Unescape(t[2..]))
  }

  function Shift(n: Option<nat>, k: nat): Option<nat> {
    match n
    case None => None
    case Some(m) => Some(m + k)
  }

  lemma ScanChar(c: char, t: string, quote: char)
    requires IsQuote(quote) && c != quote && c != '\\'
    ensures ScanQuoted([c] + t, quote, false) == Shift(ScanQuoted(t, quote, false), 1)
  {
    assert ([c] + t)[1..] == t;
  }

  lemma ScanPair(c: char, t: string, quote: char)
    requires IsQuote(quote)
    ensures ScanQuoted(['\\', c] + t, quote, false) == Shift(ScanQuoted(t, quote, false), 2)
  {
    var u := [c] + t;
    assert (['\\', c] + t)[1..] == u && u[1..] == t;
    assert ScanQuoted(u, quote, true) == Shift(ScanQuoted(t, quote, false), 1);
  }

  lemma EscapePair(c: char)
    ensures var e := EscapeChar(c);
            if |e| == 2 then e == ['\\', e[1]] && !IsDigit(e[1]) && !IsNewline(e[1]) && Meaning(e[1]) == c
            else e == [c] && c != '\\' && c != '"' && c != '\n'
  {
  }

  /** The scan of a printed string stops at the quote that ends it, and at no other. */
  lemma {:induction false} ScanStopsAtEnd(s: string, rest: string)
    ensures ScanQuoted(Escaped(s) + "\"" + rest, '"', false) == Some(|Escaped(s)|)
  {
    if s == "" {
      assert ("" + "\"" + rest)[0] == '"';
    } else {
      ScanStopsAtEnd(s[1..], rest);
      var e, more := EscapeChar(s[0]), Escaped(s[1..]) + "\"" + rest;
      assert Escaped(s) + "\"" + rest == e + more;
      EscapePair(s[0]);
      if |e| == 2 {
        ScanPair(e[1], more, '"');
      } else {
        ScanChar(s[0], more, '"');
      }
    }
  }

  lemma UnescapeChar(c: char, t: string)
    requires c != '\\' && !IsNewline(c)
    ensures Unescape([c] + t) == Prepend(c, Unescape(t))
  {
    assert ([c] + t)[1..] == t;
  }

  lemma UnescapePair(c: char, t: string)
    requires !IsDigit(c) && !IsNewline(c)
    ensures Unescape(['\\', c] + t) == Prepend(Meaning(c), Unescape(t))
  {
    var u := ['\\', c] + t;
    assert u[0] == '\\' && u[1] == c && u[2..] == t;
  }

  /** Reading back what was printed gives the string, unless it holds a raw carriage return, which
      the printer leaves as it is and the reader refuses. */
  lemma {:induction false} UnescapeEscaped(s: string)
    ensures Unescape(Escaped(s)) == if '\r' in s then None else Some(s)
  {
    if s != "" {
      UnescapeEscaped(s[1..]);
      var e, more := EscapeChar(s[0]), Escaped(s[1..]);
      assert s == [s[0]] + s[1..];
      EscapePair(s[0]);
      if |e| == 2 {
        UnescapePair(e[1], more);
      } else if s[0] != '\r' {
        UnescapeChar(s[0], more);
      } else {
        assert (e + more)[0] == '\r';
      }
    }
  }

  // ---- Numbers ----

  function Digits(n: nat): (s: string)
    ensures s != "" && AllDigits(s)
  {
    var last := [('0' as int + n % 10) as char];
    if n < 10 then last else Digits(n / 10) + last
  }

  function PrintInt(n: int): string {
    if n < 0 then "-" + Digits(-n) else Digits(n)
  }

  /** Integers up to 14 digits are printed exactly; a longer one is printed in another form. */
  const LIMIT := 100_000_000_000_000

  type Whole = n: int | -LIMIT < n < LIMIT

  function PowerOfTen(k: nat): nat {
    if k == 0 then 1 else 10 * PowerOfTen(k - 1)
  }

  lemma {:induction false} NumberBelow(digits: string)
    requires AllDigits(digits)
    ensures NumberOf(digits) < PowerOfTen(|digits|)
  {
    if digits != "" {
      NumberBelow(digits[..|digits| - 1]);
    }
  }

  lemma {:induction false} PowersGrow(j: nat, k: nat)
    requires j <= k
    ensures PowerOfTen(j) <= PowerOfTen(k)
  {
    if j < k {
      PowersGrow(j, k - 1);
    }
  }

  /** The digits before count as many times as the places behind them say. */
  lemma {:induction false} PlaceValue(a: string, b: string)
    requires AllDigits(a) && AllDigits(b)
    ensures AllDigits(a + b) && NumberOf(a + b) == NumberOf(a) * PowerOfTen(|b|) + NumberOf(b)
  {
    if b == "" {
      assert a + b == a;
    } else {
      var n := |b| - 1;
      PlaceValue(a, b[..n]);
      assert (a + b)[..|a + b| - 1] == a + b[..n];
      TenTimes(NumberOf(a), PowerOfTen(n));
    }
  }

  lemma TenTimes(x: nat, y: nat)
    ensures 10 * (x * y) == x * (10 * y)
  {
  }

  lemma FourteenDigits()
    ensures PowerOfTen(14) == LIMIT
  {
    assert PowerOfTen(4) == 10_000;
    assert PowerOfTen(8) == 100_000_000;
    assert PowerOfTen(12) == 1_000_000_000_000;
  }

  lemma {:induction false} NumberOfDigits(n: nat)
    ensures NumberOf(Digits(n)) == n
  {
    if n >= 10 {
      NumberOfDigits(n / 10);
      assert Digits(n)[..|Digits(n)| - 1] == Digits(n / 10);
    } else {
      assert Digits(n)[..0] == "";
    }
  }

  lemma {:induction false} DigitsFit(n: nat, k: nat)
    requires k > 0 && n < PowerOfTen(k)
    ensures |Digits(n)| <= k
  {
    if n >= 10 {
      assert PowerOfTen(1) == 10;
      DigitsFit(n / 10, k - 1);
    }
  }

  /** The value of a number's text: an integer of up to 14 digits.  Other texts are not modelled. */
  function WholeOf(text: string): Option<Whole> {
    var digits := if text != "" && text[0] == '-' then text[1..] else text;
    if digits == "" || |digits| > 14 || !AllDigits(digits) then None
    else
      NumberBelow(digits);
      PowersGrow(|digits|, 14);
      FourteenDigits();
      var n: int := NumberOf(digits);
      Some(if text[0] == '-' then -n else n)
  }

  lemma WholeOfPrinted(n: Whole)
    ensures WholeOf(PrintInt(n)) == Some(n)
  {
    var abs := if n < 0 then -n else n;
    NumberOfDigits(abs);
    FourteenDigits();
    DigitsFit(abs, 14);
    if n < 0 {
      assert PrintInt(n)[1..] == Digits(abs);
    } else {
      assert IsDigit(Digits(abs)[0]);
    }
  }
}
