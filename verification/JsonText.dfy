/** The compact JSON text of a tree entry, and why it can be read back. */
module JsonText {

  function HexDigit(n: nat): char
    requires n < 16
  {
    "0123456789abcdef"[n]
  }

  // Escaping of one character inside a JSON string (section 7 of RFC 8259), non-ASCII kept.
  function EscapeChar(c: char): string
  {
    if c == '\"' then "\\\""
    else if c == '\\' then "\\\\"
    else if c == '\n' then "\\n"
    else if c == '\r' then "\\r"
    else if c == '\t' then "\\t"
    else if c as int == 8 then "\\b"
    else if c as int == 12 then "\\f"
    else if c as int < 32 then "\\u00" + [HexDigit(c as int / 16), HexDigit(c as int % 16)]
    else [c]
  }

  // The rest of a JSON string up to its closing quote, and what follows it.
  function Quoted(text: string, rest: string): string
  {
    if text == [] then "\"" + rest else EscapeChar(text[0]) + Quoted(text[1..], rest)
  }

  lemma {:induction false} QuotedThen(text: string, rest: string, more: string)
    ensures Quoted(text, rest + more) == Quoted(text, rest) + more
  {
    hide EscapeChar;
    if text != [] {
      QuotedThen(text[1..], rest, more);
    }
  }

  lemma HexDigitInjective(a: nat, b: nat)
    requires a < 16 && b < 16 && HexDigit(a) == HexDigit(b)
    ensures a == b
  {
    var digits := "0123456789abcdef";
    assert digits[0] == '0' && digits[1] == '1' && digits[2] == '2' && digits[3] == '3';
    assert digits[4] == '4' && digits[5] == '5' && digits[6] == '6' && digits[7] == '7';
    assert digits[8] == '8' && digits[9] == '9' && digits[10] == 'a' && digits[11] == 'b';
    assert digits[12] == 'c' && digits[13] == 'd' && digits[14] == 'e' && digits[15] == 'f';
  }

  // Codes have one, two or six characters, which the first two characters tell apart.
  lemma CodeShape(c: char)
    ensures var code := EscapeChar(c);
            && |code| in {1, 2, 6} && code[0] != '\"'
            && (|code| > 1 <==> code[0] == '\\')
            && (|code| > 1 ==> (|code| == 6 <==> code[1] == 'u'))
  {
  }

  lemma EscapeCharInjective(c: char, d: char)
    requires EscapeChar(c) == EscapeChar(d)
    ensures c == d
  {
    var a, b := EscapeChar(c), EscapeChar(d);
    if |a| == 6 {
      assert a[4] == b[4] && a[5] == b[5];
      HexDigitInjective(c as int / 16, d as int / 16);
      HexDigitInjective(c as int % 16, d as int % 16);
    } else if |a| == 2 {
      assert a[1] == b[1];
    } else {
      assert a[0] == b[0];
    }
  }

  lemma SameLengthCut(a: string, x: string, b: string, y: string)
    requires a + x == b + y && |a| == |b|
    ensures a == b && x == y
  {
    assert a == (a + x)[..|a|] && b == (b + y)[..|b|];
    assert x == (a + x)[|a|..] && y == (b + y)[|b|..];
  }

  // No escape code is the beginning of another one.
  lemma EscapeCharCut(c: char, x: string, d: char, y: string)
    requires EscapeChar(c) + x == EscapeChar(d) + y
    ensures c == d && x == y
  {
    hide EscapeChar;
    var a, b := EscapeChar(c), EscapeChar(d);
    CodeShape(c);
    CodeShape(d);
    assert a[0] == (a + x)[0] == (b + y)[0] == b[0];
    if |a| > 1 && |b| > 1 {
      assert a[1] == (a + x)[1] == (b + y)[1] == b[1];
    }
    SameLengthCut(a, x, b, y);
    EscapeCharInjective(c, d);
  }

  lemma QuotedStart(text: string, rest: string)
    ensures Quoted(text, rest) != [] && (Quoted(text, rest)[0] == '\"' <==> text == [])
  {
    if text != [] {
      CodeShape(text[0]);
    }
  }

  /** A JSON string ends at its first unescaped quote, so text and remainder can be told apart. */
  lemma {:induction false} QuotedCut(s: string, x: string, t: string, y: string)
    requires Quoted(s, x) == Quoted(t, y)
    ensures s == t && x == y
    decreases |s|
  {
    hide EscapeChar;
    if s == [] && t == [] {
      SameLengthCut("\"", x, "\"", y);
    } else if s == [] || t == [] {
      QuotedStart(s, x);
      QuotedStart(t, y);
    } else {
      EscapeCharCut(s[0], Quoted(s[1..], x), t[0], Quoted(t[1..], y));
      QuotedCut(s[1..], x, t[1..], y);
      assert s == [s[0]] + s[1..] && t == [t[0]] + t[1..];
    }
  }

  predicate IsDigit(c: char)
  {
    '0' <= c <= '9'
  }

  function Decimal(n: nat): (text: string)
    ensures text != [] && forall i :: 0 <= i < |text| ==> IsDigit(text[i])
  {
    var digit := ['0' + (n % 10) as char];
    if n < 10 then digit else Decimal(n / 10) + digit
  }

  lemma {:induction false} DecimalInjective(n: nat, m: nat)
    requires Decimal(n) == Decimal(m)
    ensures n == m
    decreases n
  {
    var a, b := Decimal(n), Decimal(m);
    assert a[|a| - 1] == '0' + (n % 10) as char && b[|b| - 1] == '0' + (m % 10) as char;
    assert n % 10 == m % 10;
    if n >= 10 && m >= 10 {
      assert Decimal(n / 10) == a[..|a| - 1] == b[..|b| - 1] == Decimal(m / 10);
      DecimalInjective(n / 10, m / 10);
    }
  }

  /** A number ends at the first character that is not a digit. */
  lemma DecimalCut(n: nat, x: string, m: nat, y: string)
    requires Decimal(n) + x == Decimal(m) + y
    requires x != [] && !IsDigit(x[0]) && y != [] && !IsDigit(y[0])
    ensures n == m && x == y
  {
    var a, b := Decimal(n), Decimal(m);
    NotShorter(a, x, b, y);
    NotShorter(b, y, a, x);
    SameLengthCut(a, x, b, y);
    DecimalInjective(n, m);
  }

  lemma NotShorter(a: string, x: string, b: string, y: string)
    requires a + x == b + y
    requires x != [] && !IsDigit(x[0]) && forall i :: 0 <= i < |b| ==> IsDigit(b[i])
    ensures |b| <= |a|
  {
    assert (a + x)[|a|] == x[0];
    assert forall i :: 0 <= i < |b| ==> (b + y)[i] == b[i];
  }
}
