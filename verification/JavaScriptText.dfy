/** The JavaScript string and number operations the model needs. */
module JavaScriptText {
  import opened Prelude

  // ----- trim ----------------------------------------------------------------------

  /** White space and line terminators, by code. */
  predicate Blank(c: char) {
    var n := c as int;
    9 <= n <= 13 || n == 0x20 || n == 0xA0 || n == 0x1680 || 0x2000 <= n <= 0x200A
    || n == 0x2028 || n == 0x2029 || n == 0x202F || n == 0x205F || n == 0x3000 || n == 0xFEFF
  }

  const BLANKS := "\t\n\U{000B}\U{000C}\r \U{00A0}\U{1680}\U{2000}\U{2001}\U{2002}\U{2003}\U{2004}\U{2005}\U{2006}\U{2007}\U{2008}\U{2009}\U{200A}\U{2028}\U{2029}\U{202F}\U{205F}\U{3000}\U{FEFF}"

  /** The white space and line terminators of ECMAScript (section 12.2 and 12.3 of ECMA-262), one by one. */
  lemma BlanksListed(c: char)
    ensures Blank(c) <==> c in BLANKS
  {
    if Blank(c) {
      var k := BlankIndex(c);
      assert BLANKS[k] == c;
    }
  }

  function BlankIndex(c: char): (k: nat)
    requires Blank(c)
    ensures k < |BLANKS| && BLANKS[k] == c
  {
    var n := c as int;
    if n <= 13 then n - 9 else if n == 0x20 then 5 else if n == 0xA0 then 6 else if n == 0x1680 then 7
    else if n <= 0x200A then n - 0x2000 + 8 else if n == 0x2028 then 19 else if n == 0x2029 then 20
    else if n == 0x202F then 21 else if n == 0x205F then 22 else if n == 0x3000 then 23 else 24
  }

  /** The first position from i on that is not blank. */
  function SkipBlanks(s: string, i: nat): (j: nat)
    requires i <= |s|
    ensures i <= j <= |s| && forall k :: i <= k < j ==> Blank(s[k])
    ensures j < |s| ==> !Blank(s[j])
    decreases |s| - i
  {
    if i < |s| && Blank(s[i]) then SkipBlanks(s, i + 1) else i
  }

  /** The end of what is left of s[i..j] without the blanks at its end. */
  function SkipBlanksBack(s: string, i: nat, j: nat): (e: nat)
    requires i <= j <= |s|
    ensures i <= e <= j && forall k :: e <= k < j ==> Blank(s[k])
    ensures i < e ==> !Blank(s[e - 1])
  {
    if i < j && Blank(s[j - 1]) then SkipBlanksBack(s, i, j - 1) else j
  }

  /** String.prototype.trim */
  function Trim(s: string): string {
    var i := SkipBlanks(s, 0);
    s[i..SkipBlanksBack(s, i, |s|)]
  }

  /** Trimming keeps exactly the stretch between the blanks at both ends; it is empty exactly when
      there is nothing else. */
  lemma TrimMeaning(s: string) returns (i: nat, j: nat)
    ensures i <= j <= |s| && Trim(s) == s[i..j]
    ensures forall k :: 0 <= k < i || j <= k < |s| ==> Blank(s[k])
    ensures i < j ==> !Blank(s[i]) && !Blank(s[j - 1])
  {
    i := SkipBlanks(s, 0);
    j := SkipBlanksBack(s, i, |s|);
  }

  // ----- Numbers as text -----------------------------------------------------------

  predicate IsDigit(c: char) {
    '0' <= c <= '9'
  }

  predicate AllDigits(s: string) {
    forall k :: 0 <= k < |s| ==> IsDigit(s[k])
  }

  /** A natural number in template text. */
  function Decimal(n: nat): (s: string)
    ensures s != "" && AllDigits(s) && (|s| > 1 ==> s[0] != '0') && (n > 0 ==> s[0] != '0')
  {
    var last := ['0' + (n % 10) as char];
    if n < 10 then last else Decimal(n / 10) + last
  }

  /** A number in template text; None is NaN. */
  function NumberText(n: Option<int>): string {
    if n.None? then "NaN" else if n.value < 0 then "-" + Decimal(-n.value) else Decimal(n.value)
  }

  function LeadingDigits(s: string): (d: string)
    ensures AllDigits(d) && |d| <= |s| && d == s[..|d|]
    ensures |d| < |s| ==> !IsDigit(s[|d|])
  {
    if s != "" && IsDigit(s[0]) then [s[0]] + LeadingDigits(s[1..]) else ""
  }

  function DigitsValue(d: string): nat
    requires AllDigits(d)
  {
    if d == "" then 0 else 10 * DigitsValue(d[..|d| - 1]) + (d[|d| - 1] - '0') as nat
  }

  /** As many digits as there are at the start; None if there are none. */
  function LeadingNumber(u: string): Option<int> {
    var d := LeadingDigits(u);
    if d == "" then None else Some(DigitsValue(d))
  }

  /** parseInt(s, 10): blanks, a sign, then the digits; None is NaN. */
  function ParseInt(s: string): Option<int> {
    var i := SkipBlanks(s, 0);
    if i < |s| && s[i] == '-' then
      var n := LeadingNumber(s[i + 1..]);
      if n.Some? then Some(-n.value) else None
    else LeadingNumber(if i < |s| && s[i] == '+' then s[i + 1..] else s[i..])
  }

  lemma {:induction false} DecimalValue(n: nat)
    ensures DigitsValue(Decimal(n)) == n
  {
    var last := ['0' + (n % 10) as char];
    if n < 10 {
      assert last[..0] == "";
    } else {
      DecimalValue(n / 10);
      assert (Decimal(n / 10) + last)[..|Decimal(n / 10)|] == Decimal(n / 10);
    }
  }

  /** Digits end where something else begins. */
  lemma {:induction false} LeadingDigitsThen(d: string, rest: string)
    requires AllDigits(d) && (rest != "" ==> !IsDigit(rest[0]))
    ensures LeadingDigits(d + rest) == d
  {
    if d == "" {
      assert d + rest == rest;
    } else {
      LeadingDigitsThen(d[1..], rest);
      assert (d + rest)[1..] == d[1..] + rest;
    }
  }

  /** Blanks end where something else begins. */
  lemma BlanksThen(blanks: string, rest: string)
    requires (forall k :: 0 <= k < |blanks| ==> Blank(blanks[k])) && (rest != "" ==> !Blank(rest[0]))
    ensures SkipBlanks(blanks + rest, 0) == |blanks| && (blanks + rest)[|blanks|..] == rest
  {
    var s := blanks + rest;
    assert forall k :: 0 <= k < |blanks| ==> s[k] == blanks[k];
    assert rest != "" ==> s[|blanks|] == rest[0];
  }

  /** What follows the blanks decides: digits, or a sign and then digits. */
  lemma ParseUnsigned(blanks: string, u: string)
    requires (forall k :: 0 <= k < |blanks| ==> Blank(blanks[k]))
    requires u != "" ==> !Blank(u[0]) && u[0] != '-' && u[0] != '+'
    ensures ParseInt(blanks + u) == LeadingNumber(u)
  {
    BlanksThen(blanks, u);
    assert u != "" ==> (blanks + u)[|blanks|] == u[0];
  }

  /** A sign after the blanks negates or keeps the number behind it. */
  lemma ParseSign(blanks: string, sign: char, u: string)
    requires (forall k :: 0 <= k < |blanks| ==> Blank(blanks[k])) && (sign == '-' || sign == '+')
    ensures ParseInt(blanks + ([sign] + u))
            == if LeadingNumber(u).None? then None else Some(if sign == '-' then -LeadingNumber(u).value else LeadingNumber(u).value)
  {
    var rest := [sign] + u;
    BlanksThen(blanks, rest);
    assert (blanks + rest)[|blanks|] == sign;
    assert (blanks + rest)[|blanks| + 1..] == u;
  }

  /** A printed number followed by anything but a digit. */
  lemma NumberThen(n: nat, rest: string)
    requires rest != "" ==> !IsDigit(rest[0])
    ensures LeadingNumber(Decimal(n) + rest) == Some(n)
    ensures var u := Decimal(n) + rest; u != "" && IsDigit(u[0])
  {
    LeadingDigitsThen(Decimal(n), rest);
    DecimalValue(n);
    assert IsDigit(Decimal(n)[0]);
  }

  /** Reading a printed number back: blanks before it and anything but a digit after it do not matter. */
  lemma ParseNumber(blanks: string, n: nat, rest: string)
    requires (forall k :: 0 <= k < |blanks| ==> Blank(blanks[k])) && (rest != "" ==> !IsDigit(rest[0]))
    ensures ParseInt(blanks + (Decimal(n) + rest)) == Some(n)
  {
    NumberThen(n, rest);
    ParseUnsigned(blanks, Decimal(n) + rest);
  }

  /** Without a digit there, it is no number. */
  lemma ParseNothing(blanks: string, u: string)
    requires (forall k :: 0 <= k < |blanks| ==> Blank(blanks[k])) && (u != "" ==> !IsDigit(u[0]))
    ensures u != "" && !Blank(u[0]) && u[0] != '-' && u[0] != '+' ==> ParseInt(blanks + u) == None
    ensures ParseInt(blanks + (['-'] + u)) == None && ParseInt(blanks + (['+'] + u)) == None
    ensures ParseInt(blanks) == None
  {
    ParseSign(blanks, '-', u);
    ParseSign(blanks, '+', u);
    if u != "" && !Blank(u[0]) && u[0] != '-' && u[0] != '+' {
      ParseUnsigned(blanks, u);
    }
    ParseUnsigned(blanks, "");
    assert blanks + "" == blanks;
  }

  /** Printing a natural number and reading it back. */
  lemma ParsePrinted(n: nat)
    ensures ParseInt(Decimal(n)) == Some(n)
  {
    ParseNumber("", n, "");
    assert "" + (Decimal(n) + "") == Decimal(n);
  }

  lemma DecimalInjective(m: nat, n: nat)
    requires Decimal(m) == Decimal(n)
    ensures m == n
  {
    DecimalValue(m);
    DecimalValue(n);
  }

  // ----- split ---------------------------------------------------------------------

  /** String.prototype.split on a single character. */
  function Split(s: string, sep: char): (parts: seq<string>)
    ensures |parts| >= 1
  {
    if s == "" then [""]
    else
      var rest := Split(s[1..], sep);
      if s[0] == sep then [""] + rest else [[s[0]] + rest[0]] + rest[1..]
  }

  /** Splitting undoes joining: the part before the first separator, then the rest. */
  lemma {:induction false} SplitFirst(a: string, b: string, sep: char)
    requires sep !in a
    ensures Split(a, sep) == [a]
    ensures Split(a + [sep] + b, sep) == [a] + Split(b, sep)
  {
    if a == "" {
      assert ("" + [sep] + b)[1..] == b;
    } else {
      SplitFirst(a[1..], b, sep);
      assert (a + [sep] + b)[1..] == a[1..] + [sep] + b;
      assert a == [a[0]] + a[1..];
    }
  }
}
