/** The two C library conversions the journal relies on: `atoi`, which turns a
    menu token or the `-m` argument into a command number, and `printf("%d")`,
    which renders a number back as text. Both are modelled on unbounded
    integers; `InIntRange` says when a parsed value fits a C `int`. */
module CString {

  /** Bounds of a 32-bit C `int`. */
  const INT_MIN: int := -0x8000_0000
  const INT_MAX: int := 0x7FFF_FFFF

  predicate InIntRange(n: int) { INT_MIN <= n <= INT_MAX }

  /** `isspace` in the "C" locale: space, tab, newline, vertical tab, form feed, carriage return. */
  predicate IsSpace(c: char) { c == ' ' || '\t' <= c <= '\r' }

  predicate IsDigit(c: char) { '0' <= c <= '9' }

  predicate AllDigits(s: string) { forall i :: 0 <= i < |s| ==> IsDigit(s[i]) }

  function DigitValue(c: char): (d: nat)
    requires IsDigit(c)
    ensures d < 10
  {
    c as int - '0' as int
  }

  function DigitChar(d: nat): (c: char)
    requires d < 10
    ensures IsDigit(c) && DigitValue(c) == d
  {
    (d + '0' as int) as char
  }

  function Pow10(n: nat): (p: nat)
    ensures p >= 1
  {
    if n == 0 then 1 else 10 * Pow10(n - 1)
  }

  /** What is left of `s` once `atoi` has skipped the leading white space. */
  function SkipSpace(s: string): (r: string)
    ensures |r| <= |s|
    ensures forall i :: 0 <= i < |s| - |r| ==> IsSpace(s[i])
    ensures r == [] || !IsSpace(r[0])
  {
    if |s| > 0 && IsSpace(s[0]) then SkipSpace(s[1..]) else s
  }

  /** What `SkipSpace` leaves is the tail of its argument. */
  lemma {:induction false} SkipSpaceSuffix(s: string)
    ensures SkipSpace(s) == s[|s| - |SkipSpace(s)|..]
  {
    if |s| > 0 && IsSpace(s[0]) {
      SkipSpaceSuffix(s[1..]);
      assert s[1..][|s| - 1 - |SkipSpace(s)|..] == s[|s| - |SkipSpace(s)|..];
    } else {
      assert s[0..] == s;
    }
  }

  /** Length of the run of decimal digits that starts `s`. */
  function DigitRun(s: string): (n: nat)
    ensures n <= |s| && AllDigits(s[..n])
    ensures n < |s| ==> !IsDigit(s[n])
  {
    if |s| > 0 && IsDigit(s[0]) then 1 + DigitRun(s[1..]) else 0
  }

  /** The value of a string of decimal digits, most significant digit first. */
  function DecimalValue(d: string): (v: nat)
    requires AllDigits(d)
    ensures v < Pow10(|d|)
  {
    if |d| == 0 then 0 else DecimalValue(d[..|d| - 1]) * 10 + DigitValue(d[|d| - 1])
  }

  /** True when the first character after the white space is a minus sign. */
  predicate Negative(s: string) {
    var t := SkipSpace(s);
    |t| > 0 && t[0] == '-'
  }

  /** The text `atoi` reads its digits from: after the white space and an optional sign. */
  function AfterSign(s: string): string {
    var t := SkipSpace(s);
    if |t| > 0 && (t[0] == '-' || t[0] == '+') then t[1..] else t
  }

  /** `atoi`: optional white space, an optional sign, then the longest run of
      decimal digits; 0 when there is no digit at all. */
  function Atoi(s: string): (r: int)
    ensures var p: int := Pow10(DigitRun(AfterSign(s))); -p < r < p
    ensures DigitRun(AfterSign(s)) == 0 ==> r == 0
    ensures r < 0 ==> Negative(s)
  {
    var m := AfterSign(s);
    var v: int := DecimalValue(m[..DigitRun(m)]);
    if Negative(s) then -v else v
  }

  /** `printf("%d")` of a natural number: its decimal digits. */
  function Decimal(n: nat): (s: string)
    ensures 0 < |s| && AllDigits(s)
  {
    if n < 10 then [DigitChar(n)] else Decimal(n / 10) + [DigitChar(n % 10)]
  }

  /** `printf("%d")` of an integer: a minus sign for negative values, then the digits. */
  function Show(i: int): (s: string)
    ensures 0 < |s| && (s[0] == '-' <==> i < 0)
  {
    if i < 0 then "-" + Decimal(-i) else Decimal(i)
  }

  lemma {:induction false} DecimalValueOfDecimal(n: nat)
    ensures DecimalValue(Decimal(n)) == n
  {
    if n >= 10 {
      var s := Decimal(n);
      DecimalValueOfDecimal(n / 10);
      assert s[..|s| - 1] == Decimal(n / 10);
    }
  }

  /** The digits `atoi` reads from a string of digits are all of them. */
  lemma DigitsReadWhole(d: string)
    requires AllDigits(d)
    ensures DigitRun(d) == |d| && DecimalValue(d[..DigitRun(d)]) == DecimalValue(d)
  {
    assert d[..|d|] == d;
  }

  /** `atoi` reads back every number `printf("%d")` writes. */
  lemma AtoiShow(i: int)
    ensures Atoi(Show(i)) == i
  {
    var s := Show(i);
    var n: nat := if i < 0 then -i else i;
    var d := Decimal(n);
    DecimalValueOfDecimal(n);
    DigitsReadWhole(d);
    assert !IsSpace(s[0]);
    assert SkipSpace(s) == s;
    if i < 0 {
      assert s[1..] == d;
    }
    assert AfterSign(s) == d;
  }

  /** `atoi` skips exactly the white space in front of the first other character. */
  lemma {:induction false} SkipSpacePrefix(ws: string, t: string)
    requires forall i :: 0 <= i < |ws| ==> IsSpace(ws[i])
    requires t == [] || !IsSpace(t[0])
    ensures SkipSpace(ws + t) == t
  {
    if |ws| > 0 {
      assert (ws + t)[1..] == ws[1..] + t;
      SkipSpacePrefix(ws[1..], t);
    } else {
      assert ws + t == t;
    }
  }

  /** The digit run of a string is exactly its leading digits, whatever follows them. */
  lemma {:induction false} DigitRunPrefix(d: string, rest: string)
    requires AllDigits(d)
    requires rest == [] || !IsDigit(rest[0])
    ensures DigitRun(d + rest) == |d| && (d + rest)[..|d|] == d
  {
    if |d| > 0 {
      assert (d + rest)[1..] == d[1..] + rest;
      DigitRunPrefix(d[1..], rest);
    } else {
      assert d + rest == rest;
    }
  }

  /** After the white space, an optional sign is consumed and decides the sign of the result. */
  lemma AfterSignOf(ws: string, sign: string, u: string)
    requires forall i :: 0 <= i < |ws| ==> IsSpace(ws[i])
    requires sign == "" || sign == "+" || sign == "-"
    requires 0 < |u| && IsDigit(u[0])
    ensures AfterSign(ws + (sign + u)) == u
    ensures Negative(ws + (sign + u)) <==> sign == "-"
  {
    SkipSpacePrefix(ws, sign + u);
    if sign != "" {
      assert (sign + u)[1..] == u;
    }
  }

  /** `atoi` on any text: white space, an optional '+' or '-', a run of digits and
      anything that does not start with a digit gives the value of the digits,
      negated after '-'; the text after the digits is ignored. */
  lemma AtoiReadsPrefix(ws: string, sign: string, digits: string, rest: string)
    requires forall i :: 0 <= i < |ws| ==> IsSpace(ws[i])
    requires sign == "" || sign == "+" || sign == "-"
    requires 0 < |digits| && AllDigits(digits)
    requires rest == [] || !IsDigit(rest[0])
    ensures Atoi(ws + (sign + (digits + rest))) == if sign == "-" then -(DecimalValue(digits) as int) else DecimalValue(digits)
  {
    var u := digits + rest;
    assert u[0] == digits[0];
    AfterSignOf(ws, sign, u);
    DigitRunPrefix(digits, rest);
  }
}
