/** printf's %d and atoi. */
module Decimal {

  const INT_MIN := -0x8000_0000
  const INT_MAX := 0x7fff_ffff

  predicate IsDigit(c: char) { '0' <= c <= '9' }

  predicate IsSpace(c: char) { c in " \t\n\r" || c == 11 as char || c == 12 as char }

  function DigitChar(d: nat): (c: char)
    requires d < 10
    ensures IsDigit(c)
  {
    '0' + d as char
  }

  function DigitOf(c: char): (d: nat)
    requires IsDigit(c)
    ensures d < 10 && DigitChar(d) == c
  {
    c as int - '0' as int
  }

  function NatText(n: nat): string {
    if n < 10 then [DigitChar(n)] else NatText(n / 10) + [DigitChar(n % 10)]
  }

  /** %d */
  function IntText(n: int): string { if n < 0 then "-" + NatText(-n) else NatText(n) }

  /** The leading digits of s, appended to what has been read so far. */
  function DigitsValue(s: string, sofar: nat): nat {
    if s == "" || !IsDigit(s[0]) then sofar else DigitsValue(s[1..], 10 * sofar + DigitOf(s[0]))
  }

  function SkipSpace(s: string): string {
    if s != "" && IsSpace(s[0]) then SkipSpace(s[1..]) else s
  }

  function Signed(t: string): int {
    if t != "" && t[0] == '-' then -(DigitsValue(t[1..], 0) as int)
    else if t != "" && t[0] == '+' then DigitsValue(t[1..], 0)
    else DigitsValue(t, 0)
  }

  /** atoi, before its result is squeezed into an int. */
  function Atoi(s: string): int { Signed(SkipSpace(s)) }

  lemma {:induction false} DigitsAppend(a: string, c: char, sofar: nat)
    requires (forall i :: 0 <= i < |a| ==> IsDigit(a[i])) && IsDigit(c)
    ensures DigitsValue(a + [c], sofar) == 10 * DigitsValue(a, sofar) + DigitOf(c)
  {
    if a != "" {
      assert (a + [c])[1..] == a[1..] + [c];
      DigitsAppend(a[1..], c, 10 * sofar + DigitOf(a[0]));
    } else {
      assert [c][1..] == "";
    }
  }

  lemma {:induction false} NatTextReadsBack(n: nat)
    ensures NatText(n) != "" && forall i :: 0 <= i < |NatText(n)| ==> IsDigit(NatText(n)[i])
    ensures DigitsValue(NatText(n), 0) == n
  {
    if n >= 10 {
      NatTextReadsBack(n / 10);
      DigitsAppend(NatText(n / 10), DigitChar(n % 10), 0);
    } else {
      assert [DigitChar(n)][1..] == "";
    }
  }

  /** atoi undoes %d, and the text has no character that separates or quotes. */
  lemma IntTextReadsBack(n: int)
    ensures Atoi(IntText(n)) == n
    ensures IntText(n) != "" && ' ' !in IntText(n) && '"' !in IntText(n)
  {
    var m := if n < 0 then -n else n;
    NatTextReadsBack(m);
    assert n < 0 ==> IntText(n)[1..] == NatText(m);
    forall i | 0 <= i < |IntText(n)| ensures IntText(n)[i] == '-' || IsDigit(IntText(n)[i]) {
      if n < 0 && i > 0 { assert IntText(n)[i] == NatText(m)[i - 1]; }
    }
  }

  function Pow10(k: nat): nat { if k == 0 then 1 else 10 * Pow10(k - 1) }

  lemma {:induction false} NatTextLength(n: nat, k: nat)
    requires k >= 1 && n < Pow10(k)
    ensures |NatText(n)| <= k
  {
    if n >= 10 {
      NatTextLength(n / 10, k - 1);
    }
  }

  lemma IntTextLength(n: int)
    requires INT_MIN <= n <= INT_MAX
    ensures |IntText(n)| <= 11
  {
    assert Pow10(10) == 10000000000 by {
      assert Pow10(2) == 100;
      assert Pow10(4) == 100 * Pow10(2);
      assert Pow10(6) == 100 * Pow10(4);
      assert Pow10(8) == 100 * Pow10(6);
    }
    NatTextLength(if n < 0 then -n else n, 10);
  }

  // ---- what atoi reads ----

  /** A text of digits as a number in base ten. */
  function Positional(digits: string): nat
    requires forall i :: 0 <= i < |digits| ==> '0' <= digits[i] <= '9'
  {
    if digits == "" then 0 else 10 * Positional(digits[..|digits| - 1]) + (digits[|digits| - 1] as int - 48)
  }

  lemma {:induction false} DigitsStop(digits: string, rest: string, sofar: nat)
    requires (forall i :: 0 <= i < |digits| ==> IsDigit(digits[i])) && (rest != "" ==> !IsDigit(rest[0]))
    ensures DigitsValue(digits + rest, sofar) == DigitsValue(digits, sofar)
  {
    if digits == "" {
      assert "" + rest == rest;
    } else {
      assert (digits + rest)[1..] == digits[1..] + rest;
      DigitsStop(digits[1..], rest, 10 * sofar + DigitOf(digits[0]));
    }
  }

  lemma {:induction false} DigitsArePositional(digits: string)
    requires forall i :: 0 <= i < |digits| ==> '0' <= digits[i] <= '9'
    ensures DigitsValue(digits, 0) == Positional(digits)
  {
    if digits != "" {
      var n := |digits| - 1;
      DigitsArePositional(digits[..n]);
      DigitsAppend(digits[..n], digits[n], 0);
      assert digits == digits[..n] + [digits[n]];
    }
  }

  /** What isspace accepts. */
  predicate WhiteSpace(s: string) {
    forall i :: 0 <= i < |s| ==> s[i] in " \t\n\r" || s[i] == 11 as char || s[i] == 12 as char
  }

  lemma {:induction false} SpaceIsSkipped(space: string, t: string)
    requires WhiteSpace(space) && t != "" && !IsSpace(t[0])
    ensures SkipSpace(space + t) == t
  {
    if space == "" {
      assert "" + t == t;
    } else {
      assert (space + t)[1..] == space[1..] + t;
      SpaceIsSkipped(space[1..], t);
    }
  }

  lemma SignedNumber(sign: string, n: string)
    requires n != "" && IsDigit(n[0]) && (sign == "" || sign == "+" || sign == "-")
    ensures sign + n != "" && !IsSpace((sign + n)[0])
    ensures Signed(sign + n) == if sign == "-" then -(DigitsValue(n, 0) as int) else DigitsValue(n, 0)
  {
    if sign == "" { assert sign + n == n; } else { assert (sign + n)[0] == sign[0] && (sign + n)[1..] == n; }
  }

  /** atoi: white space, a sign or none, digits in base ten, and whatever follows is ignored. */
  lemma AtoiReads(space: string, sign: string, digits: string, rest: string)
    requires WhiteSpace(space)
    requires digits != "" && (forall i :: 0 <= i < |digits| ==> '0' <= digits[i] <= '9')
    requires (sign == "" || sign == "+" || sign == "-") && (rest != "" ==> !('0' <= rest[0] <= '9'))
    ensures Atoi(space + (sign + (digits + rest))) ==
            if sign == "-" then -(Positional(digits) as int) else Positional(digits)
  {
    DigitsStop(digits, rest, 0);
    DigitsArePositional(digits);
    SignedNumber(sign, digits + rest);
    SpaceIsSkipped(space, sign + (digits + rest));
  }

  /** %d writes no leading zero. */
  lemma {:induction false} NoLeadingZero(n: nat)
    ensures NatText(n) != "" && IsDigit(NatText(n)[0]) && (NatText(n)[0] == '0' <==> n == 0)
  {
    if n >= 10 { NoLeadingZero(n / 10); }
  }

  /** %d writes a minus sign exactly in front of the negative numbers, and the shortest digits. */
  lemma SignIff(n: int)
    ensures IntText(n) != "" && (IntText(n)[0] == '-' <==> n < 0)
    ensures n != 0 ==> IntText(n)[if n < 0 then 1 else 0..] != "" && IntText(n)[if n < 0 then 1 else 0] != '0'
    ensures IntText(0) == "0"
  {
    NoLeadingZero(if n < 0 then -n else n);
  }
}
