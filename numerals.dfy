/** Hexadecimal and decimal numerals as Python writes and reads them: `hex(n)` without its
    `0x` prefix, `eval("0x" + s)`, `str(n)` and a decimal integer literal read by `eval`. */
module Numerals {
  import opened Results

  function Pow16(k: nat): (p: nat)
    ensures p >= 1
  {
    if k == 0 then 1 else 16 * Pow16(k - 1)
  }

  // ---------------------------------------------------------------------------
  // Hexadecimal

  /** A digit Python's hexadecimal literals accept (either case). */
  predicate IsHexDigit(c: char)
  {
    '0' <= c <= '9' || 'a' <= c <= 'f' || 'A' <= c <= 'F'
  }

  function DigitValue(c: char): (d: nat)
    requires IsHexDigit(c)
    ensures d < 16
  {
    if '0' <= c <= '9' then c as int - '0' as int
    else if 'a' <= c <= 'f' then c as int - 'a' as int + 10
    else c as int - 'A' as int + 10
  }

  /** The lower-case digit `hex()` writes for a value below 16. */
  function HexDigit(d: nat): (c: char)
    requires d < 16
    ensures IsHexDigit(c) && DigitValue(c) == d
  {
    if d < 10 then ('0' as int + d) as char else ('a' as int + d - 10) as char
  }

  predicate AllHex(s: string)
  {
    forall i :: 0 <= i < |s| ==> IsHexDigit(s[i])
  }

  /** The value of a string of hexadecimal digits, most significant first. */
  function HexValue(s: string): nat
    requires AllHex(s)
    decreases |s|
  {
    if s == [] then 0 else HexValue(s[..|s| - 1]) * 16 + DigitValue(s[|s| - 1])
  }

  /** `hex(n)` with its `0x` prefix removed: lower-case digits without leading zeros,
      and the single digit `0` for zero. */
  function NatHex(n: nat): (r: string)
    ensures AllHex(r) && |r| >= 1
  {
    if n < 16 then [HexDigit(n)] else NatHex(n / 16) + [HexDigit(n % 16)]
  }

  /** A further digit multiplies the number by sixteen and adds its value. */
  lemma NatHexDigit(n: nat, d: nat, digits: string)
    requires 1 <= n && d < 16 && NatHex(n) == digits
    ensures NatHex(16 * n + d) == digits + [HexDigit(d)]
  {
    assert (16 * n + d) / 16 == n && (16 * n + d) % 16 == d;
  }

  /** `eval("0x" + s)`: a value when `s` is a non-empty string of hexadecimal digits, and
      a syntax error (None) otherwise. */
  function EvalHex(s: string): Option<nat>
  {
    if s != [] && AllHex(s) then Some(HexValue(s)) else None
  }

  /** `'0' * k`. */
  function Zeros(k: nat): (r: string)
    ensures |r| == k && AllHex(r)
    ensures forall i :: 0 <= i < k ==> r[i] == '0'
  {
    if k == 0 then "" else Zeros(k - 1) + "0"
  }

  lemma {:induction false} NatHexValue(n: nat)
    ensures HexValue(NatHex(n)) == n
    decreases n
  {
    if n >= 16 {
      NatHexValue(n / 16);
      var s := NatHex(n);
      assert s[..|s| - 1] == NatHex(n / 16);
    }
  }

  /** Leading zeros do not change the value of a hexadecimal numeral. */
  lemma {:induction false} LeadingZeros(k: nat, s: string)
    requires AllHex(s)
    ensures AllHex(Zeros(k) + s)
    ensures HexValue(Zeros(k) + s) == HexValue(s)
    decreases |s|
  {
    var z := Zeros(k) + s;
    if s == [] {
      assert z == Zeros(k);
      ZerosValue(k);
    } else {
      assert z[..|z| - 1] == Zeros(k) + s[..|s| - 1];
      LeadingZeros(k, s[..|s| - 1]);
    }
  }

  lemma {:induction false} ZerosValue(k: nat)
    ensures HexValue(Zeros(k)) == 0
    decreases k
  {
    if k > 0 {
      var z := Zeros(k);
      assert z[..k - 1] == Zeros(k - 1);
      ZerosValue(k - 1);
    }
  }

  /** The value of a concatenation: the left part shifted by the digits of the right. */
  lemma {:induction false} HexValueConcat(a: string, b: string)
    requires AllHex(a) && AllHex(b)
    ensures AllHex(a + b)
    ensures HexValue(a + b) == HexValue(a) * Pow16(|b|) + HexValue(b)
    decreases |b|
  {
    if b == [] {
      assert a + b == a;
    } else {
      var ab := a + b;
      assert ab[..|ab| - 1] == a + b[..|b| - 1];
      assert ab[|ab| - 1] == b[|b| - 1];
      HexValueConcat(a, b[..|b| - 1]);
      ShiftStep(HexValue(a), Pow16(|b| - 1), HexValue(b[..|b| - 1]), DigitValue(b[|b| - 1]));
    }
  }

  lemma ShiftStep(x: nat, p: nat, y: nat, d: nat)
    ensures (x * p + y) * 16 + d == x * (16 * p) + (y * 16 + d)
  {
  }

  /** A numeral of k digits is below 16^k. */
  lemma {:induction false} HexValueBound(s: string)
    requires AllHex(s)
    ensures HexValue(s) < Pow16(|s|)
    decreases |s|
  {
    if s != [] {
      HexValueBound(s[..|s| - 1]);
    }
  }

  /** `hex(n)` has at most k digits exactly when n is below 16^k. */
  lemma {:induction false} NatHexLength(n: nat, k: nat)
    requires k >= 1
    ensures |NatHex(n)| <= k <==> n < Pow16(k)
    decreases n
  {
    if n >= 16 {
      if k == 1 {
        assert Pow16(1) == 16;
      } else {
        NatHexLength(n / 16, k - 1);
        assert n / 16 < Pow16(k - 1) <==> n < 16 * Pow16(k - 1);
      }
    } else {
      assert Pow16(k) >= 16 by {
        assert Pow16(k) == 16 * Pow16(k - 1);
      }
    }
  }

  // ---------------------------------------------------------------------------
  // Decimal

  predicate IsDecDigit(c: char)
  {
    '0' <= c <= '9'
  }

  predicate AllDec(s: string)
  {
    forall i :: 0 <= i < |s| ==> IsDecDigit(s[i])
  }

  function DecValue(s: string): nat
    requires AllDec(s)
    decreases |s|
  {
    if s == [] then 0 else DecValue(s[..|s| - 1]) * 10 + (s[|s| - 1] as int - '0' as int)
  }

  /** `str(n)` for a natural number: decimal digits with no leading zero. */
  function NatToDecimal(n: nat): (r: string)
    ensures AllDec(r) && |r| >= 1
    ensures r[0] == '0' <==> n == 0
  {
    if n < 10 then [('0' as int + n) as char]
    else NatToDecimal(n / 10) + [('0' as int + n % 10) as char]
  }

  /** `eval(s)` on a decimal integer literal: Python accepts a non-empty string of digits
      that has no leading zero, or consists of zeros only; anything else is an error. */
  function ParseDecimal(s: string): Option<nat>
  {
    if s != [] && AllDec(s) && (s[0] != '0' || forall i :: 0 <= i < |s| ==> s[i] == '0')
    then Some(DecValue(s))
    else None
  }

  lemma {:induction false} NatToDecimalValue(n: nat)
    ensures DecValue(NatToDecimal(n)) == n
    decreases n
  {
    if n >= 10 {
      NatToDecimalValue(n / 10);
      var s := NatToDecimal(n);
      assert s[..|s| - 1] == NatToDecimal(n / 10);
    }
  }

  /** Reading back what `str` wrote gives the number: `eval(str(n)) == n`. */
  lemma ParseDecimalRoundTrip(n: nat)
    ensures ParseDecimal(NatToDecimal(n)) == Some(n)
  {
    NatToDecimalValue(n);
  }

  /** `str(n)` for any integer: a minus sign before the digits of a negative number. */
  function IntToDecimal(n: int): (r: string)
    ensures |r| >= 1
    ensures r[0] == '-' <==> n < 0
  {
    if n < 0 then "-" + NatToDecimal(-n) else NatToDecimal(n)
  }

  /** `eval(s)` on an optionally negated decimal integer literal. */
  function ParseInteger(s: string): Option<int>
  {
    if s != [] && s[0] == '-' then
      match ParseDecimal(s[1..])
      case Some(v) => Some(-(v as int))
      case None => None
    else
      match ParseDecimal(s)
      case Some(v) => Some(v as int)
      case None => None
  }

  /** Reading back what `str` wrote gives the integer, negative or not. */
  lemma ParseIntegerRoundTrip(n: int)
    ensures ParseInteger(IntToDecimal(n)) == Some(n)
  {
    var s := IntToDecimal(n);
    if n < 0 {
      assert s == "-" + NatToDecimal(-n);
      assert s[1..] == NatToDecimal(-n);
      ParseDecimalRoundTrip(-n);
      assert ParseDecimal(s[1..]) == Some(-n);
    } else {
      assert s == NatToDecimal(n);
      assert IsDecDigit(s[0]);
      ParseDecimalRoundTrip(n);
    }
  }
}
