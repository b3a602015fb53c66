/** The JavaScript string conversions the hook relies on: `toString(radix)` of a
    number or bigint, `padStart` with a one-character filler, and the inverse
    reading of a digit string. Digits above 9 are lower-case, as JavaScript
    writes them. */
module Radix {

  /** A radix the conversions below are used with (10 and 16). */
  type Base = b: nat | 2 <= b <= 16 witness 10

  function Pow(b: nat, k: nat): nat {
    if k == 0 then 1 else b * Pow(b, k - 1)
  }

  /** Value of one digit character, or -1 for a character that is not a digit. */
  function DigitValue(c: char): (v: int)
    ensures -1 <= v < 16
  {
    if '0' <= c <= '9' then c as int - '0' as int
    else if 'a' <= c <= 'f' then c as int - 'a' as int + 10
    else -1
  }

  /** The lower-case character of digit `d`. */
  function DigitChar(d: nat): (c: char)
    requires d < 16
    ensures DigitValue(c) == d
  {
    if d < 10 then ('0' as int + d) as char else ('a' as int + d - 10) as char
  }

  predicate IsDigit(c: char, base: Base) {
    0 <= DigitValue(c) < base
  }

  predicate AllDigits(s: string, base: Base) {
    forall i :: 0 <= i < |s| ==> IsDigit(s[i], base)
  }

  /** `n.toString(base)` for a non-negative `n`: the digits of `n`, most significant
      first, without leading zeros ("0" for zero). */
  function Digits(n: nat, base: Base): (s: string)
    ensures |s| >= 1 && AllDigits(s, base)
    ensures |s| > 1 ==> s[0] != '0'
    decreases n
  {
    if n < base then [DigitChar(n)]
    else
      DivMod(n, base);
      Digits(n / base, base) + [DigitChar(n % base)]
  }

  /** Euclidean division facts the digit recursion rests on. */
  lemma DivMod(n: nat, b: Base)
    ensures n % b < b && n / b * b + n % b == n
    ensures n >= b ==> 1 <= n / b < n
  {
  }

  /** `BigInt.prototype.toString(base)` on any integer, and `Number.prototype.toString(base)`
      on the small integers the labels format (below 10^21, where numbers switch to
      exponent notation): the digits of the magnitude, after a minus sign when negative. */
  function ToRadixString(n: int, base: Base): (s: string)
    ensures |s| >= 1
    ensures n >= 0 ==> AllDigits(s, base) && s == Digits(n, base)
    ensures n < 0 ==> s[0] == '-' && s[1..] == Digits(-n, base)
  {
    if n < 0 then "-" + Digits(-n, base) else Digits(n, base)
  }

  /** `k` copies of `c`. */
  function Repeat(c: char, k: nat): (s: string)
    ensures |s| == k && forall i :: 0 <= i < k ==> s[i] == c
  {
    if k == 0 then [] else [c] + Repeat(c, k - 1)
  }

  /** `s.padStart(width, fill)` with a one-character `fill`: `s` itself when it is
      already `width` long or longer, otherwise `s` behind enough fillers to make
      it exactly `width` long. */
  function PadStart(s: string, width: nat, fill: char): (r: string)
    ensures |r| == if |s| < width then width else |s|
    ensures r[|r| - |s|..] == s
    ensures forall i :: 0 <= i < |r| - |s| ==> r[i] == fill
  {
    if |s| < width then Repeat(fill, width - |s|) + s else s
  }

  /** The number a digit string denotes in `base` (0 for the empty string). */
  function Value(s: string, base: Base): nat
    requires AllDigits(s, base)
  {
    if s == [] then 0
    else Value(s[..|s| - 1], base) * base + DigitValue(s[|s| - 1])
  }

  /** Reading the digits back gives the number: `Value` inverts `Digits`. */
  lemma {:induction false} ValueOfDigits(n: nat, base: Base)
    ensures Value(Digits(n, base), base) == n
    decreases n
  {
    if n >= base {
      var s := Digits(n, base);
      DivMod(n, base);
      assert s[..|s| - 1] == Digits(n / base, base);
      ValueOfDigits(n / base, base);
      assert Value(s, base) == (n / base) * base + n % base;
    }
  }

  /** Leading zeros do not change the value. */
  lemma {:induction false} ValueIgnoresLeadingZeros(k: nat, s: string, base: Base)
    requires AllDigits(s, base)
    ensures AllDigits(Repeat('0', k) + s, base)
    ensures Value(Repeat('0', k) + s, base) == Value(s, base)
    decreases |s|
  {
    var t := Repeat('0', k) + s;
    assert AllDigits(t, base) by {
      forall i | 0 <= i < |t| ensures IsDigit(t[i], base) {
        if i < k { assert t[i] == '0'; } else { assert t[i] == s[i - k]; }
      }
    }
    if s == [] {
      assert t == Repeat('0', k);
      ZerosValue(k, base);
    } else {
      assert t[..|t| - 1] == Repeat('0', k) + s[..|s| - 1];
      ValueIgnoresLeadingZeros(k, s[..|s| - 1], base);
    }
  }

  lemma {:induction false} ZerosValue(k: nat, base: Base)
    ensures AllDigits(Repeat('0', k), base) && Value(Repeat('0', k), base) == 0
  {
    if k > 0 {
      var z := Repeat('0', k);
      assert z[..k - 1] == Repeat('0', k - 1);
      ZerosValue(k - 1, base);
    }
  }

  /** The digit string of `n` is at most `k` long exactly when `n < base^k`. */
  lemma {:induction false} DigitsLength(n: nat, base: Base, k: nat)
    requires k >= 1
    ensures |Digits(n, base)| <= k <==> n < Pow(base, k)
    decreases n
  {
    var p := Pow(base, k - 1);
    assert Pow(base, k) == base * p;
    PowPositive(base, k - 1);
    if n < base {
      assert |Digits(n, base)| == 1;
      AtLeastFactor(base, p);
    } else {
      DivMod(n, base);
      assert |Digits(n, base)| == |Digits(n / base, base)| + 1;
      if k == 1 {
        assert p == 1;
      } else {
        DigitsLength(n / base, base, k - 1);
        DivBound(n, base, p);
      }
    }
  }

  lemma AtLeastFactor(b: Base, p: nat)
    requires p >= 1
    ensures b <= b * p
  {
  }

  lemma PowPositive(b: Base, k: nat)
    ensures Pow(b, k) >= 1
  {
    if k > 0 { PowPositive(b, k - 1); }
  }

  lemma DivBound(n: nat, b: Base, p: nat)
    ensures n / b < p <==> n < b * p
  {
  }

  /** b^(x+y) = b^x * b^y. */
  lemma {:induction false} PowAdd(b: nat, x: nat, y: nat)
    ensures Pow(b, x + y) == Pow(b, x) * Pow(b, y)
  {
    if y > 0 {
      PowAdd(b, x, y - 1);
      calc {
        Pow(b, x + y);
        b * Pow(b, x + y - 1);
        b * (Pow(b, x) * Pow(b, y - 1));
        Pow(b, x) * (b * Pow(b, y - 1));
        Pow(b, x) * Pow(b, y);
      }
    }
  }

  /** Squaring a power of two doubles its exponent. */
  lemma PowSquare(k: nat, v: nat)
    requires Pow(2, k) == v
    ensures Pow(2, 2 * k) == v * v
  {
    PowAdd(2, k, k);
  }

  /** 16^k = 2^(4k): sixty-four hex digits hold exactly the numbers below 2^256. */
  lemma {:induction false} HexPowIsBinaryPow(k: nat)
    ensures Pow(16, k) == Pow(2, 4 * k)
  {
    if k > 0 {
      HexPowIsBinaryPow(k - 1);
      var m := 4 * (k - 1);
      assert Pow(2, m + 4) == 2 * Pow(2, m + 3) == 4 * Pow(2, m + 2) == 8 * Pow(2, m + 1) == 16 * Pow(2, m);
    }
  }
}
