/** The numerals of misc/vsnprintf.c: twenty characters of scratch space, of which
    nineteen can hold digits. */
module Digits {

  /** The bases in use. */
  predicate IsBase(base: nat) {
    base == 8 || base == 10 || base == 16
  }

  function Power(base: nat, n: nat): nat {
    if n == 0 then 1 else base * Power(base, n - 1)
  }

  function Digit(d: nat, caps: bool): char
    requires d < 16
  {
    if caps then "0123456789ABCDEF"[d] else "0123456789abcdef"[d]
  }

  /** What a digit stands for. */
  function DigitValue(c: char): nat {
    if '0' <= c <= '9' then c as nat - '0' as nat
    else if 'a' <= c <= 'f' then c as nat - 'a' as nat + 10
    else if 'A' <= c <= 'F' then c as nat - 'A' as nat + 10
    else 0
  }

  /** What a string of digits stands for. */
  function Value(s: string, base: nat): nat
    decreases |s|
  {
    if s == "" then 0 else base * Value(s[..|s| - 1], base) + DigitValue(s[|s| - 1])
  }

  /** The usual numeral, without leading zeros. */
  function Numeral(u: nat, base: nat, caps: bool): string
    requires IsBase(base)
  {
    if u < base then [Digit(u, caps)] else Numeral(u / base, base, caps) + [Digit(u % base, caps)]
  }

  /** The digits fmtint prints: at most the last nineteen. */
  function Printed(u: nat, base: nat, caps: bool): string
    requires IsBase(base)
  {
    var n := Numeral(u, base, caps);
    if |n| < 20 then n else n[|n| - 19..]
  }

  lemma ValueSnoc(s: string, c: char, base: nat)
    ensures Value(s + [c], base) == base * Value(s, base) + DigitValue(c)
  {
    assert (s + [c])[..|s|] == s;
  }

  lemma DigitIsItsValue(d: nat, caps: bool)
    requires d < 16
    ensures DigitValue(Digit(d, caps)) == d
  {
  }

  /** Division by a base, one base at a time. */
  lemma Divided(u: nat, base: nat)
    requires IsBase(base)
    ensures base * (u / base) + u % base == u && u % base < base && (u >= base ==> 0 < u / base < u)
  {
    if base == 8 {
    } else if base == 10 {
    } else {
    }
  }

  lemma DividedBelow(u: nat, base: nat, p: nat)
    requires IsBase(base)
    ensures u / base < p <==> u < base * p
  {
    if base == 8 {
    } else if base == 10 {
    } else {
    }
  }

  lemma OneDigitNumeral(u: nat, base: nat, caps: bool)
    requires IsBase(base) && u < base
    ensures Value(Numeral(u, base, caps), base) == u
  {
    var c := Digit(u, caps);
    ValueSnoc("", c, base);
    assert "" + [c] == [c];
    DigitIsItsValue(u, caps);
  }

  lemma LongerNumeral(u: nat, base: nat, caps: bool)
    requires IsBase(base) && u >= base
    ensures u / base < u
    ensures Value(Numeral(u, base, caps), base) == base * Value(Numeral(u / base, base, caps), base) + u % base
  {
    Divided(u, base);
    var d := u % base;
    ValueSnoc(Numeral(u / base, base, caps), Digit(d, caps), base);
    DigitIsItsValue(d, caps);
  }

  lemma {:induction false} NumeralMeansItsNumber(u: nat, base: nat, caps: bool)
    requires IsBase(base)
    ensures Value(Numeral(u, base, caps), base) == u
  {
    if u < base {
      OneDigitNumeral(u, base, caps);
    } else {
      LongerNumeral(u, base, caps);
      NumeralMeansItsNumber(u / base, base, caps);
      Divided(u, base);
    }
  }

  lemma {:induction false} PowerPositive(base: nat, n: nat)
    requires IsBase(base)
    ensures Power(base, n) >= 1
  {
    if n > 0 {
      PowerPositive(base, n - 1);
      if base == 8 {
      } else if base == 10 {
      } else {
      }
    }
  }

  /** A numeral has at most n digits exactly when its number is below base^n. */
  lemma {:induction false} NumeralLength(u: nat, base: nat, caps: bool, n: nat)
    requires IsBase(base) && n >= 1
    ensures |Numeral(u, base, caps)| <= n <==> u < Power(base, n)
  {
    PowerPositive(base, n - 1);
    var p := Power(base, n - 1);
    DividedBelow(u, base, p);
    Divided(u, base);
    if u >= base {
      var q := u / base;
      if n == 1 {
        assert p == 1;
      } else {
        NumeralLength(q, base, caps, n - 1);
      }
    }
  }

  lemma Shifted(u: nat, q: nat, d: nat, base: nat, high: nat, p: nat, low: nat)
    requires IsBase(base) && u == base * q + d && q == high * p + low
    ensures u == high * (base * p) + (base * low + d)
  {
    if base == 8 {
    } else if base == 10 {
    } else {
    }
  }

  /** `low` is the remainder of `u`, in that a multiple of `m` is missing. */
  ghost predicate Remains(u: nat, m: nat, low: nat) {
    low < m && exists high: nat :: u == high * m + low
  }

  lemma RemainsShifted(u: nat, base: nat, p: nat, low: nat)
    requires IsBase(base) && Remains(u / base, p, low)
    ensures Remains(u, base * p, base * low + u % base)
  {
    Divided(u, base);
    var high: nat :| u / base == high * p + low;
    Shifted(u, u / base, u % base, base, high, p, low);
    if base == 8 {
    } else if base == 10 {
    } else {
    }
  }

  lemma {:induction false} LastAndOneMore(t: string, s: string, c: char, n: nat, base: nat, low: nat)
    requires s == t + [c] && 1 <= n <= |s| && Value(t[|t| - (n - 1)..], base) == low
    ensures Value(s[|s| - n..], base) == base * low + DigitValue(c)
  {
    ValueSnoc(t[|t| - (n - 1)..], c, base);
    assert s[|s| - n..] == t[|t| - (n - 1)..] + [c];
  }

  /** What the last n digits of u stand for. */
  function Low(u: nat, base: nat, n: nat): nat
    requires IsBase(base)
  {
    if n == 0 then 0 else base * Low(u / base, base, n - 1) + u % base
  }

  lemma {:induction false} LowOfSmall(u: nat, base: nat, n: nat)
    requires IsBase(base) && u < base && n >= 1
    ensures Low(u, base, n) == u
  {
    LowOfZero(base, n - 1);
    assert u / base == 0 && u % base == u;
  }

  lemma {:induction false} LowOfZero(base: nat, n: nat)
    requires IsBase(base)
    ensures Low(0, base, n) == 0
  {
    if n > 0 {
      LowOfZero(base, n - 1);
    }
  }

  lemma {:induction false} LastDigitsStep(u: nat, q: nat, d: nat, base: nat, caps: bool, n: nat)
    requires IsBase(base) && u >= base && q == u / base && d == u % base && 1 <= n <= |Numeral(u, base, caps)|
    requires var t := Numeral(q, base, caps); n <= |t| + 1 && Value(t[|t| - (n - 1)..], base) == Low(q, base, n - 1)
    ensures var s := Numeral(u, base, caps); Value(s[|s| - n..], base) == Low(u, base, n)
  {
    var s, t := Numeral(u, base, caps), Numeral(q, base, caps);
    var low := Low(q, base, n - 1);
    assert s == t + [Digit(d, caps)];
    DigitIsItsValue(d, caps);
    LastAndOneMore(t, s, Digit(d, caps), n, base, low);
    assert Low(u, base, n) == base * low + d;
  }

  lemma {:induction false} OneDigit(u: nat, base: nat, caps: bool)
    requires IsBase(base) && u < base
    ensures var s := Numeral(u, base, caps); |s| == 1 && Value(s[|s| - 1..], base) == Low(u, base, 1)
  {
    NumeralMeansItsNumber(u, base, caps);
    LowOfSmall(u, base, 1);
    var s := Numeral(u, base, caps);
    assert s[|s| - 1..] == s;
  }

  lemma {:induction false} LastDigits(u: nat, base: nat, caps: bool, n: nat)
    requires IsBase(base) && n <= |Numeral(u, base, caps)|
    ensures var s := Numeral(u, base, caps); Value(s[|s| - n..], base) == Low(u, base, n)
    decreases n
  {
    var s := Numeral(u, base, caps);
    if n == 0 {
      assert s[|s|..] == "";
    } else if u < base {
      OneDigit(u, base, caps);
    } else {
      LastDigits(u / base, base, caps, n - 1);
      LastDigitsStep(u, u / base, u % base, base, caps, n);
    }
  }

  /** The last n digits stand for the remainder of the number. */
  lemma {:induction false} LowRemains(u: nat, base: nat, n: nat)
    requires IsBase(base)
    ensures Remains(u, Power(base, n), Low(u, base, n))
  {
    if n == 0 {
      assert u == u * 1 + 0;
    } else {
      LowRemains(u / base, base, n - 1);
      RemainsShifted(u, base, Power(base, n - 1), Low(u / base, base, n - 1));
    }
  }

  lemma {:induction false} PrintedLow(u: nat, base: nat, caps: bool, n: nat)
    requires IsBase(base) && n == 19
    ensures Value(Printed(u, base, caps), base) == if |Numeral(u, base, caps)| <= n then u else Low(u, base, n)
  {
    if |Numeral(u, base, caps)| <= n {
      NumeralMeansItsNumber(u, base, caps);
    } else {
      LastDigits(u, base, caps, n);
    }
  }

  lemma SmallRemains(u: nat, p: nat, low: nat, value: nat)
    requires Remains(u, p, low) && value == if u < p then u else low
    ensures (value == u <==> u < p) && Remains(u, p, value)
  {
    assert u == 0 * p + u;
  }

  /** What is printed stands for the number exactly when that is below base^19; above,
      it stands for the remainder. */
  lemma {:induction false} PrintedMeansItsNumberIff(u: nat, base: nat, caps: bool)
    requires IsBase(base)
    ensures Value(Printed(u, base, caps), base) == u <==> u < Power(base, 19)
    ensures Remains(u, Power(base, 19), Value(Printed(u, base, caps), base))
  {
    NumeralLength(u, base, caps, 19);
    PrintedLow(u, base, caps, 19);
    LowRemains(u, base, 19);
    SmallRemains(u, Power(base, 19), Low(u, base, 19), Value(Printed(u, base, caps), base));
  }

  lemma Power19()
    ensures Power(10, 19) == 10000000000000000000
  {
    assert Power(10, 4) == 10000;
    assert Power(10, 8) == 100000000;
    assert Power(10, 12) == 1000000000000;
    assert Power(10, 16) == 10000000000000000;
  }

  /** The largest 64-bit number is printed without its first digit. */
  lemma LargestIsCut(caps: bool)
    ensures Value(Printed(18446744073709551615, 10, caps), 10) == 8446744073709551615
  {
    var u := 18446744073709551615;
    PrintedMeansItsNumberIff(u, 10, caps);
    Power19();
    var low := Value(Printed(u, 10, caps), 10);
    var high: nat :| u == high * 10000000000000000000 + low;
    assert high == 1;
  }
}
