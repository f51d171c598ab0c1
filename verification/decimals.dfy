/** Decimal text of natural numbers, as Go's strconv and fmt write and read it. */
module Decimals {
  predicate IsDigit(c: char) {
    '0' <= c <= '9'
  }

  predicate AllDigits(s: string) {
    forall i :: 0 <= i < |s| ==> IsDigit(s[i])
  }

  function DigitValue(c: char): nat
    requires IsDigit(c)
  {
    c as int - '0' as int
  }

  function Digit(d: nat): (c: char)
    requires d < 10
    ensures IsDigit(c) && DigitValue(c) == d
  {
    "0123456789"[d]
  }

  function Parse(s: string): nat
    requires AllDigits(s)
  {
    if s == [] then 0 else 10 * Parse(s[..|s| - 1]) + DigitValue(s[|s| - 1])
  }

  function Format(n: nat): (s: string)
    ensures s != [] && AllDigits(s)
    ensures n > 0 ==> s[0] != '0'
  {
    if n < 10 then [Digit(n)] else Format(n / 10) + [Digit(n % 10)]
  }

  lemma {:induction false} ParseFormat(n: nat)
    ensures Parse(Format(n)) == n
  {
    var s := Format(n);
    if n < 10 {
      assert s[..0] == [];
    } else {
      ParseFormat(n / 10);
      assert s[..|s| - 1] == Format(n / 10);
    }
  }

  function Power10(w: nat): (p: nat)
    ensures p > 0
  {
    if w == 0 then 1 else 10 * Power10(w - 1)
  }

  lemma {:induction false} ParseBound(s: string)
    requires AllDigits(s)
    ensures Parse(s) < Power10(|s|)
  {
    if s != [] {
      ParseBound(s[..|s| - 1]);
    }
  }

  function Zeros(n: nat): (s: string)
    ensures |s| == n && AllDigits(s)
  {
    seq(n, _ => '0')
  }

  lemma {:induction false} ParseZeros(n: nat, s: string)
    requires AllDigits(s)
    ensures AllDigits(Zeros(n) + s) && Parse(Zeros(n) + s) == Parse(s)
  {
    var t := Zeros(n) + s;
    if s == [] {
      if n > 0 {
        ParseZeros(n - 1, []);
        assert t[..|t| - 1] == Zeros(n - 1) + [];
      }
    } else {
      ParseZeros(n, s[..|s| - 1]);
      assert t[..|t| - 1] == Zeros(n) + s[..|s| - 1];
    }
  }

  /** A number below 10^w has at most w digits. */
  lemma {:induction false} FormatLength(n: nat, w: nat)
    requires w > 0
    ensures |Format(n)| <= w <==> n < Power10(w)
  {
    if n < 10 {
      assert Power10(1) == 10;
      PowerMonotone(1, w);
    } else if w == 1 {
      assert Power10(1) == 10;
    } else {
      FormatLength(n / 10, w - 1);
    }
  }

  lemma {:induction false} PowerMonotone(v: nat, w: nat)
    requires v <= w
    ensures Power10(v) <= Power10(w)
  {
    if v < w {
      PowerMonotone(v, w - 1);
    }
  }

  /** Equal-width digit strings with the same number are equal. */
  lemma {:induction false} ParseInjective(s: string, t: string)
    requires AllDigits(s) && AllDigits(t) && |s| == |t|
    requires Parse(s) == Parse(t)
    ensures s == t
  {
    if s != [] {
      var n := |s| - 1;
      assert DigitValue(s[n]) == DigitValue(t[n]);
      ParseInjective(s[..n], t[..n]);
      assert s == s[..n] + [s[n]] && t == t[..n] + [t[n]];
    }
  }
}
