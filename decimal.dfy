/** Decimal digits: Python's `filter(str.isdigit, text)`, `int(digits)` on a
    string of decimal digits, and `str(n)` on a non-negative integer. */
module Decimal {

  /** A decimal digit character; `str.isdigit` restricted to ASCII. */
  predicate IsDigit(c: char)
  {
    '0' <= c <= '9'
  }

  predicate AllDigits(s: string)
  {
    forall i :: 0 <= i < |s| ==> IsDigit(s[i])
  }

  /** Canonical decimal text: non-empty digits with no leading zero unless
      the whole text is "0" (the form `str(n)` produces). */
  predicate Canonical(s: string)
  {
    |s| >= 1 && AllDigits(s) && (s[0] == '0' ==> |s| == 1)
  }

  function Pow10(k: nat): (p: nat)
    ensures p >= 1
  {
    if k == 0 then 1 else 10 * Pow10(k - 1)
  }

  function DigitValue(c: char): (d: nat)
    requires IsDigit(c)
    ensures d < 10
  {
    c as int - '0' as int
  }

  function DigitChar(d: nat): (c: char)
    requires d < 10
    ensures IsDigit(c) && DigitValue(c) == d
  {
    ('0' as int + d) as char
  }

  /** The digit characters of `s`, in their original order, all other
      characters dropped. */
  function DigitsOf(s: string): (ds: string)
    ensures AllDigits(ds)
    ensures |ds| <= |s|
    ensures ds == [] <==> forall i :: 0 <= i < |s| ==> !IsDigit(s[i])
  {
    if s == [] then []
    else
      var rest := DigitsOf(s[1..]);
      assert forall i :: 1 <= i < |s| ==> s[i] == s[1..][i - 1];
      (if IsDigit(s[0]) then [s[0]] else []) + rest
  }

  /** The value of a string of decimal digits, most significant first
      (`int(ds)`): below 10 to the power of its length. */
  function Value(ds: string): (n: nat)
    requires AllDigits(ds)
    ensures n < Pow10(|ds|)
  {
    if ds == [] then 0
    else
      var init := ds[..|ds| - 1];
      var v, d := Value(init), DigitValue(ds[|ds| - 1]);
      assert 10 * v + d < 10 * Pow10(|init|) by {
        assert v + 1 <= Pow10(|init|);
        assert 10 * (v + 1) <= 10 * Pow10(|init|);
      }
      10 * v + d
  }

  /** Python's `str(n)` for a non-negative integer. */
  function NatToString(n: nat): (s: string)
    ensures Canonical(s)
    decreases n
  {
    if n < 10 then [DigitChar(n)] else NatToString(n / 10) + [DigitChar(n % 10)]
  }

  /** A number below 10 to the power `k` takes at most `k` decimal digits. */
  lemma {:induction false} NatToStringLength(n: nat, k: nat)
    requires 1 <= k && n < Pow10(k)
    ensures |NatToString(n)| <= k
    decreases n
  {
    if n >= 10 {
      assert k >= 2;
      assert n / 10 < Pow10(k - 1);
      NatToStringLength(n / 10, k - 1);
    }
  }

  /** Filtering distributes over concatenation: the order of the kept
      characters is the order in the text. */
  lemma {:induction false} DigitsOfAppend(a: string, b: string)
    ensures DigitsOf(a + b) == DigitsOf(a) + DigitsOf(b)
  {
    if a == [] {
      assert a + b == b;
    } else {
      var kept := if IsDigit(a[0]) then [a[0]] else [];
      assert (a + b)[0] == a[0];
      assert (a + b)[1..] == a[1..] + b;
      assert DigitsOf(a + b) == kept + DigitsOf(a[1..] + b);
      assert DigitsOf(a) == kept + DigitsOf(a[1..]);
      DigitsOfAppend(a[1..], b);
    }
  }

  /** Text made only of digits passes the filter unchanged. */
  lemma {:induction false} DigitsOfDigits(s: string)
    requires AllDigits(s)
    ensures DigitsOf(s) == s
  {
    if s != [] {
      DigitsOfDigits(s[1..]);
      assert [s[0]] + s[1..] == s;
    }
  }

  /** The value of a concatenation of digit strings: the left part is shifted
      by one decimal place per digit of the right part. */
  lemma {:induction false} ValueAppend(a: string, b: string)
    requires AllDigits(a) && AllDigits(b)
    ensures AllDigits(a + b)
    ensures Value(a + b) == Value(a) * Pow10(|b|) + Value(b)
    decreases |b|
  {
    if b == [] {
      assert a + b == a;
    } else {
      var init, last := b[..|b| - 1], b[|b| - 1];
      assert a + b == (a + init) + [last];
      ValueAppend(a, init);
      ValueSnoc(a + init, last);
      ShiftStep(Value(a), Value(init), Pow10(|init|), DigitValue(last));
    }
  }

  lemma ValueSnoc(s: string, c: char)
    requires AllDigits(s) && IsDigit(c)
    ensures AllDigits(s + [c])
    ensures Value(s + [c]) == 10 * Value(s) + DigitValue(c)
  {
    assert (s + [c])[..|s|] == s;
  }

  lemma ShiftStep(va: nat, vi: nat, p: nat, d: nat)
    ensures 10 * (va * p + vi) + d == va * (10 * p) + (10 * vi + d)
  {
  }

  /** A leading non-zero digit makes the value positive. */
  lemma {:induction false} ValuePositive(ds: string)
    requires AllDigits(ds) && |ds| >= 1 && ds[0] != '0'
    ensures Value(ds) >= 1
  {
    if |ds| > 1 {
      ValuePositive(ds[..|ds| - 1]);
    }
  }

  /** `int(str(n)) == n`. */
  lemma {:induction false} ValueOfNatToString(n: nat)
    ensures Value(NatToString(n)) == n
    decreases n
  {
    if n >= 10 {
      ValueOfNatToString(n / 10);
      var s := NatToString(n);
      assert s[..|s| - 1] == NatToString(n / 10);
    }
  }

  /** `str(int(ds)) == ds` for canonical decimal text. */
  lemma {:induction false} NatToStringOfValue(ds: string)
    requires Canonical(ds)
    ensures NatToString(Value(ds)) == ds
    decreases |ds|
  {
    var last := ds[|ds| - 1];
    if |ds| == 1 {
      assert Value(ds) == DigitValue(last);
      assert ds == [DigitChar(DigitValue(last))];
    } else {
      var init := ds[..|ds| - 1];
      ValuePositive(init);
      NatToStringOfValue(init);
      var n := Value(ds);
      assert n == 10 * Value(init) + DigitValue(last);
      assert n / 10 == Value(init) && n % 10 == DigitValue(last);
      assert DigitChar(DigitValue(last)) == last;
      assert init + [last] == ds;
    }
  }
}
