/**
 * Decimal index text, as the dynamic value layer uses it: an index is
 * turned into an object key by formatting it in decimal, and a key is read
 * back as an index when it consists of digits only (`strtol` in base 10
 * with the whole key consumed).
 */
module Decimal {

  predicate IsDigit(c: char)
  {
    '0' <= c <= '9'
  }

  predicate AllDigits(s: string)
  {
    forall i :: 0 <= i < |s| ==> IsDigit(s[i])
  }

  /** A key the source reads as an index: non-empty, first character a digit, every character a digit. */
  predicate IsIndexText(s: string)
  {
    |s| > 0 && AllDigits(s)
  }

  function DigitChar(d: nat): (c: char)
    requires d < 10
    ensures IsDigit(c)
  {
    ('0' as int + d) as char
  }

  function DigitValue(c: char): (d: nat)
    requires IsDigit(c)
    ensures d < 10
  {
    (c as int - '0' as int) as nat
  }

  lemma DigitRoundTrip(d: nat)
    requires d < 10
    ensures DigitValue(DigitChar(d)) == d
  {
  }

  /** `format("{}", n)`: the decimal text of `n`, without leading zeros. */
  function Text(n: nat): (s: string)
    ensures IsIndexText(s)
    decreases n
  {
    if n < 10 then [DigitChar(n)] else Text(n / 10) + [DigitChar(n % 10)]
  }

  function Pow10(k: nat): (p: nat)
    ensures p >= 1
  {
    if k == 0 then 1 else 10 * Pow10(k - 1)
  }

  /** The number a string of digits denotes (what `strtol` computes, leading zeros allowed); `k` digits denote less than `10^k`. */
  function Value(s: string): (r: nat)
    requires AllDigits(s)
    ensures r < Pow10(|s|)
    decreases |s|
  {
    if |s| == 0 then 0 else Value(s[..|s| - 1]) * 10 + DigitValue(s[|s| - 1])
  }

  /** A leading zero does not change the value: `strtol` reads "007" as 7. */
  lemma {:induction false} ValueLeadingZero(s: string)
    requires AllDigits(s)
    ensures AllDigits(['0'] + s) && Value(['0'] + s) == Value(s)
    decreases |s|
  {
    var t := ['0'] + s;
    assert AllDigits(t) by {
      forall i | 0 <= i < |t|
        ensures IsDigit(t[i])
      {
        if i > 0 {
          assert t[i] == s[i - 1];
        }
      }
    }
    if |s| > 0 {
      var init := s[..|s| - 1];
      ValueLeadingZero(init);
      assert t[..|t| - 1] == ['0'] + init;
    }
  }

  /** Reading back the text of `n` gives `n`. */
  lemma {:induction false} ValueOfText(n: nat)
    ensures Value(Text(n)) == n
    decreases n
  {
    var s := Text(n);
    if n < 10 {
      DigitRoundTrip(n);
    } else {
      ValueOfText(n / 10);
      assert s[..|s| - 1] == Text(n / 10);
      DigitRoundTrip(n % 10);
    }
  }

  /** A string that is the text of some index denotes that index. */
  lemma ValueOfAnyText(k: string)
    ensures forall i: nat :: Text(i) == k ==> IsIndexText(k) && Value(k) == i
  {
    forall i: nat | Text(i) == k
      ensures IsIndexText(k) && Value(k) == i
    {
      ValueOfText(i);
    }
  }

  /** Canonical text: no leading zero unless the text is "0". */
  predicate Canonical(s: string)
  {
    IsIndexText(s) && (s[0] == '0' ==> |s| == 1)
  }

  lemma {:induction false} TextIsCanonical(n: nat)
    ensures Canonical(Text(n))
    ensures |Text(n)| == 1 ==> n < 10
    decreases n
  {
    if n >= 10 {
      TextIsCanonical(n / 10);
      assert Text(n)[0] == Text(n / 10)[0];
    }
  }

  /** Formatting the value of a canonical text gives the text back. */
  lemma {:induction false} TextOfValue(s: string)
    requires Canonical(s)
    ensures Text(Value(s)) == s
    decreases |s|
  {
    if |s| == 1 {
      assert DigitChar(DigitValue(s[0])) == s[0];
    } else {
      var init := s[..|s| - 1];
      assert init[0] == s[0];
      assert Canonical(init);
      TextOfValue(init);
      ValueNotSmall(init);
      var n := Value(s);
      assert n / 10 == Value(init) && n % 10 == DigitValue(s[|s| - 1]);
      assert DigitChar(DigitValue(s[|s| - 1])) == s[|s| - 1];
      assert s == init + [s[|s| - 1]];
    }
  }

  /** A canonical text longer than one digit denotes at least 1. */
  lemma {:induction false} ValueNotSmall(s: string)
    requires Canonical(s) && |s| >= 1
    ensures s[0] != '0' ==> Value(s) >= 1
    decreases |s|
  {
    if |s| > 1 && s[0] != '0' {
      var init := s[..|s| - 1];
      assert init[0] == s[0];
      ValueNotSmall(init);
    } else if |s| == 1 && s[0] != '0' {
      assert DigitValue(s[0]) >= 1;
    }
  }

  /** Two indices have the same text exactly when they are equal. */
  lemma TextInjective(m: nat, n: nat)
    ensures Text(m) == Text(n) <==> m == n
  {
    if Text(m) == Text(n) {
      ValueOfText(m);
      ValueOfText(n);
    }
  }
}
