/** Counts as text: how they are written, and what reads as one. */
module Decimals {
  import opened Wrappers
  import opened Numbers

  predicate IsDigit(c: char) {
    '0' <= c <= '9'
  }

  predicate AllDigits(text: string) {
    forall k :: 0 <= k < |text| ==> IsDigit(text[k])
  }

  function ValueOf(c: char): nat
    requires IsDigit(c)
  {
    (c - '0') as int
  }

  function DigitFor(n: nat): char
    requires n < 10
  {
    '0' + n as char
  }

  /** `to_string` of an unsigned count. */
  function Digits(n: nat): string {
    if n < 10 then [DigitFor(n)] else Digits(n / 10) + [DigitFor(n % 10)]
  }

  function Value(text: string): nat
    requires AllDigits(text)
  {
    if text == "" then 0 else 10 * Value(text[..|text| - 1]) + ValueOf(text[|text| - 1])
  }

  /** `parse` into an unsigned count of some width: digits, one sign before them allowed, nothing past the top. */
  function Parsed(text: string, top: nat): Option<nat> {
    var digits := if text != "" && text[0] == '+' then text[1..] else text;
    if digits == "" || !AllDigits(digits) || Value(digits) > top then None else Some(Value(digits))
  }

  lemma {:induction false} DigitsHoldTheValue(n: nat)
    ensures Digits(n) != "" && AllDigits(Digits(n)) && Value(Digits(n)) == n
  {
    if n >= 10 {
      DigitsHoldTheValue(n / 10);
      var front, last := Digits(n / 10), DigitFor(n % 10);
      assert (front + [last])[..|front|] == front;
    }
  }

  /** What is written for a count reads back as it, exactly where it fits. */
  lemma WrittenReadsBack(n: nat, top: nat)
    ensures Parsed(Digits(n), top) == if n <= top then Some(n) else None
  {
    DigitsHoldTheValue(n);
    assert IsDigit(Digits(n)[0]);
  }

  // ---------------------------------------------------------------- padded out

  function Zeros(n: nat): string {
    if n == 0 then "" else Zeros(n - 1) + "0"
  }

  /** `{:0width}` */
  function Padded(n: nat, width: nat): string {
    Zeros(if |Digits(n)| < width then width - |Digits(n)| else 0) + Digits(n)
  }

  lemma {:induction false} ZerosAreNothing(zeros: nat)
    ensures AllDigits(Zeros(zeros)) && |Zeros(zeros)| == zeros && Value(Zeros(zeros)) == 0
  {
    if zeros > 0 {
      ZerosAreNothing(zeros - 1);
      assert (Zeros(zeros - 1) + "0")[..zeros - 1] == Zeros(zeros - 1);
    }
  }

  lemma OneMoreDigit(text: string, c: char)
    requires AllDigits(text) && IsDigit(c)
    ensures AllDigits(text + [c]) && Value(text + [c]) == 10 * Value(text) + ValueOf(c)
  {
    assert (text + [c])[..|text|] == text;
  }

  lemma {:induction false} ZerosAddNothing(zeros: nat, text: string)
    requires AllDigits(text)
    ensures AllDigits(Zeros(zeros) + text) && |Zeros(zeros)| == zeros && Value(Zeros(zeros) + text) == Value(text)
  {
    ZerosAreNothing(zeros);
    if text == "" {
      assert Zeros(zeros) + text == Zeros(zeros);
    } else {
      var front, last := text[..|text| - 1], text[|text| - 1];
      ZerosAddNothing(zeros, front);
      OneMoreDigit(Zeros(zeros) + front, last);
      assert Zeros(zeros) + text == Zeros(zeros) + front + [last];
    }
  }

  lemma PaddedReadsBack(n: nat, width: nat, top: nat)
    ensures Parsed(Padded(n, width), top) == if n <= top then Some(n) else None
  {
    DigitsHoldTheValue(n);
    ZerosAddNothing(if |Digits(n)| < width then width - |Digits(n)| else 0, Digits(n));
    assert IsDigit(Padded(n, width)[0]);
  }

  function TenTo(n: nat): nat {
    if n == 0 then 1 else 10 * TenTo(n - 1)
  }

  lemma {:induction false} DigitsNeeded(n: nat, width: nat)
    requires n < TenTo(width) && width > 0
    ensures |Digits(n)| <= width
  {
    if n >= 10 {
      DigitsNeeded(n / 10, width - 1);
    }
  }

  /** Text order, of two of a length: the first place they differ decides. */
  predicate SortsBefore(one: string, another: string)
    requires |one| == |another|
  {
    one != "" && (one[0] < another[0] || (one[0] == another[0] && SortsBefore(one[1..], another[1..])))
  }

  /** From the other end: the fronts decide, and the last place where they are the same. */
  lemma {:induction false} SortsByItsFront(one: string, another: string, c: char, d: char)
    requires |one| == |another|
    ensures SortsBefore(one + [c], another + [d]) <==> SortsBefore(one, another) || (one == another && c < d)
  {
    if one != "" {
      assert (one + [c])[1..] == one[1..] + [c] && (another + [d])[1..] == another[1..] + [d];
      SortsByItsFront(one[1..], another[1..], c, d);
      assert one == [one[0]] + one[1..] && another == [another[0]] + another[1..];
    }
  }

  /** Digits of a length sort as the counts they are. */
  lemma {:induction false} SortsAsTheCount(one: string, another: string)
    requires |one| == |another| && AllDigits(one) && AllDigits(another)
    ensures SortsBefore(one, another) <==> Value(one) < Value(another)
    ensures one == another <==> Value(one) == Value(another)
  {
    if one != "" {
      var n := |one| - 1;
      SortsAsTheCount(one[..n], another[..n]);
      assert one == one[..n] + [one[n]] && another == another[..n] + [another[n]];
      SortsByItsFront(one[..n], another[..n], one[n], another[n]);
    }
  }

  /** Counts padded to one width sort as text as they do as counts, while the width holds them. */
  lemma PaddedSortsAsTheCount(m: nat, n: nat, width: nat)
    requires m < TenTo(width) && n < TenTo(width) && width > 0
    ensures |Padded(m, width)| == |Padded(n, width)| == width
    ensures SortsBefore(Padded(m, width), Padded(n, width)) <==> m < n
  {
    PaddedIs(m, width);
    PaddedIs(n, width);
    SortsAsTheCount(Padded(m, width), Padded(n, width));
  }

  lemma PaddedIs(n: nat, width: nat)
    requires n < TenTo(width) && width > 0
    ensures |Padded(n, width)| == width && AllDigits(Padded(n, width)) && Value(Padded(n, width)) == n
  {
    DigitsNeeded(n, width);
    DigitsHoldTheValue(n);
    ZerosAddNothing(width - |Digits(n)|, Digits(n));
  }
}
