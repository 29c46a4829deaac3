/** The value at a quantile of a sorted list, and the sorting. */
module Quantiles {
  import opened Numbers

  // ---------------------------------------------------------------- the quantile

  predicate Ascending(sorted: seq<U64>) {
    forall i, j :: 0 <= i < j < |sorted| ==> sorted[i] <= sorted[j]
  }

  /** The rank asked for, in three-hundredths: Hyndman and Fan's (n + 1/3)p + 1/3. */
  function Rank(n: nat, perCent: nat): nat {
    3 * perCent * n + perCent + 100
  }

  /** The reading between two neighbours. The product is a 64-bit one nobody checks. */
  function Between(low: U64, high: U64, part: nat): nat
    requires low <= high
  {
    low + Wrap64((high - low) * part) / 300
  }

  /** A wrapped product divided by three hundred still falls short of the gap, so the reading stays
      between its neighbours even where the product is past 64 bits. */
  lemma BetweenStaysBetween(low: U64, high: U64, part: nat)
    requires low <= high && part < 300
    ensures low <= Between(low, high, part) <= high
  {
    WrappedStaysUnder(high - low, part);
  }

  lemma WrappedStaysUnder(gap: U64, part: nat)
    requires part < 300
    ensures Wrap64(gap * part) / 300 <= gap
  {
    ProductRises(part, 299, gap);
    if gap * 299 <= U64_MAX {
      QuotientRises(gap * part, gap * 300, 300);
    }
  }

  function At(sorted: seq<U64>, perCent: nat): (value: U64)
    requires Ascending(sorted)
    ensures sorted != [] ==> sorted[0] <= value <= sorted[|sorted| - 1]
  {
    if sorted == [] then 0
    else if Rank(|sorted|, perCent) <= 300 then sorted[0]
    else if Rank(|sorted|, perCent) >= 300 * |sorted| then sorted[|sorted| - 1]
    else
      var under := Rank(|sorted|, perCent) / 300;
      BetweenStaysBetween(sorted[under - 1], sorted[under], Rank(|sorted|, perCent) % 300);
      Between(sorted[under - 1], sorted[under], Rank(|sorted|, perCent) % 300)
  }

  /** The two values a rank falls between, held inside the list at either end. */
  function Lower(n: nat, perCent: nat): nat
    requires n > 0
  {
    var under := Rank(n, perCent) / 300;
    if under <= 1 then 0 else if under > n then n - 1 else under - 1
  }

  function Upper(n: nat, perCent: nat): nat
    requires n > 0
  {
    var under := Rank(n, perCent) / 300;
    if under < 1 then 0 else if under >= n then n - 1 else under
  }

  /** The figure lies between the two order statistics its rank falls between. */
  lemma AtLiesBetweenItsNeighbours(sorted: seq<U64>, perCent: nat)
    requires Ascending(sorted) && sorted != []
    ensures Lower(|sorted|, perCent) <= Upper(|sorted|, perCent) < |sorted|
    ensures sorted[Lower(|sorted|, perCent)] <= At(sorted, perCent) <= sorted[Upper(|sorted|, perCent)]
  {
    var h := Rank(|sorted|, perCent);
    if 300 < h < 300 * |sorted| {
      BetweenStaysBetween(sorted[h / 300 - 1], sorted[h / 300], h % 300);
    }
  }

  /** No gap in the list is wide enough for the product over it to pass 64 bits. */
  predicate Narrow(sorted: seq<U64>)
    requires Ascending(sorted)
  {
    forall i, j :: 0 <= i && j == i + 1 < |sorted| ==> (sorted[j] - sorted[i]) * 299 <= U64_MAX
  }

  lemma BetweenExactly(low: U64, high: U64, part: nat)
    requires low <= high && part < 300 && (high - low) * 299 <= U64_MAX
    ensures Between(low, high, part) == (300 * low + (high - low) * part) / 300
  {
    StaysUnder(high - low, part);
    Unwrapped(low, (high - low) * part);
  }

  lemma StaysUnder(gap: nat, part: nat)
    requires part < 300 && gap * 299 <= U64_MAX
    ensures gap * part <= U64_MAX
  {
    ProductRises(part, 299, gap);
  }

  lemma Unwrapped(low: nat, product: nat)
    requires product <= U64_MAX
    ensures low + Wrap64(product) / 300 == (300 * low + product) / 300
  {
    WholesComeOut(low, product);
  }

  lemma WholesComeOut(whole: nat, part: nat)
    ensures (300 * whole + part) / 300 == whole + part / 300
  {
  }

  lemma BetweenRisesWithThePart(low: U64, high: U64, part: nat, more: nat)
    requires low <= high && part <= more < 300 && (high - low) * 299 <= U64_MAX
    ensures Between(low, high, part) <= Between(low, high, more)
  {
    BetweenExactly(low, high, part);
    BetweenExactly(low, high, more);
    ProductRises(part, more, high - low);
    QuotientRises(300 * low + (high - low) * part, 300 * low + (high - low) * more, 300);
  }

  lemma BetweenRisesWithTheEnds(low: U64, high: U64, above: U64, beyond: U64, part: nat)
    requires low <= high && above <= beyond && low <= above && high <= beyond && part < 300
    requires (high - low) * 299 <= U64_MAX && (beyond - above) * 299 <= U64_MAX
    ensures Between(low, high, part) <= Between(above, beyond, part)
  {
    BetweenExactly(low, high, part);
    BetweenExactly(above, beyond, part);
    ProductRises(low, above, 300 - part);
    ProductRises(high, beyond, part);
    assert 300 * low + (high - low) * part == low * (300 - part) + high * part;
    assert 300 * above + (beyond - above) * part == above * (300 - part) + beyond * part;
    QuotientRises(300 * low + (high - low) * part, 300 * above + (beyond - above) * part, 300);
  }

  /** The figure only rises with the quantile asked for, rounding down and all. */
  lemma AtRisesWithTheQuantile(sorted: seq<U64>, p: nat, q: nat)
    requires Ascending(sorted) && Narrow(sorted) && p <= q
    ensures At(sorted, p) <= At(sorted, q)
  {
    if sorted != [] {
      var n := |sorted|;
      ProductRises(p, q, 3 * n);
      var h, k := Rank(n, p), Rank(n, q);
      assert h <= k;
      AtLiesBetweenItsNeighbours(sorted, p);
      AtLiesBetweenItsNeighbours(sorted, q);
      if 300 < h && k < 300 * n && h / 300 == k / 300 {
        BetweenRisesWithThePart(sorted[h / 300 - 1], sorted[h / 300], h % 300, k % 300);
      } else if 300 < h && k < 300 * n {
        NeighboursApart(sorted, p, q);
      }
    }
  }

  lemma NeighboursApart(sorted: seq<U64>, p: nat, q: nat)
    requires Ascending(sorted) && sorted != []
    requires Rank(|sorted|, p) / 300 < Rank(|sorted|, q) / 300
    ensures sorted[Upper(|sorted|, p)] <= sorted[Lower(|sorted|, q)]
  {
  }

  /** And with the data: values each at least as large leave a figure at least as large. */
  lemma AtRisesWithTheData(small: seq<U64>, large: seq<U64>, p: nat)
    requires Ascending(small) && Ascending(large) && Narrow(small) && Narrow(large) && |small| == |large|
    requires forall i :: 0 <= i < |small| ==> small[i] <= large[i]
    ensures At(small, p) <= At(large, p)
  {
    var h := Rank(|small|, p);
    if 300 < h < 300 * |small| {
      var u := h / 300;
      BetweenRisesWithTheEnds(small[u - 1], small[u], large[u - 1], large[u], h % 300);
    }
  }

  // ---------------------------------------------------------------- exactly how wide a gap may be

  /** Between two neighbours the reading only rises with the part. */
  ghost predicate RisesBetween(low: U64, high: U64)
    requires low <= high
  {
    forall part: nat, more: nat :: part <= more < 300 ==> Between(low, high, part) <= Between(low, high, more)
  }

  lemma WrapsBack(product: nat)
    requires U64_MAX < product <= 2 * U64_MAX + 1
    ensures Wrap64(product) == product - U64_MAX - 1
  {
  }

  lemma WrapsNot(product: nat)
    requires product <= U64_MAX
    ensures Wrap64(product) == product
  {
  }

  lemma QuotientsApart(a: nat, b: nat)
    requires a >= b + 300
    ensures a / 300 > b / 300
  {
    QuotientRises(b + 300, a, 300);
  }

  /** The last part before the product over a gap wraps, and the one it wraps at. */
  lemma TheLastBeforeItWraps(gap: U64) returns (part: nat)
    requires gap * 299 > U64_MAX
    ensures 0 < part < 299 && gap * part <= U64_MAX < gap * (part + 1)
  {
    part := U64_MAX / gap;
    QuotientFallsShort(U64_MAX, gap);
    assert gap * part == part * gap && gap * (part + 1) == part * gap + gap;
    if part >= 299 {
      ProductRises(299, part, gap);
    }
  }

  /** A gap that falls short of the whole width by three hundred reads lower as soon as it wraps. */
  lemma FallsWhereItWraps(low: U64, high: U64) returns (part: nat)
    requires low <= high && (high - low) * 299 > U64_MAX && high - low + 300 <= U64_MAX + 1
    ensures part < 299 && Between(low, high, part) > Between(low, high, part + 1)
  {
    var gap := high - low;
    part := TheLastBeforeItWraps(gap);
    assert gap * (part + 1) == gap * part + gap;
    WrapsNot(gap * part);
    WrapsBack(gap * (part + 1));
    QuotientsApart(gap * part, gap * (part + 1) - U64_MAX - 1);
  }

  /** One that falls short of it by less wraps at every part after the first, each time a little lower. */
  lemma WrapsAtEveryPart(short: nat, part: nat)
    requires 0 < short < 300 && 0 < part < 300
    ensures Wrap64((U64_MAX + 1 - short) * part) == U64_MAX + 1 - short * part
  {
    var width := U64_MAX + 1;
    ProductRises(short, 299, part);
    ProductRises(part, 299, 299);
    assert (width - short) * part == width * (part - 1) + (width - short * part);
    ProductRises(1, part, short);
    assert 0 < short * part <= 299 * 299 < width;
    RemainderOfWhole(part - 1, width - short * part);
  }

  lemma RemainderOfWhole(times: nat, rest: U64)
    ensures Wrap64((U64_MAX + 1) * times + rest) == rest
  {
  }

  lemma FallsFromFirstToLast(low: U64, high: U64)
    requires low <= high && high - low + 300 > U64_MAX + 1
    ensures Between(low, high, 1) > Between(low, high, 299)
  {
    var short := U64_MAX + 1 - (high - low);
    WrapsAtEveryPart(short, 1);
    WrapsAtEveryPart(short, 299);
    if short >= 2 {
      QuotientsApart(U64_MAX + 1 - short, U64_MAX + 1 - short * 299);
    }
  }

  /** The reading between two neighbours rises with the part exactly where the product over their gap keeps
      within 64 bits at the last of the parts. */
  lemma RisesExactlyWhereNarrow(low: U64, high: U64)
    requires low <= high
    ensures RisesBetween(low, high) <==> (high - low) * 299 <= U64_MAX
  {
    if (high - low) * 299 <= U64_MAX {
      forall part: nat, more: nat | part <= more < 300 ensures Between(low, high, part) <= Between(low, high, more) {
        BetweenRisesWithThePart(low, high, part, more);
      }
    } else if high - low + 300 <= U64_MAX + 1 {
      var part := FallsWhereItWraps(low, high);
      assert Between(low, high, part) > Between(low, high, part + 1);
    } else {
      FallsFromFirstToLast(low, high);
    }
  }

  /** So a gap of the whole counter makes a higher quantile read lower. */
  lemma AWideGapIsNotMonotone()
    ensures Ascending([0, U64_MAX]) && At([0, U64_MAX], 29) > At([0, U64_MAX], 50)
  {
  }

  // ---------------------------------------------------------------- sorting

  function Inserted(x: U64, sorted: seq<U64>): (r: seq<U64>)
    requires Ascending(sorted)
    ensures Ascending(r) && |r| == |sorted| + 1
    ensures multiset(r) == multiset(sorted) + multiset{x}
  {
    if sorted == [] then [x]
    else if x <= sorted[0] then [x] + sorted
    else
      var rest := Inserted(x, sorted[1..]);
      InsertedBehind(x, sorted, rest);
      [sorted[0]] + rest
  }

  lemma InsertedBehind(x: U64, sorted: seq<U64>, rest: seq<U64>)
    requires Ascending(sorted) && sorted != [] && x > sorted[0] && Ascending(rest)
    requires multiset(rest) == multiset(sorted[1..]) + multiset{x}
    ensures Ascending([sorted[0]] + rest)
    ensures multiset([sorted[0]] + rest) == multiset(sorted) + multiset{x}
  {
    assert sorted == [sorted[0]] + sorted[1..];
    forall j | 0 <= j < |rest| ensures sorted[0] <= rest[j] {
      assert rest[j] in multiset(rest);
      assert rest[j] == x || rest[j] in sorted[1..];
    }
  }

  /** What sorting a list leaves, whichever way it is sorted. */
  function Sorted(s: seq<U64>): (r: seq<U64>)
    ensures Ascending(r) && multiset(r) == multiset(s) && |r| == |s|
  {
    if s == [] then []
    else
      assert s == [s[0]] + s[1..];
      Inserted(s[0], Sorted(s[1..]))
  }

  lemma TheRest(a: seq<U64>)
    requires a != []
    ensures multiset(a[1..]) == multiset(a) - multiset{a[0]}
  {
    assert a == [a[0]] + a[1..];
  }

  lemma LeastComesFirst(a: seq<U64>, x: U64)
    requires Ascending(a) && x in multiset(a)
    ensures a != [] && a[0] <= x
  {
    var i :| 0 <= i < |a| && a[i] == x;
  }

  lemma SameLeast(a: seq<U64>, b: seq<U64>)
    requires Ascending(a) && Ascending(b) && multiset(a) == multiset(b) && a != []
    ensures b != [] && a[0] == b[0] && multiset(a[1..]) == multiset(b[1..])
  {
    assert a[0] in multiset(a);
    LeastComesFirst(b, a[0]);
    assert b[0] in multiset(b);
    LeastComesFirst(a, b[0]);
    TheRest(a);
    TheRest(b);
  }

  lemma {:induction false} OneSortedForm(a: seq<U64>, b: seq<U64>)
    requires Ascending(a) && Ascending(b) && multiset(a) == multiset(b)
    ensures a == b
    decreases |a|
  {
    if a != [] {
      SameLeast(a, b);
      OneSortedForm(a[1..], b[1..]);
      assert a == [a[0]] + a[1..] && b == [b[0]] + b[1..];
    } else if b != [] {
      SameLeast(b, a);
    }
  }
}
