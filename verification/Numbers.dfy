/** The widths the daemon counts in, and the arithmetic it does at the top of them. */
module Numbers {

  const U32_MAX: nat := 0xFFFF_FFFF
  const U64_MAX: nat := 0xFFFF_FFFF_FFFF_FFFF

  type U32 = n: nat | n <= U32_MAX
  type U64 = n: nat | n <= U64_MAX

  function Clamp(n: nat): U64 {
    if n <= U64_MAX then n else U64_MAX
  }

  /** `saturating_add` */
  function SatAdd(a: U64, b: U64): U64 {
    Clamp(a + b)
  }

  /** `saturating_sub` */
  function SatSub(a: U64, b: U64): U64 {
    if b <= a then a - b else 0
  }

  /** `saturating_mul` */
  function SatMul(a: U64, b: U64): U64 {
    Clamp(a * b)
  }

  /** A 64-bit sum or product nobody checks, which wraps. */
  function Wrap64(n: nat): U64 {
    n % (U64_MAX + 1)
  }

  /** A 32-bit counter nobody checks, one further on. */
  function Next32(n: U32): U32 {
    if n == U32_MAX then 0 else n + 1
  }

  function Max(a: nat, b: nat): nat {
    if a < b then b else a
  }

  function Min(a: nat, b: nat): nat {
    if a < b then a else b
  }

  // ---------------------------------------------------------------- the few facts about products used elsewhere

  lemma ProductRises(a: nat, b: nat, c: nat)
    requires a <= b
    ensures a * c <= b * c
  {
  }

  lemma FactorsFollow(a: nat, b: nat, c: nat)
    requires a * c < b * c
    ensures a < b
  {
    if b <= a {
      ProductRises(b, a, c);
    }
  }

  lemma QuotientRises(a: nat, b: nat, c: nat)
    requires a <= b && c > 0
    ensures a / c <= b / c
  {
    var q, r := a / c, b / c;
    QuotientFallsShort(a, c);
    QuotientFallsShort(b, c);
    assert (r + 1) * c == r * c + c;
    FactorsFollow(q, r + 1, c);
  }

  lemma QuotientFallsShort(a: nat, c: nat)
    requires c > 0
    ensures a / c <= a && a / c * c <= a < a / c * c + c
  {
    var q := a / c;
    assert a == q * c + a % c;
    ProductRises(1, c, q);
  }

  /** Dividing by nothing is dividing by one. */
  function Quotient(product: U64, over: U64): U64 {
    QuotientFallsShort(product, Max(over, 1));
    product / Max(over, 1)
  }
}
