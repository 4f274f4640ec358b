/** The fixed-point proportions of the runtime library: parts of 10^9 (Perbill) and of 10^18 (Perquintill). */
module PerThings {

  const BILLION: nat := 1_000_000_000
  const QUINTILLION: nat := 1_000_000_000_000_000_000

  type Perbill = p: nat | p <= BILLION
  type Perquintill = p: nat | p <= QUINTILLION

  function Percent(p: nat): Perbill
    requires p <= 100
  {
    p * 10_000_000
  }

  /** `Perbill * x`: the nearest integer, a tie going down. */
  function Times(p: Perbill, x: nat): nat {
    (p * x + (BILLION / 2 - 1)) / BILLION
  }

  function MulFloor(p: Perbill, x: nat): nat {
    p * x / BILLION
  }

  function MulCeil(p: Perquintill, x: nat): nat {
    (p * x + QUINTILLION - 1) / QUINTILLION
  }

  /** `Perbill::from_rational`: rounds down, and is one when the quotient is above one or undefined. */
  function FromRational(p: nat, q: nat): Perbill {
    if q == 0 || p > q then BILLION
    else
      QuotientAtMost(p * BILLION, q, BILLION);
      p * BILLION / q
  }

  /** `Perquintill::from_rational_with_rounding(p, q, Up)` with an error read as one. */
  function RatioUp(p: nat, q: nat): Perquintill {
    if q == 0 || p > q then QUINTILLION
    else
      CeilAtMost(p * QUINTILLION, q, QUINTILLION);
      (p * QUINTILLION + q - 1) / q
  }

  lemma MulMonotone(a: nat, b: nat, c: nat, d: nat)
    requires a <= c && b <= d
    ensures a * b <= c * d
  {
    assert a * b <= c * b;
    assert c * b <= c * d;
  }

  lemma DivUnique(x: nat, q: nat, r: nat, d: nat)
    requires r < d && x == d * q + r
    ensures x / d == q && x % d == r
  {
    var p := x / d;
    assert x == d * p + x % d;
    assert d * (p + 1) == d * p + d && d * (q + 1) == d * q + d;
    if p < q {
      MulMonotone(d, p + 1, d, q);
    } else if q < p {
      MulMonotone(d, q + 1, d, p);
    }
  }

  lemma QuotientAtMost(a: nat, q: nat, bound: nat)
    requires q > 0 && a <= bound * q
    ensures a / q <= bound
  {
    if a / q > bound {
      MulMonotone(bound + 1, q, a / q, q);
    }
  }

  lemma CeilAtMost(a: nat, q: nat, bound: nat)
    requires q > 0 && a <= bound * q
    ensures (a + q - 1) / q <= bound
  {
    var r := (a + q - 1) / q;
    assert q * r <= a + q - 1;
    if r > bound {
      MulMonotone(bound + 1, q, r, q);
    }
  }

  lemma TimesMonotone(p: Perbill, x: nat, q: Perbill, y: nat)
    requires p <= q && x <= y
    ensures Times(p, x) <= Times(q, y)
  {
    MulMonotone(p, x, q, y);
  }

  lemma TimesAtMost(p: Perbill, x: nat)
    ensures Times(p, x) <= x
  {
    MulMonotone(p, x, BILLION, x);
  }

  lemma MulCeilAtMost(p: Perquintill, x: nat)
    ensures MulCeil(p, x) <= x
  {
    MulMonotone(p, x, QUINTILLION, x);
  }

  /** The nearest integer: off by at most a half, and below at a tie. */
  lemma TimesIsNearest(p: Perbill, x: nat)
    ensures 2 * (p * x) - BILLION <= 2 * (Times(p, x) * BILLION) < 2 * (p * x) + BILLION
  {
  }

  /** The least integer that is not below. */
  lemma MulCeilIsLeast(p: Perquintill, x: nat)
    ensures p * x <= MulCeil(p, x) * QUINTILLION < p * x + QUINTILLION
  {
  }

  /** Rounding up loses nothing: the up-rounded ratio of `p` to `q` applied to `q` covers `p`, and no smaller does. */
  lemma RatioUpIsLeast(p: nat, q: nat)
    requires q > 0 && p <= q
    ensures p * QUINTILLION <= RatioUp(p, q) * q < p * QUINTILLION + q
  {
    var a := p * QUINTILLION;
    var r := (a + q - 1) / q;
    assert a + q - 1 == q * r + (a + q - 1) % q;
  }

  lemma MulDistributes(a: nat, b: nat, c: nat)
    ensures (a + b) * c == a * c + b * c
    ensures c * (a + b) == c * a + c * b
  {
  }

  lemma MulFloorAtMost(p: Perbill, x: nat)
    ensures MulFloor(p, x) * BILLION <= p * x
  {
  }

  /** Rounding down two parts loses at least as much as rounding down their sum. */
  lemma MulFloorAdds(p: Perbill, x: nat, y: nat)
    ensures MulFloor(p, x) + MulFloor(p, y) <= MulFloor(p, x + y)
  {
    MulDistributes(x, y, p);
  }

  /** Rounding down loses less than one unit. */
  lemma MulFloorAbove(p: Perbill, x: nat)
    ensures p * x < (MulFloor(p, x) + 1) * BILLION
  {
  }

  lemma FromRationalAbove(p: nat, q: nat)
    requires q > 0 && p <= q
    ensures p * BILLION < (FromRational(p, q) + 1) * q
  {
    var a := p * BILLION;
    assert a == q * (a / q) + a % q;
    MulDistributes(a / q, 1, q);
  }

  lemma FromRationalAtMost(p: nat, q: nat)
    requires q > 0 && p <= q
    ensures FromRational(p, q) * q <= p * BILLION
  {
  }
}
