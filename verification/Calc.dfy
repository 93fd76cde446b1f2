/** The share arithmetic of calc.rs and the fees of state/fee.rs. */
module Calc {
  import opened Base

  const MAX_BASIS_POINTS: nat := 10_000
  const MAX_BP_CENTS: nat := 1_000_000

  /** `q` is the whole part of `n / d`, said without division. */
  ghost predicate IsFloor(q: nat, n: nat, d: nat) {
    q * d <= n < (q + 1) * d
  }

  lemma FloorOfQuotient(n: nat, d: nat)
    requires d > 0
    ensures IsFloor(n / d, n, d)
  {
    assert n == d * (n / d) + n % d;
    assert (n / d + 1) * d == (n / d) * d + d;
  }

  lemma FloorAtMost(q: nat, n: nat, d: nat, bound: nat)
    requires q * d <= n < (bound + 1) * d
    ensures q <= bound
  {
    if q >= bound + 1 {
      MulLe(bound + 1, q, d);
    }
  }

  lemma Cancel(a: nat, b: nat, c: nat)
    requires c > 0 && a * c <= b * c
    ensures a <= b
  {
    if a > b {
      MulLe(b + 1, a, c);
    }
  }

  lemma MulLe(a: nat, b: nat, c: nat)
    requires a <= b
    ensures a * c <= b * c
    ensures c * a <= c * b
  {
  }

  /** amount * numerator / denominator; a zero denominator returns the amount itself. The
      product of two `u64` fits the `u128` it is computed in. */
  function Proportional(amount: nat, numerator: nat, denominator: nat): (r: Result<nat>)
    ensures denominator == 0 ==> r == Success(amount)
    ensures denominator > 0 && r.Success? ==> IsFloor(r.value, amount * numerator, denominator)
    ensures denominator > 0 ==> (r.Success? <==> amount * numerator < (U64_MAX + 1) * denominator)
    ensures r.Failure? ==> r.error == CalculationFailure
  {
    if denominator == 0 then Success(amount)
    else
      FloorOfQuotient(amount * numerator, denominator);
      var q: nat := amount * numerator / denominator;
      if q <= U64_MAX then
        MulLe(q + 1, U64_MAX + 1, denominator);
        Success(q)
      else
        MulLe(U64_MAX + 1, q, denominator);
        Failure(CalculationFailure)
  }

  /** shares * total value / total shares */
  function ValueFromShares(shares: nat, totalValue: nat, totalShares: nat): Result<nat> {
    Proportional(shares, totalValue, totalShares)
  }

  /** value * total shares / total value; the first shares are minted one to one. */
  function SharesFromValue(value: nat, totalValue: nat, totalShares: nat): Result<nat> {
    if totalShares == 0 then Success(value) else Proportional(value, totalShares, totalValue)
  }

  /** `Fee::apply`: computed in `u128`, then cut to the low 64 bits. */
  function FeeApply(basisPoints: nat, lamports: nat): (fee: nat)
    ensures basisPoints <= MAX_BASIS_POINTS && lamports <= U64_MAX ==>
              fee <= lamports && IsFloor(fee, lamports * basisPoints, MAX_BASIS_POINTS)
    ensures fee <= U64_MAX
  {
    var whole: nat := lamports * basisPoints / MAX_BASIS_POINTS;
    if basisPoints <= MAX_BASIS_POINTS && lamports <= U64_MAX then
      FloorOfQuotient(lamports * basisPoints, MAX_BASIS_POINTS);
      MulLe(basisPoints, MAX_BASIS_POINTS, lamports);
      FloorAtMost(whole, lamports * basisPoints, MAX_BASIS_POINTS, lamports);
      whole % (U64_MAX + 1)
    else
      whole % (U64_MAX + 1)
  }

  /** `FeeCents::apply`. */
  function FeeCentsApply(bpCents: nat, lamports: nat): (fee: nat)
    ensures bpCents <= MAX_BP_CENTS && lamports <= U64_MAX ==>
              fee <= lamports && IsFloor(fee, lamports * bpCents, MAX_BP_CENTS)
    ensures fee <= U64_MAX
  {
    var whole: nat := lamports * bpCents / MAX_BP_CENTS;
    if bpCents <= MAX_BP_CENTS && lamports <= U64_MAX then
      FloorOfQuotient(lamports * bpCents, MAX_BP_CENTS);
      MulLe(bpCents, MAX_BP_CENTS, lamports);
      FloorAtMost(whole, lamports * bpCents, MAX_BP_CENTS, lamports);
      whole % (U64_MAX + 1)
    else
      whole % (U64_MAX + 1)
  }
}
