/**
 Monetary rounding. Amounts on the wire are exact decimals, modelled as `real`; every
 stored amount is a `Numeric(12, 2)`, modelled as a whole number of cents.
 */
module Money {

  /** `x.quantize(CENTS, rounding=ROUND_HALF_UP)`, in cents: ties go away from zero. */
  function HalfUp(x: real): int {
    if x >= 0.0 then (x * 100.0 + 0.5).Floor else -(-x * 100.0 + 0.5).Floor
  }

  /** A stored amount, read back as a decimal. */
  function Stored(cents: int): real {
    cents as real / 100.0
  }

  /** `c` is a nearest whole cent to `x`, and of two nearest ones the one further from zero. */
  predicate IsHalfUp(x: real, c: int) {
    var err := x * 100.0 - c as real;
    if x >= 0.0 then -0.5 <= err < 0.5 else -0.5 < err <= 0.5
  }

  lemma HalfUpExact(x: real, c: int)
    ensures c == HalfUp(x) <==> IsHalfUp(x, c)
  {
    var y := if x >= 0.0 then x * 100.0 + 0.5 else -x * 100.0 + 0.5;
    assert y.Floor as real <= y < y.Floor as real + 1.0;
    if IsHalfUp(x, c) {
      var d := if x >= 0.0 then c else -c;
      assert d as real <= y < d as real + 1.0;
      assert d == y.Floor;
    }
  }

  /** Storing a stored amount changes nothing, order is kept, and signs mirror each other. */
  lemma HalfUpLaws(x: real, y: real, c: int)
    ensures HalfUp(Stored(c)) == c
    ensures x <= y ==> HalfUp(x) <= HalfUp(y)
    ensures HalfUp(-x) == -HalfUp(x)
    ensures -0.5 <= x * 100.0 - HalfUp(x) as real <= 0.5
  {
    HalfUpExact(Stored(c), c);
    HalfUpExact(x, HalfUp(x));
    HalfUpExact(y, HalfUp(y));
  }

  /** Sum of the rounded values, in cents, and of the exact ones. */
  function RoundedSum(xs: seq<real>): int {
    if xs == [] then 0 else HalfUp(xs[0]) + RoundedSum(xs[1..])
  }

  function ExactSum(xs: seq<real>): real {
    if xs == [] then 0.0 else xs[0] + ExactSum(xs[1..])
  }

  /** `n` line totals, each rounded alone, drift from the exact total by at most n/2 cents. */
  lemma {:induction false} RoundedSumDrift(xs: seq<real>)
    ensures -(|xs| as real) / 2.0 <= ExactSum(xs) * 100.0 - RoundedSum(xs) as real <= |xs| as real / 2.0
  {
    if xs != [] {
      RoundedSumDrift(xs[1..]);
      HalfUpLaws(xs[0], xs[0], 0);
    }
  }

  /**
   The payment guard compares the ROUNDED amount with the remaining balance. It lets an
   amount through exactly when it is under half a cent above the balance, and the balance
   left behind is then never negative.
   */
  lemma GuardAcceptsExactly(raw: real, remaining: int)
    requires raw > 0.0 && remaining >= 0
    ensures HalfUp(raw) <= remaining <==> raw < Stored(remaining) + 0.005
    ensures 0 <= HalfUp(raw)
  {
    HalfUpExact(raw, HalfUp(raw));
  }

  /** Comparing the raw amount instead would differ, on exactly these payments. */
  lemma RawGuardDiffers(raw: real, remaining: int)
    requires raw > 0.0 && remaining >= 0
    ensures (HalfUp(raw) <= remaining) != (raw <= Stored(remaining))
       <==> Stored(remaining) < raw < Stored(remaining) + 0.005
  {
    GuardAcceptsExactly(raw, remaining);
  }
}
