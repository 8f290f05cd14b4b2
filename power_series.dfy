/**
 * Truncated power series, as the Type S lookups evaluate them: ascending
 * powers of x, each power obtained from the previous one by one more
 * multiplication.
 */
module PowerSeries {

  /** x to the n-th power, built the way a running power accumulator builds it. */
  function Pow(x: real, n: nat): real {
    if n == 0 then 1.0 else Pow(x, n - 1) * x
  }

  /** The sum of the first n terms c[0] + c[1] x + ... + c[n-1] x^(n-1). */
  function PowerSum(c: seq<real>, x: real, n: nat): real
    requires n <= |c|
  {
    if n == 0 then 0.0 else PowerSum(c, x, n - 1) + Pow(x, n - 1) * c[n - 1]
  }

  /** The same polynomial in Horner form, an independent reference definition. */
  function Horner(c: seq<real>, x: real): real {
    if c == [] then 0.0 else c[0] + x * Horner(c[1..], x)
  }

  /** One step of the accumulation loop: adding x * c[i] to the sum of the
      first i terms gives the sum of the first i + 1, and multiplying the
      running power by v gives the next power. */
  lemma AccumulateStep(c: seq<real>, v: real, i: nat, x: real, sum: real)
    requires i < |c|
    requires x == Pow(v, i) && sum == PowerSum(c, v, i)
    ensures x * v == Pow(v, i + 1)
    ensures sum + x * c[i] == PowerSum(c, v, i + 1)
  {
  }

  /** Terms whose coefficients are zero add nothing: summing up to n gives the
      same value as stopping at m. */
  lemma {:induction false} ZeroTail(c: seq<real>, x: real, m: nat, n: nat)
    requires m <= n <= |c|
    requires forall k :: m <= k < n ==> c[k] == 0.0
    ensures PowerSum(c, x, n) == PowerSum(c, x, m)
  {
    if m < n {
      ZeroTail(c, x, m, n - 1);
    }
  }

  /** At x = 0 only the constant term survives. */
  lemma {:induction false} PowerSumAtZero(c: seq<real>, n: nat)
    requires 0 < n <= |c|
    ensures PowerSum(c, 0.0, n) == c[0]
  {
    if n > 1 {
      PowerSumAtZero(c, n - 1);
    }
  }

  /** Peeling off the constant term: the rest is x times the series of the
      remaining coefficients. */
  lemma {:induction false} PowerSumShift(c: seq<real>, x: real, n: nat)
    requires 0 < n <= |c|
    ensures PowerSum(c, x, n) == c[0] + x * PowerSum(c[1..], x, n - 1)
  {
    if n > 1 {
      PowerSumShift(c, x, n - 1);
      assert c[1..][n - 2] == c[n - 1];
      ShiftStep(PowerSum(c, x, n), PowerSum(c, x, n - 1), c[0], x, PowerSum(c[1..], x, n - 2),
                Pow(x, n - 2), Pow(x, n - 1), c[n - 1], PowerSum(c[1..], x, n - 1));
    }
  }

  /** The arithmetic of one PowerSumShift step, over plain numbers. */
  lemma ShiftStep(sum: real, prev: real, c0: real, x: real, rest: real, p: real, q: real, d: real, next: real)
    requires sum == prev + q * d && q == p * x
    requires prev == c0 + x * rest
    requires next == rest + p * d
    ensures sum == c0 + x * next
  {
  }

  /** Summing ascending powers with a running accumulator computes the Horner value. */
  lemma {:induction false} PowerSumIsHorner(c: seq<real>, x: real)
    ensures PowerSum(c, x, |c|) == Horner(c, x)
  {
    if c != [] {
      PowerSumShift(c, x, |c|);
      PowerSumIsHorner(c[1..], x);
    }
  }
}
