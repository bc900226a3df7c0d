/** The constant-product price curve used by every swap of the token/ether
    exchange: a 1% fee is kept from the input, and the output is rounded down. */
module Pricing {

  /** Integer division is defined, i.e. the call does not revert. */
  predicate Quotable(inputAmount: nat, inputReserve: nat) {
    inputReserve * 100 + inputAmount * 99 > 0
  }

  /** How much of the output asset `inputAmount` buys against the reserves
      (inputReserve, outputReserve):
      floor(inputAmount * 99 * outputReserve / (inputReserve * 100 + inputAmount * 99)). */
  function GetAmount(inputAmount: nat, inputReserve: nat, outputReserve: nat): (r: nat)
    requires Quotable(inputAmount, inputReserve)
    ensures r <= outputReserve
    ensures inputAmount == 0 ==> r == 0
  {
    var numerator := inputAmount * 99 * outputReserve;
    var denominator := inputReserve * 100 + inputAmount * 99;
    assert numerator <= denominator * outputReserve by {
      MulLeRight(inputAmount * 99, denominator, outputReserve);
    }
    DivBelowFactor(numerator, denominator, outputReserve);
    numerator / denominator
  }

  // ---------------------------------------------------------------------------
  // Arithmetic helpers for floor division
  // ---------------------------------------------------------------------------

  lemma MulLeRight(a: nat, b: nat, c: nat)
    requires a <= b
    ensures a * c <= b * c
  {
  }

  /** n <= d * k implies floor(n / d) <= k. */
  lemma DivBelowFactor(n: nat, d: nat, k: nat)
    requires d > 0 && n <= d * k
    ensures n / d <= k
  {
    var q := n / d;
    assert q * d <= n;
    if q > k {
      MulLeRight(k + 1, q, d);
      assert false;
    }
  }

  /** n < d * k implies floor(n / d) < k. */
  lemma DivStrictlyBelowFactor(n: nat, d: nat, k: nat)
    requires d > 0 && n < d * k
    ensures n / d < k
  {
    var q := n / d;
    assert q * d <= n;
    if q >= k {
      MulLeRight(k, q, d);
      assert false;
    }
  }

  /** q * d <= n implies q <= floor(n / d). */
  lemma DivGreatest(q: nat, n: nat, d: nat)
    requires d > 0 && q * d <= n
    ensures q <= n / d
  {
    var f := n / d;
    assert n < (f + 1) * d;
    if q > f {
      MulLeRight(f + 1, q, d);
      assert false;
    }
  }

  /** a * c <= b * c with c > 0 implies a <= b. */
  lemma MulCancelRight(a: nat, b: nat, c: nat)
    requires c > 0 && a * c <= b * c
    ensures a <= b
  {
    if a > b {
      MulLeRight(b + 1, a, c);
      assert false;
    }
  }

  /** Floor division is monotone in the rational value n / d. */
  lemma DivMonotone(n1: nat, d1: nat, n2: nat, d2: nat)
    requires d1 > 0 && d2 > 0
    requires n1 * d2 <= n2 * d1
    ensures n1 / d1 <= n2 / d2
  {
    var q := n1 / d1;
    assert q * d1 <= n1;
    MulLeRight(q * d1, n1, d2);
    assert (q * d2) * d1 == (q * d1) * d2;
    assert (q * d2) * d1 <= n2 * d1;
    MulCancelRight(q * d2, n2, d1);
    DivGreatest(q, n2, d2);
  }

  // ---------------------------------------------------------------------------
  // Properties of the curve
  // ---------------------------------------------------------------------------

  /** The output falls short of the fee-free constant-product output: the
      output times the grown input reserve is at most the input times the
      output reserve. */
  lemma {:induction false} OutputBelowFeeFreeCurve(inputAmount: nat, inputReserve: nat, outputReserve: nat)
    requires Quotable(inputAmount, inputReserve)
    ensures GetAmount(inputAmount, inputReserve, outputReserve) * (inputReserve + inputAmount)
            <= inputAmount * outputReserve
  {
    var r := GetAmount(inputAmount, inputReserve, outputReserve);
    var numerator := inputAmount * 99 * outputReserve;
    var denominator := inputReserve * 100 + inputAmount * 99;
    assert r * denominator <= numerator;
    assert r * denominator == r * inputReserve * 100 + r * inputAmount * 99;
    assert (r * (inputReserve + inputAmount)) * 99 <= (inputAmount * outputReserve) * 99;
    MulCancelRight(r * (inputReserve + inputAmount), inputAmount * outputReserve, 99);
  }

  /** A swap never lowers the product of the reserves, and strictly raises
      it when something is traded against a funded pool: the fee stays in
      the pool. */
  lemma {:induction false} SwapKeepsConstantProduct(inputAmount: nat, inputReserve: nat, outputReserve: nat)
    requires Quotable(inputAmount, inputReserve)
    ensures (inputReserve + inputAmount) * (outputReserve - GetAmount(inputAmount, inputReserve, outputReserve))
            >= inputReserve * outputReserve
    ensures inputAmount > 0 && inputReserve > 0 && outputReserve > 0 ==>
            (inputReserve + inputAmount) * (outputReserve - GetAmount(inputAmount, inputReserve, outputReserve))
            > inputReserve * outputReserve
  {
    var r := GetAmount(inputAmount, inputReserve, outputReserve);
    OutputBelowFeeFreeCurve(inputAmount, inputReserve, outputReserve);
    var s := inputReserve + inputAmount;
    assert s * (outputReserve - r) == inputReserve * outputReserve + inputAmount * outputReserve - r * s;
    if inputAmount > 0 && inputReserve > 0 && outputReserve > 0 {
      var numerator := inputAmount * 99 * outputReserve;
      var denominator := inputReserve * 100 + inputAmount * 99;
      assert r * denominator <= numerator;
      if r > 0 {
        assert r * inputReserve > 0;
        assert (r * s) * 99 < r * denominator;
        assert (r * s) * 99 < (inputAmount * outputReserve) * 99;
      } else {
        assert inputAmount * outputReserve > 0;
      }
    }
  }

  /** A funded pool is never emptied by a swap. */
  lemma {:induction false} OutputBelowReserve(inputAmount: nat, inputReserve: nat, outputReserve: nat)
    requires Quotable(inputAmount, inputReserve)
    ensures inputReserve > 0 && outputReserve > 0 ==>
            GetAmount(inputAmount, inputReserve, outputReserve) < outputReserve
  {
    if inputReserve > 0 && outputReserve > 0 {
      var numerator := inputAmount * 99 * outputReserve;
      var denominator := inputReserve * 100 + inputAmount * 99;
      assert inputReserve * outputReserve > 0;
      assert denominator * outputReserve == inputReserve * outputReserve * 100 + numerator;
      DivStrictlyBelowFactor(numerator, denominator, outputReserve);
    }
  }

  /** The converse edge: a pool whose input reserve is empty quotes its
      whole output reserve for any positive input, so one trade drains it. */
  lemma {:induction false} EmptyInputReserveDrains(inputAmount: nat, outputReserve: nat)
    requires inputAmount > 0
    ensures Quotable(inputAmount, 0)
    ensures GetAmount(inputAmount, 0, outputReserve) == outputReserve
  {
    var denominator := inputAmount * 99;
    assert inputAmount * 99 * outputReserve == outputReserve * denominator;
    DivGreatest(outputReserve, inputAmount * 99 * outputReserve, denominator);
  }

  /** Selling more never buys less. */
  lemma {:induction false} MonotoneInInput(a: nat, b: nat, inputReserve: nat, outputReserve: nat)
    requires a <= b && Quotable(a, inputReserve)
    ensures Quotable(b, inputReserve)
    ensures GetAmount(a, inputReserve, outputReserve) <= GetAmount(b, inputReserve, outputReserve)
  {
    var da := inputReserve * 100 + a * 99;
    var db := inputReserve * 100 + b * 99;
    var na := a * 99 * outputReserve;
    var nb := b * 99 * outputReserve;
    var k := 99 * outputReserve;
    assert na == a * k && nb == b * k;
    assert na * db == (a * inputReserve * 100) * k + (a * b * 99) * k;
    assert nb * da == (b * inputReserve * 100) * k + (a * b * 99) * k;
    MulLeRight(a * inputReserve * 100, b * inputReserve * 100, k);
    DivMonotone(na, da, nb, db);
  }

  /** The same input buys no more from a pool whose input reserve is larger
      and whose output reserve is smaller. */
  lemma {:induction false} MonotoneInReserves(x: nat, inputReserve: nat, outputReserve: nat,
                                              inputReserve': nat, outputReserve': nat)
    requires inputReserve <= inputReserve' && outputReserve' <= outputReserve
    requires Quotable(x, inputReserve)
    ensures Quotable(x, inputReserve')
    ensures GetAmount(x, inputReserve', outputReserve') <= GetAmount(x, inputReserve, outputReserve)
  {
    var d := inputReserve * 100 + x * 99;
    var d' := inputReserve' * 100 + x * 99;
    var n := x * 99 * outputReserve;
    var n' := x * 99 * outputReserve';
    MulLeRight(outputReserve', outputReserve, x * 99);
    assert n' <= n;
    MulLeRight(n', n, d);
    MulLeRight(d, d', n);
    assert n' * d <= n * d';
    DivMonotone(n', d', n, d);
  }

  /** After selling `inputAmount`, the next sale of `x` in the same direction
      buys no more than it would have before: a swap moves the price against
      the next trader in that direction. */
  lemma {:induction false} SwapWorsensNextQuote(inputAmount: nat, inputReserve: nat, outputReserve: nat, x: nat)
    requires Quotable(inputAmount, inputReserve) && Quotable(x, inputReserve)
    ensures Quotable(x, inputReserve + inputAmount)
    ensures GetAmount(x, inputReserve + inputAmount, outputReserve - GetAmount(inputAmount, inputReserve, outputReserve))
            <= GetAmount(x, inputReserve, outputReserve)
  {
    MonotoneInReserves(x, inputReserve, outputReserve,
                       inputReserve + inputAmount, outputReserve - GetAmount(inputAmount, inputReserve, outputReserve));
  }
}
