/** `reduce_bits(h, nr_bits)`: fixed-point quantisation of filter taps. The step is
    the full scale 2*max|h| spread over 2^bits - 1 levels; every tap is rounded
    (half to even, as `np.around` does) to a whole number of steps. */
module Quantize {
  import opened Results
  import opened Arith
  import opened PySeq

  /** `np.max(np.abs(h))`. */
  function MaxAbs(h: seq<real>): (m: real)
    requires |h| > 0
    ensures m >= 0.0
    ensures forall i :: 0 <= i < |h| ==> Abs(h[i]) <= m
    ensures exists i :: 0 <= i < |h| && Abs(h[i]) == m
  {
    if |h| == 1 then Abs(h[0])
    else
      var rest := MaxAbs(h[1..]);
      if Abs(h[0]) >= rest then Abs(h[0]) else rest
  }

  /** `float_step = 2*max|h| / (2**nr_bits - 1)`. */
  function QuantStep(h: seq<real>, bits: nat): real
    requires |h| > 0 && bits >= 1
  {
    StepFor(MaxAbs(h), bits)
  }

  /** The step for full scale m: 2m spread over 2^bits - 1 levels. */
  function StepFor(m: real, bits: nat): real
    requires bits >= 1
  {
    2.0 * m / ((Pow2(bits) - 1) as real)
  }

  /** One tap as a whole number of steps. */
  function QuantizedTap(x: real, step: real): int
    requires step > 0.0
  {
    RoundHalfEven(x / step)
  }

  function QuantizedTaps(h: seq<real>, step: real): (n: seq<int>)
    requires step > 0.0
    ensures |n| == |h|
    ensures forall i :: 0 <= i < |h| ==> n[i] == QuantizedTap(h[i], step)
  {
    seq(|h|, i requires 0 <= i < |h| => QuantizedTap(h[i], step))
  }

  /** `h_int * float_step`. */
  function Scaled(n: seq<int>, step: real): (r: seq<real>)
    ensures |r| == |n|
    ensures forall i :: 0 <= i < |n| ==> r[i] == n[i] as real * step
  {
    seq(|n|, i requires 0 <= i < |n| => n[i] as real * step)
  }

  /** Returns (h_round, h_int). An empty h is a numpy ValueError (max of an empty
      array). A zero step (all-zero taps, or 2**0 - 1 == 0 levels) divides by zero; numpy
      answers that with nan and a warning rather than an exception, and the model
      reports it as ZeroDivisionError. */
  function ReduceBits(h: seq<real>, bits: nat): (r: Result<(seq<real>, seq<int>)>)
    ensures r.Ok? <==> |h| > 0 && bits >= 1 && MaxAbs(h) > 0.0
    ensures |h| == 0 ==> r == Err(ValueError)
    ensures |h| > 0 && (bits == 0 || MaxAbs(h) == 0.0) ==> r == Err(ZeroDivisionError)
    ensures r.Ok? ==> |r.value.0| == |h| && |r.value.1| == |h|
    ensures r.Ok? ==> r.value.0 == Scaled(r.value.1, QuantStep(h, bits))
  {
    if |h| == 0 then Err(ValueError)
    else if bits == 0 || MaxAbs(h) == 0.0 then Err(ZeroDivisionError)
    else
      StepPositive(MaxAbs(h), bits);
      var hInt := QuantizedTaps(h, QuantStep(h, bits));
      Ok((Scaled(hInt, QuantStep(h, bits)), hInt))
  }

  lemma StepPositive(m: real, bits: nat)
    requires m > 0.0 && bits >= 1
    ensures StepFor(m, bits) > 0.0
  {
    assert Pow2(bits) == 2 * Pow2(bits - 1);
    QuotientPositive(2.0 * m, (Pow2(bits) - 1) as real);
  }

  /** Every rounded tap lies within half a step of the original tap, and every
      integer tap within the signed range of `bits` bits widened by one:
      |h_int| <= 2^(bits-1). */
  lemma {:induction false} ReduceBitsBounds(h: seq<real>, bits: nat, i: int)
    requires ReduceBits(h, bits).Ok? && 0 <= i < |h|
    ensures Abs(ReduceBits(h, bits).value.0[i] - h[i]) <= QuantStep(h, bits) / 2.0
    ensures IntAbs(ReduceBits(h, bits).value.1[i]) <= Pow2(bits - 1)
  {
    ReduceBitsTap(h, bits, i);
    QuantizedTapBounds(h[i], MaxAbs(h), bits, QuantStep(h, bits),
                       ReduceBits(h, bits).value.1[i], ReduceBits(h, bits).value.0[i]);
  }

  /** n is x rounded to whole steps, and v is n steps. */
  predicate QuantizedAs(x: real, step: real, n: int, v: real)
  {
    step > 0.0 && n == QuantizedTap(x, step) && v == n as real * step
  }

  /** Tap i of h_int is h[i] rounded to whole steps, and tap i of h_round is that many steps. */
  lemma {:induction false} ReduceBitsTap(h: seq<real>, bits: nat, i: int)
    requires ReduceBits(h, bits).Ok? && 0 <= i < |h|
    ensures bits >= 1 && MaxAbs(h) > 0.0 && Abs(h[i]) <= MaxAbs(h)
    ensures QuantizedAs(h[i], QuantStep(h, bits), ReduceBits(h, bits).value.1[i], ReduceBits(h, bits).value.0[i])
  {
    StepPositive(MaxAbs(h), bits);
    var r := ReduceBits(h, bits).value;
    assert r.1 == QuantizedTaps(h, QuantStep(h, bits));
  }

  /** One tap x with |x| <= m, quantised with the step 2m/(2^bits - 1). */
  lemma QuantizedTapBounds(x: real, m: real, bits: nat, step: real, n: int, v: real)
    requires bits >= 1 && m > 0.0 && Abs(x) <= m
    requires step == StepFor(m, bits)
    requires QuantizedAs(x, step, n, v)
    ensures Abs(v - x) <= step / 2.0
    ensures IntAbs(n) <= Pow2(bits - 1)
  {
    assert Pow2(bits) == 2 * Pow2(bits - 1);
    StepRatio(m, (Pow2(bits) - 1) as real, step);
    TapError(x, step, n, v);
    // |x/step| <= m/step == (2^bits - 1)/2, and rounding moves it by at most 1/2
    DivMonotone(Abs(x), m, step);
    AbsDiv(x, step);
  }

  /** Rounding x/step and scaling back by step misses x by at most half a step. */
  lemma TapError(x: real, step: real, n: int, v: real)
    requires step > 0.0
    requires n == RoundHalfEven(x / step) && v == n as real * step
    ensures Abs(v - x) <= step / 2.0
  {
    assert (x / step) * step == x;
    assert n as real * step - x == (n as real - x / step) * step;
    ErrorScaled(n as real - x / step, step);
  }

  lemma ErrorScaled(e: real, step: real)
    requires -0.5 <= e <= 0.5 && step > 0.0
    ensures Abs(e * step) <= step / 2.0
  {
    ProductNonNegative(0.5 - e, step);
    ProductNonNegative(e + 0.5, step);
  }

  lemma StepRatio(m: real, levels: real, step: real)
    requires m > 0.0 && levels > 0.0 && step == 2.0 * m / levels
    ensures step > 0.0
    ensures m / step == levels / 2.0
  {
    assert step * levels == 2.0 * m;
    assert (levels / 2.0) * step == m;
  }

  lemma AbsDiv(x: real, c: real)
    requires c > 0.0
    ensures Abs(x / c) == Abs(x) / c
  {
    if x < 0.0 {
      assert x / c < 0.0;
      assert -(x / c) == (-x) / c;
    }
  }

  /** The peak tap sits exactly on a tie: h/step == ±(2^(bits-1) - 1/2), which half-to-even
      rounding sends to ±2^(bits-1). So for bits >= 2 the bound IntAbs(h_int) <= 2^(bits-1) of
      ReduceBits is reached, and 2^(bits-1) - 1 is not a bound on h_int. */
  lemma PeakTapAtFullScale(h: seq<real>, bits: nat, i: int)
    requires |h| > 0 && bits >= 2 && MaxAbs(h) > 0.0
    requires 0 <= i < |h| && Abs(h[i]) == MaxAbs(h)
    ensures ReduceBits(h, bits).Ok?
    ensures ReduceBits(h, bits).value.1[i] == if h[i] > 0.0 then Pow2(bits - 1) as int else -(Pow2(bits - 1) as int)
  {
    var step := QuantStep(h, bits);
    ReduceBitsTap(h, bits, i);
    PeakRatio(h[i], MaxAbs(h), bits, step);
    Pow2Even(bits - 1);
    TieRounds(h[i] / step, Pow2(bits - 1), h[i] > 0.0);
  }

  lemma Pow2Even(n: nat)
    requires n >= 1
    ensures Pow2(n) % 2 == 0
  {
    assert Pow2(n) == 2 * Pow2(n - 1);
  }

  /** An even k is where half-to-even rounding sends the ties k - 1/2 and 1/2 - k. */
  lemma TieRounds(x: real, k: int, positive: bool)
    requires k % 2 == 0
    requires positive ==> x == k as real - 0.5
    requires !positive ==> x == 0.5 - k as real
    ensures RoundHalfEven(x) == if positive then k else -k
  {
    var tie := k as real - 0.5;
    RoundHalfEvenUnique(tie, k);
    if !positive {
      assert x == -tie;
      RoundHalfEvenNegate(tie);
    }
  }

  lemma PeakRatio(x: real, m: real, bits: nat, step: real)
    requires bits >= 1 && m > 0.0 && Abs(x) == m
    requires step == StepFor(m, bits)
    ensures x > 0.0 ==> x / step == Pow2(bits - 1) as real - 0.5
    ensures x <= 0.0 ==> x / step == 0.5 - Pow2(bits - 1) as real
  {
    assert Pow2(bits) == 2 * Pow2(bits - 1);
    StepRatio(m, (Pow2(bits) - 1) as real, step);
    if x <= 0.0 {
      assert x == -m;
      assert x / step == -(m / step);
    }
  }
}
