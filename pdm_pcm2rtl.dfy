/** The reduced-bits section of the PDM-to-PCM RTL study: a 12x CIC of order 4,
    two half-bands and a final FIR with 17-bit coefficients take 2.304 MHz down to
    48 kHz; their responses, computed over H_size points, are lined up on the input
    rate grid, multiplied, and the product folded into 48 blocks to show what is left
    after decimation. */
module PdmPcm2Rtl {
  import opened Results
  import opened Arith
  import opened PySeq
  import opened Complex
  import opened Unfold
  import opened FirDesign
  import HalfBand
  import OrderSearch
  import Cic
  import MulsTable

  /** `total_decim = f_pdm // f_out`. */
  const TotalDecim: int := MulsTable.FPdm / MulsTable.FOut

  /** The CIC of this design: decimation 12, order 4. */
  const CicDecim: int := 12
  const CicOrder: int := 4

  /** The section's own `coef_bits = 17` and `a_sb = 101`. */
  const CoefBits: nat := 17
  const ASb: real := 101.0

  /** `H_size = round(65536/(total_decim*2)) * (total_decim*2)`: a whole number of
      blocks of 2*total_decim points. */
  function HSize(total: int): (r: int)
    requires total >= 1
    ensures r % (2 * total) == 0
  {
    var n := RoundHalfEven(65536.0 / (2 * total) as real);
    MultipleDivMod(n, 2 * total);
    n * (2 * total)
  }

  /** H_size is the multiple of 2*total_decim nearest to 65536. */
  lemma HSizeNearest(total: int)
    requires total >= 1
    ensures -total <= HSize(total) - 65536 <= total
  {
    var m := 2 * total;
    var x := 65536.0 / m as real;
    var n := RoundHalfEven(x);
    assert x * m as real == 65536.0;
    NearestMultiple(n, m, x);
    assert HSize(total) == n * m;
  }

  /** n*m lies within m/2 of 65536 when n lies within 1/2 of 65536/m. */
  lemma NearestMultiple(n: int, m: int, x: real)
    requires m >= 2 && x * m as real == 65536.0 && -0.5 <= n as real - x <= 0.5
    ensures -m <= 2 * (n * m - 65536) <= m
  {
    var e := n as real - x;
    ScaleOffset(e, m as real);
    assert (n * m) as real == n as real * m as real;
    assert (n * m - 65536) as real == e * m as real;
  }

  lemma ScaleOffset(e: real, m: real)
    requires -0.5 <= e <= 0.5 && m > 0.0
    ensures -m / 2.0 <= e * m <= m / 2.0
  {
    if e >= 0.0 {
      assert e * m <= 0.5 * m;
    } else {
      assert -e * m <= 0.5 * m;
    }
  }

  /** For this design: 48 to decimate, and 65568 = 683 * 96 response points. */
  lemma HSizeOfDesign()
    ensures TotalDecim == 48 && HSize(TotalDecim) == 65568
  {
    RoundHalfEvenUnique(65536.0 / 96.0, 683);
  }

  /** A stage of the design: the order the search picked and the design redone at
      that order with 17-bit coefficients. */
  datatype Designed = Designed(order: int, d: Design)

  /** A half-band at input rate fs within the budget: its order is the first of
      2, 6, 10, ... whose unquantised 512-point design meets the budget and a_sb, and
      the recorded design is the 17-bit one over hSize points (lines 284-285). */
  ghost predicate HalfBandDesigned(num: Numerics, hSize: int, fs: real, budget: real, s: Designed)
  {
    && OrderSearch.Candidate(s.order, 2, 1000, 4)
    && HalfBand.HalfBandCalcFilter(num, fs, MulsTable.FSb, s.order, 512, None).Ok?
    && Meets(num, HalfBand.HalfBandCalcFilter(num, fs, MulsTable.FSb, s.order, 512, None).value.m, budget, ASb)
    && (forall k :: OrderSearch.Candidate(k, 2, s.order, 4) ==>
          HalfBand.HalfBandCalcFilter(num, fs, MulsTable.FSb, k, 512, None).Ok? &&
          !Meets(num, HalfBand.HalfBandCalcFilter(num, fs, MulsTable.FSb, k, 512, None).value.m, budget, ASb))
    && HalfBand.HalfBandCalcFilter(num, fs, MulsTable.FSb, s.order, hSize, Some(CoefBits)) == Ok(s.d)
  }

  /** The final FIR at rate fs within the budget: its order is the first of 1, 2, ...
      whose unquantised hSize-point design meets the spec, and the recorded design
      is the 17-bit one (lines 306-307). */
  ghost predicate FirDesigned(num: Numerics, hSize: int, fs: real, budget: real, s: Designed)
  {
    && 1 <= s.order < 1000
    && FirCalcFilter(num, fs, MulsTable.FPb, MulsTable.FSb, budget, ASb, s.order, hSize, None).Ok?
    && Meets(num, FirCalcFilter(num, fs, MulsTable.FPb, MulsTable.FSb, budget, ASb, s.order, hSize, None).value.m,
             budget, ASb)
    && (forall k :: 1 <= k < s.order ==>
          FirCalcFilter(num, fs, MulsTable.FPb, MulsTable.FSb, budget, ASb, k, hSize, None).Ok? &&
          !Meets(num, FirCalcFilter(num, fs, MulsTable.FPb, MulsTable.FSb, budget, ASb, k, hSize, None).value.m,
                 budget, ASb))
    && FirCalcFilter(num, fs, MulsTable.FPb, MulsTable.FSb, budget, ASb, s.order, hSize, Some(CoefBits)) == Ok(s.d)
  }

  /** `half_band_find_optimal_N(f_s_remain, f_sb, pb_attn_remain, a_sb)` followed by
      `half_band_calc_filter(f_s_remain, f_sb, order = N, coef_bits = 17, H_nr_points = H_size)`.
      A None from the search reaches the order asserts as `None % 2`, a TypeError. */
  method DesignHalfBand(num: Numerics, hSize: int, fs: real, budget: real) returns (r: Result<Designed>)
    ensures r.Ok? ==> HalfBandDesigned(num, hSize, fs, budget, r.value)
    ensures !(MulsTable.FSb < fs / 4.0) ==> r == Err(AssertionError)
    ensures HalfBand.HalfBandFailsBelow(num, fs, MulsTable.FSb, budget, ASb, 2, 1000) ==> r == Err(TypeError)
  {
    var n := HalfBand.HalfBandFindOptimalN(num, fs, MulsTable.FSb, budget, ASb, 2, 1000);
    if n.Err? {
      return Err(n.error);
    }
    if n.value.None? {
      return Err(TypeError);
    }
    var d := HalfBand.HalfBandCalcFilter(num, fs, MulsTable.FSb, n.value.value, hSize, Some(CoefBits));
    if d.Err? {
      return Err(d.error);
    }
    r := Ok(Designed(n.value.value, d.value));
  }

  /** `fir_find_optimal_N(f_s_remain, f_pb, f_sb, pb_attn_remain, a_sb, H_nr_points = H_size)`
      followed by `fir_calc_filter(..., order = N, coef_bits = 17, H_nr_points = H_size)`.
      A None order fails at `order+1`, a TypeError. */
  method DesignFir(num: Numerics, hSize: int, fs: real, budget: real) returns (r: Result<Designed>)
    ensures r.Ok? ==> FirDesigned(num, hSize, fs, budget, r.value)
    ensures fs == 0.0 || budget == 0.0 ==> r == Err(ZeroDivisionError)
    ensures FirFailsBelow(num, fs, MulsTable.FPb, MulsTable.FSb, budget, ASb, 1, 1000, hSize) ==> r == Err(TypeError)
  {
    var n := FirFindOptimalN(num, fs, MulsTable.FPb, MulsTable.FSb, budget, ASb, 1, 1000, hSize);
    if n.Err? {
      return Err(n.error);
    }
    if n.value.None? {
      return Err(TypeError);
    }
    var d := FirCalcFilter(num, fs, MulsTable.FPb, MulsTable.FSb, budget, ASb, n.value.value, hSize, Some(CoefBits));
    if d.Err? {
      return Err(d.error);
    }
    r := Ok(Designed(n.value.value, d.value));
  }

  datatype Stages = Stages(hb1: Designed, hb2: Designed, fir: Designed)

  /** The budget left after both half-bands: the CIC's share, then |dB20(Rpb)| of
      each 17-bit half-band design. */
  function FirBudget(num: Numerics, cicAttn: real, hb1: Designed, hb2: Designed): real
  {
    MulsTable.StartBudget(cicAttn) - Abs(num.db20(hb1.d.m.rpb)) - Abs(num.db20(hb2.d.m.rpb))
  }

  /** The stages of the design: HB1 at 192 kHz with what the CIC leaves of a_pb, HB2
      at 96 kHz with what HB1 leaves, the FIR at 48 kHz with the rest. */
  ghost predicate StagesDesigned(num: Numerics, hSize: int, cicAttn: real, s: Stages)
  {
    && HalfBandDesigned(num, hSize, 192000.0, MulsTable.StartBudget(cicAttn), s.hb1)
    && HalfBandDesigned(num, hSize, 96000.0, MulsTable.StartBudget(cicAttn) - Abs(num.db20(s.hb1.d.m.rpb)), s.hb2)
    && FirDesigned(num, hSize, 48000.0, FirBudget(num, cicAttn, s.hb1, s.hb2), s.fir)
  }

  /** Lines 276-307: start from `decim_remain = (f_pdm//cic_decim)//f_out` and
      `f_s_remain = f_pdm//cic_decim`, halve both after each half-band and take
      |dB20(Rpb)| off the budget; the FIR gets what is left, with nothing left to
      decimate. */
  method ReducedBitsStages(num: Numerics, hSize: int, cicAttn: real)
    returns (r: Result<Stages>, decimRemain: int, fsRemain: int, budget: real)
    ensures r.Ok? ==> decimRemain == 1 && fsRemain == MulsTable.FOut
    ensures r.Ok? ==> budget == FirBudget(num, cicAttn, r.value.hb1, r.value.hb2)
    ensures r.Ok? ==> StagesDesigned(num, hSize, cicAttn, r.value)
  {
    var hbs;
    hbs, decimRemain, fsRemain, budget := TwoHalfBands(num, hSize, cicAttn);
    if hbs.Err? {
      return Err(hbs.error), decimRemain, fsRemain, budget;
    }
    var fir := DesignFir(num, hSize, fsRemain as real, budget);
    if fir.Err? {
      return Err(fir.error), decimRemain, fsRemain, budget;
    }
    StagesOfParts(num, hSize, cicAttn, hbs.value.0, hbs.value.1, fir.value);
    r := Ok(Stages(hbs.value.0, hbs.value.1, fir.value));
  }

  lemma StagesOfParts(num: Numerics, hSize: int, cicAttn: real, hb1: Designed, hb2: Designed, fir: Designed)
    requires HalfBandDesigned(num, hSize, 192000.0, MulsTable.StartBudget(cicAttn), hb1)
    requires HalfBandDesigned(num, hSize, 96000.0, MulsTable.StartBudget(cicAttn) - Abs(num.db20(hb1.d.m.rpb)), hb2)
    requires FirDesigned(num, hSize, 48000.0, FirBudget(num, cicAttn, hb1, hb2), fir)
    ensures StagesDesigned(num, hSize, cicAttn, Stages(hb1, hb2, fir))
  {
  }

  /** The HB1 and HB2 sections (lines 276-300): each designs at the current rate and
      budget, then halves the rate and the decimation left and takes |dB20(Rpb)| off
      the budget. */
  method TwoHalfBands(num: Numerics, hSize: int, cicAttn: real)
    returns (r: Result<(Designed, Designed)>, decimRemain: int, fsRemain: int, budget: real)
    ensures r.Ok? ==> decimRemain == 1 && fsRemain == MulsTable.FOut && fsRemain as real == 48000.0
    ensures r.Ok? ==> budget == FirBudget(num, cicAttn, r.value.0, r.value.1)
    ensures r.Ok? ==> HalfBandDesigned(num, hSize, 192000.0, MulsTable.StartBudget(cicAttn), r.value.0)
    ensures r.Ok? ==> HalfBandDesigned(num, hSize, 96000.0,
                                       MulsTable.StartBudget(cicAttn) - Abs(num.db20(r.value.0.d.m.rpb)), r.value.1)
  {
    RatesOfDesign();
    decimRemain := MulsTable.FloorDiv(MulsTable.FloorDiv(MulsTable.FPdm, CicDecim), MulsTable.FOut);
    fsRemain := MulsTable.FloorDiv(MulsTable.FPdm, CicDecim);
    budget := MulsTable.StartBudget(cicAttn);
    assert fsRemain as real == 192000.0;

    var hb1 := DesignHalfBand(num, hSize, fsRemain as real, budget);
    if hb1.Err? {
      return Err(hb1.error), decimRemain, fsRemain, budget;
    }
    decimRemain := MulsTable.FloorDiv(decimRemain, 2);
    fsRemain := MulsTable.FloorDiv(fsRemain, 2);
    budget := budget - Abs(num.db20(hb1.value.d.m.rpb));
    assert fsRemain as real == 96000.0;

    var hb2 := DesignHalfBand(num, hSize, fsRemain as real, budget);
    if hb2.Err? {
      return Err(hb2.error), decimRemain, fsRemain, budget;
    }
    decimRemain := MulsTable.FloorDiv(decimRemain, 2);
    fsRemain := MulsTable.FloorDiv(fsRemain, 2);
    budget := budget - Abs(num.db20(hb2.value.d.m.rpb));
    r := Ok((hb1.value, hb2.value));
  }

  /** The rates and decimations the loop goes through: 192 kHz after the CIC, 96 and
      48 kHz after each half-band, 4, 2 and 1 left to decimate. */
  lemma RatesOfDesign()
    ensures MulsTable.FloorDiv(MulsTable.FPdm, CicDecim) == 192000
    ensures MulsTable.FloorDiv(192000, 2) == 96000 && MulsTable.FloorDiv(96000, 2) == 48000
    ensures MulsTable.FloorDiv(192000, MulsTable.FOut) == 4
    ensures MulsTable.FloorDiv(4, 2) == 2 && MulsTable.FloorDiv(2, 2) == 1
  {
  }

  /** `H_unfold(H, ratio)[::ratio]`: a stage's response over [0, fs/2) unfolded to the
      input rate and sampled back onto the grid of the other responses. */
  function Aligned<T>(h: seq<T>, ratio: int): (r: seq<T>)
    requires ratio >= 1
    ensures |r| == |h|
  {
    UnfoldedStrideLength(h, ratio);
    Stride(Unfolded(h, ratio), ratio)
  }

  /** The aligned response has one sample per bin, and bin k reads the unfolded
      response at k*ratio: copy (k*ratio) div len, mirrored when that copy is odd. */
  lemma AlignedSample<T>(h: seq<T>, ratio: int, k: int)
    requires ratio >= 1 && 0 <= k < |h|
    ensures |Aligned(h, ratio)| == |h|
    ensures Aligned(h, ratio)[k] == MirroredAt(h, k * ratio)
  {
    UnfoldedStrideLength(h, ratio);
    assert Aligned(h, ratio)[k] == Unfolded(h, ratio)[k * ratio];
    UnfoldedAt(h, ratio, k * ratio);
  }

  /** Line 320: `cic_H * hb1_H_no_decim * hb2_H_no_decim * fir_H_no_decim`, the
      half-bands and FIR aligned at 12, 24 and 48 times their own rate. */
  function Cascade(cicH: seq<Complex>, hb1H: seq<Complex>, hb2H: seq<Complex>, firH: seq<Complex>)
    : Result<seq<Complex>>
  {
    match Times(cicH, Aligned(hb1H, 12))
    case Err(e) => Err(e)
    case Ok(p1) =>
      match Times(p1, Aligned(hb2H, 24))
      case Err(e) => Err(e)
      case Ok(p2) => Times(p2, Aligned(firH, 48))
  }

  /** Lines 314-320, with the alignment done by the `H_unfold` loop. */
  method CascadeResponse(cicH: seq<Complex>, hb1H: seq<Complex>, hb2H: seq<Complex>, firH: seq<Complex>)
    returns (r: Result<seq<Complex>>)
    ensures r == Cascade(cicH, hb1H, hb2H, firH)
  {
    var u1 := HUnfold(hb1H, 12);
    var u2 := HUnfold(hb2H, 24);
    var u3 := HUnfold(firH, 48);
    var hb1NoDecim := Stride(u1, 12);
    var hb2NoDecim := Stride(u2, 24);
    var firNoDecim := Stride(u3, 48);
    var p1 := Times(cicH, hb1NoDecim);
    if p1.Err? {
      return Err(p1.error);
    }
    var p2 := Times(p1.value, hb2NoDecim);
    if p2.Err? {
      return Err(p2.error);
    }
    r := Times(p2.value, firNoDecim);
  }

  /** When every response has the same number of points the products all succeed,
      keep that length, and multiply bin by bin. */
  lemma CascadeAligned(cicH: seq<Complex>, hb1H: seq<Complex>, hb2H: seq<Complex>, firH: seq<Complex>)
    requires |hb1H| == |cicH| && |hb2H| == |cicH| && |firH| == |cicH|
    ensures Cascade(cicH, hb1H, hb2H, firH).Ok?
    ensures |Cascade(cicH, hb1H, hb2H, firH).value| == |cicH|
    ensures forall k :: 0 <= k < |cicH| ==>
      Cascade(cicH, hb1H, hb2H, firH).value[k] ==
        Mul(Mul(Mul(cicH[k], Aligned(hb1H, 12)[k]), Aligned(hb2H, 24)[k]), Aligned(firH, 48)[k])
  {
    UnfoldedStrideLength(hb1H, 12);
    UnfoldedStrideLength(hb2H, 24);
    UnfoldedStrideLength(firH, 48);
    var a1, a2, a3 := Aligned(hb1H, 12), Aligned(hb2H, 24), Aligned(firH, 48);
    assert |a1| == |cicH| && |a2| == |cicH| && |a3| == |cicH|;
    var p1 := Times(cicH, a1);
    assert p1.Ok? && |p1.value| == |cicH|;
    var p2 := Times(p1.value, a2);
    assert p2.Ok? && |p2.value| == |cicH|;
    var p3 := Times(p2.value, a3);
    assert p3.Ok? && |p3.value| == |cicH|;
    assert Cascade(cicH, hb1H, hb2H, firH) == p3;
    forall k | 0 <= k < |cicH|
      ensures p3.value[k] == Mul(Mul(Mul(cicH[k], a1[k]), a2[k]), a3[k])
    {
      assert p1.value[k] == Mul(cicH[k], a1[k]);
      assert p2.value[k] == Mul(p1.value[k], a2[k]);
    }
  }

  /** Sample j of block i of H, read backwards in the odd blocks (`np.flip`). */
  function BlockSample(h: seq<Complex>, len: nat, i: nat, j: nat): Complex
    requires (i + 1) * len <= |h| && j < len
  {
    if i % 2 == 0 then h[i * len + j] else h[i * len + (len - 1 - j)]
  }

  /** Sample j of the sum of blocks 0 .. n-1. */
  function FoldSample(h: seq<Complex>, len: nat, n: nat, j: nat): Complex
    requires n * len <= |h| && j < len
    decreases n
  {
    if n == 0 then Zero
    else
      MulMonotone(n - 1, n, len);
      Add(FoldSample(h, len, n - 1, j), BlockSample(h, len, n - 1, j))
  }

  /** The first n blocks of length len summed, the odd ones flipped. */
  function Folded(h: seq<Complex>, len: nat, n: nat): (r: seq<Complex>)
    requires n * len <= |h|
    ensures |r| == len
  {
    seq(len, j requires 0 <= j < len => FoldSample(h, len, n, j))
  }

  /** Block i of the 48 lies inside H: `H[i*L:(i+1)*L]` never runs past the end. */
  lemma BlockInRange(n: nat, i: int)
    requires 0 <= i < 48
    ensures 0 <= i * (n / 48) && (i + 1) * (n / 48) <= n
  {
    MulMonotone(i + 1, 48, n / 48);
  }

  /** Lines 417-425: `H_decimated_len = len(H)//48`, start from zeros and add the 48
      slices of that length, flipping the odd ones. */
  method Fold(h: seq<Complex>) returns (out: seq<Complex>)
    ensures |out| == |h| / 48
    ensures out == Folded(h, |h| / 48, 48)
  {
    var len := |h| / 48;
    out := seq(len, _ => Zero);
    assert out == Folded(h, len, 0);
    var i := 0;
    while i < 48
      invariant 0 <= i <= 48
      invariant i * len <= |h|
      invariant out == Folded(h, len, i)
    {
      BlockInRange(|h|, i);
      var block := h[i * len .. (i + 1) * len];
      var prev := out;
      if i % 2 == 0 {
        out := AddAll(out, block);
      } else {
        out := AddAll(out, Reverse(block));
      }
      forall j | 0 <= j < len
        ensures out[j] == FoldSample(h, len, i + 1, j)
      {
        assert prev[j] == FoldSample(h, len, i, j);
      }
      i := i + 1;
    }
  }

  /** When len(H) is a multiple of 48 the blocks tile H: they cover all of it, and
      every index t lies in block t div L at offset t mod L. */
  lemma FoldTiles(n: nat, t: int)
    requires n % 48 == 0 && 0 <= t < n
    ensures 48 * (n / 48) == n
    ensures n / 48 >= 1 && t / (n / 48) < 48 && t == (t / (n / 48)) * (n / 48) + t % (n / 48)
  {
    var len := n / 48;
    assert n == 48 * len;
    DivBelow(t, 48, len);
  }

  /** Folding undoes unfolding: the copies of a response fold back onto it, each
      mirrored copy flipped back, so every bin holds `ratio` times its value. With
      ratio 48 this is the fold of lines 417-425 applied to `H_unfold(H, 48)`. */
  lemma FoldUnfold(h: seq<Complex>, ratio: nat)
    requires ratio >= 1
    ensures |Unfolded(h, ratio)| / ratio == |h|
    ensures ratio * |h| <= |Unfolded(h, ratio)|
    ensures Folded(Unfolded(h, ratio), |h|, ratio) ==
      seq(|h|, j requires 0 <= j < |h| => Scale(ratio as real, h[j]))
  {
    var u := Unfolded(h, ratio);
    assert |u| == |h| * ratio by {
      UnfoldedLength(h, ratio);
    }
    assert |u| / ratio == |h| by {
      MultipleDivMod(|h|, ratio);
    }
    forall j | 0 <= j < |h|
      ensures FoldSample(Unfolded(h, ratio), |h|, ratio, j) == Scale(ratio as real, h[j])
    {
      FoldUnfoldSample(h, ratio, ratio, j);
    }
  }

  lemma {:induction false} FoldUnfoldSample(h: seq<Complex>, ratio: nat, n: nat, j: nat)
    requires n <= ratio && j < |h|
    ensures n * |h| <= |Unfolded(h, ratio)|
    ensures FoldSample(Unfolded(h, ratio), |h|, n, j) == Scale(n as real, h[j])
    decreases n
  {
    UnfoldedBlocksFit(h, ratio, n);
    if n > 0 {
      FoldUnfoldSample(h, ratio, n - 1, j);
      UnfoldedBlockSample(h, ratio, n - 1, j);
      assert Add(Scale((n - 1) as real, h[j]), h[j]) == Scale((n - 1) as real + 1.0, h[j]);
    }
  }

  lemma UnfoldedBlocksFit(h: seq<Complex>, ratio: nat, n: nat)
    requires n <= ratio
    ensures n * |h| <= |Unfolded(h, ratio)|
  {
    UnfoldedLength(h, ratio);
    MulMonotone(n, ratio, |h|);
  }

  /** Each block of the unfolded response, flipped back when odd, is h. */
  lemma UnfoldedBlockSample(h: seq<Complex>, ratio: nat, i: nat, j: nat)
    requires i < ratio && j < |h|
    ensures (i + 1) * |h| <= |Unfolded(h, ratio)|
    ensures BlockSample(Unfolded(h, ratio), |h|, i, j) == h[j]
  {
    UnfoldedBlocksFit(h, ratio, i + 1);
    if i % 2 == 0 {
      UnfoldedBlock(h, ratio, i, j);
    } else {
      UnfoldedBlock(h, ratio, i, |h| - 1 - j);
    }
  }


  /** The product the study folds: the CIC's response (through `freqz` of its
      impulse response) times the aligned responses of the three designed stages. */
  function StudyProduct(freqz: (seq<real>, int) -> seq<Complex>, s: Stages, n: int): Result<seq<Complex>>
  {
    Cascade(freqz(Cic.BoxPower(CicDecim, CicOrder), n), freqz(s.hb1.d.h, n), freqz(s.hb2.d.h, n), freqz(s.fir.d.h, n))
  }

  /** The 48-block fold of h, blocks of len(h) // 48 samples. */
  function FoldedBy48(h: seq<Complex>): seq<Complex>
  {
    Folded(h, |h| / 48, 48)
  }

  /** The reduced-bits study of lines 252-425: size the responses, measure the CIC,
      design the two half-bands and the FIR, multiply the aligned responses and fold
      the product into 48 blocks. `freqz` stands for `signal.freqz(h, worN = n)`. */
  method ReducedBitsStudy(num: Numerics, dftDb: seq<real> -> seq<real>,
                          freqz: (seq<real>, int) -> seq<Complex>)
    returns (r: Result<seq<Complex>>, cicAttn: real, s: Stages)
    ensures r.Ok? ==> MulsTable.CicAttnPadded(CicDecim, CicOrder, HSize(TotalDecim), dftDb) == Ok(cicAttn)
    ensures r.Ok? ==> StagesDesigned(num, HSize(TotalDecim), cicAttn, s)
    ensures r.Ok? ==> var product := StudyProduct(freqz, s, HSize(TotalDecim));
                      product.Ok? && r.value == FoldedBy48(product.value)
  {
    var hSize := HSize(TotalDecim);
    s := Stages(Designed(0, Design([], [], Measurement(0.0, 0.0, 0.0, 0.0, 0.0))),
                Designed(0, Design([], [], Measurement(0.0, 0.0, 0.0, 0.0, 0.0))),
                Designed(0, Design([], [], Measurement(0.0, 0.0, 0.0, 0.0, 0.0))));
    var hc := Cic.CicFilter(CicDecim, CicOrder, 1);
    var attn := MulsTable.CicAttenuation(CicDecim, CicOrder, hc.value, hSize, dftDb);
    if attn.Err? {
      return Err(attn.error), 0.0, s;
    }
    cicAttn := attn.value;
    var cicH := freqz(hc.value, hSize);

    r, s := StagesAndFold(num, hSize, cicAttn, cicH, freqz);
  }

  /** Lines 276-425 once the CIC is measured: design the stages, multiply the aligned
      responses and fold the product into 48 blocks. */
  method StagesAndFold(num: Numerics, hSize: int, cicAttn: real, cicH: seq<Complex>,
                       freqz: (seq<real>, int) -> seq<Complex>)
    returns (r: Result<seq<Complex>>, s: Stages)
    requires cicH == freqz(Cic.BoxPower(CicDecim, CicOrder), hSize)
    ensures r.Ok? ==> StagesDesigned(num, hSize, cicAttn, s)
    ensures r.Ok? ==> var product := StudyProduct(freqz, s, hSize);
                      product.Ok? && r.value == FoldedBy48(product.value)
  {
    s := Stages(Designed(0, Design([], [], Measurement(0.0, 0.0, 0.0, 0.0, 0.0))),
                Designed(0, Design([], [], Measurement(0.0, 0.0, 0.0, 0.0, 0.0))),
                Designed(0, Design([], [], Measurement(0.0, 0.0, 0.0, 0.0, 0.0))));
    var stages, _, _, _ := ReducedBitsStages(num, hSize, cicAttn);
    if stages.Err? {
      return Err(stages.error), s;
    }
    s := stages.value;

    var product := CascadeResponse(cicH, freqz(s.hb1.d.h, hSize), freqz(s.hb2.d.h, hSize), freqz(s.fir.d.h, hSize));
    if product.Err? {
      return Err(product.error), s;
    }
    var folded := Fold(product.value);
    r := Ok(folded);
  }
}
