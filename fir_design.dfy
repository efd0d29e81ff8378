/** `fir_calc_filter` and `fir_find_optimal_N`: design an order-N low-pass FIR with the
    Parks-McClellan (remez) algorithm, measure its frequency response over the pass
    band and the stop band, and search for the smallest order that meets the
    attenuation spec. The numerical routines (`signal.remez`, `signal.freqz`,
    `dB20`) are parameters; what is modelled is the request handed to remez, the
    band slicing of the response, the ripple figures and the search. */
module FirDesign {
  import opened Results
  import opened Arith
  import opened PySeq
  import Quantize
  import OrderSearch

  /** The weights handed to remez: a literal list, or the pair derived from the
      attenuation spec (passband 2/(1 - 10^(-Apb/20)), stopband 10^(Asb/20)). */
  datatype Weights = Given(w: seq<real>) | FromAttenuation(apb: real, asb: real)

  /** The arguments of one `signal.remez(numtaps, bands, desired, weight)` call. */
  datatype RemezRequest = RemezRequest(numTaps: int, bands: seq<real>, desired: seq<real>, weights: Weights)

  /** The library numerics: remez, the magnitude |H| of `signal.freqz(h, worN)` at worN
      points, and `dB20(x) = 20*log10(x)`. */
  datatype Numerics = Numerics(
    remez: RemezRequest -> seq<real>,
    freqzMag: (seq<real>, int) -> seq<real>,
    db20: real -> real)

  /** (Hpb_min, Hpb_max, Hsb_max) and the ripples Rpb, Rsb derived from them. */
  datatype Measurement = Measurement(pbMin: real, pbMax: real, sbMax: real, rpb: real, rsb: real)

  /** The result tuple: taps, response magnitude, and the measurement. */
  datatype Design = Design(h: seq<real>, mag: seq<real>, m: Measurement)

  /** `int(Fpb/Fs*2 * len(H))`: the end of the passband slice. */
  function PassbandEnd(mag: seq<real>, fs: real, fpb: real): int
    requires fs != 0.0
  {
    Trunc(fpb / fs * 2.0 * (|mag| as real))
  }

  /** `int(Fsb/Fs*2 * len(H) + 1)`: the start of the stopband slice. */
  function StopbandStart(mag: seq<real>, fs: real, fsb: real): int
    requires fs != 0.0
  {
    Trunc(fsb / fs * 2.0 * (|mag| as real) + 1.0)
  }

  function Passband(mag: seq<real>, fs: real, fpb: real): seq<real>
    requires fs != 0.0
  {
    Slice(mag, 0, PassbandEnd(mag, fs, fpb))
  }

  function Stopband(mag: seq<real>, fs: real, fsb: real): seq<real>
    requires fs != 0.0
  {
    Slice(mag, StopbandStart(mag, fs, fsb), |mag|)
  }

  /** The band measurement shared by `fir_calc_filter` and `half_band_calc_filter`.
      Fs == 0 fails the division; `min`/`max` of an empty band raise ValueError. */
  function MeasureBands(mag: seq<real>, fs: real, fpb: real, fsb: real): (r: Result<Measurement>)
    ensures fs == 0.0 ==> r == Err(ZeroDivisionError)
    ensures fs != 0.0 ==>
      (r.Ok? <==> |Passband(mag, fs, fpb)| > 0 && |Stopband(mag, fs, fsb)| > 0)
    ensures fs != 0.0 && r.Err? ==> r.error == ValueError
    ensures r.Ok? ==> r.value.pbMin in Passband(mag, fs, fpb) && r.value.pbMax in Passband(mag, fs, fpb)
    ensures r.Ok? ==> forall x :: x in Passband(mag, fs, fpb) ==> r.value.pbMin <= x <= r.value.pbMax
    ensures r.Ok? ==> r.value.sbMax in Stopband(mag, fs, fsb)
    ensures r.Ok? ==> forall x :: x in Stopband(mag, fs, fsb) ==> x <= r.value.sbMax
    ensures r.Ok? ==> r.value.rpb == 1.0 - (r.value.pbMax - r.value.pbMin) && r.value.rpb <= 1.0
    ensures r.Ok? ==> r.value.rsb == r.value.sbMax
  {
    if fs == 0.0 then Err(ZeroDivisionError)
    else
      var pb := Passband(mag, fs, fpb);
      var sb := Stopband(mag, fs, fsb);
      if |pb| == 0 || |sb| == 0 then Err(ValueError)
      else
        var pbMin, pbMax, sbMax := SeqMin(pb), SeqMax(pb), SeqMax(sb);
        Ok(Measurement(pbMin, pbMax, sbMax, 1.0 - (pbMax - pbMin), sbMax))
  }

  /** Rpb reaches its ceiling 1 exactly when the passband magnitude is flat. */
  lemma PassbandRippleFlat(mag: seq<real>, fs: real, fpb: real, fsb: real)
    requires MeasureBands(mag, fs, fpb, fsb).Ok?
    ensures MeasureBands(mag, fs, fpb, fsb).value.rpb == 1.0 <==>
      forall x, y :: x in Passband(mag, fs, fpb) && y in Passband(mag, fs, fpb) ==> x == y
  {
    var m := MeasureBands(mag, fs, fpb, fsb).value;
    var pb := Passband(mag, fs, fpb);
    if m.rpb != 1.0 {
      assert m.pbMin in pb && m.pbMax in pb && m.pbMin != m.pbMax;
    }
  }

  /** Magnitudes are non-negative, and then so is the stopband ripple Rsb. */
  lemma StopbandRippleNonNegative(mag: seq<real>, fs: real, fpb: real, fsb: real)
    requires MeasureBands(mag, fs, fpb, fsb).Ok?
    requires forall i :: 0 <= i < |mag| ==> mag[i] >= 0.0
    ensures MeasureBands(mag, fs, fpb, fsb).value.rsb >= 0.0
  {
    var m := MeasureBands(mag, fs, fpb, fsb).value;
    SliceMemberNonNegative(mag, StopbandStart(mag, fs, fsb), |mag|, m.sbMax);
  }

  lemma SliceMemberNonNegative(mag: seq<real>, lo: int, hi: int, x: real)
    requires forall i :: 0 <= i < |mag| ==> mag[i] >= 0.0
    requires x in Slice(mag, lo, hi)
    ensures x >= 0.0
  {
    var a, b := SliceBound(lo, |mag|), SliceBound(hi, |mag|);
    var k :| 0 <= k < b - a && mag[a..b][k] == x;
    assert mag[a..b][k] == mag[a + k];
  }

  /** For 0 <= Fpb <= Fsb and Fs > 0 the two measured bands do not overlap: the
      passband slice ends at or before bin floor(2*Fpb/Fs*len H), and the stopband
      starts strictly after bin floor(2*Fsb/Fs*len H). */
  lemma BandsDoNotOverlap(mag: seq<real>, fs: real, fpb: real, fsb: real)
    requires fs > 0.0 && 0.0 <= fpb <= fsb
    ensures 0 <= PassbandEnd(mag, fs, fpb) < StopbandStart(mag, fs, fsb)
  {
    DivMonotone(fpb, fsb, fs);
    QuotientNonNegative(fpb, fs);
    MulMonotoneReal(fpb / fs, fsb / fs, 2.0);
    MulMonotoneReal(fpb / fs * 2.0, fsb / fs * 2.0, |mag| as real);
    ProductNonNegative(fpb / fs * 2.0, |mag| as real);
    var x := fpb / fs * 2.0 * (|mag| as real);
    var y := fsb / fs * 2.0 * (|mag| as real);
    assert 0.0 <= x <= y;
    assert Trunc(x) as real <= x;
    assert y < Trunc(y + 1.0) as real;
  }

  lemma QuotientNonNegative(a: real, b: real)
    requires a >= 0.0 && b > 0.0
    ensures a / b >= 0.0
  {
    if a > 0.0 {
      QuotientPositive(a, b);
    }
  }

  /** The remez call of `fir_calc_filter`: order+1 taps, bands [0, Fpb/Fs, Fsb/Fs, 0.5],
      gains [1, 0], weights from the attenuation spec. */
  function FirRequest(fs: real, fpb: real, fsb: real, apb: real, asb: real, order: int): (q: RemezRequest)
    requires fs != 0.0
    ensures q.numTaps == order + 1 && |q.bands| == 4 && q.desired == [1.0, 0.0]
    ensures q.bands[0] == 0.0 && q.bands[3] == 0.5
    ensures q.bands[1] * fs == fpb && q.bands[2] * fs == fsb
  {
    RemezRequest(order + 1, [0.0, fpb / fs, fsb / fs, 0.5], [1.0, 0.0], FromAttenuation(apb, asb))
  }

  /** The band edges handed to remez are ascending exactly when 0 <= Fpb <= Fsb <= Fs/2. */
  lemma FirBandsAscending(fs: real, fpb: real, fsb: real, apb: real, asb: real, order: int)
    requires fs > 0.0
    ensures var b := FirRequest(fs, fpb, fsb, apb, asb, order).bands;
      (b[0] <= b[1] <= b[2] <= b[3]) <==> 0.0 <= fpb <= fsb <= fs / 2.0
  {
    var b := FirRequest(fs, fpb, fsb, apb, asb, order).bands;
    ScaledOrder(0.0, fpb, fs);
    ScaledOrder(fpb, fsb, fs);
    ScaledOrder(fsb, fs / 2.0, fs);
    assert (fs / 2.0) / fs == 0.5;
  }

  /** Dividing by a positive number keeps and reflects order. */
  lemma ScaledOrder(a: real, b: real, c: real)
    requires c > 0.0
    ensures a <= b <==> a / c <= b / c
  {
    if a <= b {
      DivMonotone(a, b, c);
    } else {
      DivMonotone(b, a, c);
      assert (a - b) / c > 0.0 by { QuotientPositive(a - b, c); }
      assert a / c - b / c == (a - b) / c;
    }
  }

  /** `fir_calc_filter(Fs, Fpb, Fsb, Apb, Asb, order, H_nr_points, coef_bits)`.
      Fs == 0 fails `Fpb/Fs`; Apb == 0 makes the passband error 1 - 10^0 zero and
      fails `1/err_pb`. With `coef_bits` the taps are quantised first. */
  function FirCalcFilter(num: Numerics, fs: real, fpb: real, fsb: real, apb: real, asb: real,
                         order: int, nPoints: int, coefBits: Option<nat>): (r: Result<Design>)
    ensures fs == 0.0 || apb == 0.0 ==> r == Err(ZeroDivisionError)
    ensures r.Ok? ==> fs != 0.0 && apb != 0.0
    ensures r.Ok? ==> Taps(num.remez(FirRequest(fs, fpb, fsb, apb, asb, order)), coefBits) == Ok(r.value.h)
    ensures r.Ok? ==> r.value.mag == num.freqzMag(r.value.h, nPoints)
    ensures r.Ok? ==> MeasureBands(r.value.mag, fs, fpb, fsb) == Ok(r.value.m)
  {
    if fs == 0.0 || apb == 0.0 then Err(ZeroDivisionError)
    else
      var h0 := num.remez(FirRequest(fs, fpb, fsb, apb, asb, order));
      match Taps(h0, coefBits)
      case Err(e) => Err(e)
      case Ok(h) =>
        var mag := num.freqzMag(h, nPoints);
        match MeasureBands(mag, fs, fpb, fsb)
        case Err(e) => Err(e)
        case Ok(m) => Ok(Design(h, mag, m))
  }

  /** The taps after the optional `reduce_bits`. */
  function Taps(h: seq<real>, coefBits: Option<nat>): (r: Result<seq<real>>)
    ensures coefBits.None? ==> r == Ok(h)
    ensures coefBits.Some? ==> (r.Ok? <==> Quantize.ReduceBits(h, coefBits.value).Ok?)
    ensures coefBits.Some? && r.Ok? ==> r.value == Quantize.ReduceBits(h, coefBits.value).value.0
    ensures coefBits.Some? && r.Err? ==> r.error == Quantize.ReduceBits(h, coefBits.value).error
  {
    match coefBits
    case None => Ok(h)
    case Some(bits) =>
      match Quantize.ReduceBits(h, bits)
      case Err(e) => Err(e)
      case Ok(q) => Ok(q.0)
  }

  /** `-dB20(Rpb) <= Apb and -dB20(Rsb) >= Asb`. */
  predicate Meets(num: Numerics, m: Measurement, apb: real, asb: real)
  {
    -num.db20(m.rpb) <= apb && -num.db20(m.rsb) >= asb
  }

  /** One iteration of `fir_find_optimal_N`: design order N, then test it. */
  function FirCheck(num: Numerics, fs: real, fpb: real, fsb: real, apb: real, asb: real,
                    nPoints: int): int -> Result<bool>
  {
    n => match FirCalcFilter(num, fs, fpb, fsb, apb, asb, n, nPoints, None)
         case Err(e) => Err(e)
         case Ok(d) => Ok(Meets(num, d.m, apb, asb))
  }

  /** Every order in [nmin, upto) is designed without an exception and misses the spec. */
  predicate FirFailsBelow(num: Numerics, fs: real, fpb: real, fsb: real, apb: real, asb: real,
                          nmin: int, upto: int, nPoints: int)
  {
    forall k :: nmin <= k < upto ==>
      FirCalcFilter(num, fs, fpb, fsb, apb, asb, k, nPoints, None).Ok? &&
      !Meets(num, FirCalcFilter(num, fs, fpb, fsb, apb, asb, k, nPoints, None).value.m, apb, asb)
  }

  /** The search's failures, read back as designs that miss the spec. */
  lemma FirFailsOfCheck(num: Numerics, fs: real, fpb: real, fsb: real, apb: real, asb: real,
                        nmin: int, upto: int, nPoints: int)
    requires OrderSearch.FailsBefore(FirCheck(num, fs, fpb, fsb, apb, asb, nPoints), nmin, upto, 1)
    ensures FirFailsBelow(num, fs, fpb, fsb, apb, asb, nmin, upto, nPoints)
  {
    var check := FirCheck(num, fs, fpb, fsb, apb, asb, nPoints);
    forall k | nmin <= k < upto
      ensures FirCalcFilter(num, fs, fpb, fsb, apb, asb, k, nPoints, None).Ok?
      ensures !Meets(num, FirCalcFilter(num, fs, fpb, fsb, apb, asb, k, nPoints, None).value.m, apb, asb)
    {
      assert OrderSearch.Candidate(k, nmin, upto, 1);
      assert check(k) == Ok(false);
    }
  }

  /** `fir_find_optimal_N(Fs, Fpb, Fsb, Apb, Asb, Nmin, Nmax, H_nr_points)`: the smallest
      N in [Nmin, Nmax) whose design meets the spec, every smaller N having been
      designed and rejected; None when none does; an exception from the first
      order whose design raises. */
  method FirFindOptimalN(num: Numerics, fs: real, fpb: real, fsb: real, apb: real, asb: real,
                         nmin: int, nmax: int, nPoints: int) returns (r: Result<Option<int>>)
    ensures r.Ok? && r.value.Some? ==>
      var n := r.value.value;
      nmin <= n < nmax &&
      FirCalcFilter(num, fs, fpb, fsb, apb, asb, n, nPoints, None).Ok? &&
      Meets(num, FirCalcFilter(num, fs, fpb, fsb, apb, asb, n, nPoints, None).value.m, apb, asb)
    ensures r.Ok? ==> FirFailsBelow(num, fs, fpb, fsb, apb, asb, nmin, if r.value.Some? then r.value.value else nmax, nPoints)
    ensures r == Ok(None) <==> FirFailsBelow(num, fs, fpb, fsb, apb, asb, nmin, nmax, nPoints)
    ensures r.Err? ==>
      exists n :: nmin <= n < nmax && FirCalcFilter(num, fs, fpb, fsb, apb, asb, n, nPoints, None) == Err(r.error)
        && FirFailsBelow(num, fs, fpb, fsb, apb, asb, nmin, n, nPoints)
    ensures (fs == 0.0 || apb == 0.0) && nmin < nmax ==> r == Err(ZeroDivisionError)
  {
    var check := FirCheck(num, fs, fpb, fsb, apb, asb, nPoints);
    r := OrderSearch.Search(check, nmin, nmax, 1);
    if r.Ok? {
      FirFailsOfCheck(num, fs, fpb, fsb, apb, asb, nmin, if r.value.Some? then r.value.value else nmax, nPoints);
    }
    if r.Err? {
      ghost var n :| OrderSearch.Candidate(n, nmin, nmax, 1) && check(n) == Err(r.error) && OrderSearch.FailsBefore(check, nmin, n, 1);
      FirFailsOfCheck(num, fs, fpb, fsb, apb, asb, nmin, n, nPoints);
    }
    if (fs == 0.0 || apb == 0.0) && nmin < nmax {
      assert OrderSearch.Candidate(nmin, nmin, nmax, 1);
      assert check(nmin) == Err(ZeroDivisionError);
    }
  }
}
