/** The multiplier-count study of the PDM-to-PCM cascade. For each CIC configuration
    the decimation left after the CIC is split into one half-band stage per factor of
    two and, when something odd remains, a decimating FIR; a final FIR runs at the
    last rate. Each stage is designed with the order searches, the pass-band ripple
    budget shrinks as stages are added, and multiplications per second are summed. */
module MulsTable {
  import opened Results
  import opened Arith
  import opened Padding
  import opened FirDesign
  import HalfBand
  import OrderSearch
  import Cic
  import Spectrum

  /** The cascade requirements at the top of the script. */
  const FPdm: int := 2304000
  const FOut: int := 48000
  const FPb: real := 6000.0
  const FSb: real := 10000.0
  const APb: real := 0.1
  const ASb: real := 89.0

  /** Python's `a // b`: the floor of a/b, for either sign of b. */
  function FloorDiv(a: int, b: int): (q: int)
    requires b != 0
    ensures b > 0 ==> q * b <= a < q * b + b
    ensures b < 0 ==> q * b + b < a <= q * b
  {
    if b > 0 then a / b else (-a) / (-b)
  }

  /** The DFT size of the CIC analysis, `(16384//decim//2)*decim*2`. */
  function PadLength(decim: int): (r: Result<int>)
    ensures r.Err? <==> decim == 0
    ensures r.Err? ==> r.error == ZeroDivisionError
  {
    if decim == 0 then Err(ZeroDivisionError)
    else Ok(FloorDiv(FloorDiv(16384, decim), 2) * decim * 2)
  }

  /** For a positive decimation the DFT size is the largest multiple of 2*decim that
      fits in 16384 points. */
  lemma PadLengthFits(decim: int)
    requires decim >= 1
    ensures PadLength(decim).value % (2 * decim) == 0
    ensures 16384 - 2 * decim < PadLength(decim).value <= 16384
  {
    var a := 16384 / decim;
    var q := a / 2;
    assert PadLength(decim).value == q * (2 * decim);
    MultipleDivMod(q, 2 * decim);
    var r1 := 16384 - a * decim;
    var r2 := a - 2 * q;
    assert 0 <= r1 < decim && 0 <= r2 <= 1;
    assert 16384 == q * (2 * decim) + r2 * decim + r1;
    MulMonotone(r2, 1, decim);
  }

  /** `f_pdm // cic_decim`, the rate after the CIC. */
  function InitialRate(decim: int): int
    requires decim != 0
  {
    FloorDiv(FPdm, decim)
  }

  /** `(f_pdm // cic_decim) // f_out`, the decimation left after the CIC. */
  function InitialDecim(decim: int): int
    requires decim != 0
  {
    FloorDiv(InitialRate(decim), FOut)
  }

  /** The number of half-band stages the loop inserts: the factors of two in d. */
  function HalfBandCount(d: int): nat
    requires d != 0
    decreases IntAbs(d)
  {
    if d % 2 == 0 then 1 + HalfBandCount(d / 2) else 0
  }

  /** What is left for the FIR once every factor of two has gone to a half-band. */
  function Residual(d: int): (r: int)
    requires d != 0
    ensures r % 2 == 1 && r != 0
    decreases IntAbs(d)
  {
    if d % 2 == 0 then Residual(d / 2) else d
  }

  /** Every non-zero decimation splits into 2^count half-bands and an odd residual. */
  lemma {:induction false} SplitDecimation(d: int)
    requires d != 0
    ensures d == Residual(d) * Pow2(HalfBandCount(d))
    ensures Residual(d) % 2 == 1
    decreases IntAbs(d)
  {
    if d % 2 == 0 {
      var h := d / 2;
      SplitDecimation(h);
      var r, p := Residual(h), Pow2(HalfBandCount(h));
      assert Residual(d) == r && Pow2(HalfBandCount(d)) == 2 * p;
      assert d == 2 * h && h == r * p;
      assert 2 * (r * p) == r * (2 * p);
    }
  }

  /** The rate after k half-band stages, each `f_s_remain //= 2`. */
  function HalvedRate(fs: int, k: nat): int
  {
    if k == 0 then fs else HalvedRate(fs, k - 1) / 2
  }

  /** The pass-band budget after the given half-band stages: each subtracts
      |dB20(Rpb)| of its design from the starting budget. */
  function BudgetAfter(start: real, db20: real -> real, hb: seq<Stage>): real
  {
    if hb == [] then start
    else BudgetAfter(start, db20, hb[..|hb| - 1]) - Abs(db20(hb[|hb| - 1].apb))
  }

  /** An entry of `hb_stats` or `fir_stats`: order, output rate, multiplications per
      second, and the pass-band ripple of the design. */
  datatype Stage = Stage(order: int, fOut: real, muls: real, apb: real)

  function SumMuls(s: seq<Stage>): real
  {
    if s == [] then 0.0 else SumMuls(s[..|s| - 1]) + s[|s| - 1].muls
  }

  lemma SumMulsAppend(s: seq<Stage>, x: Stage)
    ensures SumMuls(s + [x]) == SumMuls(s) + x.muls
  {
    assert (s + [x])[..|s|] == s;
  }

  /** A half-band entry designed at input rate fs within the given budget: its order
      is the first the search visits whose design meets the budget, every earlier one
      having been designed and rejected, and the rate, multiplier count and ripple
      are those of that design. */
  ghost predicate HalfBandStage(num: Numerics, fs: int, budget: real, st: Stage)
  {
    var d := HalfBand.HalfBandCalcFilter(num, fs as real, FSb, st.order, 512, None);
    && OrderSearch.Candidate(st.order, 2, 1000, 4)
    && d.Ok? && Meets(num, d.value.m, budget, ASb)
    && HalfBand.HalfBandFailsBelow(num, fs as real, FSb, budget, ASb, 2, st.order)
    && st.fOut == fs as real / 2.0
    && st.muls == HalfBandMuls(st.order, fs)
    && st.apb == d.value.m.rpb
  }

  /** Stage i runs at the rate halved i times, within the budget the earlier stages left. */
  ghost predicate HalfBandStages(num: Numerics, fs0: int, start: real, hb: seq<Stage>)
  {
    EveryStage(HalfBandAt(num, fs0, start), hb)
  }

  /** Whether a stage recorded after the stages `before` is the half-band designed at
      the rate halved |before| times and the budget they left. */
  ghost function HalfBandAt(num: Numerics, fs0: int, start: real): (seq<Stage>, Stage) -> bool
  {
    (before: seq<Stage>, st: Stage) =>
      HalfBandStage(num, HalvedRate(fs0, |before|), BudgetAfter(start, num.db20, before), st)
  }

  /** Every entry passes `ok` given the entries recorded before it. */
  predicate EveryStage(ok: (seq<Stage>, Stage) -> bool, s: seq<Stage>)
  {
    forall i :: 0 <= i < |s| ==> ok(s[..i], s[i])
  }

  lemma EveryStageAppend(ok: (seq<Stage>, Stage) -> bool, s: seq<Stage>, st: Stage)
    requires EveryStage(ok, s) && ok(s, st)
    ensures EveryStage(ok, s + [st])
  {
    var s' := s + [st];
    assert s'[..|s|] == s;
    forall i | 0 <= i < |s'|
      ensures ok(s'[..i], s'[i])
    {
      if i < |s| {
        assert s'[..i] == s[..i];
      }
    }
  }

  /** `(hb_N/2 + 1) * f_s_remain/2`: the half-band's distinct taps at its output rate. */
  function HalfBandMuls(order: int, fs: int): real
  {
    (order as real / 2.0 + 1.0) * (fs as real) / 2.0
  }

  /** `(fir_N + 1) * f_s_remain/decim_remain`: every tap at the FIR's output rate. */
  function FirMuls(order: int, fs: real, ratio: real): real
    requires ratio != 0.0
  {
    (order + 1) as real * fs / ratio
  }

  /** A FIR entry designed at rate fs for the given band edges and budget, decimating
      by `ratio`: the first order from 1 whose design meets the spec, every smaller one
      having been designed and rejected; muls are (N+1)*fs/ratio. */
  predicate FirStage(num: Numerics, fs: real, fpb: real, fsb: real, budget: real, ratio: real, st: Stage)
    requires ratio != 0.0
  {
    var d := FirCalcFilter(num, fs, fpb, fsb, budget, ASb, st.order, 512, None);
    && 1 <= st.order < 1000
    && d.Ok? && Meets(num, d.value.m, budget, ASb)
    && FirFailsBelow(num, fs, fpb, fsb, budget, ASb, 1, st.order, 512)
    && st.fOut == fs / ratio
    && st.muls == FirMuls(st.order, fs, ratio)
    && st.apb == d.value.m.rpb
  }

  /** The FIR entries recorded after the half-bands, at rate fs with an odd residual
      res and budget left: either a decimating FIR at half the budget followed by the
      final FIR at fs/res, or the final FIR alone decimating by res. */
  predicate FirStagesOk(num: Numerics, fs: real, res: int, budget: real, fir: seq<Stage>)
    requires res != 0
  {
    if |fir| == 2 then
      && FirStage(num, fs, FSb, fs / res as real - FSb, budget / 2.0, res as real, fir[0])
      && FirStage(num, fs / res as real, FPb, FSb, budget / 2.0, 1.0, fir[1])
    else
      |fir| == 1 && FirStage(num, fs, FPb, FSb, budget, res as real, fir[0])
  }

  /** What the FIR stages leave at rate fs with odd residual res and budget left: the
      `single_fir` key present when it is read, one or two entries as it says, the
      last ending at fs/res, and the entries as FirStagesOk describes. */
  predicate FirDone(num: Numerics, fs: real, res: int, budget: real, singleFir: Option<bool>, fir: seq<Stage>)
    requires res != 0
  {
    && (res == 1 || singleFir.Some?)
    && |fir| == (if res != 1 && singleFir == Some(false) then 2 else 1)
    && fir[|fir| - 1].fOut == fs / res as real
    && FirStagesOk(num, fs, res, budget, fir)
  }

  lemma AppendHalfBandStage(num: Numerics, fs0: int, start: real, hb: seq<Stage>, st: Stage)
    requires HalfBandStages(num, fs0, start, hb)
    requires HalfBandStage(num, HalvedRate(fs0, |hb|), BudgetAfter(start, num.db20, hb), st)
    ensures HalfBandStages(num, fs0, start, hb + [st])
    ensures BudgetAfter(start, num.db20, hb + [st]) == BudgetAfter(start, num.db20, hb) - Abs(num.db20(st.apb))
  {
    EveryStageAppend(HalfBandAt(num, fs0, start), hb, st);
    assert (hb + [st])[..|hb|] == hb;
  }

  /** The CIC's attenuation at f_pb as FilterStats reports it when the response is
      zero-padded to n samples: the non-negative half of the dB spectrum of the
      padded CIC response, looked up at f_pb. */
  function CicAttnPadded(decim: int, stages: int, n: int, dftDb: seq<real> -> seq<real>): Result<real>
    requires decim >= 1
  {
    var h := Cic.BoxPower(decim, stages);
    if n < |h| then Err(ValueError)
    else Spectrum.AttnAt(Spectrum.NonNegativeBins(dftDb(Padded(h, n))), FPdm as real, FPb)
  }

  /** The same, padded to the study's pad length. */
  function CicPassbandAttn(decim: int, stages: int, dftDb: seq<real> -> seq<real>): Result<real>
    requires decim >= 1
  {
    CicAttnPadded(decim, stages, PadLength(decim).value, dftDb)
  }

  /** The output rate the cascade reaches: the rate left after the half-bands,
      divided by the residual decimation. */
  function OutputRate(decim: int): real
    requires decim != 0 && InitialDecim(decim) != 0
  {
    var d := InitialDecim(decim);
    HalvedRate(InitialRate(decim), HalfBandCount(d)) as real / Residual(d) as real
  }

  /** One row of `cic_configs`: the CIC parameters, the optional `single_fir` key, and
      what the study records for the row. */
  class CicConfig {
    const decim: int
    const stages: int
    const singleFir: Option<bool>
    var hbStats: seq<Stage>
    var firStats: seq<Stage>
    var totalMuls: Option<real>

    constructor (decim: int, stages: int, singleFir: Option<bool>)
      ensures this.decim == decim && this.stages == stages && this.singleFir == singleFir
      ensures hbStats == [] && firStats == [] && totalMuls == None
    {
      this.decim := decim;
      this.stages := stages;
      this.singleFir := singleFir;
      hbStats := [];
      firStats := [];
      totalMuls := None;
    }
  }

  /** The four rows of the study, in order. */
  method Configs() returns (cfgs: seq<CicConfig>)
    ensures |cfgs| == 4
    ensures cfgs[0].decim == 6 && cfgs[0].stages == 3 && cfgs[0].singleFir == None
    ensures cfgs[1].decim == 8 && cfgs[1].stages == 4 && cfgs[1].singleFir == Some(false)
    ensures cfgs[2].decim == 8 && cfgs[2].stages == 4 && cfgs[2].singleFir == Some(true)
    ensures cfgs[3].decim == 12 && cfgs[3].stages == 4 && cfgs[3].singleFir == None
    ensures forall i :: 0 <= i < 4 ==> fresh(cfgs[i]) && cfgs[i].hbStats == [] && cfgs[i].firStats == []
    ensures forall i, j :: 0 <= i < j < 4 ==> cfgs[i] != cfgs[j]
  {
    var c0 := new CicConfig(6, 3, None);
    var c1 := new CicConfig(8, 4, Some(false));
    var c2 := new CicConfig(8, 4, Some(true));
    var c3 := new CicConfig(12, 4, None);
    cfgs := [c0, c1, c2, c3];
  }

  /** The rows' decimation splits: 6 leaves 8 = three half-bands, 8 leaves 6 = one
      half-band and a residual 3, 12 leaves 4 = two half-bands; so `single_fir` is
      needed exactly by the rows that have it, and every row ends at 48 kHz. */
  lemma TableSplits()
    ensures InitialDecim(6) == 8 && HalfBandCount(8) == 3 && Residual(8) == 1
    ensures InitialDecim(8) == 6 && HalfBandCount(6) == 1 && Residual(6) == 3
    ensures InitialDecim(12) == 4 && HalfBandCount(4) == 2 && Residual(4) == 1
    ensures OutputRate(6) == 48000.0 && OutputRate(8) == 48000.0 && OutputRate(12) == 48000.0
  {
    assert HalfBandCount(2) == 1 && HalfBandCount(3) == 0 && Residual(3) == 3;
    assert HalvedRate(384000, 3) == 48000;
    assert HalvedRate(192000, 2) == 48000;
    assert HalvedRate(288000, 1) == 144000;
  }

  /** Lines 311-316 of the script: the CIC response, its FilterStats over the
      `(16384//decim//2)*decim*2`-point spectrum, and the attenuations at f_pb and at
      the first alias of f_sb. Gives the attenuation at f_pb. */
  method CicAnalysis(decim: int, stages: int, dftDb: seq<real> -> seq<real>) returns (r: Result<real>)
    ensures decim < 0 ==> r == Err(ValueError)
    ensures decim == 0 ==> r == Err(if stages >= 2 then ValueError else ZeroDivisionError)
    ensures r.Ok? ==> decim >= 1 && CicPassbandAttn(decim, stages, dftDb) == r
  {
    var hc := Cic.CicFilter(decim, stages, 1);
    if hc.Err? {
      return Err(hc.error);
    }
    var n := PadLength(decim);
    if n.Err? {
      return Err(n.error);
    }
    r := CicAttenuation(decim, stages, hc.value, n.value, dftDb);
  }

  /** `FilterStats(h_cic, fsample = f_pdm, fcutoff = f_pb, fstop = f_sb, N = n)`, then
      `attn_at(f_pb)` and `attn_at(2*(f_pdm/2/cic_decim) - f_sb)`; the first lookup is
      the result, the second can only fail. */
  method CicAttenuation(decim: int, stages: int, h: seq<real>, n: int, dftDb: seq<real> -> seq<real>)
    returns (r: Result<real>)
    requires decim >= 1 && h == Cic.BoxPower(decim, stages)
    ensures r.Ok? ==> CicAttnPadded(decim, stages, n, dftDb) == r
  {
    var stats := Spectrum.FilterStats.New(h, FPdm as real, FPb, FSb, Some(n), dftDb);
    if stats.Err? {
      return Err(stats.error);
    }
    var pbAttn := Spectrum.AttnAt(stats.value.hdb, stats.value.fsample, FPb);
    if pbAttn.Err? {
      return Err(pbAttn.error);
    }
    var sbAttn := Spectrum.AttnAt(stats.value.hdb, stats.value.fsample,
                                  2.0 * (FPdm as real) / 2.0 / (decim as real) - FSb);
    if sbAttn.Err? {
      return Err(sbAttn.error);
    }
    r := pbAttn;
  }

  /** Lines 325-345 of the script: while the remaining decimation is even, design the
      cheapest half-band at the current rate within the budget, record it, and halve
      the decimation and the rate. Gives the residual decimation, the rate and the
      budget left. A zero decimation never turns odd, so only an exception ends it. */
  method HalfBandCascade(cfg: CicConfig, num: Numerics, d0: int, fs0: int, start: real)
    returns (r: Result<()>, decimRemain: int, fsRemain: int, budget: real)
    requires cfg.hbStats == []
    modifies cfg`hbStats
    ensures d0 == 0 ==> r.Err?
    ensures r.Ok? ==>
      && d0 != 0
      && |cfg.hbStats| == HalfBandCount(d0)
      && decimRemain == Residual(d0)
      && fsRemain == HalvedRate(fs0, |cfg.hbStats|)
      && budget == BudgetAfter(start, num.db20, cfg.hbStats)
      && HalfBandStages(num, fs0, start, cfg.hbStats)
  {
    decimRemain, fsRemain, budget := d0, fs0, start;
    while decimRemain % 2 == 0
      invariant d0 == 0 <==> decimRemain == 0
      invariant d0 != 0 ==> HalfBandCount(d0) == |cfg.hbStats| + HalfBandCount(decimRemain)
      invariant d0 != 0 ==> Residual(d0) == Residual(decimRemain)
      invariant fsRemain == HalvedRate(fs0, |cfg.hbStats|)
      invariant budget == BudgetAfter(start, num.db20, cfg.hbStats)
      invariant HalfBandStages(num, fs0, start, cfg.hbStats)
      decreases IntAbs(decimRemain), if fsRemain > 0 then fsRemain else 0
    {
      var next := NextHalfBand(num, fsRemain, budget);
      if next.Err? {
        r := Err(next.error);
        return;
      }
      var st := next.value;
      AppendHalfBandStage(num, fs0, start, cfg.hbStats, st);
      cfg.hbStats := cfg.hbStats + [st];
      decimRemain := decimRemain / 2;
      fsRemain := fsRemain / 2;
      budget := budget - Abs(num.db20(st.apb));
    }
    OddNonZero(decimRemain);
    r := Ok(());
  }

  lemma OddNonZero(d: int)
    requires d % 2 != 0
    ensures d != 0
  {
  }

  /** One pass of the half-band loop (lines 331-339 of the script): the cheapest
      half-band meeting the spec at rate fs within the budget, with its output rate,
      multiplier count and ripple. The search raises AssertionError unless
      f_pb < fs/4; a search that finds nothing makes `None % 2` a TypeError. */
  method NextHalfBand(num: Numerics, fs: int, budget: real) returns (r: Result<Stage>)
    ensures r.Ok? ==> HalfBandStage(num, fs, budget, r.value) && FSb < fs as real / 4.0
    ensures !(FSb < fs as real / 4.0) ==> r == Err(AssertionError)
    ensures HalfBand.HalfBandFailsBelow(num, fs as real, FSb, budget, ASb, 2, 1000) ==> r == Err(TypeError)
  {
    var hbN := HalfBand.HalfBandFindOptimalN(num, fs as real, FSb, budget, ASb, 2, 1000);
    if hbN.Err? {
      return Err(hbN.error);
    }
    if hbN.value.None? {
      return Err(TypeError);
    }
    var order := hbN.value.value;
    var d := HalfBand.HalfBandCalcFilter(num, fs as real, FSb, order, 512, None);
    r := Ok(Stage(order, fs as real / 2.0, HalfBandMuls(order, fs), d.value.m.rpb));
  }

  /** Lines 378-388 of the script, and the same design for the decimating FIR of
      lines 356-366: the cheapest FIR meeting the spec at rate fs, recorded with its
      output rate fs/ratio and (N+1)*fs/ratio multiplications per second. */
  method FirStageDesign(cfg: CicConfig, num: Numerics, fs: real, fpb: real, fsb: real, budget: real, ratio: int)
    returns (r: Result<Stage>)
    requires ratio != 0
    modifies cfg`firStats
    ensures r.Ok? ==> cfg.firStats == old(cfg.firStats) + [r.value]
    ensures r.Ok? ==> FirStage(num, fs, fpb, fsb, budget, ratio as real, r.value)
    ensures fs == 0.0 || budget == 0.0 ==> r == Err(ZeroDivisionError)
    ensures FirFailsBelow(num, fs, fpb, fsb, budget, ASb, 1, 1000, 512) ==> r == Err(TypeError)
  {
    var firN := FirFindOptimalN(num, fs, fpb, fsb, budget, ASb, 1, 1000, 512);
    if firN.Err? {
      return Err(firN.error);
    }
    if firN.value.None? {
      // the search's first design got past `Fpb/Fs` and `1/err_pb`; `None + 1` fails
      return Err(TypeError);
    }
    var order := firN.value.value;
    var d := FirCalcFilter(num, fs, fpb, fsb, budget, ASb, order, 512, None);
    assert 1 <= order < 1000;
    assert d.Ok?;
    assert Meets(num, d.value.m, budget, ASb);
    var muls := FirMuls(order, fs, ratio as real);
    var st := Stage(order, fs / (ratio as real), muls, d.value.m.rpb);
    assert FirStage(num, fs, fpb, fsb, budget, ratio as real, st);
    cfg.firStats := cfg.firStats + [st];
    r := Ok(st);
  }

  /** Lines 350-388 of the script, after the half-bands: when an odd decimation `res`
      is left and `single_fir` is False, a decimating FIR takes the rate from fs to
      fs/res with half the budget, then the final FIR runs at what is left. The
      `single_fir` key is read only when res != 1. Gives the FIR multiplier total. */
  method FirStages(cfg: CicConfig, num: Numerics, fs: real, res: int, budget: real) returns (r: Result<real>)
    requires res % 2 == 1 && cfg.firStats == []
    modifies cfg`firStats
    ensures r.Ok? ==> r.value == SumMuls(cfg.firStats)
    ensures r.Ok? ==> FirDone(num, fs, res, budget, cfg.singleFir, cfg.firStats)
    ensures res != 1 && cfg.singleFir.None? ==> r == Err(KeyError)
  {
    if res != 1 && cfg.singleFir.None? {
      return Err(KeyError);
    }
    if res != 1 && cfg.singleFir == Some(false) {
      r := DecimatingThenFinalFir(cfg, num, fs, res, budget);
    } else {
      r := FinalFir(cfg, num, fs, res, budget);
    }
  }

  /** `single_fir` False with an odd residual: a FIR decimating fs -> fs/res with
      stop band from fs/res - f_sb and half the budget, then the final FIR at fs/res
      with `decim_remain = 1`. */
  method DecimatingThenFinalFir(cfg: CicConfig, num: Numerics, fs: real, res: int, budget: real)
    returns (r: Result<real>)
    requires res != 0 && cfg.firStats == []
    modifies cfg`firStats
    ensures r.Ok? ==> |cfg.firStats| == 2 && r.value == SumMuls(cfg.firStats)
    ensures r.Ok? ==> cfg.firStats[1].fOut == fs / res as real
    ensures r.Ok? ==>
      && FirStage(num, fs, FSb, fs / res as real - FSb, budget / 2.0, res as real, cfg.firStats[0])
      && FirStage(num, fs / res as real, FPb, FSb, budget / 2.0, 1.0, cfg.firStats[1])
  {
    var st1 := FirStageDesign(cfg, num, fs, FSb, fs / res as real - FSb, budget / 2.0, res);
    if st1.Err? {
      return Err(st1.error);
    }
    var st2 := FirStageDesign(cfg, num, fs / res as real, FPb, FSb, budget / 2.0, 1);
    if st2.Err? {
      return Err(st2.error);
    }
    assert cfg.firStats == [st1.value, st2.value];
    assert (fs / res as real) / 1.0 == fs / res as real;
    SumMulsAppend([], st1.value);
    SumMulsAppend([st1.value], st2.value);
    r := Ok(st1.value.muls + st2.value.muls);
  }

  /** The final FIR alone, decimating by whatever is left (1, or the residual when
      `single_fir` is True). */
  method FinalFir(cfg: CicConfig, num: Numerics, fs: real, res: int, budget: real) returns (r: Result<real>)
    requires res != 0 && cfg.firStats == []
    modifies cfg`firStats
    ensures r.Ok? ==> |cfg.firStats| == 1 && r.value == SumMuls(cfg.firStats)
    ensures r.Ok? ==> cfg.firStats[0].fOut == fs / res as real
    ensures r.Ok? ==> FirStage(num, fs, FPb, FSb, budget, res as real, cfg.firStats[0])
  {
    var st := FirStageDesign(cfg, num, fs, FPb, FSb, budget, res);
    if st.Err? {
      return Err(st.error);
    }
    assert cfg.firStats == [st.value];
    SumMulsAppend([], st.value);
    r := Ok(st.value.muls);
  }


  /** `a_pb_remain = a_pb - abs(cic_pb_attn)`: the pass-band ripple budget the CIC's
      droop leaves for the half-band and FIR stages. */
  function StartBudget(cicAttn: real): real
  {
    APb - Abs(cicAttn)
  }

  /** What a completed row records, given the CIC's pass-band attenuation cicAttn
      (which leaves a_pb - |cicAttn| of budget): the half-band
      stages that halve the rate down to the odd residual, then the FIR stages that
      take the rate to its final value, and the total multiplier count of all stages. */
  ghost predicate Cascaded(cfg: CicConfig, num: Numerics, cicAttn: real)
    reads cfg
    requires cfg.decim >= 1
  {
    var d := InitialDecim(cfg.decim);
    var start := StartBudget(cicAttn);
    && d != 0
    && |cfg.hbStats| == HalfBandCount(d)
    && HalfBandStages(num, InitialRate(cfg.decim), start, cfg.hbStats)
    && FirDone(num, HalvedRate(InitialRate(cfg.decim), |cfg.hbStats|) as real, Residual(d),
               BudgetAfter(start, num.db20, cfg.hbStats), cfg.singleFir, cfg.firStats)
    && cfg.firStats[|cfg.firStats| - 1].fOut == OutputRate(cfg.decim)
    && cfg.totalMuls == Some(SumMuls(cfg.hbStats) + SumMuls(cfg.firStats))
  }

  /** The half-band cascade followed by the FIR stages and the muls total, starting
      from the budget the CIC passband droop leaves (lines 320-388 of the script). */
  method DesignStages(cfg: CicConfig, num: Numerics, cicAttn: real) returns (r: Result<()>)
    requires cfg.decim >= 1 && cfg.hbStats == [] && cfg.firStats == []
    modifies cfg`hbStats, cfg`firStats, cfg`totalMuls
    ensures InitialDecim(cfg.decim) == 0 ==> r.Err?
    ensures r.Ok? ==> Cascaded(cfg, num, cicAttn)
  {
    var hb, decimRemain, fsRemain, budget :=
      HalfBandCascade(cfg, num, InitialDecim(cfg.decim), InitialRate(cfg.decim), StartBudget(cicAttn));
    if hb.Err? {
      return Err(hb.error);
    }
    ghost var hbDone := cfg.hbStats;
    r := FirStagesAndTotal(cfg, num, fsRemain as real, decimRemain, budget);
    assert cfg.hbStats == hbDone;
    if r.Ok? {
      ghost var d := InitialDecim(cfg.decim);
      assert fsRemain == HalvedRate(InitialRate(cfg.decim), HalfBandCount(d));
      assert cfg.firStats[|cfg.firStats| - 1].fOut == OutputRate(cfg.decim);
      assert Cascaded(cfg, num, cicAttn);
    }
  }

  /** The FIR stages, then `total_muls = hb_muls + fir_muls` over both lists. */
  method FirStagesAndTotal(cfg: CicConfig, num: Numerics, fs: real, res: int, budget: real) returns (r: Result<()>)
    requires res % 2 == 1 && cfg.firStats == []
    modifies cfg`firStats, cfg`totalMuls
    ensures r.Ok? ==> FirDone(num, fs, res, budget, cfg.singleFir, cfg.firStats)
    ensures r.Ok? ==> cfg.totalMuls == Some(SumMuls(cfg.hbStats) + SumMuls(cfg.firStats))
  {
    var firMuls := FirStages(cfg, num, fs, res, budget);
    if firMuls.Err? {
      return Err(firMuls.error);
    }
    ghost var fir := cfg.firStats;
    cfg.totalMuls := Some(SumMuls(cfg.hbStats) + firMuls.value);
    assert cfg.firStats == fir;
    r := Ok(());
  }

  /** The body of `for cic_config in cic_configs` (lines 304-390 of the script): the
      CIC analysis, whose pass-band attenuation comes back in cicAttn, then the
      stages designed within the budget its droop leaves. */
  method RunConfig(cfg: CicConfig, num: Numerics, dftDb: seq<real> -> seq<real>) returns (r: Result<()>, cicAttn: real)
    requires cfg.hbStats == [] && cfg.firStats == []
    modifies cfg
    ensures cfg.decim < 0 ==> r == Err(ValueError)
    ensures cfg.decim == 0 ==> r == Err(if cfg.stages >= 2 then ValueError else ZeroDivisionError)
    ensures cfg.decim != 0 && InitialDecim(cfg.decim) == 0 ==> r.Err?
    ensures r.Ok? ==> cfg.decim >= 1 && CicPassbandAttn(cfg.decim, cfg.stages, dftDb) == Ok(cicAttn)
    ensures r.Ok? ==> cfg.decim >= 1 && Cascaded(cfg, num, cicAttn)
  {
    var pbAttn := CicAnalysis(cfg.decim, cfg.stages, dftDb);
    if pbAttn.Err? {
      return Err(pbAttn.error), 0.0;
    }
    cicAttn := pbAttn.value;
    r := DesignStages(cfg, num, cicAttn);
  }

  /** A row the study has completed: the CIC measured at its pad length, and the
      stages recorded as Cascaded describes. */
  ghost predicate RowDone(cfg: CicConfig, num: Numerics, dftDb: seq<real> -> seq<real>, cicAttn: real)
    reads cfg
  {
    cfg.decim >= 1 && CicPassbandAttn(cfg.decim, cfg.stages, dftDb) == Ok(cicAttn) && Cascaded(cfg, num, cicAttn)
  }

  /** One row run to completion, or the exception it raised. */
  method RunRow(cfg: CicConfig, num: Numerics, dftDb: seq<real> -> seq<real>) returns (r: Result<()>, cicAttn: real)
    requires cfg.hbStats == [] && cfg.firStats == []
    modifies cfg
    ensures r.Ok? ==> RowDone(cfg, num, dftDb, cicAttn)
  {
    r, cicAttn := RunConfig(cfg, num, dftDb);
  }

  /** Lines 292-390: the four rows of `cic_configs`, run in turn. */
  method NumberOfMulsTable(num: Numerics, dftDb: seq<real> -> seq<real>)
    returns (r: Result<()>, cfgs: seq<CicConfig>, cicAttns: seq<real>)
    ensures |cfgs| == 4
    ensures cfgs[0].decim == 6 && cfgs[0].stages == 3 && cfgs[0].singleFir == None
    ensures cfgs[1].decim == 8 && cfgs[1].stages == 4 && cfgs[1].singleFir == Some(false)
    ensures cfgs[2].decim == 8 && cfgs[2].stages == 4 && cfgs[2].singleFir == Some(true)
    ensures cfgs[3].decim == 12 && cfgs[3].stages == 4 && cfgs[3].singleFir == None
    ensures r.Ok? ==> |cicAttns| == 4 && forall i :: 0 <= i < 4 ==> RowDone(cfgs[i], num, dftDb, cicAttns[i])
  {
    cfgs := Configs();
    r, cicAttns := RunRows(cfgs, num, dftDb);
  }

  /** Row i run after rows 0..i-1 have completed, which stay completed. */
  method RunNextRow(cfgs: seq<CicConfig>, i: int, num: Numerics, dftDb: seq<real> -> seq<real>, cicAttns: seq<real>)
    returns (r: Result<()>, cicAttn: real)
    requires 0 <= i < |cfgs| && |cicAttns| == i
    requires forall j :: 0 <= j < i ==> cfgs[j] != cfgs[i]
    requires cfgs[i].hbStats == [] && cfgs[i].firStats == []
    requires forall j :: 0 <= j < i ==> RowDone(cfgs[j], num, dftDb, cicAttns[j])
    modifies cfgs[i]
    ensures r.Ok? ==> RowDone(cfgs[i], num, dftDb, cicAttn)
    ensures forall j :: 0 <= j < i ==> RowDone(cfgs[j], num, dftDb, cicAttns[j])
  {
    r, cicAttn := RunRow(cfgs[i], num, dftDb);

  }

  /** `for cic_config in cic_configs`: every row in order; an exception in a row ends
      the study. cicAttns[i] is the CIC attenuation of row i. */
  method RunRows(cfgs: seq<CicConfig>, num: Numerics, dftDb: seq<real> -> seq<real>)
    returns (r: Result<()>, cicAttns: seq<real>)
    requires forall j, k :: 0 <= j < k < |cfgs| ==> cfgs[j] != cfgs[k]
    requires forall j :: 0 <= j < |cfgs| ==> cfgs[j].hbStats == [] && cfgs[j].firStats == []
    modifies set j | 0 <= j < |cfgs| :: cfgs[j]
    ensures r.Ok? ==> |cicAttns| == |cfgs| && forall i :: 0 <= i < |cfgs| ==> RowDone(cfgs[i], num, dftDb, cicAttns[i])
  {
    cicAttns := [];
    var i := 0;
    while i < |cfgs|
      invariant 0 <= i <= |cfgs| && |cicAttns| == i
      invariant forall j :: i <= j < |cfgs| ==> cfgs[j].hbStats == [] && cfgs[j].firStats == []
      invariant forall j :: 0 <= j < i ==> RowDone(cfgs[j], num, dftDb, cicAttns[j])
    {
      var row, attn := RunNextRow(cfgs, i, num, dftDb, cicAttns);
      if row.Err? {
        return Err(row.error), cicAttns;
      }
      cicAttns := cicAttns + [attn];
      i := i + 1;
    }
    r := Ok(());
  }
}
