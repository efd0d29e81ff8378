/** The spectral analyser of the filter library: `FilterStats` zero-pads an impulse
    response to N taps, takes its DFT, keeps the non-negative-frequency bins in dB
    (`Hdb`) and answers attenuation queries at a frequency or over a frequency range.
    The DFT and the dB conversion are numerical library routines and are an input
    here: a function from the padded taps to the dB magnitude of every DFT bin. */
module Spectrum {
  import opened Results
  import opened Arith
  import opened PySeq
  import opened Padding

  /** `np.fft.fftfreq(n)[k] * n`: 0, 1, ..., (n-1)/2, then -(n/2), ..., -1. */
  function FftFreqNumerator(n: nat, k: nat): int
    requires k < n
  {
    if k <= (n - 1) / 2 then k else k - n
  }

  /** `dB20(abs(H))[freqs >= 0]`: the bins whose fftfreq is non-negative, in order. */
  function NonNegativeBins(spectrumDb: seq<real>): (r: seq<real>)
    ensures |r| == (|spectrumDb| + 1) / 2
    ensures forall k :: 0 <= k < |spectrumDb| ==>
      (FftFreqNumerator(|spectrumDb|, k) >= 0 <==> k < |r|)
    ensures forall k :: 0 <= k < |r| ==> r[k] == spectrumDb[k]
  {
    spectrumDb[..(|spectrumDb| + 1) / 2]
  }

  /** `freq_to_x`: the Hdb index of a frequency, `int(round(freq/fsample * len(Hdb) * 2))`. */
  function FreqToX(fsample: real, nbins: nat, freq: real): int
    requires fsample != 0.0
  {
    RoundHalfEven(BinPosition(fsample, nbins, freq))
  }

  /** The unrounded position `freq/fsample * len(Hdb) * 2`. */
  function BinPosition(fsample: real, nbins: nat, freq: real): real
    requires fsample != 0.0
  {
    freq / fsample * (nbins as real) * 2.0
  }

  /** DC maps to bin 0 and the Nyquist frequency fsample/2 to bin len(Hdb), one past the last. */
  lemma FreqToXEnds(fsample: real, nbins: nat)
    requires fsample != 0.0
    ensures FreqToX(fsample, nbins, 0.0) == 0
    ensures FreqToX(fsample, nbins, fsample / 2.0) == nbins
  {
    RoundHalfEvenOfInt(0);
    assert fsample / 2.0 / fsample * (nbins as real) * 2.0 == nbins as real;
    RoundHalfEvenOfInt(nbins);
  }

  /** The bin of a frequency is its rounded product with len(Hdb)*2/fsample. */
  lemma FreqToXLinear(fsample: real, nbins: nat, freq: real)
    requires fsample != 0.0
    ensures FreqToX(fsample, nbins, freq) == RoundHalfEven(freq * ((nbins as real) * 2.0 / fsample))
  {
    BinPositionLinear(fsample, nbins as real, freq, 1.0 / fsample);
    assert BinPosition(fsample, nbins, freq) == freq * ((nbins as real) * 2.0 / fsample);
  }

  lemma BinPositionLinear(fsample: real, nb: real, freq: real, inv: real)
    requires fsample != 0.0 && inv == 1.0 / fsample
    ensures freq / fsample * nb * 2.0 == freq * (nb * 2.0 / fsample)
  {
    assert freq / fsample == freq * inv;
    assert nb * 2.0 / fsample == nb * 2.0 * inv;
    assert freq * inv * nb * 2.0 == freq * (nb * 2.0 * inv);
  }

  /** For a positive sample rate a higher frequency never maps to a lower bin. */
  lemma FreqToXMonotone(fsample: real, nbins: nat, f1: real, f2: real)
    requires fsample > 0.0 && f1 <= f2
    ensures FreqToX(fsample, nbins, f1) <= FreqToX(fsample, nbins, f2)
  {
    BinPositionMonotone(fsample, nbins, f1, f2);
    RoundHalfEvenMonotone(BinPosition(fsample, nbins, f1), BinPosition(fsample, nbins, f2));
  }

  lemma BinPositionMonotone(fsample: real, nbins: nat, f1: real, f2: real)
    requires fsample > 0.0 && f1 <= f2
    ensures BinPosition(fsample, nbins, f1) <= BinPosition(fsample, nbins, f2)
  {
    DivMonotone(f1, f2, fsample);
    MulMonotoneReal(f1 / fsample, f2 / fsample, nbins as real);
    MulMonotoneReal(f1 / fsample * (nbins as real), f2 / fsample * (nbins as real), 2.0);
  }

  /** `attn_at(freq)`: `Hdb[freq_to_x(freq)]`, with Python's integer indexing (a negative
      index counts from the end; anything else out of range is an IndexError). */
  function AttnAt(hdb: seq<real>, fsample: real, freq: real): (r: Result<real>)
    ensures fsample == 0.0 ==> r == Err(ZeroDivisionError)
    ensures fsample != 0.0 ==> (r.Ok? <==> -|hdb| <= FreqToX(fsample, |hdb|, freq) < |hdb|)
    ensures fsample != 0.0 && 0 <= FreqToX(fsample, |hdb|, freq) < |hdb| ==>
      r == Ok(hdb[FreqToX(fsample, |hdb|, freq)])
    ensures r.Err? ==> r.error in {ZeroDivisionError, IndexError}
  {
    if fsample == 0.0 then Err(ZeroDivisionError)
    else
      var x := FreqToX(fsample, |hdb|, freq);
      if IndexOk(hdb, x) then Ok(Index(hdb, x)) else Err(IndexError)
  }

  /** Querying at or above the Nyquist frequency indexes past the end of Hdb and raises. */
  lemma AttnAtBeyondNyquist(hdb: seq<real>, fsample: real, freq: real)
    requires fsample > 0.0 && freq >= fsample / 2.0
    ensures AttnAt(hdb, fsample, freq) == Err(IndexError)
  {
    FreqToXEnds(fsample, |hdb|);
    FreqToXMonotone(fsample, |hdb|, fsample / 2.0, freq);
  }

  /** The Hdb bins `attn_between(freq_min, freq_max)` scans: the half-open slice
      `Hdb[x(freq_min):x(freq_max)]`, where an absent freq_max means fsample/2. */
  function ScannedBins(hdb: seq<real>, fsample: real, freqMin: real, freqMax: Option<real>): seq<real>
    requires fsample != 0.0
  {
    var hi := if freqMax.None? then fsample / 2.0 else freqMax.value;
    Slice(hdb, FreqToX(fsample, |hdb|, freqMin), FreqToX(fsample, |hdb|, hi))
  }

  /** `attn_between`: (max, min) of the scanned bins; numpy raises on an empty range. */
  function AttnBetween(hdb: seq<real>, fsample: real, freqMin: real, freqMax: Option<real>)
    : (r: Result<(real, real)>)
    ensures fsample == 0.0 ==> r == Err(ZeroDivisionError)
    ensures fsample != 0.0 ==> (r.Ok? <==> |ScannedBins(hdb, fsample, freqMin, freqMax)| > 0)
    ensures r.Err? ==> r.error in {ZeroDivisionError, ValueError}
    ensures r.Ok? ==>
      var bins := ScannedBins(hdb, fsample, freqMin, freqMax);
      var (hMax, hMin) := r.value;
      && hMin <= hMax
      && hMax in bins && hMin in bins
      && (forall i :: 0 <= i < |bins| ==> hMin <= bins[i] <= hMax)
  {
    if fsample == 0.0 then Err(ZeroDivisionError)
    else
      var bins := ScannedBins(hdb, fsample, freqMin, freqMax);
      if |bins| == 0 then Err(ValueError) else Ok((SeqMax(bins), SeqMin(bins)))
  }

  /** With freq_max absent the scan runs to the end of Hdb: for a positive sample rate
      and a frequency in [0, fsample/2] it is exactly `Hdb[x(freq_min):]`. */
  lemma ScanToNyquist(hdb: seq<real>, fsample: real, freqMin: real)
    requires fsample > 0.0 && 0.0 <= freqMin <= fsample / 2.0
    ensures 0 <= FreqToX(fsample, |hdb|, freqMin) <= |hdb|
    ensures ScannedBins(hdb, fsample, freqMin, None) == hdb[FreqToX(fsample, |hdb|, freqMin)..]
  {
    FreqToXEnds(fsample, |hdb|);
    FreqToXMonotone(fsample, |hdb|, 0.0, freqMin);
    FreqToXMonotone(fsample, |hdb|, freqMin, fsample / 2.0);
  }

  /** Scanning from DC to the Nyquist frequency covers every bin of Hdb. */
  lemma ScanWholeBand(hdb: seq<real>, fsample: real)
    requires fsample > 0.0 && |hdb| > 0
    ensures AttnBetween(hdb, fsample, 0.0, None) == Ok((SeqMax(hdb), SeqMin(hdb)))
  {
    ScanToNyquist(hdb, fsample, 0.0);
    FreqToXEnds(fsample, |hdb|);
    assert ScannedBins(hdb, fsample, 0.0, None) == hdb;
  }

  /** The analysis object. `spectrumDb` stands for `dB20(abs(self.H))` over all N DFT bins. */
  class FilterStats {
    var h: seq<real>
    var fsample: real
    var fcutoff: real
    var fstop: real
    var n: int
    var spectrumDb: seq<real>
    var hdb: seq<real>
    var passMax: real
    var passMin: real
    var stopMax: real
    var stopMin: real

    /** What `recalc` establishes: Hdb is the non-negative half of the spectrum and
        the pass-band stats cover [0, fcutoff), the stop-band stats [fstop, fsample/2). */
    ghost predicate Valid()
      reads this
    {
      && hdb == NonNegativeBins(spectrumDb)
      && AttnBetween(hdb, fsample, 0.0, Some(fcutoff)) == Ok((passMax, passMin))
      && AttnBetween(hdb, fsample, fstop, None) == Ok((stopMax, stopMin))
    }

    /** The field assignments at the start of `__init__`. */
    constructor Init(h: seq<real>, fsample: real, fcutoff: real, fstop: real, n: int, spectrumDb: seq<real>)
      ensures this.h == h && this.fsample == fsample && this.fcutoff == fcutoff && this.fstop == fstop
      ensures this.n == n && this.spectrumDb == spectrumDb && this.hdb == []
    {
      this.h := h;
      this.fsample := fsample;
      this.fcutoff := fcutoff;
      this.fstop := fstop;
      this.n := n;
      this.spectrumDb := spectrumDb;
      this.hdb := [];
    }

    /** `recalc`: recompute Hdb from the spectrum, then the pass-band and stop-band
        stats; an exception in a query leaves the later fields unassigned. */
    method Recalc() returns (r: Result<()>)
      modifies this`hdb, this`passMax, this`passMin, this`stopMax, this`stopMin
      ensures hdb == NonNegativeBins(spectrumDb)
      ensures var pass := AttnBetween(hdb, fsample, 0.0, Some(fcutoff));
        var stop := AttnBetween(hdb, fsample, fstop, None);
        && (r.Ok? <==> pass.Ok? && stop.Ok?)
        && (pass.Err? ==> r == Err(pass.error))
        && (pass.Ok? && stop.Err? ==> r == Err(stop.error))
        && (pass.Ok? ==> (passMax, passMin) == pass.value)
        && (pass.Err? ==> stopMax == old(stopMax) && stopMin == old(stopMin))
      ensures r.Ok? ==> Valid()
    {
      hdb := NonNegativeBins(spectrumDb);
      r := SetPassBand();
      if r.Ok? {
        r := SetStopBand();
      }
    }

    /** `self.pass_max, self.pass_min = self.attn_between(0, self.fcutoff)`. */
    method SetPassBand() returns (r: Result<()>)
      modifies this`passMax, this`passMin
      ensures var pass := AttnBetween(hdb, fsample, 0.0, Some(fcutoff));
        && (r.Ok? <==> pass.Ok?)
        && (pass.Err? ==> r == Err(pass.error))
        && (pass.Ok? ==> (passMax, passMin) == pass.value)
    {
      var pass := AttnBetween(hdb, fsample, 0.0, Some(fcutoff));
      if pass.Err? {
        return Err(pass.error);
      }
      passMax, passMin := pass.value.0, pass.value.1;
      r := Ok(());
    }

    /** `self.stop_max, self.stop_min = self.attn_between(self.fstop, None)`. */
    method SetStopBand() returns (r: Result<()>)
      modifies this`stopMax, this`stopMin
      ensures var stop := AttnBetween(hdb, fsample, fstop, None);
        && (r.Ok? <==> stop.Ok?)
        && (stop.Err? ==> r == Err(stop.error))
        && (stop.Ok? ==> (stopMax, stopMin) == stop.value)
    {
      var stop := AttnBetween(hdb, fsample, fstop, None);
      if stop.Err? {
        return Err(stop.error);
      }
      stopMax, stopMin := stop.value.0, stop.value.1;
      r := Ok(());
    }

    /** `FilterStats(h, fsample, fcutoff, fstop, N)`: N defaults to len(h); the padded
        response is transformed by `dftDb` and analysed by `recalc`. Padding fails for
        N < 0 and for N < len(h) (except a single sample broadcast into N == 0), the FFT
        for N == 0, and `recalc` as above. */
    static method New(h: seq<real>, fsample: real, fcutoff: real, fstop: real, n: Option<int>,
                      dftDb: seq<real> -> seq<real>) returns (r: Result<FilterStats>)
      ensures var len := if n.None? then |h| else n.value;
        r.Ok? <==>
          && 0 < len && |h| <= len
          && var hdb := NonNegativeBins(dftDb(Padded(h, len)));
             AttnBetween(hdb, fsample, 0.0, Some(fcutoff)).Ok? && AttnBetween(hdb, fsample, fstop, None).Ok?
      ensures r.Ok? ==>
        var len := if n.None? then |h| else n.value;
        && fresh(r.value) && r.value.Valid()
        && 0 < len && |h| <= len
        && r.value.h == h && r.value.n == len
        && r.value.fsample == fsample && r.value.fcutoff == fcutoff && r.value.fstop == fstop
        && r.value.spectrumDb == dftDb(Padded(h, len))
    {
      var len := if n.None? then |h| else n.value;
      var padded := PadZeros(h, len);
      if padded.Err? {
        return Err(padded.error);
      }
      if len == 0 {
        // np.fft.fft of an empty array
        return Err(ValueError);
      }
      r := Analysed(h, fsample, fcutoff, fstop, len, padded.value, dftDb);
    }

    /** The rest of the constructor once h is padded to len > 0 samples: store the
        fields and the spectrum of the padded response, then `recalc`. */
    static method Analysed(h: seq<real>, fsample: real, fcutoff: real, fstop: real, len: int,
                           padded: seq<real>, dftDb: seq<real> -> seq<real>) returns (r: Result<FilterStats>)
      requires 0 < len && |h| <= len && padded == Padded(h, len)
      ensures r.Ok? <==>
        var hdb := NonNegativeBins(dftDb(padded));
        AttnBetween(hdb, fsample, 0.0, Some(fcutoff)).Ok? && AttnBetween(hdb, fsample, fstop, None).Ok?
      ensures r.Ok? ==>
        && fresh(r.value) && r.value.Valid()
        && r.value.h == h && r.value.n == len
        && r.value.fsample == fsample && r.value.fcutoff == fcutoff && r.value.fstop == fstop
        && r.value.spectrumDb == dftDb(padded)
    {
      var stats := new FilterStats.Init(h, fsample, fcutoff, fstop, len, dftDb(padded));
      var ok := stats.Recalc();
      if ok.Err? {
        return Err(ok.error);
      }
      r := Ok(stats);
    }
  }
}
