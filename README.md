# PDM-to-PCM filter design, modelled in Dafny

This project models the filter-design core of a PDM microphone to PCM audio
converter. A 2.304 MHz one-bit stream is brought down to 48 kHz by a CIC
decimator, a chain of half-band filters and a final FIR filter. The Python
scripts that size this chain are modelled here, in their own terms:

- `pad_zeros` pads a response with zeros;
- the `FilterStats` analysis object maps frequencies to DFT bins and measures attenuation;
- `reduce_bits` quantises coefficients;
- the pass-band and stop-band measurements of `fir_calc_filter` and `half_band_calc_filter`;
- the order searches `fir_find_optimal_N` and `half_band_find_optimal_N`;
- the half-band tap construction;
- `cic_filter`, a box response convolved with itself;
- `H_unfold`, which repeats and mirrors a response;
- `insert_zeros` and `decimate` from the resampling demo;
- the multiplier-count study of `pdm2pcm.py`: for each CIC row, one half-band per factor of two left, optional decimating FIRs, the ripple budget, and the multiplication totals;
- the reduced-bits study of `pdm_pcm2rtl.py`: the response size, two half-bands and a FIR with 17-bit coefficients, the alignment of their responses on the input-rate grid, and the 48-block fold;
- `filters_json2scala.py`, which scales coefficients to 17-bit integers, prunes half-band taps, and computes the fields written to Scala and C.

Python exceptions are modelled as `Result` values named after the exception:
`ValueError`, `ZeroDivisionError`, `AssertionError`, `KeyError`, `TypeError`
and `IndexError`. Integer `//` is floor division. `round` and `np.around`
round half to even, and `int()` truncates. Slices follow Python's clamping
and negative-index rules.

Library numerics are parameters of the model:
- `signal.remez`;
- the magnitude and the complex value of `signal.freqz`;
- `dB20`;
- the FFT-plus-dB20 spectrum that `FilterStats` computes.

Each result holds for every such function.

Modules, one per file:
- `Results`, `Arith`, `PySeq` and `Complex`: the Python and numpy semantics used throughout.
- `Padding`, `Spectrum`, `Quantize`, `FirDesign`, `HalfBand`, `OrderSearch`, `Cic` and `Unfold`: `filter_lib.py`.
- `Resampling`: `resampling.py`.
- `MulsTable`: the `pdm2pcm.py` study.
- `PdmPcm2Rtl`: the `pdm_pcm2rtl.py` study.
- `CoefExport`: `filters_json2scala.py`.

## Model

| member | source | states |
|---|---|---|
| Arith.RoundHalfEven | modeling/pdm_pcm2rtl/filter_lib.py:49 | Python `round`: the result lies within 1/2 of x, and an exact tie goes to the even integer |
| Arith.RoundHalfEvenUnique | modeling/pdm_pcm2rtl/filter_lib.py:49 | any integer within 1/2 of x that is even on a tie is `round(x)`, so the two properties define the rounding |
| Arith.RoundHalfEvenMonotone | modeling/pdm_pcm2rtl/filter_lib.py:49 | rounding never decreases when its argument increases |
| Arith.RoundHalfEvenNegate | modeling/pdm_pcm2rtl/filter_lib.py:216 | `np.around(-x) == -np.around(x)` |
| Arith.Trunc | modeling/pdm_pcm2rtl/filter_lib.py:246 | `int(x)` truncates toward zero: the result never exceeds x in magnitude and lies within 1 of x |
| PySeq.Slice | modeling/pdm_pcm2rtl/filter_lib.py:66-67 | `s[lo:hi]` with Python's clamped, negative-index bounds a and b: hi-lo elements when a < b, none otherwise, element i being s[a+i] |
| PySeq.Assign | modeling/pdm_pcm2rtl/filter_lib.py:294 | `s[i] = v` changes exactly index i (or len(s)+i for negative i) and keeps the length |
| PySeq.Stride | modeling/pdm_pcm2rtl/pdm_pcm2rtl.py:314-316 | `s[::k]` has ceil(len(s)/k) elements and element i is s[i*k] |
| PySeq.Reverse | modeling/pdm_pcm2rtl/filter_lib.py:362 | `s[::-1]` has the same length and element i is s[len(s)-1-i] |
| PySeq.SeqMax | modeling/pdm_pcm2rtl/filter_lib.py:67 | `max(s)` is an element of s and bounds every element from above |
| PySeq.SeqMin | modeling/pdm_pcm2rtl/filter_lib.py:66 | `min(s)` is an element of s and bounds every element from below |
| Padding.Padded | modeling/pdm_pcm2rtl/filter_lib.py:7-12 | the padded response has length N, equals h on [0, len h) and is 0 beyond |
| Padding.PadZeros | modeling/pdm_pcm2rtl/filter_lib.py:7-12 | `pad_zeros` succeeds exactly when 0 <= N and either len h <= N or h is one sample (which numpy broadcasts into the empty slice of a length-0 array, giving []); otherwise it raises ValueError; the result is Padded(h, N) (h followed by zeros up to length N) when len h <= N, and [] in the broadcast case; the same function also serves modeling/cic_filters/filter_lib.py:8-13, modeling/datasheet_specs/filter_lib.py:7-12 and modeling/sigma_delta/filter_lib.py:8-13 |
| Spectrum.NonNegativeBins | modeling/pdm_pcm2rtl/filter_lib.py:40-43 | the mask `fftfreq >= 0` keeps the first (N+1)/2 bins, in order |
| Spectrum.FreqToXEnds | modeling/pdm_pcm2rtl/filter_lib.py:48-51 | `freq_to_x(0) == 0` and `freq_to_x(fsample/2) == len(Hdb)` |
| Spectrum.FreqToXLinear | modeling/pdm_pcm2rtl/filter_lib.py:48-51 | `freq_to_x(f)` is the half-even rounding of f*len(Hdb)*2/fsample |
| Spectrum.FreqToXMonotone | modeling/pdm_pcm2rtl/filter_lib.py:48-51 | for a positive sample rate, a higher frequency never maps to a lower bin |
| Spectrum.AttnAt | modeling/pdm_pcm2rtl/filter_lib.py:53-57 | `attn_at` is Hdb at freq_to_x(f), with negative indices from the end; an index out of range raises IndexError |
| Spectrum.AttnAtBeyondNyquist | modeling/pdm_pcm2rtl/filter_lib.py:53-57 | querying at or above fsample/2 raises IndexError |
| Spectrum.AttnBetween | modeling/pdm_pcm2rtl/filter_lib.py:59-69 | `attn_between` returns (max, min) of the half-open bin range, both drawn from it with max >= min; an empty range raises ValueError |
| Spectrum.ScanToNyquist | modeling/pdm_pcm2rtl/filter_lib.py:60-61 | an absent freq_max scans to the end of Hdb |
| Spectrum.ScanWholeBand | modeling/pdm_pcm2rtl/filter_lib.py:59-69 | scanning from 0 to fsample/2 covers every bin of Hdb |
| Spectrum.FilterStats.Init | modeling/pdm_pcm2rtl/filter_lib.py:22-30 | the constructor stores h, the rates, N and the spectrum |
| Spectrum.FilterStats.Recalc | modeling/pdm_pcm2rtl/filter_lib.py:38-46 | `recalc` sets Hdb to the non-negative bins, and the pass stats over [0, fcutoff) and the stop stats over [fstop, fsample/2); a failing query raises; a failing pass-band query leaves the stop-band fields as they were |
| Spectrum.FilterStats.SetPassBand | modeling/pdm_pcm2rtl/filter_lib.py:45 | `pass_max, pass_min` become the attenuation over [0, fcutoff) of the current Hdb, and the call succeeds exactly when that query does; a failing query raises its error |
| Spectrum.FilterStats.SetStopBand | modeling/pdm_pcm2rtl/filter_lib.py:46 | `stop_max, stop_min` become the attenuation over [fstop, fsample/2) of the current Hdb, and the call succeeds exactly when that query does; a failing query raises its error |
| Spectrum.FilterStats.New | modeling/pdm_pcm2rtl/filter_lib.py:20-36 | `FilterStats(h, ..., N)` with N defaulting to len h: it succeeds exactly when padding, the FFT size and both scans succeed, and the object is then Valid over the padded spectrum |
| Spectrum.FilterStats.Analysed | modeling/pdm_pcm2rtl/filter_lib.py:22-36 | once h is padded to N > 0 samples: a fresh object over the spectrum of the padded response, Valid, and successful exactly when both band scans of the non-negative bins succeed |
| Quantize.MaxAbs | modeling/pdm_pcm2rtl/filter_lib.py:213 | `np.max(np.abs(h))` bounds every abs(h[i]) and is attained |
| Quantize.ReduceBits | modeling/pdm_pcm2rtl/filter_lib.py:205-219 | `reduce_bits` keeps the length, and h_round[i] == h_int[i]*step with step = 2 max abs(h)/(2^bits-1); an empty h raises ValueError and a zero peak divides by zero |
| Quantize.ReduceBitsBounds | modeling/pdm_pcm2rtl/filter_lib.py:213-217 | each rounded tap is within step/2 of the original, and abs(h_int[i]) <= 2^(bits-1) |
| Quantize.PeakTapAtFullScale | modeling/pdm_pcm2rtl/filter_lib.py:213-216 | the peak tap is an exact tie at 2^(bits-1)-1/2, and half-even rounding sends it to plus or minus 2^(bits-1), so 2^(bits-1)-1 is not a bound |
| Quantize.QuantizedTapBounds | modeling/pdm_pcm2rtl/filter_lib.py:214-217 | one tap within the peak, quantised, is within half a step and fits in bits signed bits plus the tie |
| FirDesign.MeasureBands | modeling/pdm_pcm2rtl/filter_lib.py:246-251 | Hpb_min and Hpb_max are the extremes of the pass-band slice and Hsb_max the maximum of the stop-band slice; Rpb = 1-(max-min) <= 1 and Rsb = Hsb_max; an empty slice raises ValueError and Fs = 0 divides by zero |
| FirDesign.PassbandRippleFlat | modeling/pdm_pcm2rtl/filter_lib.py:246-248 | Rpb == 1 exactly when the pass-band magnitude is flat |
| FirDesign.StopbandRippleNonNegative | modeling/pdm_pcm2rtl/filter_lib.py:250-251 | for a non-negative magnitude, Rsb >= 0 |
| FirDesign.BandsDoNotOverlap | modeling/pdm_pcm2rtl/filter_lib.py:246-250 | for Fs > 0 and 0 <= Fpb <= Fsb, the pass-band slice ends before the stop-band slice starts |
| FirDesign.FirRequest | modeling/pdm_pcm2rtl/filter_lib.py:223-239 | the remez call asks for order+1 taps, bands [0, Fpb/Fs, Fsb/Fs, 0.5] and gains [1, 0] |
| FirDesign.FirBandsAscending | modeling/pdm_pcm2rtl/filter_lib.py:223 | the band edges are ascending exactly when 0 <= Fpb <= Fsb <= Fs/2 |
| FirDesign.Taps | modeling/pdm_pcm2rtl/filter_lib.py:241-242 | with coef_bits the taps are reduce_bits's h_round, and its errors propagate; without, they are remez's taps |
| FirDesign.FirCalcFilter | modeling/pdm_pcm2rtl/filter_lib.py:221-256 | `fir_calc_filter`: the taps come from remez then the optional quantisation, the magnitude is freqz over H_nr_points, and the measurement is MeasureBands; Fs = 0 or Apb = 0 raises ZeroDivisionError; also modeling/datasheet_specs/filter_lib.py:18-50 with 512 points and no quantisation |
| FirDesign.FirFindOptimalN | modeling/pdm_pcm2rtl/filter_lib.py:258-265 | `fir_find_optimal_N` returns the first N in [Nmin, Nmax) whose design meets -dB20(Rpb) <= Apb and -dB20(Rsb) >= Asb; every earlier N was designed and failed; None exactly when every N in the range was designed and failed; an exception comes from the first candidate whose design raises, every earlier one having been designed and failed; also modeling/datasheet_specs/filter_lib.py:52-59 |
| OrderSearch.Search | modeling/pdm_pcm2rtl/filter_lib.py:316-323 | the `for N in range(Nmin, Nmax, step)` loop with early return: the returned N passes and every earlier candidate failed, None means every candidate failed, and an error comes from a candidate reached after failures only |
| OrderSearch.FirstPassIsUnique | modeling/pdm_pcm2rtl/filter_lib.py:258-265 | two candidates that both pass with only failures before them are equal, so the search result is determined |
| OrderSearch.Exhausted | modeling/pdm_pcm2rtl/filter_lib.py:323 | leaving the loop past Nmax means every candidate below Nmax failed |
| HalfBand.Interleaved | modeling/pdm_pcm2rtl/filter_lib.py:293 | `zip(g, zeros(n))` flattened: even positions hold g, odd positions 0, and it is twice the shorter length long |
| HalfBand.Halved | modeling/pdm_pcm2rtl/filter_lib.py:295 | `np.array(h)/2` halves every element |
| HalfBand.HalfBandTaps | modeling/pdm_pcm2rtl/filter_lib.py:291-295 | the interleave without its last element, written at order//2 and halved; an out-of-range write raises IndexError and a negative zeros size ValueError |
| HalfBand.HalfBandTapsShape | modeling/pdm_pcm2rtl/filter_lib.py:291-295 | for a valid order N: N+1 taps, h[2i] = g[i]/2, h[N/2] = 1/2 at an odd index, and every other odd tap is 0 |
| HalfBand.HalfBandTapsPalindromic | modeling/pdm_pcm2rtl/filter_lib.py:291-295 | a palindromic g gives a palindromic half-band filter |
| HalfBand.HalfBandRequest | modeling/pdm_pcm2rtl/filter_lib.py:284-289 | the remez call asks for N/2+1 taps, band edge 2*Fpb/Fs, gains [1, 0] and weights [1, 1] |
| HalfBand.HalfBandCalcFilter | modeling/pdm_pcm2rtl/filter_lib.py:279-314 | `half_band_calc_filter` raises AssertionError unless Fpb < Fs/4, the order is even and not a multiple of 4; otherwise taps, magnitude and measurement as for the FIR, with Fsb = Fs/2 - Fpb |
| HalfBand.CandidatesPassOrderAsserts | modeling/pdm_pcm2rtl/filter_lib.py:317 | from Nmin = 2 mod 4, every candidate of `range(Nmin, Nmax, 4)` passes the order asserts |
| HalfBand.HalfBandFindOptimalN | modeling/pdm_pcm2rtl/filter_lib.py:316-323 | `half_band_find_optimal_N` returns the first of Nmin, Nmin+4, ... whose 512-point design meets the spec, with every earlier candidate failing; None exactly when every candidate was designed and failed; an exception comes from the first candidate whose design raises, every earlier one having failed; Fpb >= Fs/4 raises AssertionError |
| Cic.Conv | modeling/pdm_pcm2rtl/filter_lib.py:348 | `np.convolve` in full mode: len(a)+len(b)-1 taps |
| Cic.ConvPalindromic | modeling/pdm_pcm2rtl/filter_lib.py:348 | the convolution of two palindromic responses is palindromic |
| Cic.SumConv | modeling/pdm_pcm2rtl/filter_lib.py:348 | convolution multiplies the tap sums |
| Cic.Box | modeling/pdm_pcm2rtl/filter_lib.py:343 | `np.ones(L)/L`: L taps of 1/L |
| Cic.BoxPowerLength | modeling/pdm_pcm2rtl/filter_lib.py:346-348 | K boxes of L taps give K*(L-1)+1 taps |
| Cic.BoxPowerSum | modeling/pdm_pcm2rtl/filter_lib.py:346-348 | every power of the box sums to 1 |
| Cic.BoxPowerPalindromic | modeling/pdm_pcm2rtl/filter_lib.py:346-348 | every power of the box is palindromic |
| Cic.CicFilter | modeling/pdm_pcm2rtl/filter_lib.py:336-350 | `cic_filter(D, K, R)` is the box of D*R taps convolved K-1 times: K*(D*R-1)+1 taps (the box alone for K <= 1) summing to 1 and palindromic; D*R < 0 raises ValueError; D*R = 0 gives [] for K <= 1 and raises ValueError otherwise |
| Unfold.HUnfold | modeling/pdm_pcm2rtl/filter_lib.py:353-364 | the `H_unfold` loop produces Unfolded(Hin, ratio) |
| Unfold.UnfoldedLength | modeling/pdm_pcm2rtl/filter_lib.py:357-362 | the unfolded response has ratio*len(Hin) samples (none for ratio <= 0) |
| Unfold.UnfoldedBlock | modeling/pdm_pcm2rtl/filter_lib.py:359-362 | block i is Hin for even i and Hin reversed for odd i |
| Unfold.UnfoldedAt | modeling/pdm_pcm2rtl/filter_lib.py:359-362 | sample t of the unfolded response reads Hin at t mod len, mirrored when t div len is odd |
| Unfold.UnfoldedStrideLength | modeling/pdm_pcm2rtl/pdm_pcm2rtl.py:314-316 | `H_unfold(X, r)[::r]` has len(X) samples |
| Unfold.UnfoldOnce | modeling/pdm_pcm2rtl/filter_lib.py:353-364 | unfolding by 1 returns Hin |
| Resampling.ZeroStuffed | modeling/resampling/resampling.py:33-36 | the zero-stuffed signal has len*L samples (its contents are stated by ZeroStuffedSamples) |
| Resampling.InsertZeros | modeling/resampling/resampling.py:33-36 | `insert_zeros` returns ZeroStuffed(s, L) for L >= 1; L = 0 or a negative size raises ValueError; L < 0 with an empty input gives [] |
| Resampling.Decimate | modeling/resampling/resampling.py:38-40 | `decimate(s, M)` raises ValueError exactly for M = 0 (the samples it keeps are stated by DecimateForward and DecimateBackward) |
| Resampling.DecimateForward | modeling/resampling/resampling.py:38-40 | for M >= 1: ceil(n/M) samples, sample i being s[i*M] |
| Resampling.DecimateBackward | modeling/resampling/resampling.py:38-40 | for M <= -1: sample i is s[n-1+i*M] |
| Resampling.DecimateInsertZeros | modeling/resampling/resampling.py:33-40 | decimating a zero-stuffed signal by the same factor gives the signal back |
| Resampling.ZeroStuffedSamples | modeling/resampling/resampling.py:34-35 | sample k sits at k*L and every other index holds an inserted zero |
| Resampling.ResampleTenThirds | modeling/resampling/resampling.py:64-87 | with L = 10 and M = 3, the output has ceil(10n/3) samples, sample i being s[3i/10] when 10 divides 3i and 0 otherwise |
| MulsTable.FloorDiv | modeling/pdm2pcm/pdm2pcm.py:318-319 | Python `//`: the floor of a/b, for either sign of b |
| MulsTable.PadLength | modeling/pdm2pcm/pdm2pcm.py:313 | `(16384//decim//2)*decim*2` raises ZeroDivisionError exactly for decim = 0 |
| MulsTable.PadLengthFits | modeling/pdm2pcm/pdm2pcm.py:313 | for decim >= 1 the pad length is the largest multiple of 2*decim not above 16384 |
| MulsTable.Residual | modeling/pdm2pcm/pdm2pcm.py:325-345 | what the `while decim_remain % 2 == 0` loop leaves is odd and non-zero |
| MulsTable.SplitDecimation | modeling/pdm2pcm/pdm2pcm.py:325-345 | every non-zero decimation is its residual times 2^(number of half-bands) |
| MulsTable.SumMulsAppend | modeling/pdm2pcm/pdm2pcm.py:335-336 | appending a stage adds its muls to the running sum |
| MulsTable.AppendHalfBandStage | modeling/pdm2pcm/pdm2pcm.py:331-345 | a half-band designed at the current rate and budget extends the recorded cascade, and the budget drops by abs(dB20(Rpb)) |
| MulsTable.NextHalfBand | modeling/pdm2pcm/pdm2pcm.py:331-336 | the order search and the design at the current rate: a result is the half-band stage of the first candidate order that meets the budget, every earlier candidate having failed, at a rate above four times f_sb; a rate at or below four times f_sb raises AssertionError, and when every candidate fails the None order raises TypeError |
| MulsTable.CicConfig.constructor | modeling/pdm2pcm/pdm2pcm.py:292-297 | a row starts with its decimation, stage count and optional single_fir, and empty hb_stats and fir_stats |
| MulsTable.Configs | modeling/pdm2pcm/pdm2pcm.py:292-297 | the four rows (6,3), (8,4,False), (8,4,True), (12,4), each a distinct new object with empty stats |
| MulsTable.TableSplits | modeling/pdm2pcm/pdm2pcm.py:292-297 | decimation 6 leaves 8 = three half-bands, 8 leaves 6 = one half-band and residual 3, 12 leaves 4 = two half-bands, and every row reaches 48 kHz |
| MulsTable.CicAnalysis | modeling/pdm2pcm/pdm2pcm.py:311-316 | the CIC response over the pad-length spectrum gives the attenuation at f_pb; decim < 0 raises ValueError and decim = 0 fails as cic_filter and the pad length do |
| MulsTable.CicAttenuation | modeling/pdm2pcm/pdm2pcm.py:313-316 | FilterStats over N points, then `attn_at(f_pb)` and `attn_at(2*f_pdm/2/decim - f_sb)`; a success gives the attenuation of the padded CIC at f_pb |
| MulsTable.HalfBandCascade | modeling/pdm2pcm/pdm2pcm.py:325-345 | the loop records one half-band per factor of two, each of the first passing order at the rate halved so far and within the budget left, ending at the odd residual with the rate and budget updated; a zero decimation fails |
| MulsTable.FirStageDesign | modeling/pdm2pcm/pdm2pcm.py:378-388 | a FIR entry appended to fir_stats: the first order from 1 meeting the spec, every smaller order having failed, with output rate fs/ratio and muls (N+1)*fs/ratio; Fs = 0 raises ZeroDivisionError, which the model also reports for a zero budget (where numpy gives an infinite weight), and when every order fails the None order raises TypeError |
| MulsTable.FirStages | modeling/pdm2pcm/pdm2pcm.py:350-388 | two FIR entries when an odd residual remains and single_fir is False, one otherwise, each of the first passing order; the last runs at fs/residual; a missing single_fir raises KeyError exactly when the residual is not 1 |
| MulsTable.DecimatingThenFinalFir | modeling/pdm2pcm/pdm2pcm.py:350-388 | the decimating FIR gets f_sb, fs/res - f_sb and half the budget; the final FIR runs at fs/res with the other half; each has the first order meeting its spec |
| MulsTable.FinalFir | modeling/pdm2pcm/pdm2pcm.py:378-388 | the final FIR alone, of the first order meeting the spec within the whole budget, decimating by what is left |
| MulsTable.DesignStages | modeling/pdm2pcm/pdm2pcm.py:318-390 | the half-bands, the FIRs and total_muls together are Cascaded; no decimation left after the CIC is an error |
| MulsTable.FirStagesAndTotal | modeling/pdm2pcm/pdm2pcm.py:350-390 | the FIR stages, then total_muls = sum of half-band muls + sum of FIR muls |
| MulsTable.RunConfig | modeling/pdm2pcm/pdm2pcm.py:304-390 | one row: the CIC attenuation at f_pb over the pad length, then the Cascaded stages within a_pb - abs(attenuation); the decim <= 0 failures |
| MulsTable.RunRow | modeling/pdm2pcm/pdm2pcm.py:304-390 | a completed row satisfies RowDone |
| MulsTable.RunNextRow | modeling/pdm2pcm/pdm2pcm.py:299-390 | running the next row completes it or fails, and every row completed before it stays completed |
| MulsTable.NumberOfMulsTable | modeling/pdm2pcm/pdm2pcm.py:292-390 | the four rows of `cic_configs` in order: decimations 6, 8, 8, 12, CIC orders 3, 4, 4, 4, and single_fir absent, False, True, absent; on success every row is RowDone |
| MulsTable.RunRows | modeling/pdm2pcm/pdm2pcm.py:299-390 | every row of the list is run in order and each completed row stays RowDone while the later rows run |
| Complex.AddAll | modeling/pdm_pcm2rtl/pdm_pcm2rtl.py:421-424 | numpy `a + b` on equal lengths is element-wise |
| Complex.Times | modeling/pdm_pcm2rtl/pdm_pcm2rtl.py:318-320 | numpy `a * b` succeeds exactly for equal lengths or a length-1 operand, element-wise with broadcasting, and raises ValueError otherwise |
| PdmPcm2Rtl.HSize | modeling/pdm_pcm2rtl/pdm_pcm2rtl.py:260 | H_size is a multiple of 2*total_decim |
| PdmPcm2Rtl.HSizeNearest | modeling/pdm_pcm2rtl/pdm_pcm2rtl.py:260 | H_size is within total_decim of 65536 |
| PdmPcm2Rtl.HSizeOfDesign | modeling/pdm_pcm2rtl/pdm_pcm2rtl.py:260 | total_decim = 48 and H_size = 65568 = 683*96 |
| PdmPcm2Rtl.DesignHalfBand | modeling/pdm_pcm2rtl/pdm_pcm2rtl.py:284-285 | the half-band order is the first passing candidate of the 512-point search at f_sb and a_sb = 101, and the design is redone with 17-bit taps over H_size points; Fsb >= Fs/4 raises AssertionError, and when every candidate fails the None order raises TypeError |
| PdmPcm2Rtl.DesignFir | modeling/pdm_pcm2rtl/pdm_pcm2rtl.py:306-307 | the FIR order is the first of 1..999 meeting the spec over H_size points, and the design is redone with 17-bit taps; Fs = 0 raises ZeroDivisionError, which the model also reports for a zero budget (where numpy gives an infinite weight); when every order fails the None order raises TypeError |
| PdmPcm2Rtl.ReducedBitsStages | modeling/pdm_pcm2rtl/pdm_pcm2rtl.py:276-307 | HB1 at 192 kHz within a_pb - abs(CIC attenuation), HB2 at 96 kHz within what HB1 leaves, the FIR at 48 kHz with the rest, ending with decim_remain = 1 |
| PdmPcm2Rtl.TwoHalfBands | modeling/pdm_pcm2rtl/pdm_pcm2rtl.py:276-300 | HB1 designed at 192 kHz within a_pb - abs(CIC attenuation), HB2 at 96 kHz within what HB1 leaves; afterwards 48 kHz and a decimation of 1 remain, with the budget both ripples leave |
| PdmPcm2Rtl.Aligned | modeling/pdm_pcm2rtl/pdm_pcm2rtl.py:314-316 | `H_unfold(H, r)[::r]` has len(H) samples |
| PdmPcm2Rtl.AlignedSample | modeling/pdm_pcm2rtl/pdm_pcm2rtl.py:314-316 | bin k of the aligned response is the unfolded response at k*r |
| PdmPcm2Rtl.CascadeResponse | modeling/pdm_pcm2rtl/pdm_pcm2rtl.py:314-320 | the unfold, stride and product code computes Cascade |
| PdmPcm2Rtl.CascadeAligned | modeling/pdm_pcm2rtl/pdm_pcm2rtl.py:318-320 | with all four responses of one length the product succeeds, keeps that length and multiplies bin by bin |
| PdmPcm2Rtl.Folded | modeling/pdm_pcm2rtl/pdm_pcm2rtl.py:417-425 | the sum of the first n blocks has the block length |
| PdmPcm2Rtl.BlockInRange | modeling/pdm_pcm2rtl/pdm_pcm2rtl.py:421-424 | every slice `[i*L:(i+1)*L]` of the 48 lies inside H |
| PdmPcm2Rtl.Fold | modeling/pdm_pcm2rtl/pdm_pcm2rtl.py:417-425 | the loop returns len(H)//48 bins, the sum of the 48 blocks with the odd ones flipped |
| PdmPcm2Rtl.FoldTiles | modeling/pdm_pcm2rtl/pdm_pcm2rtl.py:417-425 | when 48 divides len(H), the 48 blocks tile H and index t lies in block t div L at offset t mod L |
| PdmPcm2Rtl.FoldUnfold | modeling/pdm_pcm2rtl/pdm_pcm2rtl.py:417-425 | folding an unfolded response gives back ratio times the response, bin by bin |
| PdmPcm2Rtl.UnfoldedBlockSample | modeling/pdm_pcm2rtl/pdm_pcm2rtl.py:421-424 | each block of an unfolded response, flipped back when odd, is the response |
| PdmPcm2Rtl.ReducedBitsStudy | modeling/pdm_pcm2rtl/pdm_pcm2rtl.py:252-425 | the whole section: CIC attenuation at H_size points, StagesDesigned, and the folded product of the four aligned responses |
| PdmPcm2Rtl.StagesAndFold | modeling/pdm_pcm2rtl/pdm_pcm2rtl.py:276-425 | once the CIC is measured: StagesDesigned for the three designed stages, and the result is the 48-block fold of the product of the four aligned responses at H_size points |
| CoefExport.MaxCoefIsMaxAbs | fpga/spinal/filters_json2scala.py:19 | `max(max(c), abs(min(c)))` is the largest magnitude, whatever the signs |
| CoefExport.IntCoefs | fpga/spinal/filters_json2scala.py:19-20 | every tap is scaled, keeping the length; an empty list raises ValueError and all-zero taps ZeroDivisionError |
| CoefExport.IntCoefsBounds | fpga/spinal/filters_json2scala.py:20 | every integer tap lies in [-(2^(bits-1)-1), 2^(bits-1)-1], and a peak tap maps exactly to plus or minus that bound |
| CoefExport.ScaledTapBounds | fpga/spinal/filters_json2scala.py:20 | one tap no larger than the peak scales into range, and the peak maps to full scale |
| CoefExport.PrunedPrefixLength | fpga/spinal/filters_json2scala.py:22-24 | the first k indices keep (k+1)/2 even ones, plus the centre len//2 when it is odd and below k |
| CoefExport.PrunedKeeps | fpga/spinal/filters_json2scala.py:23-24 | a kept tap appears in the pruned list at the position of its rank |
| CoefExport.PrunedInOrder | fpga/spinal/filters_json2scala.py:23-24 | a later kept tap sits at a later position of the pruned list |
| CoefExport.PrunedOnlyKept | fpga/spinal/filters_json2scala.py:23-24 | every pruned tap is a tap at an even index or at the centre |
| CoefExport.PrunedLengthHalfBand | fpga/spinal/filters_json2scala.py:22-24 | for len = 3 mod 4 the pruned count is (len+1)/2 + 1 |
| CoefExport.ExportOne | fpga/spinal/filters_json2scala.py:19-42 | the fields of one filter: the Scala size is the unpruned len + 4*decimation, the flag is printed as true/false for Scala and 1/0 for C, the C length is the pruned count, and the taps are pruned only for half-bands; a missing is_halfband raises KeyError |
| CoefExport.ExportAll | fpga/spinal/filters_json2scala.py:17-44 | every descriptor after the first is exported, in order, exactly when none fails; a failure is the error of the first descriptor that fails, every earlier one having exported |
| CoefExport.ExportEach | fpga/spinal/filters_json2scala.py:17-42 | the loop over the descriptors succeeds exactly when each export succeeds, and then yields their outputs in order; a failure is the error of the first export that fails, every earlier one having succeeded |

## Left out

- Library numerics are parameters, not models: `signal.remez`, `signal.freqz`, `np.fft.fft`, `np.log10` in `dB20`, and the `10**` weight formulas. No property of a design depends on what they compute.
- Floating point: every quantity is an exact real. Whether a float hits the `reduce_bits` tie exactly, or rounds a weight differently, is not modelled.
- `dB20` of zero is minus infinity in numpy; here dB values are finite reals.
- Quantize.ReduceBits: numpy divides by zero without raising in two cases, and the model reports both as a ZeroDivisionError result. All-zero taps give a zero step, so `h / float_step` is nan; `astype(int)` turns nan into an unspecified integer (the most negative 64-bit value on x86-64, with a warning), so h_int is that garbage and h_round, being h_int times the zero step, is all zeros. `nr_bits = 0` gives `2**0 - 1 = 0` levels, so the step is infinite, h_int is all zeros and h_round is nan, again with a warning. A negative `nr_bits`, which Python would carry through with a negative fractional step count, is excluded by the parameter's `nat` type; every caller passes 17.
- MulsTable.FirStageDesign: the zero-budget ZeroDivisionError is what a Python float budget raises in `w_pb = 1/err_pb`. Here the budget is `a_pb - abs(cic_pb_attn)` (pdm2pcm.py line 320), and `cic_pb_attn` is an element of the numpy array Hdb, so the budget and every later half of it are numpy float64. A zero budget then gives an infinite weight, with a warning, and remez is called with it; the model reports ZeroDivisionError instead. The Fs = 0 case does raise, since the rate is a Python number.
- PdmPcm2Rtl.DesignFir: the same as for MulsTable.FirStageDesign. The budget at pdm_pcm2rtl.py line 306 descends from `abs(cic_pb_attn)`, a numpy float64, so a zero budget gives an infinite weight rather than ZeroDivisionError; only Fs = 0 raises.
- Plotting, `savefig`, `print` and verbose output, the HTML tables, and `FilterStats.plot` and `decimation_graph*`: report output only.
- JSON reading and writing, the printed Scala and C text, and the `.lower()` of C identifiers: file I/O and string formatting. The numeric fields of the text are modelled by `CoefExport.Emitted`.
- The hard-coded filter descriptor lists in `pdm2pcm.py` and `pdm_pcm2rtl.py` are output literals and are not modelled. Their final FIR says `'decimation': 2`, while the bookkeeping ends with nothing left to decimate.
- The driver scripts with no logic of their own, the testbenches, and the firmware.
- The demo signal of `resampling.py` (random noise, sine waves): only `insert_zeros` and `decimate` and their composition are modelled.
- MulsTable.HalfBandCascade: when no decimation is left after the CIC (decim_remain = 0), `0 % 2 == 0` keeps the loop designing half-bands at ever lower rates, in the model as in the script. Once f_s_remain <= 40000 the search's `Fpb < Fs/4` assert fails, so the loop always ends in an error. The contract says that it fails but not which error it is: that AssertionError, an earlier TypeError from a None order, or an exception from an earlier design.
- MulsTable.CicAttenuation: states the attenuation only when it succeeds. The exact set of inputs that raise (including the second `attn_at` at the alias of f_sb, whose value is discarded) is not characterised.
- MulsTable.CicAnalysis: the same one-directional statement for decim >= 1.
- PdmPcm2Rtl.ReducedBitsStudy: states the result only when it succeeds, not which exception each failure raises.
- The complex cascade is modelled only as far as alignment, lengths and bin-by-bin products go. The dB plots of the products are not modelled.
- `np.zeros(H_decimated_len)` is a real array to which complex slices are added. numpy promotes the result to complex, and the model starts from complex zero.
