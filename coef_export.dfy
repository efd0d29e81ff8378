/** The coefficient export for the FPGA FIR engine: every filter descriptor after
    the first (the CIC, which has no taps to store) has its taps scaled to signed
    17-bit integers, half-band taps pruned to the ones the engine multiplies, and
    the fields of a Scala `FirFilterInfo` and a C `filter_info_t` computed. */
module CoefExport {
  import opened Results
  import opened Arith
  import opened PySeq
  import Quantize

  /** `nr_coef_bits = 17`. */
  const NrCoefBits: nat := 17

  /** One JSON descriptor. `is_halfband` may be absent, hence the Option. */
  datatype Descriptor = Descriptor(name: string, coefs: seq<real>, decimation: int, isHalfband: Option<bool>)

  /** The numeric fields written out for one filter: the Scala line's size, flag and
      decimation, the integer taps, and the C struct's flag and length. */
  datatype Emitted = Emitted(
    name: string,
    scalaSize: int,
    scalaHalfband: bool,
    decimation: int,
    intCoefs: seq<int>,
    cHalfband: int,
    cLength: int)

  /** `max_coef = max(max(coefs), abs(min(coefs)))`. */
  function MaxCoef(coefs: seq<real>): real
    requires |coefs| > 0
  {
    var hi := SeqMax(coefs);
    var lo := Abs(SeqMin(coefs));
    if hi >= lo then hi else lo
  }

  /** max_coef is the largest tap magnitude, whatever the signs of the taps. */
  lemma MaxCoefIsMaxAbs(coefs: seq<real>)
    requires |coefs| > 0
    ensures MaxCoef(coefs) == Quantize.MaxAbs(coefs)
  {
    var m := MaxCoef(coefs);
    var a := Quantize.MaxAbs(coefs);
    var k :| 0 <= k < |coefs| && Abs(coefs[k]) == a;
    var hi, lo := SeqMax(coefs), SeqMin(coefs);
    var iHi :| 0 <= iHi < |coefs| && coefs[iHi] == hi;
    var iLo :| 0 <= iLo < |coefs| && coefs[iLo] == lo;
    assert Abs(coefs[iHi]) <= a && Abs(coefs[iLo]) <= a;
    assert m <= a;
    assert coefs[k] <= SeqMax(coefs) && SeqMin(coefs) <= coefs[k];
    assert a <= m;
  }

  /** The integer full scale 2^(bits-1) - 1. */
  function FullScale(bits: nat): int
    requires bits >= 1
  {
    Pow2(bits - 1) - 1
  }

  /** One tap scaled: `round((coef/max_coef) * fs)`, fs being the full scale
      `2**(bits-1) - 1`. */
  function ScaledTap(coef: real, maxCoef: real, fs: int): int
    requires maxCoef != 0.0
  {
    RoundHalfEven(coef / maxCoef * fs as real)
  }

  /** `int_coefs` before pruning: every tap scaled against max_coef; a zero max_coef
      (all taps zero) is a ZeroDivisionError and an empty tap list a ValueError from
      `max`. */
  function IntCoefs(coefs: seq<real>, bits: nat): (r: Result<seq<int>>)
    requires bits >= 1
    ensures r.Ok? <==> |coefs| > 0 && MaxCoef(coefs) != 0.0
    ensures |coefs| == 0 ==> r == Err(ValueError)
    ensures |coefs| > 0 && MaxCoef(coefs) == 0.0 ==> r == Err(ZeroDivisionError)
    ensures r.Ok? ==> |r.value| == |coefs|
  {
    if |coefs| == 0 then Err(ValueError)
    else if MaxCoef(coefs) == 0.0 then Err(ZeroDivisionError)
    else
      var m := MaxCoef(coefs);
      Ok(seq(|coefs|, i requires 0 <= i < |coefs| => ScaledTap(coefs[i], m, FullScale(bits))))
  }

  /** A value within [-n, n] rounds to an integer within [-n, n]. */
  lemma RoundWithin(x: real, n: int)
    requires -(n as real) <= x <= n as real
    ensures -n <= RoundHalfEven(x) <= n
  {
  }

  /** |c| <= m with m > 0 puts c/m in [-1, 1]. */
  lemma RatioWithin(c: real, m: real, fs: real)
    requires Abs(c) <= m && m > 0.0 && fs >= 0.0
    ensures -fs <= c / m * fs <= fs
  {
    assert -1.0 <= c / m <= 1.0;
    if c / m >= 0.0 {
      assert c / m * fs <= 1.0 * fs;
    } else {
      assert -(c / m) * fs <= 1.0 * fs;
    }
  }

  /** Every integer tap fits in `bits` signed bits without using the most negative
      code, and the largest-magnitude taps land exactly on plus or minus full scale. */
  lemma IntCoefsBounds(coefs: seq<real>, bits: nat)
    requires bits >= 1 && IntCoefs(coefs, bits).Ok?
    ensures forall i :: 0 <= i < |coefs| ==>
      -FullScale(bits) <= IntCoefs(coefs, bits).value[i] <= FullScale(bits)
    ensures forall i :: 0 <= i < |coefs| && Abs(coefs[i]) == MaxCoef(coefs) ==>
      IntCoefs(coefs, bits).value[i] == (if coefs[i] >= 0.0 then FullScale(bits) else -FullScale(bits))
  {
    var m := MaxCoef(coefs);
    MaxCoefIsMaxAbs(coefs);
    forall i | 0 <= i < |coefs|
      ensures -FullScale(bits) <= IntCoefs(coefs, bits).value[i] <= FullScale(bits)
      ensures Abs(coefs[i]) == m ==>
        IntCoefs(coefs, bits).value[i] == (if coefs[i] >= 0.0 then FullScale(bits) else -FullScale(bits))
    {
      assert IntCoefs(coefs, bits).value[i] == ScaledTap(coefs[i], m, FullScale(bits));
      ScaledTapBounds(coefs[i], m, FullScale(bits));
    }
  }

  lemma ScaledTapBounds(c: real, m: real, fs: int)
    requires Abs(c) <= m && m > 0.0 && fs >= 0
    ensures -fs <= ScaledTap(c, m, fs) <= fs
    ensures Abs(c) == m ==> ScaledTap(c, m, fs) == (if c >= 0.0 then fs else -fs)
  {
    ScaledWithin(c, m, fs, c / m * fs as real);
    if Abs(c) == m {
      ScaledPeak(c, m, fs);
    }
  }

  lemma ScaledWithin(c: real, m: real, fs: int, x: real)
    requires Abs(c) <= m && m > 0.0 && fs >= 0 && x == c / m * fs as real
    ensures -fs <= RoundHalfEven(x) <= fs
  {
    RatioWithin(c, m, fs as real);
    RoundWithin(x, fs);
  }

  /** A tap of the largest magnitude scales exactly to plus or minus fs. */
  lemma ScaledPeak(c: real, m: real, fs: int)
    requires Abs(c) == m && m > 0.0
    ensures ScaledTap(c, m, fs) == (if c >= 0.0 then fs else -fs)
  {
    if c >= 0.0 {
      assert c / m == 1.0;
      RoundHalfEvenOfInt(fs);
    } else {
      assert c / m == -1.0;
      RoundHalfEvenOfInt(-fs);
    }
  }

  /** The half-band filter keeps index i when it is even or the centre `len // 2`. */
  predicate Kept(i: int, len: int)
  {
    i % 2 == 0 || i == len / 2
  }

  /** The kept taps among the first k, in order
      (`filter(lambda e: e[0] % 2 == 0 or e[0] == len // 2, enumerate(int_coefs))`). */
  function PrunedPrefix(s: seq<int>, k: nat): (r: seq<int>)
    requires k <= |s|
    ensures |r| <= k
  {
    if k == 0 then []
    else PrunedPrefix(s, k - 1) + (if Kept(k - 1, |s|) then [s[k - 1]] else [])
  }

  /** The pruned half-band taps. */
  function Pruned(s: seq<int>): seq<int>
  {
    PrunedPrefix(s, |s|)
  }

  /** How many of the first k indices are kept: the (k+1)/2 even ones, plus the
      centre when it is odd and below k. */
  lemma {:induction false} PrunedPrefixLength(s: seq<int>, k: nat)
    requires k <= |s|
    ensures |PrunedPrefix(s, k)| ==
      (k + 1) / 2 + (if |s| / 2 < k && (|s| / 2) % 2 == 1 then 1 else 0)
  {
    if k > 0 {
      PrunedPrefixLength(s, k - 1);
    }
  }

  /** A kept tap i appears in the pruned list at position |PrunedPrefix(s, i)|. */
  lemma {:induction false} PrunedKeeps(s: seq<int>, i: nat, k: nat)
    requires i < k <= |s| && Kept(i, |s|)
    ensures |PrunedPrefix(s, i)| < |PrunedPrefix(s, k)|
    ensures PrunedPrefix(s, k)[|PrunedPrefix(s, i)|] == s[i]
  {
    if k == i + 1 {
    } else {
      PrunedKeeps(s, i, k - 1);
    }
  }

  /** The kept taps come out in their original order: a later kept tap sits at a
      later position. */
  lemma PrunedInOrder(s: seq<int>, i: nat, j: nat)
    requires i < j < |s| && Kept(i, |s|) && Kept(j, |s|)
    ensures |PrunedPrefix(s, i)| < |PrunedPrefix(s, j)| < |Pruned(s)|
    ensures Pruned(s)[|PrunedPrefix(s, i)|] == s[i] && Pruned(s)[|PrunedPrefix(s, j)|] == s[j]
  {
    PrunedKeeps(s, i, j);
    PrunedKeeps(s, i, |s|);
    PrunedKeeps(s, j, |s|);
  }

  /** Every pruned tap is one of the kept taps. */
  lemma {:induction false} PrunedOnlyKept(s: seq<int>, k: nat, m: int)
    requires k <= |s| && 0 <= m < |PrunedPrefix(s, k)|
    ensures exists i :: 0 <= i < k && Kept(i, |s|) && PrunedPrefix(s, k)[m] == s[i]
  {
    if m < |PrunedPrefix(s, k - 1)| {
      PrunedOnlyKept(s, k - 1, m);
    } else {
      assert PrunedPrefix(s, k)[m] == s[k - 1];
    }
  }

  /** For the engine's half-bands, whose length is 3 mod 4, the centre tap is odd,
      so one tap more than the even ones survives. */
  lemma PrunedLengthHalfBand(s: seq<int>)
    requires |s| % 4 == 3
    ensures |Pruned(s)| == (|s| + 1) / 2 + 1
  {
    PrunedPrefixLength(s, |s|);
  }

  /** The body of the loop for one descriptor (lines 19-42): scale, prune when the
      flag says half-band, and compute the fields. A missing `is_halfband` passes the
      pruning guard and fails as a KeyError at the Scala line. */
  function ExportOne(f: Descriptor, bits: nat): (r: Result<Emitted>)
    requires bits >= 1
    ensures r.Ok? <==> IntCoefs(f.coefs, bits).Ok? && f.isHalfband.Some?
    ensures IntCoefs(f.coefs, bits).Err? ==> r == Err(IntCoefs(f.coefs, bits).error)
    ensures IntCoefs(f.coefs, bits).Ok? && f.isHalfband.None? ==> r == Err(KeyError)
    ensures r.Ok? ==>
      && r.value.name == f.name
      && r.value.scalaSize == |f.coefs| + 4 * f.decimation
      && r.value.scalaHalfband == f.isHalfband.value
      && r.value.decimation == f.decimation
      && r.value.cHalfband == (if f.isHalfband.value then 1 else 0)
      && r.value.cLength == |r.value.intCoefs|
      && r.value.intCoefs ==
           (if f.isHalfband.value then Pruned(IntCoefs(f.coefs, bits).value) else IntCoefs(f.coefs, bits).value)
  {
    match IntCoefs(f.coefs, bits)
    case Err(e) => Err(e)
    case Ok(ints) =>
      var kept := if f.isHalfband == Some(true) then Pruned(ints) else ints;
      match f.isHalfband
      case None => Err(KeyError)
      case Some(hb) =>
        Ok(Emitted(f.name, |f.coefs| + 4 * f.decimation, hb, f.decimation, kept, if hb then 1 else 0, |kept|))
  }

  /** Lines 17-44: the loop over `filters[1:]`, collecting what is emitted for each
      descriptor in order. The text is printed only after the loop, so the first
      failing descriptor leaves nothing printed. */
  method ExportAll(filters: seq<Descriptor>) returns (r: Result<seq<Emitted>>)
    ensures r.Ok? <==> forall k :: 1 <= k < |filters| ==> ExportOne(filters[k], NrCoefBits).Ok?
    ensures r.Ok? ==> |r.value| == (if |filters| == 0 then 0 else |filters| - 1)
    ensures r.Ok? ==> forall k :: 1 <= k < |filters| ==> r.value[k - 1] == ExportOne(filters[k], NrCoefBits).value
    ensures r.Err? ==>
      exists k :: 1 <= k < |filters| && ExportOne(filters[k], NrCoefBits) == Err(r.error)
        && forall j :: 1 <= j < k ==> ExportOne(filters[j], NrCoefBits).Ok?
  {
    var rest := if |filters| == 0 then [] else filters[1..];
    r := ExportEach(rest, (d: Descriptor) => ExportOne(d, NrCoefBits));
    if r.Err? {
      ghost var k :| 0 <= k < |rest| && ExportOne(rest[k], NrCoefBits) == Err(r.error)
        && forall j :: 0 <= j < k ==> ExportOne(rest[j], NrCoefBits).Ok?;
      FirstFailureShifted(filters, k, r.error);
    }
  }

  /** A first failure at index k of `filters[1:]` is one at index k + 1 of `filters`. */
  lemma FirstFailureShifted(filters: seq<Descriptor>, k: nat, e: Error)
    requires k + 1 < |filters|
    requires ExportOne(filters[1..][k], NrCoefBits) == Err(e)
    requires forall j :: 0 <= j < k ==> ExportOne(filters[1..][j], NrCoefBits).Ok?
    ensures exists i :: 1 <= i < |filters| && ExportOne(filters[i], NrCoefBits) == Err(e)
                        && forall j :: 1 <= j < i ==> ExportOne(filters[j], NrCoefBits).Ok?
  {
    forall j | 1 <= j < k + 1
      ensures ExportOne(filters[j], NrCoefBits).Ok?
    {
      assert filters[j] == filters[1..][j - 1];
    }
    assert filters[k + 1] == filters[1..][k];
  }

  /** The loop itself: export each descriptor in turn, stopping at the first failure. */
  method ExportEach(fs: seq<Descriptor>, export1: Descriptor -> Result<Emitted>) returns (r: Result<seq<Emitted>>)
    ensures r.Ok? <==> forall k :: 0 <= k < |fs| ==> export1(fs[k]).Ok?
    ensures r.Ok? ==> |r.value| == |fs| && forall k :: 0 <= k < |fs| ==> export1(fs[k]) == Ok(r.value[k])
    ensures r.Err? ==>
      exists k :: 0 <= k < |fs| && export1(fs[k]) == Err(r.error)
        && forall j :: 0 <= j < k ==> export1(fs[j]).Ok?
  {
    var out: seq<Emitted> := [];
    var k := 0;
    while k < |fs|
      invariant 0 <= k <= |fs|
      invariant |out| == k
      invariant forall j :: 0 <= j < k ==> export1(fs[j]) == Ok(out[j])
    {
      var e := export1(fs[k]);
      if e.Err? {
        return Err(e.error);
      }
      out := out + [e.value];
      k := k + 1;
    }
    r := Ok(out);
  }
}
