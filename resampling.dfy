/** The resampling primitives: `insert_zeros(sig, L)` upsamples by writing the
    input to every L-th slot of a zero array, `decimate(sig, M)` keeps every M-th
    sample (`sig[::M]`). */
module Resampling {
  import opened Results
  import opened Arith
  import opened PySeq

  /** The zero-stuffed signal: s[j/L] at multiples of L, 0 elsewhere. */
  function ZeroStuffed(s: seq<real>, len: nat): (r: seq<real>)
    requires len >= 1
    ensures |r| == |s| * len
  {
    seq(|s| * len, j requires 0 <= j < |s| * len =>
      DivBelow(j, |s|, len);
      if j % len == 0 then s[j / len] else 0.0)
  }

  /** What the output array holds after the first k input samples are written. */
  function Written(s: seq<real>, len: nat, k: nat, j: int): real
    requires len >= 1 && k <= |s| && j >= 0
  {
    if j % len == 0 && j / len < k then s[j / len] else 0.0
  }

  /** Writing sample k at index k*len changes only that index. */
  lemma WriteOne(s: seq<real>, len: nat, k: nat, j: int)
    requires len >= 1 && k < |s| && j >= 0
    ensures j == k * len ==> Written(s, len, k + 1, j) == s[k]
    ensures j != k * len ==> Written(s, len, k + 1, j) == Written(s, len, k, j)
  {
    MultipleDivMod(k, len);
    if j % len == 0 {
      BlockStart(j, len);
    }
  }

  lemma BlockStart(j: int, len: nat)
    requires len >= 1 && j % len == 0
    ensures j == (j / len) * len
  {
  }

  /** `insert_zeros(sig_in, num_zeros)`: allocate len(sig)*L zeros and write the input
      at indices 0, L, 2L, ... A zero step is a ValueError (`[::0]`), and so is a
      negative size `np.zeros(n*L)` (L < 0 with a non-empty input). With L < 0 and an
      empty input both sides are empty and nothing fails. */
  method InsertZeros(s: seq<real>, numZeros: int) returns (r: Result<seq<real>>)
    ensures r.Err? <==> numZeros == 0 || (numZeros < 0 && |s| > 0)
    ensures r.Err? ==> r.error == ValueError
    ensures numZeros < 0 && |s| == 0 ==> r == Ok([])
    ensures numZeros >= 1 ==> r == Ok(ZeroStuffed(s, numZeros))
  {
    if numZeros == 0 || (numZeros < 0 && |s| > 0) {
      return Err(ValueError);
    }
    if numZeros < 0 {
      return Ok([]);
    }
    var len: nat := numZeros;
    var a := new real[|s| * len](_ => 0.0);
    var k := 0;
    while k < |s|
      invariant 0 <= k <= |s|
      invariant forall j :: 0 <= j < a.Length ==> a[j] == Written(s, len, k, j)
    {
      MulMonotone(k + 1, |s|, len);
      a[k * len] := s[k];
      forall j | 0 <= j < a.Length
        ensures a[j] == Written(s, len, k + 1, j)
      {
        WriteOne(s, len, k, j);
      }
      k := k + 1;
    }
    forall j | 0 <= j < a.Length
      ensures a[j] == ZeroStuffed(s, len)[j]
    {
      DivBelow(j, |s|, len);
    }
    assert a[..] == ZeroStuffed(s, len);
    return Ok(a[..]);
  }

  /** `decimate(sig_in, ratio)` is `sig_in[::ratio]`; a zero step is a ValueError.
      The kept samples are described by DecimateForward and DecimateBackward. */
  function Decimate(s: seq<real>, ratio: int): (r: Result<seq<real>>)
    ensures r.Err? <==> ratio == 0
    ensures r.Err? ==> r.error == ValueError
  {
    if ratio == 0 then Err(ValueError)
    else if ratio > 0 then Ok(Stride(s, ratio))
    else Ok(Stride(Reverse(s), -ratio))
  }

  /** A positive step keeps samples 0, M, 2M, ...: ceil(n/M) of them. */
  lemma DecimateForward(s: seq<real>, ratio: int)
    requires ratio >= 1
    ensures |Decimate(s, ratio).value| == (|s| + ratio - 1) / ratio
    ensures forall i :: 0 <= i < |Decimate(s, ratio).value| ==>
      i * ratio < |s| && Decimate(s, ratio).value[i] == s[i * ratio]
  {
    assert Decimate(s, ratio).value == Stride(s, ratio);
  }

  /** A negative step walks back from the last sample: n-1, n-1+M, ... for M < 0. */
  lemma DecimateBackward(s: seq<real>, ratio: int)
    requires ratio <= -1
    ensures |Decimate(s, ratio).value| == (|s| - ratio - 1) / -ratio
    ensures forall i :: 0 <= i < |Decimate(s, ratio).value| ==>
      0 <= |s| - 1 + i * ratio && Decimate(s, ratio).value[i] == s[|s| - 1 + i * ratio]
  {
    var step := -ratio;
    var rev := Reverse(s);
    var r := Stride(rev, step);
    assert Decimate(s, ratio).value == r;
    forall i | 0 <= i < |r|
      ensures 0 <= |s| - 1 + i * ratio && r[i] == s[|s| - 1 + i * ratio]
    {
      NegateProduct(i, step);
      assert r[i] == rev[i * step];
    }
  }

  lemma NegateProduct(i: int, step: int)
    ensures i * -step == -(i * step)
  {
  }

  /** Decimating a zero-stuffed signal by the same factor gives the signal back. */
  lemma DecimateInsertZeros(s: seq<real>, len: nat)
    requires len >= 1
    ensures Decimate(ZeroStuffed(s, len), len) == Ok(s)
  {
    var z := ZeroStuffed(s, len);
    var d := Decimate(z, len).value;
    DecimateForward(z, len);
    CeilOfMultiple(|s|, len);
    forall i | 0 <= i < |s|
      ensures d[i] == s[i]
    {
      ZeroStuffedSamples(s, len, i);
    }
    assert |d| == |s|;
    assert d == s;
  }

  /** Sample k of the input sits at index k*L of the zero-stuffed signal, and every
      index that is not a multiple of L holds an inserted zero. */
  lemma ZeroStuffedSamples(s: seq<real>, len: nat, k: int)
    requires len >= 1 && 0 <= k < |s|
    ensures k * len < |ZeroStuffed(s, len)| && ZeroStuffed(s, len)[k * len] == s[k]
    ensures forall j :: 0 <= j < |ZeroStuffed(s, len)| && j % len != 0 ==> ZeroStuffed(s, len)[j] == 0.0
  {
    MultipleDivMod(k, len);
    MulMonotone(k + 1, |s|, len);
  }

  /** The script's chain: upsample by L = 10, then keep every M = 3rd sample, which
      leaves ceil(10*n/3) samples, sample i being the zero-stuffed sample 3*i. */
  lemma ResampleTenThirds(s: seq<real>)
    ensures Decimate(ZeroStuffed(s, 10), 3).Ok?
    ensures |Decimate(ZeroStuffed(s, 10), 3).value| == (10 * |s| + 2) / 3
    ensures forall i :: 0 <= i < |Decimate(ZeroStuffed(s, 10), 3).value| ==>
      Decimate(ZeroStuffed(s, 10), 3).value[i] == (if (3 * i) % 10 == 0 then s[(3 * i) / 10] else 0.0)
  {
    DecimateForward(ZeroStuffed(s, 10), 3);
  }
}
