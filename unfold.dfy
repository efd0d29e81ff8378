/** `H_unfold(Hin, ratio)`: a response computed over [0, Fs/2) is repeated `ratio`
    times, every other copy mirrored, to give the response seen at the input rate of
    a decimate-by-`ratio` stage. */
module Unfold {
  import opened Arith
  import opened PySeq

  /** The unfolded response: copies 0, 1, ..., ratio-1 of h, the odd ones reversed.
      `range(ratio)` is empty for ratio <= 0. */
  function Unfolded<T>(h: seq<T>, ratio: int): (r: seq<T>)
    decreases ratio
  {
    if ratio <= 0 then []
    else Unfolded(h, ratio - 1) + (if (ratio - 1) % 2 == 0 then h else Reverse(h))
  }

  /** The loop of `H_unfold`: append Hin on even passes and `Hin[::-1]` on odd ones. */
  method HUnfold<T>(hin: seq<T>, ratio: int) returns (hout: seq<T>)
    ensures hout == Unfolded(hin, ratio)
  {
    hout := [];
    var i := 0;
    while i < ratio
      invariant ratio <= 0 ==> i == 0
      invariant ratio > 0 ==> 0 <= i <= ratio
      invariant hout == Unfolded(hin, i)
    {
      if i % 2 == 0 {
        hout := hout + hin;
      } else {
        hout := hout + Reverse(hin);
      }
      i := i + 1;
    }
  }

  /** The unfolded response holds `ratio` copies: ratio * len(Hin) samples. */
  lemma {:induction false} UnfoldedLength<T>(h: seq<T>, ratio: int)
    ensures |Unfolded(h, ratio)| == (if ratio <= 0 then 0 else ratio * |h|)
    decreases ratio
  {
    if ratio > 0 {
      UnfoldedLength(h, ratio - 1);
    }
  }

  /** Sample j of block i is h[j] for even i and h[len-1-j] for odd i. */
  lemma {:induction false} UnfoldedBlock<T>(h: seq<T>, ratio: int, i: int, j: int)
    requires 0 <= i < ratio && 0 <= j < |h|
    ensures i * |h| + j < |Unfolded(h, ratio)|
    ensures Unfolded(h, ratio)[i * |h| + j] == if i % 2 == 0 then h[j] else h[|h| - 1 - j]
    decreases ratio
  {
    UnfoldedLength(h, ratio - 1);
    UnfoldedLength(h, ratio);
    MulMonotone(i + 1, ratio, |h|);
    if i < ratio - 1 {
      MulMonotone(i + 1, ratio - 1, |h|);
      UnfoldedBlock(h, ratio - 1, i, j);
    }
  }

  /** Reading index t of the unfolded response: copy t div len at offset t mod len,
      read backwards when the copy is odd. */
  function MirroredAt<T>(h: seq<T>, t: int): T
    requires |h| >= 1 && t >= 0
  {
    var q, rem := t / |h|, t % |h|;
    if q % 2 == 0 then h[rem] else h[|h| - 1 - rem]
  }

  /** Every sample of the unfolded response is the mirrored read of Hin at its index. */
  lemma UnfoldedAt<T>(h: seq<T>, ratio: int, t: int)
    requires ratio >= 1 && 0 <= t < |Unfolded(h, ratio)|
    ensures |h| >= 1 && Unfolded(h, ratio)[t] == MirroredAt(h, t)
  {
    assert t < ratio * |h| && |h| >= 1 by {
      UnfoldedLength(h, ratio);
    }
    UnfoldedAtBlock(h, ratio, t, |h|);
  }

  /** UnfoldedAt with the length n named: t lies in block t div n at offset t mod n. */
  lemma UnfoldedAtBlock<T>(h: seq<T>, ratio: int, t: int, n: int)
    requires n == |h| && n >= 1 && 0 <= t < ratio * n
    ensures t < |Unfolded(h, ratio)| && Unfolded(h, ratio)[t] == MirroredAt(h, t)
  {
    var q, rem := t / n, t % n;
    assert q < ratio by {
      DivBelow(t, ratio, n);
    }
    assert q * n + rem == t && 0 <= rem < n by {
      DivModSplit(t, n);
    }
    UnfoldedBlock(h, ratio, q, rem);
  }

  /** `H_unfold(X, r)[::r]` has exactly len(X) samples, so it lines up bin for bin
      with any other response of the same length. */
  lemma UnfoldedStrideLength<T>(h: seq<T>, ratio: int)
    requires ratio >= 1
    ensures |Stride(Unfolded(h, ratio), ratio)| == |h|
  {
    UnfoldedLength(h, ratio);
    CeilOfMultiple(|h|, ratio);
    assert |h| * ratio == ratio * |h|;
  }

  /** Unfolding by 1 leaves the response unchanged. */
  lemma UnfoldOnce<T>(h: seq<T>)
    ensures Unfolded(h, 1) == h
  {
    assert Unfolded(h, 0) == [];
  }
}
