/** `half_band_calc_filter` and `half_band_find_optimal_N`. A half-band filter of
    order N (N = 2 mod 4) is built from a remez design g of N/2+1 taps for the band
    [0, 2*Fpb/Fs]: g's taps go to the even positions, the centre (an odd position)
    becomes 1, every other odd position 0, and the whole is halved (the construction
    of Vaidyanathan and Nguyen, "A Trick for the Design of FIR Half-Band Filters"). */
module HalfBand {
  import opened Results
  import opened Arith
  import opened PySeq
  import opened FirDesign
  import OrderSearch

  /** The two order asserts: a multiple of 2 but not of 4. */
  predicate OrderOk(order: int)
  {
    order % 2 == 0 && order % 4 != 0
  }

  /** `[item for sublist in zip(g, zeros(n)) for item in sublist]`: g and zeros
      alternate, zip stopping at the shorter of g and n. */
  function Interleaved(g: seq<real>, n: nat): (r: seq<real>)
    ensures |r| == 2 * (if |g| < n then |g| else n)
    ensures forall i :: 0 <= i < |r| / 2 ==> r[2 * i] == g[i] && r[2 * i + 1] == 0.0
    decreases n
  {
    if |g| == 0 || n == 0 then [] else [g[0], 0.0] + Interleaved(g[1..], n - 1)
  }

  /** `h = interleave(g, zeros(order//2+1))[:-1]; h[order//2] = 1.0; h = h/2`.
      `np.zeros` of a negative size raises ValueError; the centre write raises
      IndexError when order//2 is not an index of the list. */
  function HalfBandTaps(g: seq<real>, order: int): (r: Result<seq<real>>)
    ensures order / 2 + 1 < 0 ==> r == Err(ValueError)
    ensures order / 2 + 1 >= 0 ==>
      (r.Ok? <==> IndexOk(Slice(Interleaved(g, order / 2 + 1), 0, -1), order / 2))
    ensures r.Err? && order / 2 + 1 >= 0 ==> r.error == IndexError
  {
    if order / 2 + 1 < 0 then Err(ValueError)
    else
      var h := Slice(Interleaved(g, order / 2 + 1), 0, -1);
      if !IndexOk(h, order / 2) then Err(IndexError)
      else Ok(Halved(Assign(h, order / 2, 1.0)))
  }

  /** `np.array(h)/2`. */
  function Halved(s: seq<real>): (r: seq<real>)
    ensures |r| == |s|
    ensures forall i :: 0 <= i < |s| ==> r[i] * 2.0 == s[i]
  {
    seq(|s|, i requires 0 <= i < |s| => s[i] / 2.0)
  }

  /** With a well-formed order N >= 2 and the N/2+1 taps remez was asked for, the
      half-band filter has N+1 taps: g/2 at the even positions, 1/2 at the centre
      N/2 (which is odd), and 0 at every other odd position. */
  lemma HalfBandTapsShape(g: seq<real>, order: int)
    requires OrderOk(order) && order >= 2 && |g| == order / 2 + 1
    ensures HalfBandTaps(g, order).Ok?
    ensures |HalfBandTaps(g, order).value| == order + 1
    ensures (order / 2) % 2 == 1
    ensures forall i :: 0 <= i <= order / 2 ==> HalfBandTaps(g, order).value[2 * i] == g[i] / 2.0
    ensures HalfBandTaps(g, order).value[order / 2] == 0.5
    ensures forall k :: 0 <= k <= order && k % 2 == 1 && k != order / 2 ==>
      HalfBandTaps(g, order).value[k] == 0.0
  {
    OrderShape(order);
    HalfBandTapsShapeAt(g, order, order / 2, order / 4);
  }

  /** HalfBandTapsShape with the centre c = order/2 = 2q+1 named, so that order == 2c. */
  lemma HalfBandTapsShapeAt(g: seq<real>, order: int, c: int, q: int)
    requires c == 2 * q + 1 && c >= 1 && order == 2 * c && c == order / 2 && |g| == c + 1
    ensures HalfBandTaps(g, order).Ok?
    ensures |HalfBandTaps(g, order).value| == order + 1
    ensures forall i :: 0 <= i <= c ==> HalfBandTaps(g, order).value[2 * i] == g[i] / 2.0
    ensures HalfBandTaps(g, order).value[c] == 0.5
    ensures forall k :: 0 <= k <= order && k % 2 == 1 && k != c ==>
      HalfBandTaps(g, order).value[k] == 0.0
    ensures HalfBandShaped(HalfBandTaps(g, order).value, g, c)
  {
    var hs := CentreWritten(g, order, c);
    WrittenShape(g, order, c, q, hs);
    var r := HalfBandTaps(g, order).value;
    assert r == Halved(hs);
    forall i | 0 <= i <= c
      ensures r[2 * i] == g[i] / 2.0
    {
      assert r[2 * i] * 2.0 == hs[2 * i];
    }
    forall k | 0 <= k <= order && k % 2 == 1 && k != c
      ensures r[k] == 0.0
    {
      assert r[k] * 2.0 == hs[k];
    }
  }

  /** The taps before halving: g at the even positions, and 0 at the odd positions
      other than the centre c. */
  lemma WrittenShape(g: seq<real>, order: int, c: int, q: int, hs: seq<real>)
    requires c == 2 * q + 1 && order == 2 * c && |g| == c + 1 && |hs| == order + 1
    requires forall k :: 0 <= k <= order && k != c ==> hs[k] == Interleaved(g, c + 1)[k]
    ensures forall i :: 0 <= i <= c ==> hs[2 * i] == g[i]
    ensures forall k :: 0 <= k <= order && k % 2 == 1 && k != c ==> hs[k] == 0.0
  {
    WrittenEven(g, order, c, q, hs);
    WrittenOdd(g, order, c, hs);
  }

  lemma WrittenEven(g: seq<real>, order: int, c: int, q: int, hs: seq<real>)
    requires c == 2 * q + 1 && order == 2 * c && |g| == c + 1 && |hs| == order + 1
    requires forall k :: 0 <= k <= order && k != c ==> hs[k] == Interleaved(g, c + 1)[k]
    ensures forall i :: 0 <= i <= c ==> hs[2 * i] == g[i]
  {
    forall i | 0 <= i <= c
      ensures hs[2 * i] == g[i]
    {
      assert 2 * i != c by {
        NotOdd(i, q);
      }
      InterleavedAt(g, c + 1, i);
    }
  }

  lemma WrittenOdd(g: seq<real>, order: int, c: int, hs: seq<real>)
    requires order == 2 * c && |g| == c + 1 && |hs| == order + 1
    requires forall k :: 0 <= k <= order && k != c ==> hs[k] == Interleaved(g, c + 1)[k]
    ensures forall k :: 0 <= k <= order && k % 2 == 1 && k != c ==> hs[k] == 0.0
  {
    forall k | 0 <= k <= order && k % 2 == 1 && k != c
      ensures hs[k] == 0.0
    {
      var i := k / 2;
      assert k == 2 * i + 1 by {
        DivModSplit(k, 2);
      }
      InterleavedAt(g, c + 1, i);
    }
  }

  lemma NotOdd(i: int, q: int)
    ensures 2 * i != 2 * q + 1
  {
    if i <= q {
      assert 2 * i <= 2 * q;
    } else {
      assert 2 * i >= 2 * q + 2;
    }
  }

  /** The i-th pair of the interleave is g[i] followed by 0. */
  lemma InterleavedAt(g: seq<real>, n: nat, i: int)
    requires 0 <= i < n && i < |g|
    ensures 2 * i + 1 < |Interleaved(g, n)|
    ensures Interleaved(g, n)[2 * i] == g[i] && Interleaved(g, n)[2 * i + 1] == 0.0
  {
    var m := if |g| < n then |g| else n;
    assert |Interleaved(g, n)| / 2 == m;
  }

  /** A well-formed order is 2 mod 4, so its centre order/2 is odd. */
  lemma OrderShape(order: int)
    requires OrderOk(order)
    ensures order == 4 * (order / 4) + 2
    ensures order / 2 == 2 * (order / 4) + 1 && (order / 2) % 2 == 1
  {
    var q := order / 4;
    DivModSplit(order, 4);
    var r := order % 4;
    if r == 1 {
      DivModUnique(order, 2 * q, 1, 2);
    } else if r == 3 {
      DivModUnique(order, 2 * q + 1, 1, 2);
    }
    assert r == 2;
    DivModUnique(order, 2 * q + 1, 0, 2);
    DivModUnique(2 * q + 1, q, 1, 2);
  }

  /** The list before halving: the interleave without its last element, with 1.0
      written at the odd centre c = order/2. */
  lemma CentreWritten(g: seq<real>, order: int, c: int) returns (hs: seq<real>)
    requires c >= 1 && order == 2 * c && c == order / 2 && |g| == c + 1
    ensures |hs| == order + 1 && hs[c] == 1.0
    ensures forall k :: 0 <= k <= order && k != c ==> hs[k] == Interleaved(g, c + 1)[k]
    ensures HalfBandTaps(g, order) == Ok(Halved(hs))
  {
    var full := Interleaved(g, c + 1);
    assert |full| == order + 2;
    var h := Slice(full, 0, -1);
    assert h == full[..order + 1];
    hs := Assign(h, c, 1.0);
  }

  /** A linear-phase (palindromic) g gives a palindromic half-band filter. */
  lemma HalfBandTapsPalindromic(g: seq<real>, order: int)
    requires OrderOk(order) && order >= 2 && |g| == order / 2 + 1
    requires Palindromic(g)
    ensures HalfBandTaps(g, order).Ok? && Palindromic(HalfBandTaps(g, order).value)
  {
    OrderShape(order);
    HalfBandTapsShapeAt(g, order, order / 2, order / 4);
    ShapePalindromic(HalfBandTaps(g, order).value, g, order / 2);
  }

  /** The shape HalfBandTapsShape states, on a plain sequence h of 2c+1 taps. */
  predicate HalfBandShaped(h: seq<real>, g: seq<real>, c: int)
  {
    c >= 1 && |h| == 2 * c + 1 && |g| == c + 1 && h[c] == 0.5 &&
    (forall i :: 0 <= i <= c ==> h[2 * i] == g[i] / 2.0) &&
    (forall k :: 0 <= k <= 2 * c && k % 2 == 1 && k != c ==> h[k] == 0.0)
  }

  lemma ShapePalindromic(h: seq<real>, g: seq<real>, c: int)
    requires HalfBandShaped(h, g, c) && Palindromic(g)
    ensures Palindromic(h)
  {
    forall k | 0 <= k < |h|
      ensures Reverse(h)[k] == h[k]
    {
      MirroredTap(h, g, c, k);
    }
  }

  /** Tap k and its mirror 2c - k about the centre are equal. */
  lemma MirroredTap(h: seq<real>, g: seq<real>, c: int, k: int)
    requires HalfBandShaped(h, g, c) && Palindromic(g) && 0 <= k <= 2 * c
    ensures h[k] == h[2 * c - k]
  {
    var i := k / 2;
    assert k == 2 * i + k % 2 && 0 <= k % 2 < 2 by {
      DivModSplit(k, 2);
    }
    if k == c {
    } else if k % 2 == 0 {
      assert 2 * c - k == 2 * (c - i);
      MirroredEvenTap(h, g, c, i, c - i);
    } else {
      assert 2 * c - k == 2 * (c - i - 1) + 1;
      DivModUnique(2 * c - k, c - i - 1, 1, 2);
    }
  }

  lemma MirroredEvenTap(h: seq<real>, g: seq<real>, c: int, i: int, j: int)
    requires HalfBandShaped(h, g, c) && Palindromic(g) && 0 <= i <= c && i + j == c
    ensures h[2 * i] == h[2 * j]
  {
    assert Reverse(g)[i] == g[j];
  }

  /** The remez call for g: N/2+1 taps, bands [0, 2*Fpb/Fs, 0.5, 0.5], gains [1, 0],
      weights [1, 1]. */
  function HalfBandRequest(fs: real, fpb: real, order: int): (q: RemezRequest)
    requires fs != 0.0
    ensures q.numTaps == order / 2 + 1 && |q.bands| == 4 && q.desired == [1.0, 0.0]
    ensures q.bands[1] * fs == 2.0 * fpb && q.weights == Given([1.0, 1.0])
  {
    RemezRequest(order / 2 + 1, [0.0, 2.0 * fpb / fs, 0.5, 0.5], [1.0, 0.0], Given([1.0, 1.0]))
  }

  /** `half_band_calc_filter(Fs, Fpb, order, H_nr_points, coef_bits)`. The three asserts
      come first, then `2*Fpb/Fs`; the stopband edge is Fsb = Fs/2 - Fpb. */
  function HalfBandCalcFilter(num: Numerics, fs: real, fpb: real, order: int, nPoints: int,
                              coefBits: Option<nat>): (r: Result<Design>)
    ensures !(fpb < fs / 4.0) || !OrderOk(order) ==> r == Err(AssertionError)
    ensures r.Ok? ==> fpb < fs / 4.0 && OrderOk(order) && fs != 0.0
    ensures r.Ok? ==> HalfBandTaps(num.remez(HalfBandRequest(fs, fpb, order)), order).Ok?
    ensures r.Ok? ==>
      Taps(HalfBandTaps(num.remez(HalfBandRequest(fs, fpb, order)), order).value, coefBits) == Ok(r.value.h)
    ensures r.Ok? ==> r.value.mag == num.freqzMag(r.value.h, nPoints)
    ensures r.Ok? ==> MeasureBands(r.value.mag, fs, fpb, fs / 2.0 - fpb) == Ok(r.value.m)
  {
    if !(fpb < fs / 4.0) then Err(AssertionError)
    else if order % 2 != 0 then Err(AssertionError)
    else if order % 4 == 0 then Err(AssertionError)
    else if fs == 0.0 then Err(ZeroDivisionError)
    else
      match HalfBandTaps(num.remez(HalfBandRequest(fs, fpb, order)), order)
      case Err(e) => Err(e)
      case Ok(h0) =>
        match Taps(h0, coefBits)
        case Err(e) => Err(e)
        case Ok(h) =>
          var mag := num.freqzMag(h, nPoints);
          match MeasureBands(mag, fs, fpb, fs / 2.0 - fpb)
          case Err(e) => Err(e)
          case Ok(m) => Ok(Design(h, mag, m))
  }

  /** One iteration of `half_band_find_optimal_N`, which designs with the default
      512 response points and no quantisation. */
  function HalfBandCheck(num: Numerics, fs: real, fpb: real, apb: real, asb: real): int -> Result<bool>
  {
    n => match HalfBandCalcFilter(num, fs, fpb, n, 512, None)
         case Err(e) => Err(e)
         case Ok(d) => Ok(Meets(num, d.m, apb, asb))
  }

  /** Every order `range(nmin, upto, 4)` visits is designed without an exception
      and misses the spec. */
  ghost predicate HalfBandFailsBelow(num: Numerics, fs: real, fpb: real, apb: real, asb: real, nmin: int, upto: int)
  {
    forall k :: OrderSearch.Candidate(k, nmin, upto, 4) ==>
      HalfBandCalcFilter(num, fs, fpb, k, 512, None).Ok? &&
      !Meets(num, HalfBandCalcFilter(num, fs, fpb, k, 512, None).value.m, apb, asb)
  }

  /** From an Nmin = 2 mod 4 (the default is 2), `range(Nmin, Nmax, 4)` visits only
      orders that pass both order asserts. */
  lemma CandidatesPassOrderAsserts(nmin: int, nmax: int, n: int)
    requires nmin % 4 == 2 && OrderSearch.Candidate(n, nmin, nmax, 4)
    ensures OrderOk(n)
  {
    var j := (n - nmin) / 4;
    var q := nmin / 4;
    assert n - nmin == j * 4 by {
      DivModSplit(n - nmin, 4);
    }
    assert nmin == q * 4 + 2 by {
      DivModSplit(nmin, 4);
    }
    DivModUnique(n, q + j, 2, 4);
    DivModUnique(n, 2 * (q + j) + 1, 0, 2);
  }

  /** `half_band_find_optimal_N(Fs, Fpb, Apb, Asb, Nmin, Nmax)`: the first order in
      Nmin, Nmin+4, ... below Nmax whose design meets the spec after every earlier
      one was designed and rejected; None if none does; the first exception
      otherwise. Fpb >= Fs/4 fails the first design's assert. */
  method HalfBandFindOptimalN(num: Numerics, fs: real, fpb: real, apb: real, asb: real,
                              nmin: int, nmax: int) returns (r: Result<Option<int>>)
    ensures r.Ok? && r.value.Some? ==>
      var n := r.value.value;
      OrderSearch.Candidate(n, nmin, nmax, 4) &&
      HalfBandCalcFilter(num, fs, fpb, n, 512, None).Ok? &&
      Meets(num, HalfBandCalcFilter(num, fs, fpb, n, 512, None).value.m, apb, asb)
    ensures r.Ok? ==> HalfBandFailsBelow(num, fs, fpb, apb, asb, nmin, if r.value.Some? then r.value.value else nmax)
    ensures r == Ok(None) <==> HalfBandFailsBelow(num, fs, fpb, apb, asb, nmin, nmax)
    ensures r.Err? ==>
      exists n :: OrderSearch.Candidate(n, nmin, nmax, 4) && HalfBandCalcFilter(num, fs, fpb, n, 512, None) == Err(r.error)
        && HalfBandFailsBelow(num, fs, fpb, apb, asb, nmin, n)
    ensures !(fpb < fs / 4.0) && nmin < nmax ==> r == Err(AssertionError)
  {
    var check := HalfBandCheck(num, fs, fpb, apb, asb);
    r := OrderSearch.Search(check, nmin, nmax, 4);
    if r.Ok? {
      var upto := if r.value.Some? then r.value.value else nmax;
      forall k | OrderSearch.Candidate(k, nmin, upto, 4)
        ensures HalfBandCalcFilter(num, fs, fpb, k, 512, None).Ok?
        ensures !Meets(num, HalfBandCalcFilter(num, fs, fpb, k, 512, None).value.m, apb, asb)
      {
        assert check(k) == Ok(false);
      }
    }
    if r.Err? {
      ghost var n :| OrderSearch.Candidate(n, nmin, nmax, 4) && check(n) == Err(r.error) && OrderSearch.FailsBefore(check, nmin, n, 4);
      forall k | OrderSearch.Candidate(k, nmin, n, 4)
        ensures HalfBandCalcFilter(num, fs, fpb, k, 512, None).Ok?
        ensures !Meets(num, HalfBandCalcFilter(num, fs, fpb, k, 512, None).value.m, apb, asb)
      {
        assert check(k) == Ok(false);
      }
    }
    if !(fpb < fs / 4.0) && nmin < nmax {
      assert OrderSearch.Candidate(nmin, nmin, nmax, 4);
      assert check(nmin) == Err(AssertionError);
    }
  }
}
