/** `cic_filter(decimation, order, differential_delay)`: the impulse response of a
    CIC decimator, built as a moving-average box of decimation*differential_delay
    taps (each 1/length) convolved with itself order-1 times by `np.convolve`. */
module Cic {
  import opened Results
  import opened PySeq

  /** `c * s`, element by element. */
  function Scale(c: real, s: seq<real>): (r: seq<real>)
    ensures |r| == |s|
    ensures forall i :: 0 <= i < |s| ==> r[i] == c * s[i]
  {
    seq(|s|, i requires 0 <= i < |s| => c * s[i])
  }

  function Zeros(n: nat): (r: seq<real>)
    ensures |r| == n
    ensures forall i :: 0 <= i < n ==> r[i] == 0.0
  {
    seq(n, _ => 0.0)
  }

  /** Element-wise sum of two sequences of one length. */
  function Add(a: seq<real>, b: seq<real>): (r: seq<real>)
    requires |a| == |b|
    ensures |r| == |a|
    ensures forall i :: 0 <= i < |a| ==> r[i] == a[i] + b[i]
  {
    seq(|a|, i requires 0 <= i < |a| => a[i] + b[i])
  }

  /** `np.convolve(a, b)` (full mode) as polynomial multiplication: a[0]*b, plus
      the convolution of the rest of a shifted one place. */
  function Conv(a: seq<real>, b: seq<real>): (r: seq<real>)
    requires |a| > 0 && |b| > 0
    ensures |r| == |a| + |b| - 1
    decreases |a|
  {
    if |a| == 1 then Scale(a[0], b)
    else Add(Scale(a[0], b) + Zeros(|a| - 1), [0.0] + Conv(a[1..], b))
  }

  /** Appending x to a adds x*b, shifted by |a|, to the convolution. */
  lemma {:induction false} ConvSnoc(a: seq<real>, x: real, b: seq<real>)
    requires |a| > 0 && |b| > 0
    ensures Conv(a + [x], b) == Add(Conv(a, b) + [0.0], Zeros(|a|) + Scale(x, b))
    decreases |a|
  {
    assert (a + [x])[0] == a[0] && (a + [x])[1..] == a[1..] + [x];
    if |a| == 1 {
      SnocBase(a[0], x, b);
    } else {
      ConvSnoc(a[1..], x, b);
      SnocStep(a[0], x, b, Conv(a[1..], b), |a| - 1);
    }
  }

  lemma SnocBase(a0: real, x: real, b: seq<real>)
    ensures Add(Scale(a0, b) + Zeros(1), [0.0] + Scale(x, b))
         == Add(Scale(a0, b) + [0.0], Zeros(1) + Scale(x, b))
  {
    assert Zeros(1) == [0.0];
  }

  /** The inductive step of ConvSnoc, over an arbitrary tail convolution. */
  lemma SnocStep(a0: real, x: real, b: seq<real>, tail: seq<real>, m: nat)
    requires |b| > 0 && m >= 1 && |tail| == m + |b| - 1
    ensures Add(Scale(a0, b) + Zeros(m + 1), [0.0] + Add(tail + [0.0], Zeros(m) + Scale(x, b)))
         == Add(Add(Scale(a0, b) + Zeros(m), [0.0] + tail) + [0.0], Zeros(m + 1) + Scale(x, b))
  {
    var lhs := Add(Scale(a0, b) + Zeros(m + 1), [0.0] + Add(tail + [0.0], Zeros(m) + Scale(x, b)));
    var rhs := Add(Add(Scale(a0, b) + Zeros(m), [0.0] + tail) + [0.0], Zeros(m + 1) + Scale(x, b));
    forall n | 0 <= n < |lhs|
      ensures lhs[n] == rhs[n]
    {
      var s0 := if n < |b| then a0 * b[n] else 0.0;
      var t := if 1 <= n <= |tail| then tail[n - 1] else 0.0;
      var sx := if n >= m + 1 then x * b[n - m - 1] else 0.0;
      assert lhs[n] == s0 + (t + sx);
      assert rhs[n] == (s0 + t) + sx;
    }
  }

  /** Reversing a convolution convolves the reversals. */
  lemma {:induction false} ConvReverse(a: seq<real>, b: seq<real>)
    requires |a| > 0 && |b| > 0
    ensures Reverse(Conv(a, b)) == Conv(Reverse(a), Reverse(b))
    decreases |a|
  {
    if |a| == 1 {
      assert Reverse(a) == a;
      ReverseScale(a[0], b);
    } else {
      var a', m := a[1..], |a| - 1;
      var tail := Conv(a', b);
      ConvReverse(a', b);
      assert Reverse(a) == Reverse(a') + [a[0]];
      ConvSnoc(Reverse(a'), a[0], Reverse(b));
      assert Conv(Reverse(a), Reverse(b)) == Add(Reverse(tail) + [0.0], Zeros(m) + Scale(a[0], Reverse(b)));
      assert Conv(a, b) == Add(Scale(a[0], b) + Zeros(m), [0.0] + tail);
      ReverseStep(a[0], b, tail, m);
    }
  }

  lemma ReverseScale(c: real, b: seq<real>)
    ensures Reverse(Scale(c, b)) == Scale(c, Reverse(b))
  {
    forall n | 0 <= n < |b|
      ensures Reverse(Scale(c, b))[n] == Scale(c, Reverse(b))[n]
    {
      assert Reverse(Scale(c, b))[n] == Scale(c, b)[|b| - 1 - n] == c * b[|b| - 1 - n];
      assert Reverse(b)[n] == b[|b| - 1 - n];
    }
  }

  /** The inductive step of ConvReverse, over an arbitrary tail convolution. */
  lemma ReverseStep(a0: real, b: seq<real>, tail: seq<real>, m: nat)
    requires |b| > 0 && m >= 1 && |tail| == m + |b| - 1
    ensures Reverse(Add(Scale(a0, b) + Zeros(m), [0.0] + tail))
         == Add(Reverse(tail) + [0.0], Zeros(m) + Scale(a0, Reverse(b)))
  {
    var c := Add(Scale(a0, b) + Zeros(m), [0.0] + tail);
    var rhs := Add(Reverse(tail) + [0.0], Zeros(m) + Scale(a0, Reverse(b)));
    forall n | 0 <= n < |c|
      ensures Reverse(c)[n] == rhs[n]
    {
      var k := |c| - 1 - n;
      var s0 := if k < |b| then a0 * b[k] else 0.0;
      var t := if 1 <= k then tail[k - 1] else 0.0;
      assert Reverse(c)[n] == c[k] == s0 + t;
      assert rhs[n] == t + s0;
    }
  }

  /** The convolution of two palindromic (linear-phase) responses is palindromic. */
  lemma ConvPalindromic(a: seq<real>, b: seq<real>)
    requires |a| > 0 && |b| > 0 && Palindromic(a) && Palindromic(b)
    ensures Palindromic(Conv(a, b))
  {
    ConvReverse(a, b);
  }

  lemma {:induction false} SumAdd(a: seq<real>, b: seq<real>)
    requires |a| == |b|
    ensures Sum(Add(a, b)) == Sum(a) + Sum(b)
  {
    if |a| > 0 {
      assert Add(a, b)[1..] == Add(a[1..], b[1..]);
      SumAdd(a[1..], b[1..]);
    }
  }

  lemma {:induction false} SumScale(c: real, s: seq<real>)
    ensures Sum(Scale(c, s)) == c * Sum(s)
  {
    if |s| > 0 {
      forall j | 0 <= j < |s| - 1
        ensures Scale(c, s)[1..][j] == Scale(c, s[1..])[j]
      {
        assert s[1..][j] == s[j + 1];
      }
      assert Scale(c, s)[1..] == Scale(c, s[1..]);
      SumScale(c, s[1..]);
    }
  }

  lemma {:induction false} SumZeros(n: nat)
    ensures Sum(Zeros(n)) == 0.0
  {
    if n > 0 {
      assert Zeros(n)[1..] == Zeros(n - 1);
      SumZeros(n - 1);
    }
  }

  /** Convolution multiplies the tap sums (the DC gains). */
  lemma {:induction false} SumConv(a: seq<real>, b: seq<real>)
    requires |a| > 0 && |b| > 0
    ensures Sum(Conv(a, b)) == Sum(a) * Sum(b)
    decreases |a|
  {
    if |a| == 1 {
      SumScale(a[0], b);
      assert Sum(a) == a[0] + Sum(a[1..]) && a[1..] == [];
    } else {
      SumConv(a[1..], b);
      SumStep(a[0], b, Conv(a[1..], b), |a| - 1);
      assert Sum(a) == a[0] + Sum(a[1..]);
      Distribute(a[0], Sum(a[1..]), Sum(b));
    }
  }

  lemma SumStep(a0: real, b: seq<real>, tail: seq<real>, m: nat)
    requires |tail| == m + |b| - 1 && |b| > 0
    ensures Sum(Add(Scale(a0, b) + Zeros(m), [0.0] + tail)) == a0 * Sum(b) + Sum(tail)
  {
    SumAdd(Scale(a0, b) + Zeros(m), [0.0] + tail);
    SumConcat(Scale(a0, b), Zeros(m));
    SumScale(a0, b);
    SumZeros(m);
    assert ([0.0] + tail)[1..] == tail;
  }

  lemma Distribute(x: real, y: real, z: real)
    ensures x * z + y * z == (x + y) * z
  {
  }

  /** `np.ones(L) / L`. */
  function Box(len: nat): (r: seq<real>)
    requires len > 0
    ensures |r| == len
    ensures forall i :: 0 <= i < len ==> r[i] * (len as real) == 1.0
  {
    seq(len, _ => 1.0 / (len as real))
  }

  lemma BoxPalindromic(len: nat)
    requires len > 0
    ensures Palindromic(Box(len))
  {
  }

  lemma {:induction false} BoxSum(len: nat)
    requires len > 0
    ensures Sum(Box(len)) == 1.0
  {
    ConstantSum(1.0 / (len as real), len);
  }

  lemma {:induction false} ConstantSum(c: real, n: nat)
    ensures Sum(seq(n, _ => c)) == (n as real) * c
  {
    if n > 0 {
      assert seq(n, _ => c)[1..] == seq(n - 1, _ => c);
      ConstantSum(c, n - 1);
    }
  }

  /** The box convolved with itself until there are k factors (k <= 1: the box). */
  function BoxPower(len: nat, k: int): (r: seq<real>)
    requires len > 0
    ensures |r| > 0
    decreases k
  {
    if k <= 1 then Box(len) else Conv(BoxPower(len, k - 1), Box(len))
  }

  /** K boxes of L taps give K*(L-1)+1 taps. */
  lemma {:induction false} BoxPowerLength(len: nat, k: int)
    requires len > 0
    ensures |BoxPower(len, k)| == (if k >= 1 then k * (len - 1) + 1 else len)
    decreases k
  {
    if k > 1 {
      BoxPowerLength(len, k - 1);
      assert (k - 1) * (len - 1) + 1 + len - 1 == k * (len - 1) + 1;
    }
  }

  /** Every power of the box has unit DC gain: its taps sum to 1. */
  lemma {:induction false} BoxPowerSum(len: nat, k: int)
    requires len > 0
    ensures Sum(BoxPower(len, k)) == 1.0
    decreases k
  {
    BoxSum(len);
    if k > 1 {
      BoxPowerSum(len, k - 1);
      var prev := BoxPower(len, k - 1);
      assert BoxPower(len, k) == Conv(prev, Box(len));
      SumConv(prev, Box(len));
    }
  }

  /** Every power of the box is symmetric about its middle. */
  lemma {:induction false} BoxPowerPalindromic(len: nat, k: int)
    requires len > 0
    ensures Palindromic(BoxPower(len, k))
    decreases k
  {
    BoxPalindromic(len);
    if k > 1 {
      BoxPowerPalindromic(len, k - 1);
      ConvPalindromic(BoxPower(len, k - 1), Box(len));
    }
  }

  /** `cic_filter(decimation, order, differential_delay)`. A negative box length is a
      numpy ValueError (`np.ones` of a negative size); a zero-length box comes back
      empty when no convolution runs and makes `np.convolve` raise ValueError when
      one does. */
  method CicFilter(decimation: int, order: int, diffDelay: int) returns (r: Result<seq<real>>)
    ensures decimation * diffDelay < 0 ==> r == Err(ValueError)
    ensures decimation * diffDelay == 0 ==> r == (if order >= 2 then Err(ValueError) else Ok([]))
    ensures decimation * diffDelay > 0 ==> r == Ok(BoxPower(decimation * diffDelay, order))
    ensures decimation * diffDelay > 0 ==>
      |r.value| == (if order >= 1 then order * (decimation * diffDelay - 1) + 1 else decimation * diffDelay)
    ensures decimation * diffDelay > 0 ==> Sum(r.value) == 1.0 && Palindromic(r.value)
  {
    var movAvgLength := decimation * diffDelay;
    if movAvgLength < 0 {
      return Err(ValueError);
    }
    if movAvgLength == 0 {
      if order - 1 >= 1 {
        return Err(ValueError);
      }
      return Ok([]);
    }
    var single := Box(movAvgLength);
    var h := single;
    var i := 0;
    while i < order - 1
      invariant 0 <= i && (i <= order - 1 || i == 0)
      invariant h == BoxPower(movAvgLength, i + 1)
      decreases order - 1 - i
    {
      h := Conv(h, single);
      i := i + 1;
    }
    assert h == BoxPower(movAvgLength, order);
    BoxPowerLength(movAvgLength, order);
    BoxPowerSum(movAvgLength, order);
    BoxPowerPalindromic(movAvgLength, order);
    return Ok(h);
  }
}
