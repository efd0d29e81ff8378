/** The complex samples numpy holds for a frequency response (`signal.freqz`
    returns them), with the element-wise array operations the scripts apply. */
module Complex {
  import opened Results

  datatype Complex = Complex(re: real, im: real)

  const Zero: Complex := Complex(0.0, 0.0)

  function Add(a: Complex, b: Complex): Complex
  {
    Complex(a.re + b.re, a.im + b.im)
  }

  function Mul(a: Complex, b: Complex): Complex
  {
    Complex(a.re * b.re - a.im * b.im, a.re * b.im + a.im * b.re)
  }

  function Scale(k: real, a: Complex): Complex
  {
    Complex(k * a.re, k * a.im)
  }

  /** numpy `a + b` on two arrays of one length. */
  function AddAll(a: seq<Complex>, b: seq<Complex>): (r: seq<Complex>)
    requires |a| == |b|
    ensures |r| == |a|
    ensures forall k :: 0 <= k < |a| ==> r[k] == Add(a[k], b[k])
  {
    seq(|a|, k requires 0 <= k < |a| => Add(a[k], b[k]))
  }

  /** numpy `a * b`: element by element when the lengths agree, a length-1 operand
      broadcast against the other, and a ValueError for any other pair of shapes. */
  function Times(a: seq<Complex>, b: seq<Complex>): (r: Result<seq<Complex>>)
    ensures r.Ok? <==> |a| == |b| || |a| == 1 || |b| == 1
    ensures r.Err? ==> r.error == ValueError
    ensures |a| == |b| ==>
      |r.value| == |a| && forall k :: 0 <= k < |a| ==> r.value[k] == Mul(a[k], b[k])
    ensures |a| == 1 ==> |r.value| == |b| && forall k :: 0 <= k < |b| ==> r.value[k] == Mul(a[0], b[k])
    ensures |b| == 1 ==> |r.value| == |a| && forall k :: 0 <= k < |a| ==> r.value[k] == Mul(a[k], b[0])
  {
    if |a| == |b| then Ok(seq(|a|, k requires 0 <= k < |a| => Mul(a[k], b[k])))
    else if |a| == 1 then Ok(seq(|b|, k requires 0 <= k < |b| => Mul(a[0], b[k])))
    else if |b| == 1 then Ok(seq(|a|, k requires 0 <= k < |a| => Mul(a[k], b[0])))
    else Err(ValueError)
  }
}
