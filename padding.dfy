/** `pad_zeros(h, N)`: the impulse response h written into the front of a fresh
    all-zero array of length N. The same function appears in every copy of the
    filter library. */
module Padding {
  import opened Results

  /** The padded response: h followed by zeros up to length n. */
  function Padded(h: seq<real>, n: nat): (r: seq<real>)
    requires |h| <= n
    ensures |r| == n
    ensures forall i :: 0 <= i < |h| ==> r[i] == h[i]
    ensures forall i :: |h| <= i < n ==> r[i] == 0.0
  {
    h + seq(n - |h|, _ => 0.0)
  }

  /** Allocates `np.zeros(N)` and assigns h to its slice `[0:len(h)]`, which has
      min(len(h), N) places. A negative N is a numpy ValueError, and so is an h longer
      than N, except that a single sample broadcasts into the empty slice of
      `np.zeros(0)`, which leaves the empty array. */
  method PadZeros(h: seq<real>, n: int) returns (r: Result<seq<real>>)
    ensures r.Ok? <==> 0 <= n && (|h| <= n || |h| == 1)
    ensures r.Err? ==> r.error == ValueError
    ensures r.Ok? ==> r.value == if |h| <= n then Padded(h, n) else []
  {
    if n < 0 {
      return Err(ValueError);
    }
    var padded := new real[n](_ => 0.0);
    if |h| > n {
      if |h| == 1 {
        return Ok(padded[..]);
      }
      return Err(ValueError);
    }
    var i := 0;
    while i < |h|
      invariant 0 <= i <= |h|
      invariant forall k :: 0 <= k < i ==> padded[k] == h[k]
      invariant forall k :: i <= k < n ==> padded[k] == 0.0
    {
      padded[i] := h[i];
      i := i + 1;
    }
    r := Ok(padded[..]);
    assert padded[..] == Padded(h, n);
  }
}
