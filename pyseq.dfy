/** Python and numpy sequence semantics used by the scripts: slice bounds that wrap
    negative indices and clamp, integer indexing from either end, extended slices
    `s[::k]`, and the reductions `sum`, `max`, `min`. */
module PySeq {
  import opened Arith

  /** Where a slice bound `i` lands in a sequence of length n: a negative bound
      counts from the end, and the result is clamped to [0, n]. */
  function SliceBound(i: int, n: nat): (b: nat)
    ensures b <= n
    ensures 0 <= i <= n ==> b == i
    ensures i > n ==> b == n
    ensures -(n as int) <= i < 0 ==> b == i + n
    ensures i < -(n as int) ==> b == 0
  {
    if i < 0 then (if i + n < 0 then 0 else i + n) else if i > n then n else i
  }

  /** `s[lo:hi]`: empty when the normalised bounds are out of order. */
  function Slice<T>(s: seq<T>, lo: int, hi: int): (r: seq<T>)
    ensures var a, b := SliceBound(lo, |s|), SliceBound(hi, |s|);
      |r| == (if a < b then b - a else 0) && forall i :: 0 <= i < |r| ==> r[i] == s[a + i]
  {
    var a, b := SliceBound(lo, |s|), SliceBound(hi, |s|);
    if a < b then s[a..b] else []
  }

  /** `s[i]` for an integer i: valid for -|s| <= i < |s|, negative i counting from the end. */
  predicate IndexOk<T>(s: seq<T>, i: int)
  {
    -|s| <= i < |s|
  }

  function Index<T>(s: seq<T>, i: int): T
    requires IndexOk(s, i)
  {
    if i < 0 then s[|s| + i] else s[i]
  }

  /** `s[i] = v` for an integer i, negative i counting from the end. */
  function Assign<T>(s: seq<T>, i: int, v: T): (r: seq<T>)
    requires IndexOk(s, i)
    ensures |r| == |s|
    ensures r[if i < 0 then |s| + i else i] == v
    ensures forall k :: 0 <= k < |s| && k != (if i < 0 then |s| + i else i) ==> r[k] == s[k]
  {
    s[if i < 0 then |s| + i else i := v]
  }

  /** `s[::step]` for a positive step: every step-th element, starting with the first. */
  function Stride<T>(s: seq<T>, step: int): (r: seq<T>)
    requires step >= 1
    ensures |r| == (|s| + step - 1) / step
    ensures forall i :: 0 <= i < |r| ==> i * step < |s| && r[i] == s[i * step]
  {
    var n := (|s| + step - 1) / step;
    StrideIndexInRange(|s|, step, n);
    seq(n, i requires 0 <= i < n => s[i * step])
  }

  lemma StrideIndexInRange(len: nat, step: int, n: int)
    requires step >= 1 && n == (len + step - 1) / step
    ensures forall i :: 0 <= i < n ==> i * step < len
  {
    forall i | 0 <= i < n ensures i * step < len {
      // i <= n - 1 and (n - 1) * step < len, the latter by the definition of n as a ceiling
      assert n * step <= len + step - 1;
      MulMonotone(i, n - 1, step);
    }
  }

  function Reverse<T>(s: seq<T>): (r: seq<T>)
    ensures |r| == |s|
    ensures forall i :: 0 <= i < |s| ==> r[i] == s[|s| - 1 - i]
  {
    seq(|s|, i requires 0 <= i < |s| => s[|s| - 1 - i])
  }

  predicate Palindromic<T(==)>(s: seq<T>)
  {
    Reverse(s) == s
  }

  function Sum(s: seq<real>): real
  {
    if s == [] then 0.0 else s[0] + Sum(s[1..])
  }

  lemma {:induction false} SumConcat(a: seq<real>, b: seq<real>)
    ensures Sum(a + b) == Sum(a) + Sum(b)
  {
    if a == [] {
      assert a + b == b;
    } else {
      assert (a + b)[1..] == a[1..] + b;
      SumConcat(a[1..], b);
    }
  }

  /** `max(s)` (Python builtin or numpy): the largest element. */
  function SeqMax(s: seq<real>): (m: real)
    requires |s| > 0
    ensures m in s
    ensures forall i :: 0 <= i < |s| ==> s[i] <= m
  {
    if |s| == 1 then s[0]
    else
      var rest := SeqMax(s[1..]);
      if s[0] >= rest then s[0] else rest
  }

  /** `min(s)`: the smallest element. */
  function SeqMin(s: seq<real>): (m: real)
    requires |s| > 0
    ensures m in s
    ensures forall i :: 0 <= i < |s| ==> m <= s[i]
  {
    if |s| == 1 then s[0]
    else
      var rest := SeqMin(s[1..]);
      if s[0] <= rest then s[0] else rest
  }
}
