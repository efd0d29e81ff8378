/** The linear order searches of the filter library: `for N in range(Nmin, Nmax, step)`,
    design an order-N filter, return the first N whose design meets the attenuation
    spec, or None when the range is exhausted. Designing a filter can raise; the
    exception then leaves the loop, which the model expresses by `check` returning
    an `Err`. */
module OrderSearch {
  import opened Results
  import opened Arith

  /** N is visited by `range(nmin, nmax, step)`. */
  predicate Candidate(n: int, nmin: int, nmax: int, step: int)
    requires step >= 1
  {
    nmin <= n < nmax && (n - nmin) % step == 0
  }

  /** Every candidate below `upto` was designed without an exception and failed the spec. */
  ghost predicate FailsBefore(check: int -> Result<bool>, nmin: int, upto: int, step: int)
    requires step >= 1
  {
    forall k :: Candidate(k, nmin, upto, step) ==> check(k) == Ok(false)
  }

  /** The loop with early return. `check(N)` is `Ok(true)` when the order-N design
      meets the spec, `Ok(false)` when it does not, and `Err(e)` when designing it
      raises e. */
  method Search(check: int -> Result<bool>, nmin: int, nmax: int, step: int)
    returns (r: Result<Option<int>>)
    requires step >= 1
    ensures r.Ok? && r.value.Some? ==>
      Candidate(r.value.value, nmin, nmax, step) && check(r.value.value) == Ok(true) &&
      FailsBefore(check, nmin, r.value.value, step)
    ensures r == Ok(None) ==> FailsBefore(check, nmin, nmax, step)
    ensures r.Err? ==>
      exists n :: Candidate(n, nmin, nmax, step) && check(n) == Err(r.error) && FailsBefore(check, nmin, n, step)
  {
    var n := nmin;
    ghost var j := 0;
    DivModUnique(0, 0, 0, step);
    while n < nmax
      invariant nmin <= n && j >= 0 && n == nmin + j * step
      invariant (n - nmin) % step == 0
      invariant FailsBefore(check, nmin, n, step)
      decreases nmax - n
    {
      var verdict := check(n);
      if verdict.Err? {
        return Err(verdict.error);
      }
      if verdict.value {
        return Ok(Some(n));
      }
      NextCandidate(check, nmin, n, step);
      n, j := n + step, j + 1;
      DivModUnique(n - nmin, j, 0, step);
    }
    Exhausted(check, nmin, n, nmax, step);
    return Ok(None);
  }

  /** Failing at candidate n extends the failing prefix by one step. */
  lemma NextCandidate(check: int -> Result<bool>, nmin: int, n: int, step: int)
    requires step >= 1 && nmin <= n && (n - nmin) % step == 0
    requires FailsBefore(check, nmin, n, step) && check(n) == Ok(false)
    ensures FailsBefore(check, nmin, n + step, step)
  {
    forall k | Candidate(k, nmin, n + step, step)
      ensures check(k) == Ok(false)
    {
      if k >= n {
        CandidatesAreSpaced(nmin, n, k, step);
      }
    }
  }

  /** Two candidates closer together than one step are the same. */
  lemma CandidatesAreSpaced(nmin: int, n: int, k: int, step: int)
    requires step >= 1
    requires (n - nmin) % step == 0 && (k - nmin) % step == 0
    requires n <= k < n + step
    ensures k == n
  {
    var a := (n - nmin) / step;
    var b := (k - nmin) / step;
    assert k - n == (b - a) * step;
    if b > a {
      MulAtLeast(b - a, step);
    } else if b < a {
      MulAtLeast(a - b, step);
    }
  }

  /** Leaving the loop at n >= nmax means every candidate below nmax failed. */
  lemma Exhausted(check: int -> Result<bool>, nmin: int, n: int, nmax: int, step: int)
    requires step >= 1 && n >= nmax
    requires FailsBefore(check, nmin, n, step)
    ensures FailsBefore(check, nmin, nmax, step)
  {
  }

  /** The search outcome is pinned down by `check` alone: a first passing candidate
      after only failures is what Search returns. */
  lemma FirstPassIsUnique(check: int -> Result<bool>, nmin: int, nmax: int, step: int, n1: int, n2: int)
    requires step >= 1
    requires Candidate(n1, nmin, nmax, step) && check(n1).Ok? && check(n1).value
    requires Candidate(n2, nmin, nmax, step) && check(n2).Ok? && check(n2).value
    requires FailsBefore(check, nmin, n1, step) && FailsBefore(check, nmin, n2, step)
    ensures n1 == n2
  {
  }
}
