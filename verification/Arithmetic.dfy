/** Facts about products and remainders with a variable divisor, and about sets that differ in one element. */
module Arithmetic {

  lemma MulAtLeast(d: int, n: nat)
    requires d >= 1
    ensures d * n >= n
  {
  }

  lemma SmallMultiple(d: int, n: nat)
    requires 0 <= d * n < n
    ensures d == 0
  {
  }

  lemma QuotientRest(x: int, n: nat)
    requires n > 0
    ensures x == (x / n) * n + x % n && 0 <= x % n < n
  {
  }

  // ---- remainders by counting down ----

  function Rest(x: nat, n: nat): (r: nat)
    requires n > 0
    ensures r < n && r <= x
    decreases x
  {
    if x < n then x else Rest(x - n, n)
  }

  lemma {:induction false} RestIsRemainder(x: nat, n: nat)
    requires n > 0
    ensures Rest(x, n) == x % n
    decreases x
  {
    if x < n {
      RestOfSum(0, x, n);
    } else {
      RestIsRemainder(x - n, n);
      QuotientRest(x - n, n);
      var q := (x - n) / n;
      assert x == (q + 1) * n + (x - n) % n;
      RestOfSum(q + 1, (x - n) % n, n);
    }
  }

  /** Numbers less than one divisor apart have different remainders. */
  lemma {:induction false} RestsDiffer(p: nat, q: nat, n: nat)
    requires p < q < p + n
    ensures Rest(p, n) != Rest(q, n)
    decreases p
  {
    if p >= n {
      RestsDiffer(p - n, q - n, n);
    } else if q >= n {
      assert Rest(q, n) == Rest(q - n, n) == q - n;
    }
  }

  lemma RestOfSum(k: int, r: nat, n: nat)
    requires r < n
    ensures (k * n + r) % n == r
  {
    QuotientRest(k * n + r, n);
    var q, rest := (k * n + r) / n, (k * n + r) % n;
    assert (k - q) * n == k * n - q * n;
    assert (k - q) * n == rest - r;
    if rest >= r {
      SmallMultiple(k - q, n);
    } else {
      assert (q - k) * n == r - rest;
      SmallMultiple(q - k, n);
    }
  }

  /** Counting on from anywhere reaches every remainder within one round. */
  lemma RoundReaches(start: nat, n: nat, r: nat) returns (i: nat)
    requires r < n
    ensures i < n && (start + i) % n == r
  {
    QuotientRest(start, n);
    var q, s := start / n, start % n;
    if r >= s {
      i := r - s;
      RestOfSum(q, r, n);
    } else {
      i := r - s + n;
      assert start + i == (q + 1) * n + r;
      RestOfSum(q + 1, r, n);
    }
  }

  lemma QuotientMonotone(x: nat, y: nat, n: nat)
    requires x <= y && n > 0
    ensures x / n <= y / n
  {
    QuotientRest(x, n);
    QuotientRest(y, n);
    var d := x / n - y / n;
    assert d * n == (x / n) * n - (y / n) * n;
    if d >= 1 {
      MulAtLeast(d, n);
    }
  }

  lemma QuotientBound(x: nat, t: nat, n: nat)
    requires n > 0 && x <= t * n
    ensures x / n <= t
  {
  }

  lemma ProductLe(a: nat, b: nat, c: nat)
    requires b <= c
    ensures a * b <= a * c
  {
  }

  // ---- counting ----

  function One(b: bool): nat {
    if b then 1 else 0
  }

  /** Sets that differ in `x` at most differ in size by what `x` says. */
  lemma OneChanged(before: set<nat>, after: set<nat>, x: nat)
    requires forall y :: y != x ==> (y in after <==> y in before)
    ensures |after| == |before| + One(x in after) - One(x in before)
  {
    assert after - {x} == before - {x};
    assert x in before ==> before == (before - {x}) + {x};
    assert x in after ==> after == (after - {x}) + {x};
  }
}
