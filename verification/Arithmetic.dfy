/** Products, quotients and powers of two that the proofs need. */
module Arithmetic {

  function Max(a: nat, b: nat): nat {
    if a < b then b else a
  }

  function Min(a: nat, b: nat): nat {
    if a < b then a else b
  }

  function Pow2(n: nat): (r: nat)
    ensures 1 <= r
  {
    if n == 0 then 1 else 2 * Pow2(n - 1)
  }

  lemma {:induction false} Pow2Bound(d: nat, n: nat)
    requires d <= n
    ensures Pow2(d) <= Pow2(n)
    decreases n - d
  {
    if d < n {
      Pow2Bound(d + 1, n);
    }
  }

  lemma {:induction false} Pow2Sum(m: nat, n: nat)
    ensures Pow2(m + n) == Pow2(m) * Pow2(n)
  {
    if m != 0 {
      Pow2Sum(m - 1, n);
      assert 2 * (Pow2(m - 1) * Pow2(n)) == (2 * Pow2(m - 1)) * Pow2(n);
    }
  }

  lemma Predecessor(i: int, size: int)
    requires 0 < i && 0 < size
    ensures size <= i * size && i * size - size == (i - 1) * size
  {
    MulOrder(0, i, size);
  }

  lemma MulOrder(a: int, b: int, size: int)
    requires a < b && 0 < size
    ensures a * size + size <= b * size
  {
    assert b * size - (a + 1) * size == (b - a - 1) * size;
    assert 0 <= (b - a - 1) * size;
  }

  lemma MultipleOf(q: nat, size: nat)
    requires 0 < size
    ensures q * size % size == 0 && q * size / size == q
  {
    var n := q * size;
    var q', r' := n / size, n % size;
    assert n == q' * size + r' && 0 <= r' < size;
    if q < q' {
      MulOrder(q, q', size);
    } else if q' < q {
      MulOrder(q', q, size);
    }
    assert q == q';
  }

  /** Adding one whole chunk to a chunk boundary gives a chunk boundary. */
  lemma NextMultiple(n: nat, size: nat)
    requires 0 < size && n % size == 0
    ensures (n + size) % size == 0
  {
    assert n + size == (n / size + 1) * size;
    MultipleOf(n / size + 1, size);
  }

  /** Integer division of non-negative numbers. */
  function Div(a: nat, n: nat): nat
    requires 0 < n
  {
    a / n
  }

  lemma DivExact(a: nat, n: nat)
    requires 0 < n
    ensures Div(a, n) * n <= a < (Div(a, n) + 1) * n
  {
    var q := a / n;
    assert (q + 1) * n == q * n + n;
  }

  lemma DivBound(a: nat, k: nat, n: nat)
    requires 0 < n && a <= k * n
    ensures Div(a, n) <= k
  {
    var q := a / n;
    assert q * n <= a;
    if k < q {
      MulOrder(k, q, n);
    }
  }
}
