/** Euclidean remainder facts used for the cyclic cursors: the device history's switch and
    the PIN digits' rotation. Dafny's `%` is Euclidean, which for a positive modulus agrees
    with Python's floor modulo. */
module Modular {
  /** Reducing before a step forward gives the same remainder as stepping first. */
  lemma ModSucc(a: int, n: int)
    requires n > 0
    ensures (a % n + 1) % n == (a + 1) % n
  {
    var q := a / n;
    var r := a % n;
    assert a == q * n + r;
    if r + 1 < n {
      ModUnique(r + 1, n, 0, r + 1);
      ModUnique(a + 1, n, q, r + 1);
    } else {
      ModUnique(r + 1, n, 1, 0);
      assert a + 1 == (q + 1) * n + 0;
      ModUnique(a + 1, n, q + 1, 0);
    }
  }

  /** One step forward or back on a cycle of length `n`. */
  lemma StepMod(i: int, n: int)
    requires 0 <= i < n
    ensures (i + 1) % n == (if i + 1 == n then 0 else i + 1)
    ensures (i - 1) % n == (if i == 0 then n - 1 else i - 1)
  {
    if i + 1 == n {
      ModUnique(i + 1, n, 1, 0);
    } else {
      ModUnique(i + 1, n, 0, i + 1);
    }
    if i == 0 {
      ModUnique(i - 1, n, -1, n - 1);
    } else {
      ModUnique(i - 1, n, 0, i - 1);
    }
  }

  /** Euclidean division is unique: a decomposition `x == q * n + r` with `0 <= r < n` is
      the one `/` and `%` compute. */
  lemma ModUnique(x: int, n: int, q: int, r: int)
    requires n > 0 && 0 <= r < n && x == q * n + r
    ensures x % n == r
  {
    var q' := x / n;
    var r' := x % n;
    assert x == q' * n + r';
    assert (q - q') * n == r' - r;
    if q > q' {
      MulAtLeast(q - q', n);
    } else if q < q' {
      MulAtLeast(q' - q, n);
    }
  }

  /** A positive multiple of `n` is at least `n`. */
  lemma {:induction false} MulAtLeast(a: int, n: int)
    requires a >= 1 && n > 0
    ensures a * n >= n
    decreases a
  {
    if a > 1 {
      MulAtLeast(a - 1, n);
      assert a * n == (a - 1) * n + n;
    }
  }
}
