/** Small vocabulary shared by every module: optional values, results, and the
    few facts about remainders that the rest of the project relies on. */
module Common {

  datatype Option<+T> = None | Some(value: T)

  datatype Result<+T> = Ok(value: T) | Err(message: string)

  function Max(a: int, b: int): int { if a < b then b else a }

  function Min(a: int, b: int): int { if a < b then a else b }

  /** Counts that never decrease, and grow by at most `most` from k to k + 1. */
  predicate InStep(counts: seq<nat>, k: nat, most: nat)
    requires k + 1 < |counts|
  {
    counts[k] <= counts[k + 1] <= counts[k] + most
  }

  /** Quotient and remainder are the only pair with these properties. */
  lemma DivModUnique(a: int, n: int, q: int, r: int)
    requires n > 0 && a == q * n + r && 0 <= r < n
    ensures a / n == q && a % n == r
  {
    var q', r' := a / n, a % n;
    SmallMultiple(q - q', n, r' - r);
  }

  /** The only multiple of n strictly between -n and n is zero. */
  lemma SmallMultiple(k: int, n: int, d: int)
    requires n > 0 && k * n == d && -n < d < n
    ensures k == 0 && d == 0
  {
    if k >= 1 {
      Monotone(1, k, n);
    } else if k <= -1 {
      Monotone(k, -1, n);
    }
  }

  lemma Monotone(a: int, b: int, n: int)
    requires a <= b && n >= 0
    ensures a * n <= b * n
  {
  }

  /** Adding multiples of n does not change the remainder. */
  lemma ModShift(a: int, k: int, n: int)
    requires n > 0
    ensures (a + k * n) % n == a % n
  {
    assert (a / n + k) * n == a / n * n + k * n;
    DivModUnique(a + k * n, n, a / n + k, a % n);
  }

  /** Indices closer together than n occupy different slots of a ring of n. */
  lemma SlotsDiffer(i: int, j: int, n: int)
    requires n > 0 && i < j < i + n
    ensures i % n != j % n
  {
    if i % n == j % n {
      var p, q := i / n, j / n;
      assert q * n - p * n == (q - p) * n;
      SmallMultiple(q - p, n, j - i);
    }
  }

  /** Equal remainders are exactly the pairs a whole number of n apart. */
  lemma ModEqual(a: int, b: int, n: int)
    requires n > 0
    ensures a % n == b % n <==> (a - b) % n == 0
  {
    var q := a / n - b / n;
    assert a - b == q * n + (a % n - b % n);
    if a % n == b % n {
      DivModUnique(a - b, n, q, 0);
    } else if a % n > b % n {
      DivModUnique(a - b, n, q, a % n - b % n);
    } else {
      assert (q - 1) * n == q * n - n;
      DivModUnique(a - b, n, q - 1, a % n - b % n + n);
    }
  }

  /** a * b by repeated addition: a product the solver can step through. */
  function Times(a: nat, b: nat): nat {
    if a == 0 then 0 else Times(a - 1, b) + b
  }

  lemma {:induction false} TimesIsProduct(a: nat, b: nat)
    ensures Times(a, b) == a * b
  {
    if a > 0 {
      TimesIsProduct(a - 1, b);
      assert (a - 1) * b == a * b - b;
    }
  }
}
