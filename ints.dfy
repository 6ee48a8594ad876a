/** Integer helpers shared by the analysts: Python's `min`/`max` and the division facts their scores
    rely on. */
module Ints {

  function Min(a: int, b: int): int {
    if a < b then a else b
  }

  function Max(a: int, b: int): int {
    if a < b then b else a
  }

  function MinReal(a: real, b: real): real {
    if a < b then a else b
  }

  /** Python's `int(x / 10)` for an integer `x`: division truncated toward zero. */
  function TruncTenth(x: int): int {
    if x >= 0 then x / 10 else -((-x) / 10)
  }

  lemma MulMonotone(a: nat, b: nat, d: nat)
    requires a <= b
    ensures a * d <= b * d
  {
  }

  lemma DivAtMost(x: nat, d: nat, k: nat)
    requires 0 < d && x <= k * d
    ensures x / d <= k
  {
    var q := x / d;
    assert q * d <= x;
    if q > k {
      MulMonotone(k + 1, q, d);
    }
  }

  lemma DivBelow(x: nat, d: nat, k: nat)
    requires 0 < d && x < k * d
    ensures x / d < k
  {
    var q := x / d;
    assert q * d <= x;
    if q >= k {
      MulMonotone(k, q, d);
    }
  }

  lemma DivExact(k: nat, d: nat)
    requires 0 < d
    ensures (k * d) / d == k
  {
    var q := (k * d) / d;
    DivAtMost(k * d, d, k);
    if q < k {
      MulMonotone(q + 1, k, d);
    }
  }

  lemma FractionAtMostOne(c: nat, n: nat)
    requires 0 < n && c <= n
    ensures c as real / n as real <= 1.0
  {
    assert c as real <= n as real;
  }
}
