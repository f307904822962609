/** Division with remainder, for the proofs about circular indices and machine words. */
module Arithmetic {

  lemma ModUnique(x: nat, m: nat, q: nat, r: nat)
    requires 0 < m && r < m && x == m * q + r
    ensures x % m == r
  {
    var d := x / m - q;
    assert x == m * (x / m) + x % m;
    assert m * d == r - x % m;
    MulGap(m, d);
  }

  lemma ModAdd(x: nat, m: nat, q: nat)
    requires 0 < m
    ensures (x + m * q) % m == x % m
  {
    assert m * (x / m + q) == m * (x / m) + m * q;
    ModUnique(x + m * q, m, x / m + q, x % m);
  }

  lemma MulGap(m: nat, d: int)
    ensures d >= 1 ==> m * d >= m
    ensures d <= -1 ==> m * d <= -(m as int)
  {
    if d >= 1 { assert m * d == m + m * (d - 1); }
    if d <= -1 { assert m * d == -(m as int) + m * (d + 1); }
  }
}
