/** Division facts the modules share. */
module Arithmetic {

  lemma Remainder(q: int, m: nat, r: int)
    requires 0 <= r < m
    ensures (q * m + r) % m == r
  {
    var x := q * m + r;
    assert x == m * (x / m) + x % m;
    var d := q - x / m;
    assert d * m == x % m - r;
    assert d >= 1 ==> d * m >= m;
    assert d <= -1 ==> d * m + m <= 0;
  }
}
