/** Division, remainder and rounding facts shared by the layout and scheduling models. */
module Arithmetic {

  lemma MulBounds(m: int, d: int)
    requires 0 < m
    ensures 1 <= d ==> m <= m * d
    ensures d <= -1 ==> m * d <= -m
  {
  }

  /** Quotient and remainder are the only pair with a remainder in range. */
  lemma DivModUnique(x: int, m: int, q: int, r: int)
    requires 0 < m && 0 <= r < m && x == m * q + r
    ensures x / m == q && x % m == r
  {
    MulBounds(m, x / m - q);
    assert m * (x / m - q) == r - x % m;
  }

  lemma ModOfSum(a: int, b: int, m: int)
    requires 0 < m && a % m == 0
    ensures (a + b) % m == b % m
  {
    DivModUnique(a + b, m, a / m + b / m, b % m);
  }

  lemma ModOfDifference(a: int, b: int, m: int)
    requires 0 < m && a % m == 0 && b % m == 0
    ensures (a - b) % m == 0
  {
    DivModUnique(a - b, m, a / m - b / m, 0);
  }

  lemma ModOfMultiple(k: int, m: int)
    requires 0 < m
    ensures (k * m) % m == 0 && (k * m) / m == k
  {
    DivModUnique(k * m, m, k, 0);
  }

  lemma DivAtLeastOne(a: int, b: int)
    requires 0 < b && 0 <= a
    ensures 1 <= a / b <==> b <= a
    ensures 0 <= a / b
  {
    MulBounds(b, a / b);
  }

  lemma MulMonotone(a: int, b: int, m: int)
    requires a <= b && 0 <= m
    ensures a * m <= b * m
  {
  }

  /** Round to nearest, ties to even. */
  function Round(x: real): (r: int)
    ensures -0.5 <= r as real - x <= 0.5
    ensures r as real - x == 0.5 || x - r as real == 0.5 ==> r % 2 == 0
  {
    var f := x.Floor;
    var d := x - f as real;
    if d < 0.5 then f else if d > 0.5 then f + 1 else if f % 2 == 0 then f else f + 1
  }

  /** The g-th stretch of `size` entries. */
  function Stretch<T>(row: seq<T>, size: nat, g: nat): (w: seq<T>)
    requires (g + 1) * size <= |row|
    ensures |w| == size
  {
    row[g * size..(g + 1) * size]
  }
}
