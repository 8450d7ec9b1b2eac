/** The scalar helpers of the engine (Mathf and C#'s float remainder) over
    unbounded reals, plus a true modulo used as the reference definition
    of "the same point on a cycle". */
module UnityMath {

  /** True when q is a whole number. */
  predicate IsWhole(q: real) {
    q.Floor as real == q
  }

  /** Mathf.Abs */
  function Abs(x: real): (r: real)
    ensures r >= 0.0
    ensures r == x || r == -x
  {
    if x < 0.0 then -x else x
  }

  /** Mathf.Sign: 1 for zero and positive values, -1 for negative ones. */
  function Sign(x: real): (r: real)
    ensures r == 1.0 || r == -1.0
    ensures r * Abs(x) == x
    ensures x == 0.0 ==> r == 1.0
  {
    if x >= 0.0 then 1.0 else -1.0
  }

  /** Mathf.Clamp(value, min, max) */
  function Clamp(v: real, lo: real, hi: real): (r: real)
    requires lo <= hi
    ensures lo <= r <= hi
    ensures lo <= v <= hi ==> r == v
    ensures v < lo ==> r == lo
    ensures v > hi ==> r == hi
  {
    if v < lo then lo else if v > hi then hi else v
  }

  /** Mathf.Clamp01 */
  function Clamp01(v: real): (r: real)
    ensures 0.0 <= r <= 1.0
    ensures 0.0 <= v <= 1.0 ==> r == v
    ensures v < 0.0 ==> r == 0.0
    ensures v > 1.0 ==> r == 1.0
  {
    if v < 0.0 then 0.0 else if v > 1.0 then 1.0 else v
  }

  /** Mathf.Lerp: the interpolation parameter is clamped to [0, 1] first. */
  function Lerp(a: real, b: real, t: real): (r: real)
    ensures a <= b ==> a <= r <= b
    ensures b <= a ==> b <= r <= a
    ensures t <= 0.0 ==> r == a
    ensures t >= 1.0 ==> r == b
    ensures 0.0 <= t <= 1.0 ==> r == a + (b - a) * t
  {
    a + Portion(b - a, Clamp01(t))
  }

  /** The fraction s of c: a point between 0 and c. */
  function Portion(c: real, s: real): (p: real)
    requires 0.0 <= s <= 1.0
    ensures c >= 0.0 ==> 0.0 <= p <= c
    ensures c <= 0.0 ==> c <= p <= 0.0
    ensures s == 0.0 ==> p == 0.0
    ensures s == 1.0 ==> p == c
  {
    var p := c * s;
    PortionBounds(c, s, p);
    p
  }

  /** A product of non-negative reals is non-negative. */
  lemma MulNonNeg(a: real, b: real, p: real)
    requires a >= 0.0 && b >= 0.0
    requires p == a * b
    ensures p >= 0.0
  {
  }

  /** A product of positive reals is positive. */
  lemma MulPos(a: real, b: real, p: real)
    requires a > 0.0 && b > 0.0
    requires p == a * b
    ensures p > 0.0
  {
  }

  lemma PortionBounds(c: real, s: real, p: real)
    requires 0.0 <= s <= 1.0
    requires p == c * s
    ensures c >= 0.0 ==> 0.0 <= p <= c
    ensures c <= 0.0 ==> c <= p <= 0.0
  {
    var rest := c * (1.0 - s);
    assert p + rest == c;
    if c >= 0.0 {
      MulNonNeg(c, s, p);
      MulNonNeg(c, 1.0 - s, rest);
    } else {
      MulNonNeg(-c, s, -p);
      MulNonNeg(-c, 1.0 - s, -rest);
    }
  }

  /** A whole number k at or below x / m, by less than one, brackets x
      between the consecutive multiples mk = m * k and mk + m. */
  lemma ScaleFloor(x: real, m: real, k: real, mk: real)
    requires m > 0.0
    requires k <= x / m < k + 1.0
    requires mk == m * k
    ensures mk <= x < mk + m
  {
    var q := x / m;
    assert x == m * q;
    MulNonNeg(m, q - k, x - mk);
    MulPos(m, k + 1.0 - q, mk + m - x);
  }

  /** A whole number k at or above x / m, by less than one, brackets x
      between the consecutive multiples mk - m and mk = m * k. */
  lemma ScaleCeiling(x: real, m: real, k: real, mk: real)
    requires m > 0.0
    requires k - 1.0 < x / m <= k
    requires mk == m * k
    ensures mk - m < x <= mk
  {
    var q := x / m;
    assert x == m * q;
    MulNonNeg(m, k - q, mk - x);
    MulPos(m, q - (k - 1.0), x - (mk - m));
  }

  /** Taking mk = m * k off x leaves x - mk with the whole quotient k. */
  lemma WholeQuotient(x: real, m: real, k: int, mk: real)
    requires m > 0.0
    requires mk == m * k as real
    ensures IsWhole((x - (x - mk)) / m)
  {
    assert x - (x - mk) == mk;
    assert mk / m == k as real;
  }

  /** Truncation toward zero, as a float-to-int conversion in C# does. */
  function Truncate(q: real): (k: int)
    ensures q >= 0.0 ==> 0 <= k && k as real <= q < k as real + 1.0
    ensures q < 0.0 ==> k <= 0 && k as real - 1.0 < q <= k as real
  {
    if q >= 0.0 then q.Floor else -((-q).Floor)
  }

  /** C#'s float remainder `x % m`: the result takes the sign of x. */
  function FloatRem(x: real, m: real): (r: real)
    requires m > 0.0
    ensures x >= 0.0 ==> 0.0 <= r < m
    ensures x < 0.0 ==> -m < r <= 0.0
    ensures IsWhole((x - r) / m)
  {
    var k := Truncate(x / m);
    var mk := m * k as real;
    WholeQuotient(x, m, k, mk);
    if x >= 0.0 then
      ScaleFloor(x, m, k as real, mk);
      x - mk
    else
      ScaleCeiling(x, m, k as real, mk);
      x - mk
  }

  /** The true (Euclidean) modulo on reals: the point of [0, m) that differs
      from x by a whole number of m. */
  function ModC(x: real, m: real): (r: real)
    requires m > 0.0
    ensures 0.0 <= r < m
    ensures IsWhole((x - r) / m)
  {
    var k := (x / m).Floor;
    var mk := m * k as real;
    ScaleFloor(x, m, k as real, mk);
    WholeQuotient(x, m, k, mk);
    x - mk
  }

  /** y is m times its quotient by m. */
  lemma DivMul(y: real, m: real, q: real)
    requires m > 0.0
    requires q == y / m
    ensures y == m * q
  {
  }

  /** Scaling by m > 0 a whole difference of at least one, in either
      direction, moves by at least m. */
  lemma ScaleWhole(m: real, a: real, b: real, pa: real, pb: real)
    requires m > 0.0
    requires pa == m * a && pb == m * b
    ensures a - b >= 1.0 ==> pa - pb >= m
    ensures a - b <= -1.0 ==> pa - pb <= -m
  {
    assert pa - pb == m * (a - b);
    if a - b >= 1.0 {
      MulNonNeg(m, a - b - 1.0, pa - pb - m);
    } else if a - b <= -1.0 {
      MulNonNeg(m, b - a - 1.0, pb - pa - m);
    }
  }

  /** Any point of [0, m) that differs from x by whole cycles is ModC(x, m). */
  lemma ModCUnique(x: real, m: real, r: real)
    requires m > 0.0
    requires 0.0 <= r < m
    requires IsWhole((x - r) / m)
    ensures r == ModC(x, m)
  {
    var r' := ModC(x, m);
    var q := (x - r) / m;
    var q' := (x - r') / m;
    DivMul(x - r, m, q);
    DivMul(x - r', m, q');
    ScaleWhole(m, q, q', x - r, x - r');
    assert q.Floor == q'.Floor;
  }

  /** Shifting by whole cycles does not change the point on the cycle. */
  lemma ModCShift(x: real, m: real, k: int)
    requires m > 0.0
    ensures ModC(x + m * k as real, m) == ModC(x, m)
  {
    var r := ModC(x, m);
    var j := ((x - r) / m).Floor;
    assert x - r == m * j as real;
    var y := x + m * k as real;
    assert y - r == m * (j + k) as real;
    assert (y - r) / m == (j + k) as real;
    ModCUnique(y, m, r);
  }

  /** Two reals at the same point of the cycle differ by whole cycles. */
  lemma ModCDiff(x: real, y: real, m: real)
    requires m > 0.0
    requires ModC(x, m) == ModC(y, m)
    ensures IsWhole((x - y) / m)
  {
    var r := ModC(x, m);
    var kx := (x - r) / m;
    var ky := (y - r) / m;
    DivMul(x - r, m, kx);
    DivMul(y - r, m, ky);
    var ix := kx.Floor;
    var iy := ky.Floor;
    var d := (ix - iy) as real;
    assert d == kx - ky;
    var md := m * d;
    assert md == m * kx - m * ky;
    assert x - y == md;
    assert (x - y) / m == d;
  }

  /** On non-negative values C#'s remainder is the true modulo. */
  lemma FloatRemIsModC(x: real, m: real)
    requires m > 0.0
    requires x >= 0.0
    ensures FloatRem(x, m) == ModC(x, m)
  {
    ModCUnique(x, m, FloatRem(x, m));
  }
}
