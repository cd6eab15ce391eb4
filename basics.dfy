/** Values shared by the whole engine: 3D vectors, opaque image handles and the
    C++ integer division the animation relies on. */
module Basics {

  /** A glm::vec3 / ofVec3f; single-precision floats are modelled as reals. */
  datatype Vec3 = Vec3(x: real, y: real, z: real)

  const Zero: Vec3 := Vec3(0.0, 0.0, 0.0)

  /** An ofImage. The engine copies images into sprites but never looks inside one. */
  datatype Image = Image(handle: nat)

  function Abs(r: real): (a: real)
    ensures a >= 0.0 && (a == r || a == -r)
  {
    if r < 0.0 then -r else r
  }

  /** C++ `a / b` on int: the quotient is truncated toward zero. It agrees with
      Dafny's Euclidean `/` when the dividend is non-negative and the divisor positive. */
  function TruncDiv(a: int, b: int): (q: int)
    requires b != 0
    ensures a >= 0 && b > 0 ==> q == a / b
    ensures a < 0 && b > 0 ==> q == -((-a) / b)
  {
    var m := if a < 0 then -a else a;
    var n := if b < 0 then -b else b;
    if (a >= 0) == (b > 0) then m / n else -(m / n)
  }

  /** Quotient and remainder are determined by `x == n * q + r` with `0 <= r < n`. */
  lemma DivModUnique(x: int, n: int, q: int, r: int)
    requires n > 0 && 0 <= r < n && x == n * q + r
    ensures x / n == q && x % n == r
  {
    var q', r' := x / n, x % n;
    var d := q - q';
    assert n * d == r' - r;
    assert d == 0 by {
      if d >= 1 {
        MulMonotone(n, d, 1);
      } else if d <= -1 {
        MulMonotone(n, -d, 1);
      }
    }
  }

  lemma MulMonotone(n: int, a: int, b: int)
    requires n > 0 && a >= b
    ensures n * a >= n * b
  {
  }
}
