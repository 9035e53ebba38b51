/** Exact-arithmetic stand-in for raylib's `Vector3` and the handful of
    vector operations the simulation uses. Single-precision floats become
    `real`; the Euclidean length is not computable without a square root, so
    it is passed around as a function `norm` that is only known to satisfy
    `IsEuclideanLength`. */
module Vectors {

  datatype Vector3 = Vector3(x: real, y: real, z: real)

  /** `Vector3Zero()` */
  const Zero: Vector3 := Vector3(0.0, 0.0, 0.0)

  /** `Vector3Add(a, b)` */
  function Add(a: Vector3, b: Vector3): Vector3 {
    Vector3(a.x + b.x, a.y + b.y, a.z + b.z)
  }

  /** `Vector3Subtract(a, b)` */
  function Subtract(a: Vector3, b: Vector3): Vector3 {
    Vector3(a.x - b.x, a.y - b.y, a.z - b.z)
  }

  /** `Vector3Scale(v, s)` */
  function Scale(v: Vector3, s: real): Vector3 {
    Vector3(v.x * s, v.y * s, v.z * s)
  }

  function Dot(a: Vector3, b: Vector3): real {
    a.x * b.x + a.y * b.y + a.z * b.z
  }

  /** What `Vector3Length` computes: a non-negative number whose square is
      the squared length of its argument. */
  ghost predicate IsEuclideanLength(norm: Vector3 -> real) {
    forall v :: LengthAt(norm, v)
  }

  ghost predicate LengthAt(norm: Vector3 -> real, v: Vector3) {
    norm(v) >= 0.0 && norm(v) * norm(v) == Dot(v, v)
  }

  lemma SquarePositive(a: real)
    ensures a * a >= 0.0
    ensures a * a == 0.0 <==> a == 0.0
  {
    if a != 0.0 {
      assert a == (a * a) / a;
    }
  }

  lemma DotSelfZero(v: Vector3)
    ensures Dot(v, v) >= 0.0
    ensures Dot(v, v) == 0.0 <==> v == Zero
  {
    SquarePositive(v.x);
    SquarePositive(v.y);
    SquarePositive(v.z);
  }

  /** A Euclidean length vanishes only on the zero vector: the distance
      between two distinct positions is strictly positive, so the divisions
      in the physics step are defined. */
  lemma LengthPositive(norm: Vector3 -> real, v: Vector3)
    requires IsEuclideanLength(norm)
    ensures norm(v) > 0.0 <==> v != Zero
  {
    var n := norm(v);
    assert LengthAt(norm, v);
    assert n >= 0.0 && n * n == Dot(v, v);
    DotSelfZero(v);
    SquarePositive(n);
    if v == Zero {
      assert n * n == 0.0;
    } else {
      assert n * n != 0.0;
    }
  }

  lemma SquareRootUnique(a: real, b: real)
    requires a >= 0.0 && b >= 0.0 && a * a == b * b
    ensures a == b
  {
    assert (a - b) * (a + b) == a * a - b * b;
    if a + b == 0.0 {
      assert a == 0.0 && b == 0.0;
    } else {
      assert a - b == ((a - b) * (a + b)) / (a + b);
    }
  }

  /** The distance from a to b is the distance from b to a. */
  lemma LengthSymmetric(norm: Vector3 -> real, a: Vector3, b: Vector3)
    requires IsEuclideanLength(norm)
    ensures norm(Subtract(a, b)) == norm(Subtract(b, a))
  {
    var d, e := Subtract(a, b), Subtract(b, a);
    assert LengthAt(norm, d) && LengthAt(norm, e);
    assert Dot(d, d) == Dot(e, e);
    SquareRootUnique(norm(d), norm(e));
  }

  /** Reversing the vector and the second scale factor cancels out. */
  lemma ScaleFlip(v: Vector3, s: real, t: real)
    ensures Scale(Scale(Subtract(Zero, v), s), t) == Scale(Scale(v, s), -t)
  {
    assert (0.0 - v.x) * s * t == v.x * s * -t;
    assert (0.0 - v.y) * s * t == v.y * s * -t;
    assert (0.0 - v.z) * s * t == v.z * s * -t;
  }

  lemma NegateDivision(a: real, b: real)
    requires b != 0.0
    ensures (-a) / b == -(a / b)
  {
    assert (-a) / b * b == -a;
    assert -(a / b) * b == -a;
  }

  /** Weighting two opposite contributions by each other's mass cancels:
      mi * (p * (mj / len)) + mj * (p * (-mi / len)) == 0. */
  lemma ScaledPairCancels(p: Vector3, mi: real, mj: real, len: real)
    requires len != 0.0
    ensures Add(Scale(Scale(p, mj / len), mi), Scale(Scale(p, -mi / len), mj)) == Zero
  {
    var u, v := mj / len, -mi / len;
    NegateDivision(mi, len);
    CrossRatio(mi, mj, len);
    assert v * mj == -((mi / len) * mj);
    assert u * mi + v * mj == 0.0;
    var r := Add(Scale(Scale(p, u), mi), Scale(Scale(p, v), mj));
    assert r.x == 0.0 by { CancelScalar(p.x, u, v, mi, mj); }
    assert r.y == 0.0 by { CancelScalar(p.y, u, v, mi, mj); }
    assert r.z == 0.0 by { CancelScalar(p.z, u, v, mi, mj); }
  }

  lemma CrossRatio(mi: real, mj: real, len: real)
    requires len != 0.0
    ensures (mj / len) * mi == (mi / len) * mj
  {
    var u, w := mj / len, mi / len;
    assert u * len == mj;
    assert w * len == mi;
    calc {
      u * mi;
      u * (w * len);
      { assert u * (w * len) == w * (u * len); }
      w * (u * len);
      w * mj;
    }
  }

  lemma CancelScalar(c: real, u: real, v: real, mi: real, mj: real)
    requires u * mi + v * mj == 0.0
    ensures c * u * mi + c * v * mj == 0.0
  {
    assert c * u * mi + c * v * mj == c * (u * mi + v * mj);
  }

  lemma ScaleAddDistributes(a: Vector3, b: Vector3, s: real)
    ensures Scale(Add(a, b), s) == Add(Scale(a, s), Scale(b, s))
  {
    assert (a.x + b.x) * s == a.x * s + b.x * s;
    assert (a.y + b.y) * s == a.y * s + b.y * s;
    assert (a.z + b.z) * s == a.z * s + b.z * s;
  }

  lemma ScaleCommutes(a: Vector3, s: real, t: real)
    ensures Scale(Scale(a, s), t) == Scale(Scale(a, t), s)
  {
    assert a.x * s * t == a.x * t * s;
    assert a.y * s * t == a.y * t * s;
    assert a.z * s * t == a.z * t * s;
  }

  /** Bookkeeping for two in-place updates whose increments cancel: if
      after1 + old_i == before + new_i, after2 + old_j == after1 + new_j,
      new_i == old_i + di, new_j == old_j + dj and di + dj == 0, then
      after2 == before. */
  lemma Rebalance(before: Vector3, after1: Vector3, after2: Vector3,
                  oldI: Vector3, newI: Vector3, oldJ: Vector3, newJ: Vector3,
                  di: Vector3, dj: Vector3)
    requires Add(after1, oldI) == Add(before, newI)
    requires Add(after2, oldJ) == Add(after1, newJ)
    requires newI == Add(oldI, di) && newJ == Add(oldJ, dj)
    requires Add(di, dj) == Zero
    ensures after2 == before
  {
  }

  lemma AddAssociates(a: Vector3, b: Vector3, c: Vector3)
    ensures Add(Add(a, b), c) == Add(a, Add(b, c))
  {
  }

  lemma AddZero(a: Vector3)
    ensures Add(a, Zero) == a && Add(Zero, a) == a
  {
  }
}
