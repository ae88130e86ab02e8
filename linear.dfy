/**
  Fixed-size vectors and 3x3 matrices over the reals: the dense linear-algebra
  primitive (2-vectors, 3-vectors, 3x3 products) the pinhole camera is written
  against. Numbers are exact reals, not IEEE doubles.
 */
module Linear {

  datatype Vec2 = Vec2(x: real, y: real)

  datatype Vec3 = Vec3(x: real, y: real, z: real)

  /** A 3x3 matrix stored by rows. */
  datatype Mat3 = Mat3(r0: Vec3, r1: Vec3, r2: Vec3) {

    /** Column j, for j in 0..2. */
    function Col(j: nat): Vec3
      requires j < 3
    {
      if j == 0 then Vec3(r0.x, r1.x, r2.x)
      else if j == 1 then Vec3(r0.y, r1.y, r2.y)
      else Vec3(r0.z, r1.z, r2.z)
    }
  }

  function Add2(a: Vec2, b: Vec2): Vec2 {
    Vec2(a.x + b.x, a.y + b.y)
  }

  function Sub2(a: Vec2, b: Vec2): Vec2 {
    Vec2(a.x - b.x, a.y - b.y)
  }

  function Scale2(s: real, v: Vec2): Vec2 {
    Vec2(s * v.x, s * v.y)
  }

  /** Component-wise division of a 2-vector by a scalar. */
  function Div2(v: Vec2, s: real): Vec2
    requires s != 0.0
  {
    Vec2(v.x / s, v.y / s)
  }

  /** Lifts a 2D point to homogeneous coordinates (x, y, 1). */
  function Homogeneous(p: Vec2): Vec3 {
    Vec3(p.x, p.y, 1.0)
  }

  function Dot(a: Vec3, b: Vec3): real {
    a.x * b.x + a.y * b.y + a.z * b.z
  }

  function MatVec(m: Mat3, v: Vec3): Vec3 {
    Vec3(Dot(m.r0, v), Dot(m.r1, v), Dot(m.r2, v))
  }

  /** Row r of a product: r times every column of b. */
  function RowTimes(r: Vec3, b: Mat3): Vec3 {
    Vec3(Dot(r, b.Col(0)), Dot(r, b.Col(1)), Dot(r, b.Col(2)))
  }

  function Mul(a: Mat3, b: Mat3): Mat3 {
    Mat3(RowTimes(a.r0, b), RowTimes(a.r1, b), RowTimes(a.r2, b))
  }

  function Identity(): Mat3 {
    Mat3(Vec3(1.0, 0.0, 0.0), Vec3(0.0, 1.0, 0.0), Vec3(0.0, 0.0, 1.0))
  }

  lemma MulIdentity(a: Mat3)
    ensures Mul(Identity(), a) == a && Mul(a, Identity()) == a
  {
  }

  /** One row of the associativity law: (r b) c == r (b c). */
  lemma RowTimesAssoc(r: Vec3, b: Mat3, c: Mat3)
    ensures RowTimes(RowTimes(r, b), c) == RowTimes(r, Mul(b, c))
  {
  }

  lemma MulAssoc(a: Mat3, b: Mat3, c: Mat3)
    ensures Mul(Mul(a, b), c) == Mul(a, Mul(b, c))
  {
    RowTimesAssoc(a.r0, b, c);
    RowTimesAssoc(a.r1, b, c);
    RowTimesAssoc(a.r2, b, c);
  }

  /** Applying a product is applying its factors in turn. */
  lemma MatVecMul(a: Mat3, b: Mat3, v: Vec3)
    ensures MatVec(Mul(a, b), v) == MatVec(a, MatVec(b, v))
  {
  }
}
