/**
 * `src/spatial/poseConversion.ts` over the reals: the matrix built from a
 * camera's quaternion, and the camera-to-world matrix built from its pose.
 *
 * The square root is a parameter, known by what it squares to. Polynomials that
 * several lemmas share are named, so that lemmas meet at the names and only the
 * scalar identities multiply out.
 */
module PoseConversion {
  import opened Wrappers

  datatype Quaternion = Quaternion(x: real, y: real, z: real, w: real)

  datatype Vector = Vector(x: real, y: real, z: real)

  /** Three rows. */
  datatype Matrix = Matrix(a: Vector, b: Vector, c: Vector)

  // ----- Polynomials -----

  function Mul(a: real, b: real): real { a * b }

  function Square(a: real): real { a * a }

  function Cube(a: real): real { a * a * a }

  /** A product of two rows of three. */
  function Sum3(a: real, b: real, c: real, d: real, e: real, f: real): real { a * d + b * e + c * f }

  /** The determinant of two rows of two. */
  function Minor(a: real, b: real, c: real, d: real): real { a * d - b * c }

  function Norm(x: real, y: real, z: real, w: real): real { x * x + y * y + z * z + w * w }

  /** A diagonal entry of the matrix, of the axis `x`. */
  function Diag(x: real, y: real, z: real, w: real): real { w * w + x * x - y * y - z * z }

  /** The entry of the axes `x` and `y` whose term in the third axis is taken off. */
  function Off(x: real, y: real, z: real, w: real): real { 2.0 * (x * y - w * z) }

  /** The entry of the axes `x` and `y` whose term in the third axis is put on. */
  function On(x: real, y: real, z: real, w: real): real { 2.0 * (x * y + w * z) }

  /** An imaginary component of a product: three products less a fourth. */
  function Mix(a: real, b: real, c: real, d: real, e: real, f: real, g: real,
      h: real): real { a * e + b * f + c * g - d * h }

  /** The real component of a product: one product less three. */
  function Real(a: real, b: real, c: real, d: real, e: real, f: real, g: real,
      h: real): real { a * e - b * f - c * g - d * h }

  // ----- Quaternions and matrices -----

  function LengthSquared(q: Quaternion): real { Norm(q.x, q.y, q.z, q.w) }

  function Scale(k: real, q: Quaternion): Quaternion { Quaternion(Mul(k, q.x), Mul(k, q.y), Mul(k, q.z), Mul(k, q.w)) }

  /** Hamilton's product. */
  function Product(p: Quaternion, q: Quaternion): Quaternion {
    Quaternion(Mix(p.w, p.x, p.y, p.z, q.x, q.w, q.z, q.y),
               Mix(p.w, p.y, p.z, p.x, q.y, q.w, q.x, q.z),
               Mix(p.w, p.z, p.x, p.y, q.z, q.w, q.y, q.x),
               Real(p.w, p.x, p.y, p.z, q.w, q.x, q.y, q.z))
  }

  function Conjugate(q: Quaternion): Quaternion { Quaternion(-q.x, -q.y, -q.z, q.w) }

  function Dot(u: Vector, v: Vector): real { Sum3(u.x, u.y, u.z, v.x, v.y, v.z) }

  function Transpose(m: Matrix): Matrix {
    Matrix(Vector(m.a.x, m.b.x, m.c.x), Vector(m.a.y, m.b.y, m.c.y), Vector(m.a.z, m.b.z, m.c.z))
  }

  function Times(m: Matrix, v: Vector): Vector { Vector(Dot(m.a, v), Dot(m.b, v), Dot(m.c, v)) }

  function Multiply(m: Matrix, n: Matrix): Matrix {
    var t := Transpose(n);
    Matrix(Vector(Dot(m.a, t.a), Dot(m.a, t.b), Dot(m.a, t.c)),
           Vector(Dot(m.b, t.a), Dot(m.b, t.b), Dot(m.b, t.c)),
           Vector(Dot(m.c, t.a), Dot(m.c, t.b), Dot(m.c, t.c)))
  }

  function Diagonal(d: real): Matrix { Matrix(Vector(d, 0.0, 0.0), Vector(0.0, d, 0.0), Vector(0.0, 0.0, d)) }

  function Determinant(m: Matrix): real {
    Sum3(m.a.x, -m.a.y, m.a.z,
         Minor(m.b.y, m.b.z, m.c.y, m.c.z), Minor(m.b.x, m.b.z, m.c.x, m.c.z), Minor(m.b.x, m.b.y, m.c.x, m.c.y))
  }

  // ----- The code -----

  predicate IsRoot(root: real, square: real) { root > 0.0 && Square(root) == square }

  function Normalize(q: Quaternion, root: real): Quaternion
    requires root != 0.0
  {
    Scale(1.0 / root, q)
  }

  /** The expansion written out for the normalised quaternion. */
  function Expand(x: real, y: real, z: real, w: real): Matrix {
    var xx, yy, zz := x * x, y * y, z * z;
    var xy, xz, yz := x * y, x * z, y * z;
    var wx, wy, wz := w * x, w * y, w * z;
    Matrix(Vector(1.0 - 2.0 * (yy + zz), 2.0 * (xy - wz), 2.0 * (xz + wy)),
           Vector(2.0 * (xy + wz), 1.0 - 2.0 * (xx + zz), 2.0 * (yz - wx)),
           Vector(2.0 * (xz - wy), 2.0 * (yz + wx), 1.0 - 2.0 * (xx + yy)))
  }

  function RotationMatrix(q: Quaternion, root: real): Result<Matrix, string>
    requires LengthSquared(q) > 0.0 ==> IsRoot(root, LengthSquared(q))
  {
    if LengthSquared(q) <= 0.0 then Err("pose_rotation_degenerate")
    else
      var n := Normalize(q, root);
      Ok(Expand(n.x, n.y, n.z, n.w))
  }

  /** The same matrix without the division: every entry is of degree two. */
  function Homogeneous(q: Quaternion): Matrix {
    Matrix(Vector(Diag(q.x, q.y, q.z, q.w), Off(q.x, q.y, q.z, q.w), On(q.x, q.z, q.y, q.w)),
           Vector(On(q.x, q.y, q.z, q.w), Diag(q.y, q.z, q.x, q.w), Off(q.y, q.z, q.x, q.w)),
           Vector(Off(q.x, q.z, q.y, q.w), On(q.y, q.z, q.x, q.w), Diag(q.z, q.x, q.y, q.w)))
  }

  // ----- Scalar identities, multiplied out and then named -----

  lemma ExpandedDiagonal(x: real, y: real, z: real, w: real)
    requires Norm(x, y, z, w) == 1.0
    ensures 1.0 - 2.0 * (y * y + z * z) == Diag(x, y, z, w)
    ensures 1.0 - 2.0 * (x * x + z * z) == Diag(y, z, x, w)
    ensures 1.0 - 2.0 * (x * x + y * y) == Diag(z, x, y, w)
  {
  }

  lemma ExpandedMatrix(x: real, y: real, z: real, w: real)
    requires Norm(x, y, z, w) == 1.0
    ensures Expand(x, y, z, w)
      == Matrix(Vector(Diag(x, y, z, w), Off(x, y, z, w), On(x, z, y, w)),
                Vector(On(x, y, z, w), Diag(y, z, x, w), Off(y, z, x, w)),
                Vector(Off(x, z, y, w), On(y, z, x, w), Diag(z, x, y, w)))
  {
    ExpandedDiagonal(x, y, z, w);
  }

  lemma Symmetric(x: real, y: real, z: real, w: real)
    ensures On(x, y, z, w) == On(y, x, z, w) && Off(x, y, z, w) == Off(y, x, z, w)
    ensures Diag(x, y, z, w) == Diag(x, z, y, w) && Norm(x, y, z, w) == Norm(y, z, x, w)
  {
  }

  lemma Opposite(x: real, y: real, z: real, w: real)
    ensures On(-x, -y, -z, w) == Off(x, y, z, w) && Off(-x, -y, -z, w) == On(x, y, z, w)
    ensures Diag(-x, -y, -z, w) == Diag(x, y, z, w) && Norm(-x, -y, -z, w) == Norm(x, y, z, w)
  {
  }

  lemma RowSquaredExpanded(x: real, y: real, z: real, w: real)
    ensures Sum3(w * w + x * x - y * y - z * z, 2.0 * (x * y - w * z), 2.0 * (x * z + w * y),
        w * w + x * x - y * y - z * z, 2.0 * (x * y - w * z), 2.0 * (x * z + w * y))
      == Square(x * x + y * y + z * z + w * w)
  {
  }

  lemma RowSquared(x: real, y: real, z: real, w: real)
    ensures Sum3(Diag(x, y, z, w), Off(x, y, z, w), On(x, z, y, w), Diag(x, y, z, w), Off(x, y, z, w), On(x, z, y, w))
      == Square(Norm(x, y, z, w))
  {
    RowSquaredExpanded(x, y, z, w);
  }

  lemma RowsCrossExpanded(x: real, y: real, z: real, w: real)
    ensures Sum3(w * w + x * x - y * y - z * z, 2.0 * (x * y - w * z), 2.0 * (x * z + w * y), 2.0 * (x * y + w * z),
        w * w + y * y - z * z - x * x, 2.0 * (y * z - w * x))
      == 0.0
  {
  }

  lemma RowsCross(x: real, y: real, z: real, w: real)
    ensures Sum3(Diag(x, y, z, w), Off(x, y, z, w), On(x, z, y, w), On(x, y, z, w), Diag(y, z, x, w), Off(y, z, x, w))
      == 0.0
  {
    RowsCrossExpanded(x, y, z, w);
  }

  lemma FirstMinorExpanded(x: real, y: real, z: real, w: real)
    ensures Minor(w * w + y * y - z * z - x * x, 2.0 * (y * z - w * x), 2.0 * (y * z + w * x),
      w * w + z * z - x * x - y * y)
      == Mul(x * x + y * y + z * z + w * w, w * w + x * x - y * y - z * z)
  {
  }

  lemma FirstMinor(x: real, y: real, z: real, w: real)
    ensures Minor(Diag(y, z, x, w), Off(y, z, x, w), On(y, z, x, w), Diag(z, x, y, w))
      == Mul(Norm(x, y, z, w), Diag(x, y, z, w))
  {
    FirstMinorExpanded(x, y, z, w);
  }

  lemma SecondMinorExpanded(x: real, y: real, z: real, w: real)
    ensures Minor(2.0 * (x * y + w * z), 2.0 * (y * z - w * x), 2.0 * (x * z - w * y), w * w + z * z - x * x - y * y)
      == Mul(x * x + y * y + z * z + w * w, -(2.0 * (x * y - w * z)))
  {
  }

  lemma SecondMinor(x: real, y: real, z: real, w: real)
    ensures Minor(On(x, y, z, w), Off(y, z, x, w), Off(x, z, y, w), Diag(z, x, y, w))
      == Mul(Norm(x, y, z, w), -Off(x, y, z, w))
  {
    SecondMinorExpanded(x, y, z, w);
  }

  lemma ThirdMinorExpanded(x: real, y: real, z: real, w: real)
    ensures Minor(2.0 * (x * y + w * z), w * w + y * y - z * z - x * x, 2.0 * (x * z - w * y), 2.0 * (y * z + w * x))
      == Mul(x * x + y * y + z * z + w * w, 2.0 * (x * z + w * y))
  {
  }

  lemma ThirdMinor(x: real, y: real, z: real, w: real)
    ensures Minor(On(x, y, z, w), Diag(y, z, x, w), Off(x, z, y, w), On(y, z, x, w))
      == Mul(Norm(x, y, z, w), On(x, z, y, w))
  {
    ThirdMinorExpanded(x, y, z, w);
  }

  lemma ProductFirstExpanded(px: real, py: real, pz: real, pw: real, qx: real, qy: real, qz: real, qw: real)
    ensures Diag(pw * qx + px * qw + py * qz - pz * qy, pw * qy + py * qw + pz * qx - px * qz,
        pw * qz + pz * qw + px * qy - py * qx, pw * qw - px * qx - py * qy - pz * qz)
      == Sum3(pw * pw + px * px - py * py - pz * pz, 2.0 * (px * py - pw * pz), 2.0 * (px * pz + pw * py),
          qw * qw + qx * qx - qy * qy - qz * qz, 2.0 * (qx * qy + qw * qz), 2.0 * (qx * qz - qw * qy))
  {
  }

  lemma ProductFirst(px: real, py: real, pz: real, pw: real, qx: real, qy: real, qz: real, qw: real)
    ensures Diag(Mix(pw, px, py, pz, qx, qw, qz, qy), Mix(pw, py, pz, px, qy, qw, qx, qz), Mix(pw, pz, px, py, qz, qw,
        qy, qx), Real(pw, px, py, pz, qw, qx, qy, qz))
      == Sum3(Diag(px, py, pz, pw), Off(px, py, pz, pw), On(px, pz, py, pw), Diag(qx, qy, qz, qw), On(qx, qy, qz, qw),
          Off(qx, qz, qy, qw))
  {
    ProductFirstExpanded(px, py, pz, pw, qx, qy, qz, qw);
  }

  lemma ProductSecondExpanded(px: real, py: real, pz: real, pw: real, qx: real, qy: real, qz: real, qw: real)
    ensures Off(pw * qx + px * qw + py * qz - pz * qy, pw * qy + py * qw + pz * qx - px * qz,
        pw * qz + pz * qw + px * qy - py * qx, pw * qw - px * qx - py * qy - pz * qz)
      == Sum3(pw * pw + px * px - py * py - pz * pz, 2.0 * (px * py - pw * pz), 2.0 * (px * pz + pw * py),
          2.0 * (qx * qy - qw * qz), qw * qw + qy * qy - qz * qz - qx * qx, 2.0 * (qy * qz + qw * qx))
  {
  }

  lemma ProductSecond(px: real, py: real, pz: real, pw: real, qx: real, qy: real, qz: real, qw: real)
    ensures Off(Mix(pw, px, py, pz, qx, qw, qz, qy), Mix(pw, py, pz, px, qy, qw, qx, qz),
      Mix(pw, pz, px, py, qz, qw, qy,
        qx), Real(pw, px, py, pz, qw, qx, qy, qz))
      == Sum3(Diag(px, py, pz, pw), Off(px, py, pz, pw), On(px, pz, py, pw), Off(qx, qy, qz, qw), Diag(qy, qz, qx, qw),
          On(qy, qz, qx, qw))
  {
    ProductSecondExpanded(px, py, pz, pw, qx, qy, qz, qw);
  }

  lemma ProductThirdExpanded(px: real, py: real, pz: real, pw: real, qx: real, qy: real, qz: real, qw: real)
    ensures On(pw * qx + px * qw + py * qz - pz * qy, pw * qz + pz * qw + px * qy - py * qx,
        pw * qy + py * qw + pz * qx - px * qz, pw * qw - px * qx - py * qy - pz * qz)
      == Sum3(pw * pw + px * px - py * py - pz * pz, 2.0 * (px * py - pw * pz), 2.0 * (px * pz + pw * py),
          2.0 * (qx * qz + qw * qy), 2.0 * (qy * qz - qw * qx), qw * qw + qz * qz - qx * qx - qy * qy)
  {
  }

  lemma ProductThird(px: real, py: real, pz: real, pw: real, qx: real, qy: real, qz: real, qw: real)
    ensures On(Mix(pw, px, py, pz, qx, qw, qz, qy), Mix(pw, pz, px, py, qz, qw, qy, qx), Mix(pw, py, pz, px, qy, qw, qx,
        qz), Real(pw, px, py, pz, qw, qx, qy, qz))
      == Sum3(Diag(px, py, pz, pw), Off(px, py, pz, pw), On(px, pz, py, pw), On(qx, qz, qy, qw), Off(qy, qz, qx, qw),
          Diag(qz, qx, qy, qw))
  {
    ProductThirdExpanded(px, py, pz, pw, qx, qy, qz, qw);
  }

  lemma ProductNormExpanded(px: real, py: real, pz: real, pw: real, qx: real, qy: real, qz: real, qw: real)
    ensures Norm(pw * qx + px * qw + py * qz - pz * qy, pw * qy + py * qw + pz * qx - px * qz,
        pw * qz + pz * qw + px * qy - py * qx, pw * qw - px * qx - py * qy - pz * qz)
      == Mul(px * px + py * py + pz * pz + pw * pw, qx * qx + qy * qy + qz * qz + qw * qw)
  {
  }

  lemma ProductNorm(px: real, py: real, pz: real, pw: real, qx: real, qy: real, qz: real, qw: real)
    ensures Norm(Mix(pw, px, py, pz, qx, qw, qz, qy), Mix(pw, py, pz, px, qy, qw, qx, qz), Mix(pw, pz, px, py, qz, qw,
        qy, qx), Real(pw, px, py, pz, qw, qx, qy, qz))
      == Mul(Norm(px, py, pz, pw), Norm(qx, qy, qz, qw))
  {
    ProductNormExpanded(px, py, pz, pw, qx, qy, qz, qw);
  }

  lemma RealCycles(px: real, py: real, pz: real, pw: real, qx: real, qy: real, qz: real, qw: real)
    ensures Real(pw, py, pz, px, qw, qy, qz, qx) == Real(pw, px, py, pz, qw, qx, qy, qz)
  {
  }

  function Conjugated(a: real, b: real, c: real, d: real, e: real, f: real, g: real,
      h: real): real { a * e + b * f - c * g + d * h }

  lemma SignsOut(a: real, b: real, c: real, d: real, x: real, y: real, z: real, w: real)
    ensures Mix(-a, b, c, d, -x, w, -z, -y) == Conjugated(a, b, c, d, x, w, z, y)
    ensures Real(-a, b, c, d, w, -x, -y, -z) == Mix(b, c, d, a, x, y, z, w)
  {
  }

  lemma SandwichedExpanded(x: real, y: real, z: real, w: real, a: real, b: real, c: real)
    ensures Conjugated(x * a + y * b + z * c, w * a + y * c - z * b, w * b + z * a - x * c, w * c + x * b - y * a, x, w,
        z, y)
      == Sum3(w * w + x * x - y * y - z * z, 2.0 * (x * y - w * z), 2.0 * (x * z + w * y), a, b, c)
  {
  }

  lemma SandwichedRealExpanded(x: real, y: real, z: real, w: real, a: real, b: real, c: real)
    ensures Mix(w * a + y * c - z * b, w * b + z * a - x * c, w * c + x * b - y * a, x * a + y * b + z * c, x, y, z,
        w) == 0.0
  {
  }

  lemma PureProduct(x: real, y: real, z: real, w: real, a: real, b: real, c: real)
    ensures Mix(w, x, y, z, a, 0.0, c, b) == w * a + y * c - z * b
    ensures Mix(w, y, z, x, b, 0.0, a, c) == w * b + z * a - x * c
    ensures Mix(w, z, x, y, c, 0.0, b, a) == w * c + x * b - y * a
    ensures Real(w, x, y, z, 0.0, a, b, c) == -(x * a + y * b + z * c)
  {
  }

  lemma Sandwiched(x: real, y: real, z: real, w: real, a: real, b: real, c: real)
    ensures Mix(Real(w, x, y, z, 0.0, a, b, c), Mix(w, x, y, z, a, 0.0, c, b), Mix(w, y, z, x, b, 0.0, a, c), Mix(w, z,
        x, y, c, 0.0, b, a),
                -x, w, -z, -y)
      == Sum3(Diag(x, y, z, w), Off(x, y, z, w), On(x, z, y, w), a, b, c)
    ensures Real(Real(w, x, y, z, 0.0, a, b, c), Mix(w, x, y, z, a, 0.0, c, b), Mix(w, y, z, x, b, 0.0, a, c), Mix(w, z,
        x, y, c, 0.0, b, a),
                 w, -x, -y, -z) == 0.0
  {
    PureProduct(x, y, z, w, a, b, c);
    SignsOut(x * a + y * b + z * c, w * a + y * c - z * b, w * b + z * a - x * c, w * c + x * b - y * a, x, y, z, w);
    SandwichedExpanded(x, y, z, w, a, b, c);
    SandwichedRealExpanded(x, y, z, w, a, b, c);
  }

  lemma Expansion(n: real, a: real, b: real, c: real)
    requires Sum3(a, b, c, a, b, c) == Square(n)
    ensures Sum3(a, -b, c, Mul(n, a), Mul(n, -b), Mul(n, c)) == Cube(n)
  {
    ExpansionExpanded(n, a, b, c);
    CubeOf(n, Square(n));
  }

  lemma ExpansionExpanded(n: real, a: real, b: real, c: real)
    ensures Sum3(a, -b, c, n * a, n * -b, n * c) == Mul(n, Sum3(a, b, c, a, b, c))
  {
  }

  lemma CubeOf(n: real, s: real)
    requires s == Square(n)
    ensures Mul(n, s) == Cube(n)
  {
  }

  // ----- The matrix without the division -----

  lemma ExpandIsHomogeneous(n: Quaternion)
    requires LengthSquared(n) == 1.0
    ensures Expand(n.x, n.y, n.z, n.w) == Homogeneous(n)
  {
    ExpandedMatrix(n.x, n.y, n.z, n.w);
  }

  // The first row is computed; the others follow by renaming the axes.

  function Cycled(q: Quaternion): Quaternion { Quaternion(q.y, q.z, q.x, q.w) }

  function Turn(v: Vector): Vector { Vector(v.z, v.x, v.y) }

  lemma CycledRows(q: Quaternion)
    ensures LengthSquared(Cycled(q)) == LengthSquared(q)
    ensures
      var h, k := Homogeneous(q), Homogeneous(Cycled(q));
      h.b == Turn(k.a) && h.c == Turn(k.b) && h.a == Turn(k.c)
  {
    Symmetric(q.x, q.y, q.z, q.w);
    Symmetric(q.y, q.x, q.z, q.w);
    Symmetric(q.x, q.z, q.y, q.w);
    Symmetric(q.y, q.z, q.x, q.w);
  }

  lemma TurnKeepsDot(u: Vector, v: Vector)
    ensures Dot(Turn(u), Turn(v)) == Dot(u, v)
  {
  }

  lemma DotCommutes(u: Vector, v: Vector)
    ensures Dot(u, v) == Dot(v, u)
  {
  }

  lemma FirstRow(q: Quaternion)
    ensures Dot(Homogeneous(q).a, Homogeneous(q).a) == Square(LengthSquared(q))
    ensures Dot(Homogeneous(q).a, Homogeneous(q).b) == 0.0
  {
    RowSquared(q.x, q.y, q.z, q.w);
    RowsCross(q.x, q.y, q.z, q.w);
  }

  lemma RowsAreOrthogonal(q: Quaternion)
    ensures
      var h, n := Homogeneous(q), Square(LengthSquared(q));
      && Dot(h.a, h.a) == n && Dot(h.b, h.b) == n && Dot(h.c, h.c) == n
      && Dot(h.a, h.b) == 0.0 && Dot(h.b, h.c) == 0.0 && Dot(h.c, h.a) == 0.0
  {
    var q2 := Cycled(q);
    var q3 := Cycled(q2);
    var h2, h3 := Homogeneous(q2), Homogeneous(q3);
    CycledRows(q);
    CycledRows(q2);
    FirstRow(q);
    FirstRow(q2);
    FirstRow(q3);
    TurnKeepsDot(h2.a, h2.a);
    TurnKeepsDot(h2.a, h2.b);
    TurnKeepsDot(h2.b, h2.b);
    TurnKeepsDot(h2.b, h2.c);
    TurnKeepsDot(h3.a, h3.a);
    TurnKeepsDot(h3.a, h3.b);
  }

  lemma RowsOfHomogeneous(q: Quaternion)
    ensures Multiply(Homogeneous(q), Transpose(Homogeneous(q))) == Diagonal(Square(LengthSquared(q)))
  {
    var h := Homogeneous(q);
    RowsAreOrthogonal(q);
    DotCommutes(h.a, h.b);
    DotCommutes(h.b, h.c);
    DotCommutes(h.c, h.a);
  }

  lemma TransposeIsConjugate(q: Quaternion)
    ensures Transpose(Homogeneous(q)) == Homogeneous(Conjugate(q))
    ensures LengthSquared(Conjugate(q)) == LengthSquared(q)
  {
    Opposite(q.x, q.y, q.z, q.w);
    Opposite(q.x, q.z, q.y, q.w);
    Opposite(q.y, q.z, q.x, q.w);
    Opposite(q.z, q.x, q.y, q.w);
  }

  lemma ColumnsOfHomogeneous(q: Quaternion)
    ensures Multiply(Transpose(Homogeneous(q)), Homogeneous(q)) == Diagonal(Square(LengthSquared(q)))
  {
    TransposeIsConjugate(q);
    RowsOfHomogeneous(Conjugate(q));
    assert Transpose(Transpose(Homogeneous(q))) == Homogeneous(q);
  }

  lemma DeterminantOfHomogeneous(q: Quaternion)
    ensures Determinant(Homogeneous(q)) == Cube(LengthSquared(q))
  {
    var a := Homogeneous(q).a;
    FirstMinor(q.x, q.y, q.z, q.w);
    SecondMinor(q.x, q.y, q.z, q.w);
    ThirdMinor(q.x, q.y, q.z, q.w);
    FirstRow(q);
    Expansion(LengthSquared(q), a.x, a.y, a.z);
  }

  lemma ProductFirstRow(p: Quaternion, q: Quaternion)
    ensures Homogeneous(Product(p, q)).a == Multiply(Homogeneous(p), Homogeneous(q)).a
  {
    ProductFirst(p.x, p.y, p.z, p.w, q.x, q.y, q.z, q.w);
    ProductSecond(p.x, p.y, p.z, p.w, q.x, q.y, q.z, q.w);
    ProductThird(p.x, p.y, p.z, p.w, q.x, q.y, q.z, q.w);
  }

  lemma CycledProduct(p: Quaternion, q: Quaternion)
    ensures Product(Cycled(p), Cycled(q)) == Cycled(Product(p, q))
  {
    RealCycles(p.x, p.y, p.z, p.w, q.x, q.y, q.z, q.w);
  }

  lemma CycledColumns(q: Quaternion)
    ensures
      var t, u := Transpose(Homogeneous(q)), Transpose(Homogeneous(Cycled(q)));
      t.b == Turn(u.a) && t.c == Turn(u.b) && t.a == Turn(u.c)
  {
    TransposeIsConjugate(q);
    TransposeIsConjugate(Cycled(q));
    CycledRows(Conjugate(q));
  }

  /** The second and third rows of a matrix product, from the renamed ones. */
  lemma CycledMultiply(p: Quaternion, q: Quaternion)
    ensures
      var m, k := Multiply(Homogeneous(p), Homogeneous(q)), Multiply(Homogeneous(Cycled(p)), Homogeneous(Cycled(q)));
      m.b == Turn(k.a) && m.c == Turn(k.b)
  {
    CycledRows(p);
    CycledColumns(q);
    var h, u := Homogeneous(Cycled(p)), Transpose(Homogeneous(Cycled(q)));
    TurnKeepsDot(h.a, u.a);
    TurnKeepsDot(h.a, u.b);
    TurnKeepsDot(h.a, u.c);
    TurnKeepsDot(h.b, u.a);
    TurnKeepsDot(h.b, u.b);
    TurnKeepsDot(h.b, u.c);
  }

  lemma HomogeneousOfProduct(p: Quaternion, q: Quaternion)
    ensures Homogeneous(Product(p, q)) == Multiply(Homogeneous(p), Homogeneous(q))
  {
    var p2, q2 := Cycled(p), Cycled(q);
    ProductFirstRow(p, q);
    ProductFirstRow(p2, q2);
    ProductFirstRow(Cycled(p2), Cycled(q2));
    CycledProduct(p, q);
    CycledProduct(p2, q2);
    CycledRows(Product(p, q));
    CycledRows(Product(p2, q2));
    CycledMultiply(p, q);
    CycledMultiply(p2, q2);
  }

  lemma LengthOfProduct(p: Quaternion, q: Quaternion)
    ensures LengthSquared(Product(p, q)) == Mul(LengthSquared(p), LengthSquared(q))
  {
    ProductNorm(p.x, p.y, p.z, p.w, q.x, q.y, q.z, q.w);
  }

  /** The vector as a quaternion without real part, between `q` and its conjugate. */
  function Sandwich(q: Quaternion, v: Vector): Quaternion {
    Product(Product(q, Quaternion(v.x, v.y, v.z, 0.0)), Conjugate(q))
  }

  lemma SandwichFirst(q: Quaternion, v: Vector)
    ensures Sandwich(q, v).w == 0.0 && Sandwich(q, v).x == Dot(Homogeneous(q).a, v)
  {
    Sandwiched(q.x, q.y, q.z, q.w, v.x, v.y, v.z);
  }

  lemma SandwichCycled(q: Quaternion, v: Vector)
    ensures Sandwich(Cycled(q), Vector(v.y, v.z, v.x)) == Cycled(Sandwich(q, v))
  {
    var e := Quaternion(v.x, v.y, v.z, 0.0);
    CycledProduct(q, e);
    CycledProduct(Product(q, e), Conjugate(q));
  }

  lemma HomogeneousIsSandwich(q: Quaternion, v: Vector)
    ensures
      var r := Sandwich(q, v);
      r.w == 0.0 && Times(Homogeneous(q), v) == Vector(r.x, r.y, r.z)
  {
    var q2, v2 := Cycled(q), Vector(v.y, v.z, v.x);
    var q3, v3 := Cycled(q2), Vector(v2.y, v2.z, v2.x);
    SandwichFirst(q, v);
    SandwichFirst(q2, v2);
    SandwichFirst(q3, v3);
    SandwichCycled(q, v);
    SandwichCycled(q2, v2);
    CycledRows(q);
    CycledRows(q2);
    TurnKeepsDot(Homogeneous(q2).a, v2);
    TurnKeepsDot(Homogeneous(q2).b, v2);
    TurnKeepsDot(Homogeneous(q3).a, v3);
  }

  // ----- What the code returns -----

  lemma ScaledNorm(k: real, x: real, y: real, z: real, w: real)
    ensures Norm(k * x, k * y, k * z, k * w) == Mul(k * k, Norm(x, y, z, w))
  {
  }

  lemma LengthOfScaled(k: real, q: Quaternion)
    ensures LengthSquared(Scale(k, q)) == Mul(Square(k), LengthSquared(q))
  {
    ScaledNorm(k, q.x, q.y, q.z, q.w);
  }

  lemma InverseSquare(i: real, root: real)
    requires Mul(i, root) == 1.0
    ensures Mul(Square(i), Square(root)) == 1.0
  {
    assert Mul(Square(i), Square(root)) == Square(Mul(i, root));
  }

  lemma InverseTimes(root: real)
    requires root > 0.0
    ensures Mul(1.0 / root, root) == 1.0
  {
  }

  lemma NormalizeIsUnit(q: Quaternion, root: real)
    requires IsRoot(root, LengthSquared(q))
    ensures LengthSquared(Normalize(q, root)) == 1.0
  {
    LengthOfScaled(1.0 / root, q);
    InverseTimes(root);
    InverseSquare(1.0 / root, root);
  }

  lemma PositiveProduct(a: real, b: real)
    requires a > 0.0 && b > 0.0
    ensures Mul(a, b) > 0.0
  {
  }

  lemma SquareSign(x: real)
    ensures Square(x) >= 0.0 && (Square(x) > 0.0 <==> x != 0.0)
  {
    if x > 0.0 {
      PositiveProduct(x, x);
    } else if x < 0.0 {
      PositiveProduct(-x, -x);
    }
  }

  lemma LengthIsPositive(q: Quaternion)
    ensures LengthSquared(q) > 0.0 <==> q != Quaternion(0.0, 0.0, 0.0, 0.0)
  {
    assert LengthSquared(q) == Square(q.x) + Square(q.y) + Square(q.z) + Square(q.w);
    SquareSign(q.x);
    SquareSign(q.y);
    SquareSign(q.z);
    SquareSign(q.w);
  }

  /** The only quaternion refused is zero. */
  lemma DegenerateIff(q: Quaternion, root: real)
    requires LengthSquared(q) > 0.0 ==> IsRoot(root, LengthSquared(q))
    ensures RotationMatrix(q, root).Err? <==> q == Quaternion(0.0, 0.0, 0.0, 0.0)
  {
    LengthIsPositive(q);
  }

  /** A non-zero quaternion whose length `root` is known. */
  predicate Rotates(q: Quaternion, root: real) { LengthSquared(q) > 0.0 && IsRoot(root, LengthSquared(q)) }

  lemma RotationIsHomogeneous(q: Quaternion, root: real)
    requires Rotates(q, root)
    ensures RotationMatrix(q, root) == Ok(Homogeneous(Normalize(q, root)))
  {
    NormalizeIsUnit(q, root);
    ExpandIsHomogeneous(Normalize(q, root));
  }

  /** Every non-zero quaternion gives a proper rotation: orthonormal rows and columns, determinant one. */
  lemma RotationIsProper(q: Quaternion, root: real)
    requires Rotates(q, root)
    ensures RotationMatrix(q, root).Ok?
    ensures
      var r := RotationMatrix(q, root).value;
      && Multiply(r, Transpose(r)) == Diagonal(1.0)
      && Multiply(Transpose(r), r) == Diagonal(1.0)
      && Determinant(r) == 1.0
  {
    var n := Normalize(q, root);
    RotationIsHomogeneous(q, root);
    NormalizeIsUnit(q, root);
    RowsOfHomogeneous(n);
    ColumnsOfHomogeneous(n);
    DeterminantOfHomogeneous(n);
    assert Square(1.0) == 1.0 && Cube(1.0) == 1.0;
  }

  lemma PositiveRootIsUnique(a: real, b: real)
    requires a > 0.0 && b > 0.0 && Square(a) == Square(b)
    ensures a == b
  {
    if a < b {
      SquareGrows(a, b);
    } else if b < a {
      SquareGrows(b, a);
    }
  }

  lemma SquareGrows(a: real, b: real)
    requires 0.0 < a < b
    ensures Square(a) < Square(b)
  {
    PositiveProduct(b - a, a + b);
  }

  lemma SquareOfProduct(a: real, b: real)
    ensures Square(Mul(a, b)) == Mul(Square(a), Square(b))
  {
  }

  /** The inverse of a product of roots. */
  lemma InverseOfProduct(a: real, b: real)
    requires a > 0.0 && b > 0.0 && Mul(a, b) > 0.0
    ensures 1.0 / Mul(a, b) == Mul(1.0 / a, 1.0 / b)
  {
    InverseTimes(a);
    InverseTimes(b);
    InverseTimes(Mul(a, b));
    InverseIsUnique(1.0 / Mul(a, b), 1.0 / a, 1.0 / b, a, b);
  }

  lemma InverseIsUnique(k: real, i: real, j: real, a: real, b: real)
    requires Mul(i, a) == 1.0 && Mul(j, b) == 1.0 && Mul(k, Mul(a, b)) == 1.0
    ensures k == Mul(i, j)
  {
    assert Mul(k, Mul(Mul(i, a), Mul(j, b))) == Mul(Mul(k, Mul(a, b)), Mul(i, j));
  }

  lemma ScaleTwice(i: real, k: real, q: Quaternion)
    ensures Scale(i, Scale(k, q)) == Scale(Mul(i, k), q)
  {
    Associative(i, k, q.x);
    Associative(i, k, q.y);
    Associative(i, k, q.z);
    Associative(i, k, q.w);
  }

  lemma Associative(i: real, k: real, x: real)
    ensures Mul(i, Mul(k, x)) == Mul(Mul(i, k), x)
  {
  }

  lemma ScaledRoot(k: real, m: real, q: Quaternion, root: real, scaledRoot: real)
    requires m > 0.0 && (m == k || m == -k) && Rotates(q, root) && Rotates(Scale(k, q), scaledRoot)
    ensures scaledRoot == Mul(m, root)
  {
    LengthOfScaled(k, q);
    assert Square(m) == Square(k);
    SquareOfProduct(m, root);
    PositiveProduct(m, root);
    PositiveRootIsUnique(scaledRoot, Mul(m, root));
  }

  lemma CancelScale(i: real, m: real, j: real, k: real)
    requires Mul(i, m) == 1.0
    ensures m == k ==> Mul(Mul(i, j), k) == j
    ensures m == -k ==> Mul(Mul(i, j), k) == -j
  {
    assert Mul(Mul(i, j), m) == Mul(Mul(i, m), j);
    assert Mul(Mul(i, j), -m) == -Mul(Mul(i, j), m);
  }

  lemma NormalizeScaled(k: real, q: Quaternion, root: real, scaledRoot: real)
    requires k != 0.0 && Rotates(q, root) && Rotates(Scale(k, q), scaledRoot)
    ensures Normalize(Scale(k, q), scaledRoot) == Scale(if k > 0.0 then 1.0 / root else -(1.0 / root), q)
  {
    var m := if k > 0.0 then k else -k;
    ScaledRoot(k, m, q, root, scaledRoot);
    InverseOfProduct(m, root);
    InverseTimes(m);
    ScaleTwice(1.0 / scaledRoot, k, q);
    CancelScale(1.0 / m, m, 1.0 / root, k);
  }

  lemma OppositeEntries(k: real, x: real, y: real, z: real, w: real)
    ensures Diag(Mul(-k, x), Mul(-k, y), Mul(-k, z), Mul(-k, w)) == Diag(Mul(k, x), Mul(k, y), Mul(k, z), Mul(k, w))
    ensures On(Mul(-k, x), Mul(-k, y), Mul(-k, z), Mul(-k, w)) == On(Mul(k, x), Mul(k, y), Mul(k, z), Mul(k, w))
    ensures Off(Mul(-k, x), Mul(-k, y), Mul(-k, z), Mul(-k, w)) == Off(Mul(k, x), Mul(k, y), Mul(k, z), Mul(k, w))
  {
    NegatedEntries(Mul(k, x), Mul(k, y), Mul(k, z), Mul(k, w));
    assert Mul(-k, x) == -Mul(k, x) && Mul(-k, y) == -Mul(k, y) && Mul(-k, z) == -Mul(k, z) && Mul(-k, w) == -Mul(k, w);
  }

  lemma NegatedEntries(x: real, y: real, z: real, w: real)
    ensures Diag(-x, -y, -z, -w) == Diag(x, y, z, w)
    ensures On(-x, -y, -z, -w) == On(x, y, z, w)
    ensures Off(-x, -y, -z, -w) == Off(x, y, z, w)
  {
  }

  lemma OppositeRotatesAlike(k: real, q: Quaternion)
    ensures Homogeneous(Scale(-k, q)) == Homogeneous(Scale(k, q))
  {
    OppositeEntries(k, q.x, q.y, q.z, q.w);
    OppositeEntries(k, q.x, q.z, q.y, q.w);
    OppositeEntries(k, q.y, q.z, q.x, q.w);
    OppositeEntries(k, q.z, q.x, q.y, q.w);
  }

  /** Neither the length of the quaternion nor its sign changes the matrix. */
  lemma ScaleInvariant(k: real, q: Quaternion, root: real, scaledRoot: real)
    requires k != 0.0 && Rotates(q, root) && Rotates(Scale(k, q), scaledRoot)
    ensures RotationMatrix(Scale(k, q), scaledRoot) == RotationMatrix(q, root)
  {
    RotationIsHomogeneous(q, root);
    RotationIsHomogeneous(Scale(k, q), scaledRoot);
    NormalizeScaled(k, q, root, scaledRoot);
    OppositeRotatesAlike(1.0 / root, q);
  }

  lemma PullOut(i: real, j: real, a: real, b: real, c: real, d: real, e: real, f: real, g: real, h: real)
    ensures Mix(Mul(i, a), Mul(i, b), Mul(i, c), Mul(i, d), Mul(j, e), Mul(j, f), Mul(j, g), Mul(j, h))
      == Mul(Mul(i, j), Mix(a, b, c, d, e, f, g, h))
    ensures Real(Mul(i, a), Mul(i, b), Mul(i, c), Mul(i, d), Mul(j, e), Mul(j, f), Mul(j, g), Mul(j, h))
      == Mul(Mul(i, j), Real(a, b, c, d, e, f, g, h))
  {
    PullOutExpanded(i, j, a, b, c, d, e, f, g, h);
  }

  lemma PullOutExpanded(i: real, j: real, a: real, b: real, c: real, d: real, e: real, f: real, g: real, h: real)
    ensures Mix(i * a, i * b, i * c, i * d, j * e, j * f, j * g, j * h) == Mul(i * j, Mix(a, b, c, d, e, f, g, h))
    ensures Real(i * a, i * b, i * c, i * d, j * e, j * f, j * g, j * h) == Mul(i * j, Real(a, b, c, d, e, f, g, h))
  {
  }

  lemma ProductOfScaled(i: real, p: Quaternion, j: real, q: Quaternion)
    ensures Product(Scale(i, p), Scale(j, q)) == Scale(Mul(i, j), Product(p, q))
  {
    PullOut(i, j, p.w, p.x, p.y, p.z, q.x, q.w, q.z, q.y);
    PullOut(i, j, p.w, p.y, p.z, p.x, q.y, q.w, q.x, q.z);
    PullOut(i, j, p.w, p.z, p.x, p.y, q.z, q.w, q.y, q.x);
    PullOut(i, j, p.w, p.x, p.y, p.z, q.w, q.x, q.y, q.z);
  }

  lemma NormalizeOfProduct(p: Quaternion, q: Quaternion, a: real, b: real, c: real)
    requires Rotates(p, a) && Rotates(q, b) && Rotates(Product(p, q), c)
    ensures Normalize(Product(p, q), c) == Product(Normalize(p, a), Normalize(q, b))
  {
    LengthOfProduct(p, q);
    SquareOfProduct(a, b);
    PositiveProduct(a, b);
    PositiveRootIsUnique(c, Mul(a, b));
    InverseOfProduct(a, b);
    ProductOfScaled(1.0 / a, p, 1.0 / b, q);
  }

  /** The product of two quaternions gives the product of their matrices. */
  lemma ProductIsComposition(p: Quaternion, q: Quaternion, a: real, b: real, c: real)
    requires Rotates(p, a) && Rotates(q, b) && Rotates(Product(p, q), c)
    ensures RotationMatrix(Product(p, q), c) == Ok(Multiply(RotationMatrix(p, a).value, RotationMatrix(q, b).value))
  {
    RotationIsHomogeneous(p, a);
    RotationIsHomogeneous(q, b);
    RotationIsHomogeneous(Product(p, q), c);
    NormalizeOfProduct(p, q, a, b, c);
    HomogeneousOfProduct(Normalize(p, a), Normalize(q, b));
  }

  /** The matrix turns a vector as the unit quaternion does, by conjugation. */
  lemma RotatesByConjugation(q: Quaternion, root: real, v: Vector)
    requires Rotates(q, root)
    ensures
      var r := Sandwich(Normalize(q, root), v);
      r.w == 0.0 && Times(RotationMatrix(q, root).value, v) == Vector(r.x, r.y, r.z)
  {
    RotationIsHomogeneous(q, root);
    HomogeneousIsSandwich(Normalize(q, root), v);
  }

  // ----- The pose -----

  datatype Pose = Pose(translation: Vector, rotation: Quaternion)

  datatype Row = Row(x: real, y: real, z: real, t: real)

  datatype Transform = Transform(a: Row, b: Row, c: Row, d: Row)

  function CameraToWorld(pose: Pose, root: real): Result<Transform, string>
    requires LengthSquared(pose.rotation) > 0.0 ==> IsRoot(root, LengthSquared(pose.rotation))
  {
    match RotationMatrix(pose.rotation, root)
    case Err(e) => Err(e)
    case Ok(r) =>
      Ok(Transform(Row(r.a.x, r.a.y, r.a.z, pose.translation.x),
                   Row(r.b.x, r.b.y, r.b.z, pose.translation.y),
                   Row(r.c.x, r.c.y, r.c.z, pose.translation.z),
                   Row(0.0, 0.0, 0.0, 1.0)))
  }

  function RowTimes(r: Row, p: Row): real { Sum3(r.x, r.y, r.z, p.x, p.y, p.z) + Mul(r.t, p.t) }

  /** The transform of a point, in homogeneous coordinates. */
  function Place(m: Transform, p: Vector): Row {
    var h := Row(p.x, p.y, p.z, 1.0);
    Row(RowTimes(m.a, h), RowTimes(m.b, h), RowTimes(m.c, h), RowTimes(m.d, h))
  }

  function Minus(u: Vector, v: Vector): Vector { Vector(u.x - v.x, u.y - v.y, u.z - v.z) }

  function Point(r: Row): Vector { Vector(r.x, r.y, r.z) }

  lemma SumMinus(a: real, b: real, c: real, d: real, e: real, f: real, g: real, h: real, i: real)
    ensures Sum3(a, b, c, d - g, e - h, f - i) == Sum3(a, b, c, d, e, f) - Sum3(a, b, c, g, h, i)
  {
  }

  lemma TimesMinus(m: Matrix, u: Vector, v: Vector)
    ensures Times(m, Minus(u, v)) == Minus(Times(m, u), Times(m, v))
  {
    SumMinus(m.a.x, m.a.y, m.a.z, u.x, u.y, u.z, v.x, v.y, v.z);
    SumMinus(m.b.x, m.b.y, m.b.z, u.x, u.y, u.z, v.x, v.y, v.z);
    SumMinus(m.c.x, m.c.y, m.c.z, u.x, u.y, u.z, v.x, v.y, v.z);
  }

  /** A squared length through a matrix, by the products of its columns. */
  lemma LengthByColumns(a: real, b: real, c: real, d: real, e: real, f: real, g: real, h: real, i: real, x: real,
      y: real, z: real)
    ensures Square(a * x + b * y + c * z) + Square(d * x + e * y + f * z) + Square(g * x + h * y + i * z)
      == Sum3(Square(x), Square(y), Square(z), Sum3(a, d, g, a, d, g), Sum3(b, e, h, b, e, h), Sum3(c, f, i, c, f, i))
       + 2.0 * Sum3(x * y, x * z, y * z, Sum3(a, d, g, b, e, h), Sum3(a, d, g, c, f, i), Sum3(b, e, h, c, f, i))
  {
  }

  lemma LengthThrough(m: Matrix, u: Vector)
    requires Multiply(Transpose(m), m) == Diagonal(1.0)
    ensures Dot(Times(m, u), Times(m, u)) == Dot(u, u)
  {
    var Matrix(a, b, c) := m;
    var t := Transpose(m);
    assert Multiply(t, m).a == Vector(1.0, 0.0, 0.0) && Multiply(t, m).b == Vector(0.0, 1.0, 0.0) && Multiply(t,
        m).c == Vector(0.0, 0.0, 1.0);
    LengthByColumns(a.x, a.y, a.z, b.x, b.y, b.z, c.x, c.y, c.z, u.x, u.y, u.z);
    UnitColumns(Square(u.x), Square(u.y), Square(u.z), u.x * u.y, u.x * u.z, u.y * u.z);
  }

  lemma UnitColumns(a: real, b: real, c: real, d: real, e: real, f: real)
    ensures Sum3(a, b, c, 1.0, 1.0, 1.0) + 2.0 * Sum3(d, e, f, 0.0, 0.0, 0.0) == a + b + c
  {
  }

  lemma PlaceIsAffine(r: Matrix, t: Vector, m: Transform, p: Vector)
    requires m == Transform(Row(r.a.x, r.a.y, r.a.z, t.x), Row(r.b.x, r.b.y, r.b.z, t.y), Row(r.c.x, r.c.y, r.c.z, t.z),
                            Row(0.0, 0.0, 0.0, 1.0))
    ensures Place(m, p) == Row(Times(r, p).x + t.x, Times(r, p).y + t.y, Times(r, p).z + t.z, 1.0)
  {
  }

  lemma OriginStays(r: Matrix)
    ensures Times(r, Vector(0.0, 0.0, 0.0)) == Vector(0.0, 0.0, 0.0)
  {
  }

  lemma Displacement(p: Row, q: Row, u: Vector, v: Vector, t: Vector)
    requires p == Row(u.x + t.x, u.y + t.y, u.z + t.z, 1.0) && q == Row(v.x + t.x, v.y + t.y, v.z + t.z, 1.0)
    ensures Minus(Point(p), Point(q)) == Minus(u, v)
  {
  }

  lemma DistanceIsKept(r: Matrix, u: Vector, v: Vector, moved: Vector)
    requires Multiply(Transpose(r), r) == Diagonal(1.0) && moved == Minus(Times(r, u), Times(r, v))
    ensures Dot(moved, moved) == Dot(Minus(u, v), Minus(u, v))
  {
    TimesMinus(r, u, v);
    LengthThrough(r, Minus(u, v));
  }

  /** `m` is the rotation `r` with translation `t` placed beside it. */
  predicate IsPlaced(m: Transform, r: Matrix, t: Vector) {
    && m.a == Row(r.a.x, r.a.y, r.a.z, t.x)
    && m.b == Row(r.b.x, r.b.y, r.b.z, t.y)
    && m.c == Row(r.c.x, r.c.y, r.c.z, t.z)
    && m.d == Row(0.0, 0.0, 0.0, 1.0)
  }

  predicate CentreAt(m: Transform, t: Vector) { Place(m, Vector(0.0, 0.0, 0.0)) == Row(t.x, t.y, t.z, 1.0) }

  predicate Moves(m: Transform, r: Matrix, t: Vector, u: Vector) {
    Place(m, u) == Row(Times(r, u).x + t.x, Times(r, u).y + t.y, Times(r, u).z + t.z, 1.0)
  }

  predicate KeepsDistance(m: Transform, u: Vector, v: Vector) {
    var moved := Minus(Point(Place(m, u)), Point(Place(m, v)));
    Dot(moved, moved) == Dot(Minus(u, v), Minus(u, v))
  }

  lemma PlacedMoves(m: Transform, r: Matrix, t: Vector, u: Vector)
    requires IsPlaced(m, r, t)
    ensures Moves(m, r, t, u)
  {
    PlaceIsAffine(r, t, m, u);
  }

  lemma PlacedCentre(m: Transform, r: Matrix, t: Vector)
    requires IsPlaced(m, r, t)
    ensures CentreAt(m, t)
  {
    PlaceIsAffine(r, t, m, Vector(0.0, 0.0, 0.0));
    OriginStays(r);
  }

  lemma PlacedDistance(m: Transform, r: Matrix, t: Vector, u: Vector, v: Vector)
    requires Moves(m, r, t, u) && Moves(m, r, t, v) && Multiply(Transpose(r), r) == Diagonal(1.0)
    ensures KeepsDistance(m, u, v)
  {
    Displacement(Place(m, u), Place(m, v), Times(r, u), Times(r, v), t);
    DistanceIsKept(r, u, v, Minus(Point(Place(m, u)), Point(Place(m, v))));
  }

  /**
   * The camera-to-world matrix is a rigid motion that puts the camera's centre at
   * the translation: every point goes to its rotated self plus the translation, and
   * the distance between any two points is kept.
   */
  lemma PoseIsRigid(pose: Pose, root: real, u: Vector, v: Vector)
    requires Rotates(pose.rotation, root)
    ensures CameraToWorld(pose, root).Ok?
    ensures
      var m := CameraToWorld(pose, root).value;
      && CentreAt(m, pose.translation)
      && Moves(m, RotationMatrix(pose.rotation, root).value, pose.translation, u)
      && KeepsDistance(m, u, v)
  {
    var m, r := CameraToWorld(pose, root).value, RotationMatrix(pose.rotation, root).value;
    RotationIsProper(pose.rotation, root);
    assert IsPlaced(m, r, pose.translation);
    PlacedCentre(m, r, pose.translation);
    PlacedMoves(m, r, pose.translation, u);
    PlacedMoves(m, r, pose.translation, v);
    PlacedDistance(m, r, pose.translation, u, v);
  }
}
