/** The least-squares circle through a set of points (Kåsa's fit):
  * fitCircleCentre in src/services/tracking-helpers.ts. */
module CircleFit {
  import opened Options
  import opened Plane

  datatype Centre = Centre(cx: real, cy: real)

  /** The circle x*x + y*y + D*x + E*y + F == 0. */
  datatype Circle = Circle(D: real, E: real, F: real)

  /** How far a point is from satisfying the circle's equation. */
  function Residual(c: Circle, p: Point): real {
    p.x * p.x + p.y * p.y + c.D * p.x + c.E * p.y + c.F
  }

  /** The sum of f over the points. */
  function SumOf(f: Point -> real, pts: seq<Point>): real {
    if pts == [] then 0.0 else SumOf(f, pts[..|pts| - 1]) + f(pts[|pts| - 1])
  }

  function Squared(c: Circle): Point -> real { (p: Point) => Residual(c, p) * Residual(c, p) }

  /** What the fit minimises. */
  function SumSquares(c: Circle, pts: seq<Point>): real { SumOf(Squared(c), pts) }

  function One(): Point -> real { (p: Point) => 1.0 }
  function X(): Point -> real { (p: Point) => p.x }
  function Y(): Point -> real { (p: Point) => p.y }
  function XX(): Point -> real { (p: Point) => p.x * p.x }
  function XY(): Point -> real { (p: Point) => p.x * p.y }
  function YY(): Point -> real { (p: Point) => p.y * p.y }
  function Z(): Point -> real { (p: Point) => p.x * p.x + p.y * p.y }
  function XZ(): Point -> real { (p: Point) => p.x * (p.x * p.x + p.y * p.y) }
  function YZ(): Point -> real { (p: Point) => p.y * (p.x * p.x + p.y * p.y) }

  /** The sums the normal equations are made of. */
  datatype Moments = Moments(n: real, sx: real, sy: real, sxx: real, sxy: real, syy: real, sz: real, sxz: real,
      syz: real)

  function MomentsOf(pts: seq<Point>): Moments {
    Moments(SumOf(One(), pts), SumOf(X(), pts), SumOf(Y(), pts), SumOf(XX(), pts), SumOf(XY(), pts), SumOf(YY(), pts),
            SumOf(Z(), pts), SumOf(XZ(), pts), SumOf(YZ(), pts))
  }

  function Det3(a: real, b: real, c: real, d: real, e: real, f: real, g: real, h: real, i: real): real {
    a * (e * i - f * h) - b * (d * i - f * g) + c * (d * h - e * g)
  }

  function Det(m: Moments): real {
    Det3(m.sxx, m.sxy, m.sx, m.sxy, m.syy, m.sy, m.sx, m.sy, m.n)
  }

  /** The three normal equations: the residuals are orthogonal to x, y and 1. */
  predicate Normal(m: Moments, c: Circle) {
    && m.sxx * c.D + m.sxy * c.E + m.sx * c.F == -m.sxz
    && m.sxy * c.D + m.syy * c.E + m.sy * c.F == -m.syz
    && m.sx * c.D + m.sy * c.E + m.n * c.F == -m.sz
  }

  // ---------- The fit ----------

  const MIN_DET := 0.000000001

  function AbsReal(x: real): real { if x < 0.0 then -x else x }

  /** Cramer's rule on the normal equations. */
  function Solve(m: Moments): Circle
    requires Det(m) != 0.0
  {
    Circle(Det3(-m.sxz, m.sxy, m.sx, -m.syz, m.syy, m.sy, -m.sz, m.sy, m.n) / Det(m),
           Det3(m.sxx, -m.sxz, m.sx, m.sxy, -m.syz, m.sy, m.sx, -m.sz, m.n) / Det(m),
           Det3(m.sxx, m.sxy, -m.sxz, m.sxy, m.syy, -m.syz, m.sx, m.sy, -m.sz) / Det(m))
  }

  /** The fitted circle, when there are three points and they pin one down. */
  function Fit(pts: seq<Point>): Option<Circle> {
    if |pts| < 3 || AbsReal(Det(MomentsOf(pts))) < MIN_DET then None else Some(Solve(MomentsOf(pts)))
  }

  /** The sums with one point more. */
  function More(m: Moments, p: Point): Moments {
    var z := p.x * p.x + p.y * p.y;
    Moments(m.n + 1.0, m.sx + p.x, m.sy + p.y, m.sxx + p.x * p.x, m.sxy + p.x * p.y, m.syy + p.y * p.y,
            m.sz + z, m.sxz + p.x * z, m.syz + p.y * z)
  }

  lemma MomentsMore(pts: seq<Point>, n: nat)
    requires n < |pts|
    ensures MomentsOf(pts[..n + 1]) == More(MomentsOf(pts[..n]), pts[n])
  {
    assert pts[..n + 1][..n] == pts[..n];
  }

  method Accumulate(pts: seq<Point>) returns (m: Moments)
    ensures m == MomentsOf(pts)
  {
    var sxx, sxy, syy, sx, sy, sz, sxz, syz := 0.0, 0.0, 0.0, 0.0, 0.0, 0.0, 0.0, 0.0;
    var n := 0.0;
    assert MomentsOf(pts[..0]) == Moments(0.0, 0.0, 0.0, 0.0, 0.0, 0.0, 0.0, 0.0, 0.0);
    hide MomentsOf;
    for i := 0 to |pts|
      invariant Moments(n, sx, sy, sxx, sxy, syy, sz, sxz, syz) == MomentsOf(pts[..i])
    {
      var x, y := pts[i].x, pts[i].y;
      var z := x * x + y * y;
      sxx, sxy, syy, sx, sy := sxx + x * x, sxy + x * y, syy + y * y, sx + x, sy + y;
      sz, sxz, syz, n := sz + z, sxz + x * z, syz + y * z, n + 1.0;
      MomentsMore(pts, i);
    }
    assert pts[..|pts|] == pts;
    m := Moments(n, sx, sy, sxx, sxy, syy, sz, sxz, syz);
  }

  method FitCircleCentre(pts: seq<Point>) returns (r: Option<Centre>)
    ensures r == match Fit(pts) case None => None case Some(c) => Some(Centre(-c.D / 2.0, -c.E / 2.0))
  {
    if |pts| < 3 { return None; }
    var m := Accumulate(pts);
    var det := Det(m);
    if AbsReal(det) < MIN_DET { return None; }
    var D := Det3(-m.sxz, m.sxy, m.sx, -m.syz, m.syy, m.sy, -m.sz, m.sy, m.n) / det;
    var E := Det3(m.sxx, -m.sxz, m.sx, m.sxy, -m.syz, m.sy, m.sx, -m.sz, m.n) / det;
    return Some(Centre(-D / 2.0, -E / 2.0));
  }

  // ---------- Cramer's rule ----------

  /** Expanding a determinant with column (p, q, r) in each place solves the
    * system: row (a, b, c) of the matrix against the three numerators. */
  lemma CramerRow1(a: real, b: real, c: real, d: real, e: real, f: real, g: real, h: real, i: real, p: real, q: real,
      r: real)
    ensures a * Det3(p, b, c, q, e, f, r, h, i) + b * Det3(a, p, c, d, q, f, g, r, i) +
            c * Det3(a, b, p, d, e, q, g, h, r)
         == p * Det3(a, b, c, d, e, f, g, h, i)
  {
  }

  lemma CramerRow2(a: real, b: real, c: real, d: real, e: real, f: real, g: real, h: real, i: real, p: real, q: real,
      r: real)
    ensures d * Det3(p, b, c, q, e, f, r, h, i) + e * Det3(a, p, c, d, q, f, g, r, i) +
            f * Det3(a, b, p, d, e, q, g, h, r)
         == q * Det3(a, b, c, d, e, f, g, h, i)
  {
  }

  lemma CramerRow3(a: real, b: real, c: real, d: real, e: real, f: real, g: real, h: real, i: real, p: real, q: real,
      r: real)
    ensures g * Det3(p, b, c, q, e, f, r, h, i) + h * Det3(a, p, c, d, q, f, g, r, i) +
            i * Det3(a, b, p, d, e, q, g, h, r)
         == r * Det3(a, b, c, d, e, f, g, h, i)
  {
  }

  lemma DivideRow(a: real, x: real, b: real, y: real, c: real, z: real, p: real, det: real)
    requires det != 0.0 && a * x + b * y + c * z == p * det
    ensures a * (x / det) + b * (y / det) + c * (z / det) == p
  {
    var u, v, w := x / det, y / det, z / det;
    assert u * det == x && v * det == y && w * det == z;
    assert (a * u + b * v + c * w - p) * det == 0.0;
  }

  lemma SolveRow1(a: real, b: real, c: real, d: real, e: real, f: real, g: real, h: real, i: real, p: real, q: real,
      r: real)
    requires Det3(a, b, c, d, e, f, g, h, i) != 0.0
    ensures var det := Det3(a, b, c, d, e, f, g, h, i);
            a * (Det3(p, b, c, q, e, f, r, h, i) / det) + b * (Det3(a, p, c, d, q, f, g, r, i) / det)
            + c * (Det3(a, b, p, d, e, q, g, h, r) / det) == p
  {
    CramerRow1(a, b, c, d, e, f, g, h, i, p, q, r);
    DivideRow(a, Det3(p, b, c, q, e, f, r, h, i), b, Det3(a, p, c, d, q, f, g, r, i),
              c, Det3(a, b, p, d, e, q, g, h, r), p, Det3(a, b, c, d, e, f, g, h, i));
  }

  lemma SolveRow2(a: real, b: real, c: real, d: real, e: real, f: real, g: real, h: real, i: real, p: real, q: real,
      r: real)
    requires Det3(a, b, c, d, e, f, g, h, i) != 0.0
    ensures var det := Det3(a, b, c, d, e, f, g, h, i);
            d * (Det3(p, b, c, q, e, f, r, h, i) / det) + e * (Det3(a, p, c, d, q, f, g, r, i) / det)
            + f * (Det3(a, b, p, d, e, q, g, h, r) / det) == q
  {
    CramerRow2(a, b, c, d, e, f, g, h, i, p, q, r);
    DivideRow(d, Det3(p, b, c, q, e, f, r, h, i), e, Det3(a, p, c, d, q, f, g, r, i),
              f, Det3(a, b, p, d, e, q, g, h, r), q, Det3(a, b, c, d, e, f, g, h, i));
  }

  lemma SolveRow3(a: real, b: real, c: real, d: real, e: real, f: real, g: real, h: real, i: real, p: real, q: real,
      r: real)
    requires Det3(a, b, c, d, e, f, g, h, i) != 0.0
    ensures var det := Det3(a, b, c, d, e, f, g, h, i);
            g * (Det3(p, b, c, q, e, f, r, h, i) / det) + h * (Det3(a, p, c, d, q, f, g, r, i) / det)
            + i * (Det3(a, b, p, d, e, q, g, h, r) / det) == r
  {
    CramerRow3(a, b, c, d, e, f, g, h, i, p, q, r);
    DivideRow(g, Det3(p, b, c, q, e, f, r, h, i), h, Det3(a, p, c, d, q, f, g, r, i),
              i, Det3(a, b, p, d, e, q, g, h, r), r, Det3(a, b, c, d, e, f, g, h, i));
  }

  lemma SolveIsNormal(m: Moments)
    requires Det(m) != 0.0
    ensures Normal(m, Solve(m))
  {
    SolveRow1(m.sxx, m.sxy, m.sx, m.sxy, m.syy, m.sy, m.sx, m.sy, m.n, -m.sxz, -m.syz, -m.sz);
    SolveRow2(m.sxx, m.sxy, m.sx, m.sxy, m.syy, m.sy, m.sx, m.sy, m.n, -m.sxz, -m.syz, -m.sz);
    SolveRow3(m.sxx, m.sxy, m.sx, m.sxy, m.syy, m.sy, m.sx, m.sy, m.n, -m.sxz, -m.syz, -m.sz);
  }

  // ---------- Linearity of the sums ----------

  /** A sum of a combination of six functions is that combination of sums. */
  lemma {:induction false} SumLinear(f: Point -> real, pts: seq<Point>,
      f1: Point -> real, k1: real, f2: Point -> real, k2: real, f3: Point -> real, k3: real,
      f4: Point -> real, k4: real, f5: Point -> real, k5: real, f6: Point -> real, k6: real)
    requires forall p :: f(p) == k1 * f1(p) + k2 * f2(p) + k3 * f3(p) + k4 * f4(p) + k5 * f5(p) + k6 * f6(p)
    ensures SumOf(f, pts) == k1 * SumOf(f1, pts) + k2 * SumOf(f2, pts) + k3 * SumOf(f3, pts)
                             + k4 * SumOf(f4, pts) + k5 * SumOf(f5, pts) + k6 * SumOf(f6, pts)
  {
    if pts != [] {
      SumLinear(f, pts[..|pts| - 1], f1, k1, f2, k2, f3, k3, f4, k4, f5, k5, f6, k6);
    }
  }

  lemma Distributes(k: real, a: real, b: real)
    ensures k * (a + b) == k * a + k * b
  {
  }

  /** A sum of three multiples and a function as it is. */
  lemma {:induction false} SumPlusThree(f: Point -> real, pts: seq<Point>, f0: Point -> real,
      f1: Point -> real, k1: real, f2: Point -> real, k2: real, f3: Point -> real, k3: real)
    requires forall p :: f(p) == f0(p) + k1 * f1(p) + k2 * f2(p) + k3 * f3(p)
    ensures SumOf(f, pts) == SumOf(f0, pts) + k1 * SumOf(f1, pts) + k2 * SumOf(f2, pts) + k3 * SumOf(f3, pts)
  {
    if pts != [] {
      var rest, p := pts[..|pts| - 1], pts[|pts| - 1];
      SumPlusThree(f, rest, f0, f1, k1, f2, k2, f3, k3);
      Distributes(k1, SumOf(f1, rest), f1(p));
      Distributes(k2, SumOf(f2, rest), f2(p));
      Distributes(k3, SumOf(f3, rest), f3(p));
    }
  }

  /** A sum of three multiples. */
  lemma {:induction false} SumThree(f: Point -> real, pts: seq<Point>,
      f1: Point -> real, k1: real, f2: Point -> real, k2: real, f3: Point -> real, k3: real)
    requires forall p :: f(p) == k1 * f1(p) + k2 * f2(p) + k3 * f3(p)
    ensures SumOf(f, pts) == k1 * SumOf(f1, pts) + k2 * SumOf(f2, pts) + k3 * SumOf(f3, pts)
  {
    if pts != [] {
      var rest, p := pts[..|pts| - 1], pts[|pts| - 1];
      SumThree(f, rest, f1, k1, f2, k2, f3, k3);
      Distributes(k1, SumOf(f1, rest), f1(p));
      Distributes(k2, SumOf(f2, rest), f2(p));
      Distributes(k3, SumOf(f3, rest), f3(p));
    }
  }

  lemma {:induction false} SumVanishes(f: Point -> real, pts: seq<Point>)
    requires forall p | p in pts :: f(p) == 0.0
    ensures SumOf(f, pts) == 0.0
  {
    if pts != [] {
      SumVanishes(f, pts[..|pts| - 1]);
      assert pts[|pts| - 1] in pts;
    }
  }

  lemma {:induction false} SumOfNonNegative(f: Point -> real, pts: seq<Point>)
    requires forall p :: f(p) >= 0.0
    ensures SumOf(f, pts) >= 0.0
    ensures SumOf(f, pts) == 0.0 ==> forall p | p in pts :: f(p) == 0.0
  {
    if pts != [] {
      SumOfNonNegative(f, pts[..|pts| - 1]);
      assert pts == pts[..|pts| - 1] + [pts[|pts| - 1]];
    }
  }

  lemma SumOfOnes(pts: seq<Point>)
    ensures SumOf(One(), pts) == |pts| as real
  {
    if pts != [] { SumOfOnes(pts[..|pts| - 1]); }
  }

  // ---------- Optimality ----------

  /** An affine form a*x + b*y + c. */
  datatype Line = Line(a: real, b: real, c: real)

  function At(l: Line, p: Point): real { l.a * p.x + l.b * p.y + l.c }

  function AtSquared(l: Line): Point -> real { (p: Point) => At(l, p) * At(l, p) }
  function Product(c: Circle, l: Line): Point -> real { (p: Point) => Residual(c, p) * At(l, p) }
  function TimesX(c: Circle): Point -> real { (p: Point) => p.x * Residual(c, p) }
  function TimesY(c: Circle): Point -> real { (p: Point) => p.y * Residual(c, p) }
  function Res(c: Circle): Point -> real { (p: Point) => Residual(c, p) }

  function Shift(c: Circle, l: Line): Circle { Circle(c.D + l.a, c.E + l.b, c.F + l.c) }

  lemma ShiftedSquare(c: Circle, l: Line, p: Point)
    ensures Squared(Shift(c, l))(p) == 1.0 * Squared(c)(p) + 2.0 * Product(c, l)(p) + 1.0 * AtSquared(l)(p)
  {
    var r, d := Residual(c, p), At(l, p);
    assert Residual(Shift(c, l), p) == r + d;
    assert (r + d) * (r + d) == r * r + 2.0 * (r * d) + d * d;
  }

  /** Moving the circle by `l` changes the sum of squares by a linear and a
    * quadratic part. */
  lemma Expand(c: Circle, l: Line, pts: seq<Point>)
    ensures SumSquares(Shift(c, l), pts) ==
            SumSquares(c, pts) + 2.0 * SumOf(Product(c, l), pts) + SumOf(AtSquared(l), pts)
  {
    forall p ensures Squared(Shift(c, l))(p) == 1.0 * Squared(c)(p) + 2.0 * Product(c, l)(p) + 1.0 * AtSquared(l)(p) {
      ShiftedSquare(c, l, p);
    }
    SumThree(Squared(Shift(c, l)), pts, Squared(c), 1.0, Product(c, l), 2.0, AtSquared(l), 1.0);
  }

  lemma TimesXAt(c: Circle, p: Point)
    ensures TimesX(c)(p) == XZ()(p) + c.D * XX()(p) + c.E * XY()(p) + c.F * X()(p)
  {
    var x, y := p.x, p.y;
    var z := x * x + y * y;
    assert x * (z + c.D * x + c.E * y + c.F) == x * z + c.D * (x * x) + c.E * (x * y) + c.F * x;
  }

  lemma TimesYAt(c: Circle, p: Point)
    ensures TimesY(c)(p) == YZ()(p) + c.D * XY()(p) + c.E * YY()(p) + c.F * Y()(p)
  {
    var x, y := p.x, p.y;
    var z := x * x + y * y;
    assert y * (z + c.D * x + c.E * y + c.F) == y * z + c.D * (x * y) + c.E * (y * y) + c.F * y;
  }

  lemma TimesXEverywhere(c: Circle)
    ensures forall p :: TimesX(c)(p) == XZ()(p) + c.D * XX()(p) + c.E * XY()(p) + c.F * X()(p)
  {
    forall p ensures TimesX(c)(p) == XZ()(p) + c.D * XX()(p) + c.E * XY()(p) + c.F * X()(p) {
      TimesXAt(c, p);
    }
  }

  lemma TimesXSum(c: Circle, pts: seq<Point>)
    ensures var m := MomentsOf(pts);
            SumOf(TimesX(c), pts) == m.sxz + c.D * m.sxx + c.E * m.sxy + c.F * m.sx
  {
    TimesXEverywhere(c);
    hide TimesX, XZ, XX, XY, X, One;
    SumPlusThree(TimesX(c), pts, XZ(), XX(), c.D, XY(), c.E, X(), c.F);
  }

  lemma TimesYEverywhere(c: Circle)
    ensures forall p :: TimesY(c)(p) == YZ()(p) + c.D * XY()(p) + c.E * YY()(p) + c.F * Y()(p)
  {
    forall p ensures TimesY(c)(p) == YZ()(p) + c.D * XY()(p) + c.E * YY()(p) + c.F * Y()(p) {
      TimesYAt(c, p);
    }
  }

  lemma TimesYSum(c: Circle, pts: seq<Point>)
    ensures var m := MomentsOf(pts);
            SumOf(TimesY(c), pts) == m.syz + c.D * m.sxy + c.E * m.syy + c.F * m.sy
  {
    TimesYEverywhere(c);
    hide TimesY, YZ, XY, YY, Y, One;
    SumPlusThree(TimesY(c), pts, YZ(), XY(), c.D, YY(), c.E, Y(), c.F);
  }

  lemma ResEverywhere(c: Circle)
    ensures forall p :: Res(c)(p) == Z()(p) + c.D * X()(p) + c.E * Y()(p) + c.F * One()(p)
  {
  }

  lemma ResidualSum(c: Circle, pts: seq<Point>)
    ensures var m := MomentsOf(pts);
            SumOf(Res(c), pts) == m.sz + c.D * m.sx + c.E * m.sy + c.F * m.n
  {
    ResEverywhere(c);
    hide Res, Z, X, Y, One;
    SumPlusThree(Res(c), pts, Z(), X(), c.D, Y(), c.E, One(), c.F);
  }

  /** The normal equations say the residuals are orthogonal to x, y and 1. */
  lemma NormalIsOrthogonal(c: Circle, pts: seq<Point>)
    requires Normal(MomentsOf(pts), c)
    ensures SumOf(TimesX(c), pts) == 0.0 && SumOf(TimesY(c), pts) == 0.0 && SumOf(Res(c), pts) == 0.0
  {
    TimesXSum(c, pts);
    TimesYSum(c, pts);
    ResidualSum(c, pts);
  }

  lemma ProductAt(c: Circle, l: Line, p: Point)
    ensures Product(c, l)(p) == l.a * TimesX(c)(p) + l.b * TimesY(c)(p) + l.c * Res(c)(p)
  {
    var r := Residual(c, p);
    assert r * (l.a * p.x + l.b * p.y + l.c) == l.a * (p.x * r) + l.b * (p.y * r) + l.c * r;
  }

  /** Hence to every affine form. */
  lemma OrthogonalToForms(c: Circle, l: Line, pts: seq<Point>)
    requires Normal(MomentsOf(pts), c)
    ensures SumOf(Product(c, l), pts) == 0.0
  {
    NormalIsOrthogonal(c, pts);
    forall p ensures Product(c, l)(p) == l.a * TimesX(c)(p) + l.b * TimesY(c)(p) + l.c * Res(c)(p) {
      ProductAt(c, l, p);
    }
    SumThree(Product(c, l), pts, TimesX(c), l.a, TimesY(c), l.b, Res(c), l.c);
  }

  lemma SquareZero(d: real)
    ensures d * d >= 0.0 && (d * d == 0.0 ==> d == 0.0)
  {
    if d != 0.0 && d * d == 0.0 {
      NonZeroFactor(d, d);
    }
  }

  lemma NonZeroFactor(d: real, x: real)
    requires d != 0.0 && d * x == 0.0
    ensures x == 0.0
  {
  }

  lemma SquaresZero(l: Line, pts: seq<Point>)
    ensures SumOf(AtSquared(l), pts) >= 0.0
    ensures SumOf(AtSquared(l), pts) == 0.0 ==> forall p | p in pts :: At(l, p) == 0.0
  {
    forall p ensures AtSquared(l)(p) >= 0.0 && (AtSquared(l)(p) == 0.0 ==> At(l, p) == 0.0) { SquareZero(At(l, p)); }
    SumOfNonNegative(AtSquared(l), pts);
  }

  /** All the points lie on one line. */
  ghost predicate Collinear(pts: seq<Point>) {
    exists l: Line :: (l.a != 0.0 || l.b != 0.0) && forall p | p in pts :: At(l, p) == 0.0
  }

  function XAt(l: Line): Point -> real { (p: Point) => p.x * At(l, p) }
  function YAt(l: Line): Point -> real { (p: Point) => p.y * At(l, p) }
  function JustAt(l: Line): Point -> real { (p: Point) => At(l, p) }

  function Row1(m: Moments, l: Line): real { l.a * m.sxx + l.b * m.sxy + l.c * m.sx }
  function Row2(m: Moments, l: Line): real { l.a * m.sxy + l.b * m.syy + l.c * m.sy }
  function Row3(m: Moments, l: Line): real { l.a * m.sx + l.b * m.sy + l.c * m.n }

  lemma RowAt(l: Line, p: Point)
    ensures XAt(l)(p) == l.a * XX()(p) + l.b * XY()(p) + l.c * X()(p)
    ensures YAt(l)(p) == l.a * XY()(p) + l.b * YY()(p) + l.c * Y()(p)
  {
    var x, y := p.x, p.y;
    assert x * (l.a * x + l.b * y + l.c) == l.a * (x * x) + l.b * (x * y) + l.c * x;
    assert y * (l.a * x + l.b * y + l.c) == l.a * (x * y) + l.b * (y * y) + l.c * y;
  }

  lemma Row1Sum(l: Line, pts: seq<Point>)
    ensures Row1(MomentsOf(pts), l) == SumOf(XAt(l), pts)
  {
    forall p ensures XAt(l)(p) == l.a * XX()(p) + l.b * XY()(p) + l.c * X()(p) { RowAt(l, p); }
    hide XAt, XX, XY, X, One;
    SumThree(XAt(l), pts, XX(), l.a, XY(), l.b, X(), l.c);
  }

  lemma Row2Sum(l: Line, pts: seq<Point>)
    ensures Row2(MomentsOf(pts), l) == SumOf(YAt(l), pts)
  {
    forall p ensures YAt(l)(p) == l.a * XY()(p) + l.b * YY()(p) + l.c * Y()(p) { RowAt(l, p); }
    hide YAt, XY, YY, Y, One;
    SumThree(YAt(l), pts, XY(), l.a, YY(), l.b, Y(), l.c);
  }

  lemma Row3Sum(l: Line, pts: seq<Point>)
    ensures Row3(MomentsOf(pts), l) == SumOf(JustAt(l), pts)
  {
    SumThree(JustAt(l), pts, X(), l.a, Y(), l.b, One(), l.c);
  }

  lemma FormsVanish(l: Line, pts: seq<Point>)
    requires forall p | p in pts :: At(l, p) == 0.0
    ensures SumOf(XAt(l), pts) == 0.0 && SumOf(YAt(l), pts) == 0.0 && SumOf(JustAt(l), pts) == 0.0
  {
    SumVanishes(XAt(l), pts);
    SumVanishes(YAt(l), pts);
    SumVanishes(JustAt(l), pts);
  }

  lemma RowsVanish(l: Line, pts: seq<Point>)
    requires forall p | p in pts :: At(l, p) == 0.0
    ensures Row1(MomentsOf(pts), l) == 0.0 && Row2(MomentsOf(pts), l) == 0.0 && Row3(MomentsOf(pts), l) == 0.0
  {
    FormsVanish(l, pts);
    Row1Sum(l, pts);
    Row2Sum(l, pts);
    Row3Sum(l, pts);
  }

  /** A form vanishing on all the points is annihilated by the moment matrix,
    * so a non-zero determinant allows only the zero form. */
  lemma NullForm(l: Line, pts: seq<Point>)
    requires forall p | p in pts :: At(l, p) == 0.0
    ensures Det(MomentsOf(pts)) * l.a == 0.0 && Det(MomentsOf(pts)) * l.b == 0.0 && Det(MomentsOf(pts)) * l.c == 0.0
  {
    RowsVanish(l, pts);
    NullMoments(MomentsOf(pts), l);
  }

  lemma NullMoments(m: Moments, l: Line)
    requires Row1(m, l) == 0.0 && Row2(m, l) == 0.0 && Row3(m, l) == 0.0
    ensures Det(m) * l.a == 0.0 && Det(m) * l.b == 0.0 && Det(m) * l.c == 0.0
  {
    Adjugate(m.sxx, m.sxy, m.sx, m.sxy, m.syy, m.sy, m.sx, m.sy, m.n, l.a, l.b, l.c);
  }

  lemma Adjugate(a: real, b: real, c: real, d: real, e: real, f: real, g: real, h: real, i: real, x: real, y: real,
      z: real)
    requires a * x + b * y + c * z == 0.0 && d * x + e * y + f * z == 0.0 && g * x + h * y + i * z == 0.0
    ensures var det := Det3(a, b, c, d, e, f, g, h, i); det * x == 0.0 && det * y == 0.0 && det * z == 0.0
  {
    var det := Det3(a, b, c, d, e, f, g, h, i);
    var r1, r2, r3 := a * x + b * y + c * z, d * x + e * y + f * z, g * x + h * y + i * z;
    assert det * x == r1 * (e * i - f * h) - r2 * (b * i - c * h) + r3 * (b * f - c * e);
    assert det * y == -r1 * (d * i - f * g) + r2 * (a * i - c * g) - r3 * (a * f - c * d);
    assert det * z == r1 * (d * h - e * g) - r2 * (a * h - b * g) + r3 * (a * e - b * d);
  }

  /** The fit is the true least-squares circle: no other circle has a smaller
    * sum of squared residuals, and only itself has as small a one. */
  lemma FitIsTheMinimiser(pts: seq<Point>, other: Circle)
    requires Fit(pts).Some?
    ensures SumSquares(other, pts) >= SumSquares(Fit(pts).value, pts)
    ensures SumSquares(other, pts) == SumSquares(Fit(pts).value, pts) ==> other == Fit(pts).value
  {
    var m, c := MomentsOf(pts), Fit(pts).value;
    SolveIsNormal(m);
    var l := Line(other.D - c.D, other.E - c.E, other.F - c.F);
    assert Shift(c, l) == other;
    Expand(c, l, pts);
    OrthogonalToForms(c, l, pts);
    SquaresZero(l, pts);
    if SumOf(AtSquared(l), pts) == 0.0 {
      OnlyZeroForm(l, pts);
    }
  }

  /** When the determinant is non-zero, only the zero form vanishes on all the points. */
  lemma OnlyZeroForm(l: Line, pts: seq<Point>)
    requires Det(MomentsOf(pts)) != 0.0 && forall p | p in pts :: At(l, p) == 0.0
    ensures l == Line(0.0, 0.0, 0.0)
  {
    NullForm(l, pts);
    var d := Det(MomentsOf(pts));
    NonZeroFactor(d, l.a);
    NonZeroFactor(d, l.b);
    NonZeroFactor(d, l.c);
  }

  function CircleOf(centre: Centre, radius2: real): Circle {
    Circle(-2.0 * centre.cx, -2.0 * centre.cy, centre.cx * centre.cx + centre.cy * centre.cy - radius2)
  }

  lemma OnCircle(p: Point, centre: Centre, radius2: real)
    requires (p.x - centre.cx) * (p.x - centre.cx) + (p.y - centre.cy) * (p.y - centre.cy) == radius2
    ensures Residual(CircleOf(centre, radius2), p) == 0.0
  {
    var a, b := centre.cx, centre.cy;
    assert (p.x - a) * (p.x - a) == p.x * p.x - 2.0 * a * p.x + a * a;
    assert (p.y - b) * (p.y - b) == p.y * p.y - 2.0 * b * p.y + b * b;
  }

  /** Points lying on one circle give exactly its centre. */
  lemma PointsOnACircle(pts: seq<Point>, centre: Centre, radius2: real)
    requires Fit(pts).Some?
    requires forall p | p in pts ::
               (p.x - centre.cx) * (p.x - centre.cx) + (p.y - centre.cy) * (p.y - centre.cy) == radius2
    ensures Centre(-Fit(pts).value.D / 2.0, -Fit(pts).value.E / 2.0) == centre
  {
    var c := CircleOf(centre, radius2);
    forall p | p in pts ensures Residual(c, p) == 0.0 {
      OnCircle(p, centre, radius2);
    }
    SumVanishes(Squared(c), pts);
    SumSquaresNonNegative(Fit(pts).value, pts);
    FitIsTheMinimiser(pts, c);
  }

  lemma SumSquaresNonNegative(c: Circle, pts: seq<Point>)
    ensures SumSquares(c, pts) >= 0.0
  {
    forall p ensures Squared(c)(p) >= 0.0 { SquareZero(Residual(c, p)); }
    SumOfNonNegative(Squared(c), pts);
  }

  // ---------- When there is no fit ----------

  /** The sum of squares of a form is a quadratic in the moments. */
  function Quadratic(m: Moments, l: Line): real {
    (l.a * l.a) * m.sxx + (l.b * l.b) * m.syy + (l.c * l.c) * m.n +
    (2.0 * (l.a * l.b)) * m.sxy + (2.0 * (l.a * l.c)) * m.sx + (2.0 * (l.b * l.c)) * m.sy
  }

  lemma AtSquaredAt(l: Line, p: Point)
    ensures AtSquared(l)(p) == (l.a * l.a) * XX()(p) + (l.b * l.b) * YY()(p) + (l.c * l.c) * One()(p)
              + (2.0 * (l.a * l.b)) * XY()(p) + (2.0 * (l.a * l.c)) * X()(p) + (2.0 * (l.b * l.c)) * Y()(p)
  {
    var u, v, c := l.a * p.x, l.b * p.y, l.c;
    assert (u + v + c) * (u + v + c) == u * u + v * v + c * c + 2.0 * (u * v) + 2.0 * (u * c) + 2.0 * (v * c);
    assert u * u == l.a * l.a * (p.x * p.x) && v * v == l.b * l.b * (p.y * p.y) && u * v == l.a * l.b * (p.x * p.y);
    assert u * c == l.a * l.c * p.x && v * c == l.b * l.c * p.y;
  }

  lemma SquaresAreQuadratic(l: Line, pts: seq<Point>)
    ensures SumOf(AtSquared(l), pts) == Quadratic(MomentsOf(pts), l)
  {
    forall p ensures AtSquared(l)(p) == (l.a * l.a) * XX()(p) + (l.b * l.b) * YY()(p) + (l.c * l.c) * One()(p)
              + (2.0 * (l.a * l.b)) * XY()(p) + (2.0 * (l.a * l.c)) * X()(p) + (2.0 * (l.b * l.c)) * Y()(p)
    {
      AtSquaredAt(l, p);
    }
    SumLinear(AtSquared(l), pts, XX(), l.a * l.a, YY(), l.b * l.b, One(), l.c * l.c,
              XY(), 2.0 * (l.a * l.b), X(), 2.0 * (l.a * l.c), Y(), 2.0 * (l.b * l.c));
  }

  /** The determinant vanishes exactly when the points lie on one line. */
  lemma DetZeroIffCollinear(pts: seq<Point>)
    requires pts != []
    ensures Det(MomentsOf(pts)) == 0.0 <==> Collinear(pts)
  {
    var m := MomentsOf(pts);
    SumOfOnes(pts);
    if Collinear(pts) {
      var l: Line :| (l.a != 0.0 || l.b != 0.0) && forall p | p in pts :: At(l, p) == 0.0;
      NullForm(l, pts);
      if l.a != 0.0 { NonZeroFactor(l.a, Det(m)); } else { NonZeroFactor(l.b, Det(m)); }
    }
    if Det(m) == 0.0 {
      var l := NullDirection(m);
      SquaresAreQuadratic(l, pts);
      SquaresZero(l, pts);
    }
  }

  /** Second moments about the mean, each scaled by n. */
  function Cxx(m: Moments): real { m.n * m.sxx - m.sx * m.sx }
  function Cxy(m: Moments): real { m.n * m.sxy - m.sx * m.sy }
  function Cyy(m: Moments): real { m.n * m.syy - m.sy * m.sy }
  function Discriminant(m: Moments): real { Cxx(m) * Cyy(m) - Cxy(m) * Cxy(m) }

  lemma CentredDet(m: Moments)
    ensures m.n * Det(m) == Discriminant(m)
  {
  }

  lemma CentredX(m: Moments)
    ensures Quadratic(m, Line(m.n, 0.0, -m.sx)) == m.n * Cxx(m)
  {
  }

  lemma CentredForm(m: Moments)
    requires m.n != 0.0
    ensures Quadratic(m, Line(m.n * Cxy(m), -m.n * Cxx(m), Cxx(m) * m.sy - Cxy(m) * m.sx)) ==
            m.n * Cxx(m) * Discriminant(m)
  {
    var l := Line(m.n * Cxy(m), -m.n * Cxx(m), Cxx(m) * m.sy - Cxy(m) * m.sx);
    assert m.n * l.c == -(l.a * m.sx + l.b * m.sy);
    ThroughTheMean(m, l);
    CentredProduct(m.n, Cxx(m), Cxy(m), Cyy(m));
    hide Quadratic, Cxx, Cxy, Cyy;
    Cancels(m.n, Quadratic(m, l), m.n * Cxx(m) * Discriminant(m));
  }

  /** On a line through the mean only the moments about it matter. */
  lemma ThroughTheMean(m: Moments, l: Line)
    requires m.n * l.c == -(l.a * m.sx + l.b * m.sy)
    ensures m.n * Quadratic(m, l) == l.a * l.a * Cxx(m) + 2.0 * (l.a * l.b) * Cxy(m) + l.b * l.b * Cyy(m)
  {
    var k := l.a * m.sx + l.b * m.sy;
    assert m.n * (l.c * l.c * m.n + 2.0 * (l.a * l.c) * m.sx + 2.0 * (l.b * l.c) * m.sy) ==
        (m.n * l.c) * (m.n * l.c + 2.0 * k);
    assert k * k == l.a * l.a * (m.sx * m.sx) + 2.0 * (l.a * l.b) * (m.sx * m.sy) + l.b * l.b * (m.sy * m.sy);
  }

  lemma CentredProduct(n: real, xx: real, xy: real, yy: real)
    ensures var a, b := n * xy, -n * xx;
            a * a * xx + 2.0 * (a * b) * xy + b * b * yy == n * (n * xx * (xx * yy - xy * xy))
  {
  }

  lemma Cancels(n: real, a: real, b: real)
    requires n != 0.0 && n * a == n * b
    ensures a == b
  {
    NonZeroFactor(n, a - b);
  }

  lemma Vanishes(a: real, b: real, x: real, y: real)
    requires x == 0.0 && y == a * b * x
    ensures y == 0.0
  {
  }

  lemma Factors(a: real, b: real, x: real)
    requires a != 0.0 && a * x == b && x == 0.0
    ensures b == 0.0
  {
  }

  /** A singular moment matrix has a line along which the quadratic vanishes. */
  lemma NullDirection(m: Moments) returns (l: Line)
    requires Det(m) == 0.0 && m.n > 0.0
    ensures (l.a != 0.0 || l.b != 0.0) && Quadratic(m, l) == 0.0
  {
    if Cxx(m) == 0.0 {
      l := Line(m.n, 0.0, -m.sx);
      CentredX(m);
    } else {
      l := Line(m.n * Cxy(m), -m.n * Cxx(m), Cxx(m) * m.sy - Cxy(m) * m.sx);
      CentredForm(m);
      CentredDet(m);
      Factors(m.n, Discriminant(m), Det(m));
      Vanishes(m.n, Cxx(m), Discriminant(m), Quadratic(m, l));
      NonZeroProduct(-m.n, Cxx(m));
    }
  }

  lemma NonZeroProduct(a: real, b: real)
    requires a != 0.0 && b != 0.0
    ensures a * b != 0.0
  {
  }

  /** With three points or more, the fit declines collinear points always, and
    * others only when their determinant is below the threshold. */
  lemma NoFitExactly(pts: seq<Point>)
    ensures Fit(pts).None? <==>
            |pts| < 3 || Collinear(pts) || 0.0 < AbsReal(Det(MomentsOf(pts))) < 0.000000001
  {
    if |pts| >= 3 { DetZeroIffCollinear(pts); }
  }
}
