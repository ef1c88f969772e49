/**
  The closed-form statistics of the turning-point calibration
  (backend/app/tp_calibration.py, recalibrate): bucket counts, the least-squares line and the
  correlation.  Exact reals; the logit values enter as given numbers.
 */
module CalibrationFit {
  import opened Wrappers

  datatype Point = Point(x: real, y: real)

  // ---------------------------------------------------------------- least squares

  datatype Sums = Sums(n: real, sx: real, sy: real, sxx: real, sxy: real, syy: real)

  function Add(s: Sums, p: Point): Sums {
    Sums(s.n + 1.0, s.sx + p.x, s.sy + p.y, s.sxx + p.x * p.x, s.sxy + p.x * p.y, s.syy + p.y * p.y)
  }

  function SumsOf(pts: seq<Point>): (s: Sums)
    ensures s.n == |pts| as real
  {
    if pts == [] then Sums(0.0, 0.0, 0.0, 0.0, 0.0, 0.0) else Add(SumsOf(pts[1..]), pts[0])
  }

  /** Sum of squared residuals of the line y = k x + b. */
  function Residual(pts: seq<Point>, k: real, b: real): real {
    if pts == [] then 0.0
    else
      var e := pts[0].y - (k * pts[0].x + b);
      e * e + Residual(pts[1..], k, b)
  }

  /** Sum of squared differences between two lines, taken at the points. */
  function Gap(pts: seq<Point>, dk: real, db: real): real {
    if pts == [] then 0.0
    else
      var e := dk * pts[0].x + db;
      e * e + Gap(pts[1..], dk, db)
  }

  function Denominator(s: Sums): real {
    s.n * s.sxx - s.sx * s.sx
  }

  /** The fit of the source: at least three buckets and a denominator that is not negligible. */
  function Fit(pts: seq<Point>): Option<(real, real)> {
    if |pts| < 3 then None
    else
      var s := SumsOf(pts);
      var d := Denominator(s);
      if -0.000000001 <= d <= 0.000000001 then None
      else
        Some((Slope(s), Intercept(s, Slope(s))))
  }

  function Slope(s: Sums): real
    requires Denominator(s) != 0.0
  {
    (s.n * s.sxy - s.sx * s.sy) / Denominator(s)
  }

  function Intercept(s: Sums, k: real): real
    requires s.n != 0.0
  {
    (s.sy - k * s.sx) / s.n
  }

  /** The residual of a line as a quadratic form in the sums. */
  function ResidualForm(s: Sums, k: real, b: real): real {
    s.syy - 2.0 * k * s.sxy - 2.0 * b * s.sy + k * k * s.sxx + 2.0 * k * b * s.sx + b * b * s.n
  }

  function GapForm(s: Sums, u: real, v: real): real {
    u * u * s.sxx + 2.0 * u * v * s.sx + v * v * s.n
  }

  lemma ResidualFormAdd(s: Sums, p: Point, k: real, b: real)
    ensures var e := p.y - (k * p.x + b);
      ResidualForm(Add(s, p), k, b) == e * e + ResidualForm(s, k, b)
  {
  }

  lemma GapFormAdd(s: Sums, p: Point, u: real, v: real)
    ensures var e := u * p.x + v;
      GapForm(Add(s, p), u, v) == e * e + GapForm(s, u, v)
  {
  }

  lemma {:induction false} ResidualExpands(pts: seq<Point>, k: real, b: real)
    ensures Residual(pts, k, b) == ResidualForm(SumsOf(pts), k, b)
  {
    hide ResidualForm, Add;
    if pts == [] {
      ResidualFormZero(k, b);
    } else {
      ResidualExpands(pts[1..], k, b);
      ResidualFormAdd(SumsOf(pts[1..]), pts[0], k, b);
    }
  }

  lemma ResidualFormZero(k: real, b: real)
    ensures ResidualForm(Sums(0.0, 0.0, 0.0, 0.0, 0.0, 0.0), k, b) == 0.0 ==
      GapForm(Sums(0.0, 0.0, 0.0, 0.0, 0.0, 0.0), k, b)
  {
  }

  lemma Square(e: real)
    ensures e * e >= 0.0
  {
  }

  function Product(a: real, b: real): real {
    a * b
  }

  lemma PositiveProduct(a: real, b: real)
    requires (a > 0.0 && b > 0.0) || (a < 0.0 && b < 0.0)
    ensures a * b > 0.0 && Product(a, b) > 0.0
  {
  }

  lemma {:induction false} GapExpands(pts: seq<Point>, u: real, v: real)
    ensures Gap(pts, u, v) == GapForm(SumsOf(pts), u, v) >= 0.0
  {
    hide GapForm, Add;
    if pts == [] {
      ResidualFormZero(u, v);
    } else {
      GapExpands(pts[1..], u, v);
      GapFormAdd(SumsOf(pts[1..]), pts[0], u, v);
      Square(u * pts[0].x + v);
    }
  }

  /** A new point adds the squared distances of the old ones to it. */
  lemma DenominatorAdd(s: Sums, p: Point)
    ensures Denominator(Add(s, p)) == Denominator(s) + GapForm(s, 1.0, -p.x)
  {
  }

  lemma DenominatorZero()
    ensures Denominator(Sums(0.0, 0.0, 0.0, 0.0, 0.0, 0.0)) == 0.0
  {
  }

  /** The denominator is never negative. */
  lemma {:induction false} DenominatorNonNegative(pts: seq<Point>)
    ensures Denominator(SumsOf(pts)) >= 0.0
  {
    hide Add, GapForm, Denominator;
    if pts == [] {
      DenominatorZero();
    } else {
      DenominatorNonNegative(pts[1..]);
      GapExpands(pts[1..], 1.0, -pts[0].x);
      DenominatorAdd(SumsOf(pts[1..]), pts[0]);
    }
  }

  /** The squared distances between all pairs of points. */
  function Spread(pts: seq<Point>): real {
    if pts == [] then 0.0 else Spread(pts[1..]) + Gap(pts[1..], 1.0, -pts[0].x)
  }

  /** The denominator is that spread. */
  lemma {:induction false} DenominatorIsSpread(pts: seq<Point>)
    ensures Denominator(SumsOf(pts)) == Spread(pts) >= 0.0
  {
    hide Add, GapForm, Denominator;
    if pts == [] {
      DenominatorZero();
    } else {
      DenominatorIsSpread(pts[1..]);
      GapExpands(pts[1..], 1.0, -pts[0].x);
      DenominatorAdd(SumsOf(pts[1..]), pts[0]);
    }
  }

  /** There is a fit exactly when there are at least three points that do not all but coincide in x. */
  lemma FitIff(pts: seq<Point>)
    ensures Fit(pts).Some? <==> |pts| >= 3 && Spread(pts) > 0.000000001
  {
    DenominatorIsSpread(pts);
    hide SumsOf, Denominator, Spread, Slope, Intercept;
  }

  /** Both derivatives of the residual vanish at (k, b). */
  ghost predicate Normal(s: Sums, k: real, b: real) {
    s.n * b + k * s.sx == s.sy && k * s.sxx + b * s.sx == s.sxy
  }

  lemma NormalEquations(s: Sums)
    requires s.n > 0.0 && Denominator(s) != 0.0
    ensures Normal(s, Slope(s), Intercept(s, Slope(s)))
  {
  }

  lemma Cancel(n: real, x: real, y: real)
    requires n > 0.0 && n * x == n * y
    ensures x == y
  {
  }

  /** Any other line is worse than the fit by exactly the gap between the two lines. */
  lemma FormDecomposes(s: Sums, k: real, b: real, u: real, v: real)
    requires Normal(s, k, b)
    ensures ResidualForm(s, k + u, b + v) == ResidualForm(s, k, b) + GapForm(s, u, v)
  {
  }

  /** The unclamped (k, b) minimises the squared residuals over all lines, and no other line does. */
  lemma FitIsLeastSquares(pts: seq<Point>, k2: real, b2: real)
    requires Fit(pts).Some?
    ensures var (k, b) := Fit(pts).value;
      && Residual(pts, k, b) <= Residual(pts, k2, b2)
      && (Residual(pts, k, b) == Residual(pts, k2, b2) ==> k2 == k && b2 == b)
  {
    var (k, b) := Fit(pts).value;
    var s := SumsOf(pts);
    NormalEquations(s);
    assert s.n > 0.0 && Denominator(s) != 0.0;
    hide *;
    ResidualExpands(pts, k, b);
    ResidualExpands(pts, k2, b2);
    FormDecomposes(s, k, b, k2 - k, b2 - b);
    GapExpands(pts, k2 - k, b2 - b);
    DenominatorNonNegative(pts);
    if Residual(pts, k, b) == Residual(pts, k2, b2) {
      GapVanishes(s, k2 - k, b2 - b);
    }
  }

  lemma GapVanishes(s: Sums, u: real, v: real)
    requires s.n > 0.0 && Denominator(s) > 0.0 && GapForm(s, u, v) == 0.0
    ensures u == 0.0 && v == 0.0
  {
    var r, d := v * s.n + u * s.sx, Denominator(s);
    assert r * r == (v * s.n) * (v * s.n) + 2.0 * (v * s.n) * (u * s.sx) + (u * s.sx) * (u * s.sx);
    assert (u * u) * d == (u * u) * (s.n * s.sxx) - (u * s.sx) * (u * s.sx);
    assert s.n * GapForm(s, u, v) == (u * u) * (s.n * s.sxx) + 2.0 * (v * s.n) * (u * s.sx) + (v * s.n) * (v * s.n);
    assert Product(r, r) + Product(u, u) * d == 0.0;
    BothVanish(r, u, d);
    Cancel(s.n, v, 0.0);
  }

  lemma BothVanish(r: real, u: real, d: real)
    requires d > 0.0 && Product(r, r) + Product(u, u) * d == 0.0
    ensures r == 0.0 && u == 0.0
  {
    assert Product(0.0, 0.0) == 0.0;
    hide Product;
    if r != 0.0 { PositiveProduct(r, r); }
    if u != 0.0 {
      PositiveProduct(u, u);
      PositiveProduct(Product(u, u), d);
    }
  }

  // ---------------------------------------------------------------- correlation

  /** Centred second moments of two columns about (ma, mb). */
  datatype Moments = Moments(va: real, cov: real, vb: real)

  function AddMoments(m: Moments, x: real, y: real): Moments {
    Moments(m.va + x * x, m.cov + x * y, m.vb + y * y)
  }

  function MomentsOf(pts: seq<Point>, ma: real, mb: real): Moments {
    if pts == [] then Moments(0.0, 0.0, 0.0)
    else AddMoments(MomentsOf(pts[1..], ma, mb), pts[0].x - ma, pts[0].y - mb)
  }

  /** Sum of (t x + y)^2 over the centred points, as a quadratic in t. */
  function Mixed(m: Moments, t: real): real {
    t * t * m.va + 2.0 * t * m.cov + m.vb
  }

  lemma MixedAdd(m: Moments, x: real, y: real, t: real)
    ensures Mixed(AddMoments(m, x, y), t) == Mixed(m, t) + (t * x + y) * (t * x + y)
  {
  }

  /** The squares of t times the centred x plus the centred y, summed. */
  function Squares(pts: seq<Point>, ma: real, mb: real, t: real): real {
    if pts == [] then 0.0
    else
      var e := t * (pts[0].x - ma) + (pts[0].y - mb);
      e * e + Squares(pts[1..], ma, mb, t)
  }

  /** The three moments are the coefficients of that sum in t. */
  lemma {:induction false} MomentsAreSquares(pts: seq<Point>, ma: real, mb: real, t: real)
    ensures Mixed(MomentsOf(pts, ma, mb), t) == Squares(pts, ma, mb, t)
  {
    hide Mixed, AddMoments;
    if pts == [] {
      MixedZero(t);
    } else {
      MomentsAreSquares(pts[1..], ma, mb, t);
      MixedAdd(MomentsOf(pts[1..], ma, mb), pts[0].x - ma, pts[0].y - mb, t);
    }
  }

  lemma {:induction false} MixedNonNegative(pts: seq<Point>, ma: real, mb: real, t: real)
    ensures Mixed(MomentsOf(pts, ma, mb), t) >= 0.0
  {
    hide Mixed, AddMoments;
    if pts == [] {
      MixedZero(t);
    } else {
      var m, x, y := MomentsOf(pts[1..], ma, mb), pts[0].x - ma, pts[0].y - mb;
      MixedNonNegative(pts[1..], ma, mb, t);
      MixedAdd(m, x, y, t);
      Square(t * x + y);
    }
  }

  lemma MixedZero(t: real)
    ensures Mixed(Moments(0.0, 0.0, 0.0), t) == 0.0
  {
  }

  lemma {:induction false} MomentsNonNegative(pts: seq<Point>, ma: real, mb: real)
    ensures MomentsOf(pts, ma, mb).va >= 0.0 && MomentsOf(pts, ma, mb).vb >= 0.0
  {
    hide AddMoments;
    if pts != [] {
      MomentsNonNegative(pts[1..], ma, mb);
      MomentsGrow(MomentsOf(pts[1..], ma, mb), pts[0].x - ma, pts[0].y - mb);
    }
  }

  lemma MomentsGrow(m: Moments, x: real, y: real)
    ensures AddMoments(m, x, y).va >= m.va && AddMoments(m, x, y).vb >= m.vb
  {
  }

  /** Cauchy and Schwarz, about any centre. */
  lemma CovarianceBound(pts: seq<Point>, ma: real, mb: real)
    ensures var m := MomentsOf(pts, ma, mb); m.cov * m.cov <= m.va * m.vb
  {
    var m := MomentsOf(pts, ma, mb);
    MomentsNonNegative(pts, ma, mb);
    hide Mixed, MomentsOf, AddMoments;
    if m.va > 0.0 {
      MixedNonNegative(pts, ma, mb, -m.cov / m.va);
      Discriminant(m);
    } else if m.cov != 0.0 {
      FlatMixed(m);
      MixedNonNegative(pts, ma, mb, -(m.vb + 1.0) / (2.0 * m.cov));
    }
  }

  lemma Discriminant(m: Moments)
    requires m.va > 0.0 && Mixed(m, -m.cov / m.va) >= 0.0
    ensures m.cov * m.cov <= m.va * m.vb
  {
    var t := -m.cov / m.va;
    var s := t * m.va;
    assert s == -m.cov;
    assert s * s == m.cov * m.cov && s * m.cov == -(m.cov * m.cov);
    assert m.va * (t * t * m.va + 2.0 * t * m.cov + m.vb) == s * s + 2.0 * (s * m.cov) + m.va * m.vb;
    MulNonNegative(m.va, Mixed(m, t));
  }

  lemma FlatMixed(m: Moments)
    requires m.va == 0.0 && m.cov != 0.0
    ensures Mixed(m, -(m.vb + 1.0) / (2.0 * m.cov)) == -1.0
  {
  }

  lemma MulNonNegative(a: real, b: real)
    requires a >= 0.0 && b >= 0.0
    ensures a * b >= 0.0
  {
  }

  /** The correlation, given the square root of va * vb. */
  function Corr(m: Moments, root: real): real
    requires root * root == m.va * m.vb && root >= 0.0
  {
    if m.va <= 0.0 || m.vb <= 0.0 || root == 0.0 then 0.0 else m.cov / root
  }

  /** The correlation lies in [-1, 1] for all columns. */
  lemma CorrBounds(pts: seq<Point>, ma: real, mb: real, root: real)
    requires var m := MomentsOf(pts, ma, mb); root * root == m.va * m.vb && root >= 0.0
    ensures -1.0 <= Corr(MomentsOf(pts, ma, mb), root) <= 1.0
  {
    hide MomentsOf;
    CovarianceBound(pts, ma, mb);
    if root > 0.0 {
      QuotientBound(MomentsOf(pts, ma, mb).cov, root);
    }
  }

  lemma QuotientBound(x: real, r: real)
    requires r > 0.0 && x * x <= r * r
    ensures -1.0 <= x / r <= 1.0
  {
    var c := x / r;
    assert c * r == x;
    PositiveProduct(r, r);
    assert x * x == (c * c) * (r * r);
    if c > 1.0 {
      PositiveProduct(c - 1.0, c + 1.0);
      PositiveProduct((c - 1.0) * (c + 1.0), r * r);
    } else if c < -1.0 {
      PositiveProduct(-c - 1.0, -c + 1.0);
      PositiveProduct((-c - 1.0) * (-c + 1.0), r * r);
    }
  }

  /** Every centred y is t times the centred x. */
  ghost predicate Proportional(pts: seq<Point>, ma: real, mb: real, t: real) {
    forall i | 0 <= i < |pts| :: pts[i].y - mb == t * (pts[i].x - ma)
  }

  ghost predicate InProportion(m: Moments, t: real) {
    m.cov == t * m.va && m.vb == t * (t * m.va)
  }

  lemma {:induction false} ProportionalMoments(pts: seq<Point>, ma: real, mb: real, t: real)
    requires Proportional(pts, ma, mb, t)
    ensures InProportion(MomentsOf(pts, ma, mb), t)
  {
    if pts != [] {
      hide AddMoments, InProportion;
      FirstOfProportional(pts, ma, mb, t);
      ProportionalMoments(pts[1..], ma, mb, t);
      hide Proportional;
      ProportionalAdd(MomentsOf(pts[1..], ma, mb), pts[0].x - ma, pts[0].y - mb, t);
    }
  }

  lemma FirstOfProportional(pts: seq<Point>, ma: real, mb: real, t: real)
    requires pts != [] && Proportional(pts, ma, mb, t)
    ensures pts[0].y - mb == t * (pts[0].x - ma) && Proportional(pts[1..], ma, mb, t)
  {
  }

  lemma ProportionalAdd(m: Moments, x: real, y: real, t: real)
    requires InProportion(m, t) && y == t * x
    ensures InProportion(AddMoments(m, x, y), t)
  {
  }

  /** The correlation of proportional columns is 1 or -1, with the sign of the factor; 0 if one is constant. */
  lemma CorrOfProportional(pts: seq<Point>, ma: real, mb: real, t: real, root: real)
    requires Proportional(pts, ma, mb, t)
    requires var m := MomentsOf(pts, ma, mb); root * root == m.va * m.vb && root >= 0.0
    ensures var m := MomentsOf(pts, ma, mb);
      Corr(m, root) == if m.va == 0.0 || t == 0.0 then 0.0 else if t > 0.0 then 1.0 else -1.0
  {
    ProportionalMoments(pts, ma, mb, t);
    MomentsNonNegative(pts, ma, mb);
    hide MomentsOf, Proportional, Corr;
    CorrInProportion(MomentsOf(pts, ma, mb), t, root);
  }

  lemma CorrInProportion(m: Moments, t: real, root: real)
    requires InProportion(m, t) && m.va >= 0.0 && root * root == m.va * m.vb && root >= 0.0
    ensures Corr(m, root) == if m.va == 0.0 || t == 0.0 then 0.0 else if t > 0.0 then 1.0 else -1.0
  {
    if m.va > 0.0 && t > 0.0 {
      assert root * root == m.va * (t * (t * m.va));
      RootIs(m.va, t, root);
      assert m.cov == root;
      OneEither(root);
    } else if m.va > 0.0 && t < 0.0 {
      TwiceNegated(t, m.va);
      assert root * root == m.va * ((-t) * ((-t) * m.va));
      RootIs(m.va, -t, root);
      assert m.cov == -root;
      OneEither(root);
    }
  }

  lemma TwiceNegated(t: real, va: real)
    ensures t * (t * va) == (-t) * ((-t) * va)
  {
    assert (-t) * va == -(t * va);
  }

  lemma RootIs(va: real, u: real, root: real)
    requires va > 0.0 && u > 0.0 && root >= 0.0 && root * root == va * (u * (u * va))
    ensures root == u * va && root > 0.0 && u * (u * va) > 0.0
  {
    PositiveProduct(u, va);
    PositiveProduct(u, u * va);
    assert (u * va) * (u * va) == va * (u * (u * va));
    SameSquare(root, u * va);
  }

  lemma OneEither(r: real)
    requires r > 0.0
    ensures r / r == 1.0 && (-r) / r == -1.0
  {
    Undo(-r, r);
    Cancel(r, (-r) / r, -1.0);
  }

  lemma Undo(x: real, r: real)
    requires r != 0.0
    ensures r * (x / r) == x
  {
  }

  lemma SameSquare(a: real, b: real)
    requires a >= 0.0 && b > 0.0 && a * a == b * b
    ensures a == b
  {
    assert (b - a) * (a + b) == b * b - a * a == -((a - b) * (a + b));
    if a < b {
      PositiveProduct(b - a, a + b);
    } else if b < a {
      PositiveProduct(a - b, a + b);
    }
  }

  // ---------------------------------------------------------------- buckets

  /** A resolved prediction: its turn score in tenths and whether the outcome was up. */
  datatype Resolved = Resolved(turn: Tenth, up: bool)
  datatype Tenth = Tenth(n: int)
  datatype Bucket = Bucket(n: nat, up: nat)
  type Buckets = map<Tenth, Bucket>

  function CountOf(rows: seq<Resolved>, t: Tenth): (b: Bucket)
    ensures b.up <= b.n <= |rows|
  {
    if rows == [] then Bucket(0, 0)
    else
      var b, r := CountOf(rows[..|rows| - 1], t), rows[|rows| - 1];
      if r.turn != t then b else Counted(b, r)
  }

  function Counted(b: Bucket, r: Resolved): Bucket {
    Bucket(b.n + 1, if r.up then b.up + 1 else b.up)
  }

  ghost function Total(bs: Buckets): nat
    decreases |bs|
  {
    if bs == map[] then 0
    else
      var t :| t in bs;
      bs[t].n + Total(bs - {t})
  }

  /** The total does not depend on the order in which buckets are taken. */
  lemma {:induction false} TotalTake(bs: Buckets, t: Tenth)
    requires t in bs
    ensures Total(bs) == bs[t].n + Total(bs - {t})
    decreases |bs|
  {
    var u :| u in bs && Total(bs) == bs[u].n + Total(bs - {u});
    if u != t {
      TotalTake(bs - {u}, t);
      TotalTake(bs - {t}, u);
      assert bs - {u} - {t} == bs - {t} - {u};
    }
  }

  lemma NoBuckets()
    ensures Total(map[]) == 0 && forall t :: CountOf([], t) == Bucket(0, 0)
  {
  }

  /** The bucket loop: exact counts per key, which together count every row once. */
  method BucketRows(rows: seq<Resolved>) returns (bs: Buckets)
    ensures forall t :: if t in bs then bs[t] == CountOf(rows, t) && bs[t].n > 0 && bs[t].up <= bs[t].n
                        else CountOf(rows, t) == Bucket(0, 0)
    ensures Total(bs) == |rows|
  {
    bs := map[];
    hide Total, CountOf;
    NoBuckets();
    for i := 0 to |rows|
      invariant forall t :: if t in bs then bs[t] == CountOf(rows[..i], t) && bs[t].n > 0
                            else CountOf(rows[..i], t) == Bucket(0, 0)
      invariant Total(bs) == i
    {
      var r := rows[i];
      var b := if r.turn in bs then bs[r.turn] else Bucket(0, 0);
      var next := Bucket(b.n + 1, if r.up then b.up + 1 else b.up);
      CountsGrow(rows, i);
      TotalGrows(bs, r.turn, next);
      bs := bs[r.turn := next];
    }
    assert rows[..|rows|] == rows;
  }

  function RowsAt(rows: seq<Resolved>, t: Tenth): set<nat> {
    set i: nat | i < |rows| && rows[i].turn == t
  }

  function UpsAt(rows: seq<Resolved>, t: Tenth): set<nat> {
    set i: nat | i < |rows| && rows[i].turn == t && rows[i].up
  }

  lemma RowsAtGrows(rows: seq<Resolved>, r: Resolved, t: Tenth)
    ensures |RowsAt(rows + [r], t)| == |RowsAt(rows, t)| + if r.turn == t then 1 else 0
  {
    assert RowsAt(rows + [r], t) == RowsAt(rows, t) + if r.turn == t then {|rows|} else {};
  }

  lemma UpsAtGrows(rows: seq<Resolved>, r: Resolved, t: Tenth)
    ensures |UpsAt(rows + [r], t)| == |UpsAt(rows, t)| + if r.turn == t && r.up then 1 else 0
  {
    assert UpsAt(rows + [r], t) == UpsAt(rows, t) + if r.turn == t && r.up then {|rows|} else {};
  }

  /** A bucket counts the rows with its key, and those of them that went up. */
  lemma {:induction false} CountsAreRows(rows: seq<Resolved>, t: Tenth)
    ensures CountOf(rows, t) == Bucket(|RowsAt(rows, t)|, |UpsAt(rows, t)|)
  {
    if rows == [] {
      assert RowsAt([], t) == {} && UpsAt([], t) == {};
    } else {
      hide RowsAt, UpsAt;
      var n := |rows| - 1;
      CountsAreRows(rows[..n], t);
      RowsAtGrows(rows[..n], rows[n], t);
      UpsAtGrows(rows[..n], rows[n], t);
      assert rows[..n] + [rows[n]] == rows;
    }
  }

  lemma CountsGrow(rows: seq<Resolved>, i: nat)
    requires i < |rows|
    ensures forall t | t != rows[i].turn :: CountOf(rows[..i + 1], t) == CountOf(rows[..i], t)
    ensures CountOf(rows[..i + 1], rows[i].turn) == Counted(CountOf(rows[..i], rows[i].turn), rows[i])
  {
    assert rows[..i + 1][..i] == rows[..i];
  }

  lemma TotalGrows(bs: Buckets, t: Tenth, next: Bucket)
    requires next.n == (if t in bs then bs[t].n else 0) + 1
    ensures Total(bs[t := next]) == Total(bs) + 1
  {
    TotalTake(bs[t := next], t);
    if t in bs {
      TotalTake(bs, t);
      assert bs[t := next] - {t} == bs - {t};
    } else {
      assert bs[t := next] - {t} == bs;
    }
  }
}
