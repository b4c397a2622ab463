// Points, rectangles and 2x3 affine transforms (nona/src/math.rs).
module Geometry {
  import opened Numerics

  datatype Point = Point(x: real, y: real)
  datatype Extent = Extent(width: real, height: real)
  datatype Rect = Rect(xy: Point, size: Extent)
  datatype Bounds = Bounds(min: Point, max: Point)

  /** The row-major affine matrix [a c e; b d f]; the renderer stores it as
      the array [a, b, c, d, e, f]. */
  datatype Transform = Transform(a: real, b: real, c: real, d: real, e: real, f: real)

  function SqDist(p: Point, q: Point): (r: real)
    ensures 0.0 <= r
  {
    (q.x - p.x) * (q.x - p.x) + (q.y - p.y) * (q.y - p.y)
  }

  lemma SquareGrows(a: real, b: real)
    requires 0.0 <= a <= b
    ensures a * a <= b * b
  {
    assert a * a <= a * b <= b * b;
  }

  /** `Point::equals`: strictly closer than `tol`.  Being close bounds each
      coordinate difference by |tol|. */
  function Equals(p: Point, pt: Point, tol: real): (r: bool)
    ensures r ==> Abs(pt.x - p.x) < Abs(tol) && Abs(pt.y - p.y) < Abs(tol)
  {
    var dx := pt.x - p.x;
    var dy := pt.y - p.y;
    var r := dx * dx + dy * dy < tol * tol;
    if r then
      if Abs(tol) <= Abs(dx) then SquareGrows(Abs(tol), Abs(dx)); false
      else if Abs(tol) <= Abs(dy) then SquareGrows(Abs(tol), Abs(dy)); false
      else true
    else false
  }

  lemma EqualsSymmetric(p: Point, q: Point, tol: real)
    ensures Equals(p, q, tol) == Equals(q, p, tol)
  {
  }

  /** A point is close to itself exactly when the tolerance is not zero. */
  lemma EqualsSelf(p: Point, tol: real)
    ensures Equals(p, p, tol) <==> tol != 0.0
  {
    if tol != 0.0 {
      assert 0.0 < Abs(tol);
      assert 0.0 < Abs(tol) * Abs(tol) == tol * tol;
    }
  }

  /** The parameter, along p→q, of the point of the segment nearest to `s`:
      the projection divided by |pq|² when that is positive, then clamped. */
  function SegmentParam(s: Point, p: Point, q: Point): (t: real)
    ensures 0.0 <= t <= 1.0
  {
    var pqx := q.x - p.x;
    var pqy := q.y - p.y;
    var d := pqx * pqx + pqy * pqy;
    var t := pqx * (s.x - p.x) + pqy * (s.y - p.y);
    var t := if d > 0.0 then t / d else t;
    if t < 0.0 then 0.0 else if t > 1.0 then 1.0 else t
  }

  /** `Point::dist_pt_seg`: the SQUARED distance from `s` to segment pq. */
  function DistPtSeg(s: Point, p: Point, q: Point): (r: real)
    ensures 0.0 <= r
    ensures s == p ==> r == 0.0
    ensures s == q ==> r == 0.0
  {
    var t := SegmentParam(s, p, q);
    var c := Point(p.x + t * (q.x - p.x), p.y + t * (q.y - p.y));
    NearestAtStart(s, p, q);
    NearestAtEnd(s, p, q);
    SqDist(s, c)
  }

  /** The nearest point of the segment to its start point is that point. */
  lemma NearestAtStart(s: Point, p: Point, q: Point)
    ensures var t := SegmentParam(s, p, q);
            s == p ==> Point(p.x + t * (q.x - p.x), p.y + t * (q.y - p.y)) == s
  {
    if s == p {
      assert (q.x - p.x) * (s.x - p.x) + (q.y - p.y) * (s.y - p.y) == 0.0;
      assert SegmentParam(s, p, q) == 0.0;
    }
  }

  /** The end point is at distance zero from the segment: its parameter is
      |pq|²/|pq|² = 1, or, for a segment of zero length, 0, and then the
      start point is no distance from it either. */
  lemma NearestAtEnd(s: Point, p: Point, q: Point)
    ensures var t := SegmentParam(s, p, q);
            s == q ==> SqDist(s, Point(p.x + t * (q.x - p.x), p.y + t * (q.y - p.y))) == 0.0
  {
    if s == q {
      var pqx, pqy := q.x - p.x, q.y - p.y;
      var d := pqx * pqx + pqy * pqy;
      assert pqx * (s.x - p.x) + pqy * (s.y - p.y) == d;
      if d > 0.0 {
        SelfQuotient(d);
        assert SegmentParam(s, p, q) == 1.0;
      } else {
        assert SegmentParam(s, p, q) == 0.0;
        SqDistFlip(p, q);
      }
    }
  }

  lemma SelfQuotient(d: real)
    requires d > 0.0
    ensures d / d == 1.0
  {
  }

  /** The squared distance does not depend on the order of the points. */
  lemma SqDistFlip(p: Point, q: Point)
    ensures SqDist(q, p) == SqDist(p, q)
  {
  }

  /** The outcome of `Point::normalize`: the rescaled point and the length it had. */
  datatype Normal = Normal(dir: Point, len: real)

  /** `Point::normalize`: `len` is the Euclidean length of `p`; when it exceeds
      1e-6 the point is divided by it (so keeps its direction and, for a true
      square root, becomes a unit vector), otherwise it is left as it was. */
  function Normalize(p: Point, sqrt: real -> real): (r: Normal)
    ensures r.len == sqrt(p.x * p.x + p.y * p.y)
    ensures r.len > 1.0e-6 ==> r.dir.x * r.len == p.x && r.dir.y * r.len == p.y
    ensures r.len <= 1.0e-6 ==> r.dir == p
    ensures IsSqrt(sqrt) && r.len > 1.0e-6 ==> r.dir.x * r.dir.x + r.dir.y * r.dir.y == 1.0
  {
    var d := sqrt(p.x * p.x + p.y * p.y);
    if d > 1.0e-6 then
      var id := 1.0 / d;
      var q := Point(p.x * id, p.y * id);
      assert q.x * d == p.x && q.y * d == p.y;
      UnitAfterDivision(p, sqrt);
      Normal(q, d)
    else Normal(p, d)
  }

  lemma UnitAfterDivision(p: Point, sqrt: real -> real)
    requires sqrt(p.x * p.x + p.y * p.y) > 1.0e-6
    ensures var d := sqrt(p.x * p.x + p.y * p.y);
            IsSqrt(sqrt) ==> (p.x * (1.0 / d)) * (p.x * (1.0 / d)) + (p.y * (1.0 / d)) * (p.y * (1.0 / d)) == 1.0
  {
    var d := sqrt(p.x * p.x + p.y * p.y);
    var id := 1.0 / d;
    if IsSqrt(sqrt) {
      assert d * d == p.x * p.x + p.y * p.y;
      assert (p.x * id) * (p.x * id) + (p.y * id) * (p.y * id) == (p.x * p.x + p.y * p.y) * (id * id);
      assert (d * d) * (id * id) == (d * id) * (d * id) == 1.0;
    }
  }

  /** `Point::cross`. */
  function Cross(p1: Point, p2: Point): (r: real)
  {
    p2.x * p1.y - p1.x * p2.y
  }

  lemma CrossAntisymmetric(a: Point, b: Point)
    ensures Cross(a, b) == -Cross(b, a)
  {
  }

  function Offset(p: Point, tx: real, ty: real): (r: Point)
  {
    Point(p.x + tx, p.y + ty)
  }

  /** `Rect::intersect` as the source writes it: both destructurings read the
      argument `rect`, so the receiver plays no part. */
  function IntersectAsWritten(self: Rect, rect: Rect): (r: Rect)
    ensures r.size.width >= 0.0 && r.size.height >= 0.0
  {
    var x1 := rect.xy.x;
    var y1 := rect.xy.y;
    var w1 := rect.size.width;
    var h1 := rect.size.height;
    var x2 := rect.xy.x;
    var y2 := rect.xy.y;
    var w2 := rect.size.width;
    var h2 := rect.size.height;
    var minx := Max(x1, x2);
    var miny := Max(y1, y2);
    var maxx := Min(x1 + w1, x2 + w2);
    var maxy := Min(y1 + h1, y2 + h2);
    Rect(Point(minx, miny), Extent(Max(maxx - minx, 0.0), Max(maxy - miny, 0.0)))
  }

  /** The receiver never matters: a rectangle far from `rect` yields `rect`
      itself instead of an empty rectangle. */
  lemma IntersectAsWrittenIgnoresReceiver(s1: Rect, s2: Rect, rect: Rect)
    ensures IntersectAsWritten(s1, rect) == IntersectAsWritten(s2, rect)
    ensures var far := Rect(Point(0.0, 0.0), Extent(1.0, 1.0));
            var near := Rect(Point(5.0, 5.0), Extent(1.0, 1.0));
            IntersectAsWritten(far, near) == near && Intersect(far, near).size == Extent(0.0, 0.0)
  {
  }

  /** The intersection of two axis-aligned rectangles (the receiver and
      `rect`), with a zero extent when they do not overlap. */
  function Intersect(self: Rect, rect: Rect): (r: Rect)
    ensures r.size.width >= 0.0 && r.size.height >= 0.0
    ensures r.xy.x >= self.xy.x && r.xy.x >= rect.xy.x
    ensures r.xy.y >= self.xy.y && r.xy.y >= rect.xy.y
    ensures r.size.width > 0.0 ==>
      r.xy.x + r.size.width <= self.xy.x + self.size.width && r.xy.x + r.size.width <= rect.xy.x + rect.size.width
    ensures r.size.height > 0.0 ==>
      r.xy.y + r.size.height <= self.xy.y + self.size.height && r.xy.y + r.size.height <= rect.xy.y + rect.size.height
  {
    var x1 := self.xy.x;
    var y1 := self.xy.y;
    var w1 := self.size.width;
    var h1 := self.size.height;
    var x2 := rect.xy.x;
    var y2 := rect.xy.y;
    var w2 := rect.size.width;
    var h2 := rect.size.height;
    var minx := Max(x1, x2);
    var miny := Max(y1, y2);
    var maxx := Min(x1 + w1, x2 + w2);
    var maxy := Min(y1 + h1, y2 + h2);
    Rect(Point(minx, miny), Extent(Max(maxx - minx, 0.0), Max(maxy - miny, 0.0)))
  }

  lemma IntersectCommutes(a: Rect, b: Rect)
    ensures Intersect(a, b) == Intersect(b, a)
  {
  }

  /** A rectangle with non-negative extent is its own intersection. */
  lemma IntersectIdempotent(a: Rect)
    requires a.size.width >= 0.0 && a.size.height >= 0.0
    ensures Intersect(a, a) == a
  {
  }

  function Centre(r: Rect): Point
  {
    Point(r.xy.x + r.size.width / 2.0, r.xy.y + r.size.height / 2.0)
  }

  /** `Rect::grow`: widens by `width` and `height`, half on each side. */
  function Grow(r: Rect, width: real, height: real): (g: Rect)
    ensures Centre(g) == Centre(r)
    ensures g.size.width - r.size.width == width && g.size.height - r.size.height == height
  {
    Rect(Offset(r.xy, -width / 2.0, -height / 2.0), Extent(r.size.width + width, r.size.height + height))
  }

  function Identity(): Transform
  {
    Transform(1.0, 0.0, 0.0, 1.0, 0.0, 0.0)
  }

  function Translate(tx: real, ty: real): (t: Transform)
    ensures forall p :: TransformPoint(t, p) == Point(p.x + tx, p.y + ty)
  {
    Transform(1.0, 0.0, 0.0, 1.0, tx, ty)
  }

  function Scale(sx: real, sy: real): (t: Transform)
    ensures forall p :: TransformPoint(t, p) == Point(p.x * sx, p.y * sy)
  {
    Transform(sx, 0.0, 0.0, sy, 0.0, 0.0)
  }

  function Rotate(angle: real, libm: Libm): Transform
  {
    var cs := libm.cos(angle);
    var sn := libm.sin(angle);
    Transform(cs, sn, -sn, cs, 0.0, 0.0)
  }

  function SkewX(angle: real, libm: Libm): Transform
  {
    Transform(1.0, 0.0, libm.tan(angle), 1.0, 0.0, 0.0)
  }

  function SkewY(angle: real, libm: Libm): Transform
  {
    Transform(1.0, libm.tan(angle), 0.0, 1.0, 0.0, 0.0)
  }

  /** `transform_point`: the image of `pt` under `t`. */
  function TransformPoint(t: Transform, pt: Point): Point
  {
    Point(pt.x * t.a + pt.y * t.c + t.e, pt.x * t.b + pt.y * t.d + t.f)
  }

  /** `impl Mul for Transform`: `s * t`, the affine map that applies `s`
      first and then `t` (`MulApplies`). */
  function Mul(s: Transform, t: Transform): Transform
  {
    Transform(
      s.a * t.a + s.b * t.c,
      s.a * t.b + s.b * t.d,
      s.c * t.a + s.d * t.c,
      s.c * t.b + s.d * t.d,
      s.e * t.a + s.f * t.c + t.e,
      s.e * t.b + s.f * t.d + t.f)
  }

  /** A point moved by `s * t` lands where moving it by `s` and then by `t` does. */
  lemma MulApplies(s: Transform, t: Transform, p: Point)
    ensures TransformPoint(Mul(s, t), p) == TransformPoint(t, TransformPoint(s, p))
  {
    MulAppliesX(s, t, p);
    MulAppliesY(s, t, p);
  }

  lemma MulAppliesX(s: Transform, t: Transform, p: Point)
    ensures TransformPoint(Mul(s, t), p).x == TransformPoint(t, TransformPoint(s, p)).x
  {
    ComposeCoordinate(p.x, p.y, s.a, s.c, s.e, s.b, s.d, s.f, t.a, t.c, t.e);
  }

  lemma MulAppliesY(s: Transform, t: Transform, p: Point)
    ensures TransformPoint(Mul(s, t), p).y == TransformPoint(t, TransformPoint(s, p)).y
  {
    ComposeCoordinate(p.x, p.y, s.a, s.c, s.e, s.b, s.d, s.f, t.b, t.d, t.f);
  }

  /** One coordinate of (x, y) moved by s and then by t, written with the
      entries of `s * t` on the left and step by step on the right. */
  lemma ComposeCoordinate(x: real, y: real, sa: real, sc: real, se: real, sb: real, sd: real, sf: real,
                          ta: real, tc: real, te: real)
    ensures x * (sa * ta + sb * tc) + y * (sc * ta + sd * tc) + (se * ta + sf * tc + te)
         == (x * sa + y * sc + se) * ta + (x * sb + y * sd + sf) * tc + te
  {
    assert (x * sa + y * sc + se) * ta == x * (sa * ta) + y * (sc * ta) + se * ta;
    assert (x * sb + y * sd + sf) * tc == x * (sb * tc) + y * (sd * tc) + sf * tc;
    assert x * (sa * ta + sb * tc) == x * (sa * ta) + x * (sb * tc);
    assert y * (sc * ta + sd * tc) == y * (sc * ta) + y * (sd * tc);
  }

  /** `pre_multiply(self, rhs)` is `rhs * self`: `rhs` is applied first. */
  function PreMultiply(self: Transform, rhs: Transform): (r: Transform)
    ensures forall p {:trigger TransformPoint(r, p)} :: TransformPoint(r, p) == TransformPoint(self, TransformPoint(rhs, p))
  {
    var r := Mul(rhs, self);
    assert forall p {:trigger TransformPoint(r, p)} :: TransformPoint(r, p) == TransformPoint(self, TransformPoint(rhs, p)) by {
      forall p {
        MulApplies(rhs, self, p);
      }
    }
    r
  }

  /** The identity is a two-sided unit of `*`. */
  lemma IdentityUnit(t: Transform)
    ensures Mul(Identity(), t) == t && Mul(t, Identity()) == t
  {
  }

  function Det(t: Transform): real
  {
    t.a * t.d - t.c * t.b
  }

  /** `Transform::inverse`: the identity for a (nearly) singular matrix. */
  function Inverse(t: Transform): (r: Transform)
    ensures -1.0e-6 < Det(t) < 1.0e-6 ==> r == Identity()
  {
    var det := Det(t);
    if det > -1.0e-6 && det < 1.0e-6 then Identity()
    else
      var invdet := 1.0 / det;
      Transform(
        t.d * invdet,
        -t.b * invdet,
        -t.c * invdet,
        t.a * invdet,
        (t.c * t.f - t.d * t.e) * invdet,
        (t.b * t.e - t.a * t.f) * invdet)
  }

  /** Away from the singular band, `inverse` is a two-sided inverse. */
  lemma InverseIsInverse(t: Transform)
    requires Det(t) <= -1.0e-6 || 1.0e-6 <= Det(t)
    ensures Mul(t, Inverse(t)) == Identity()
    ensures Mul(Inverse(t), t) == Identity()
  {
    RightInverse(t);
    LeftInverse(t);
  }

  lemma RightInverse(t: Transform)
    requires Det(t) <= -1.0e-6 || 1.0e-6 <= Det(t)
    ensures Mul(t, Inverse(t)) == Identity()
  {
    var k := 1.0 / Det(t);
    assert Det(t) * k == 1.0;
    RightInverseEntries(t.a, t.b, t.c, t.d, t.e, t.f, k);
  }

  lemma LeftInverse(t: Transform)
    requires Det(t) <= -1.0e-6 || 1.0e-6 <= Det(t)
    ensures Mul(Inverse(t), t) == Identity()
  {
    var k := 1.0 / Det(t);
    assert Det(t) * k == 1.0;
    LeftInverseEntries(t.a, t.b, t.c, t.d, t.e, t.f, k);
  }

  /** The entries of (a b; c d; e f) times the adjugate scaled by k, where
      k is the reciprocal of the determinant. */
  lemma RightInverseEntries(a: real, b: real, c: real, d: real, e: real, f: real, k: real)
    requires (a * d - c * b) * k == 1.0
    ensures a * (d * k) + b * (-c * k) == 1.0 && a * (-b * k) + b * (a * k) == 0.0
    ensures c * (d * k) + d * (-c * k) == 0.0 && c * (-b * k) + d * (a * k) == 1.0
    ensures e * (d * k) + f * (-c * k) + (c * f - d * e) * k == 0.0
    ensures e * (-b * k) + f * (a * k) + (b * e - a * f) * k == 0.0
  {
    assert a * (d * k) + b * (-c * k) == (a * d - c * b) * k;
    assert c * (-b * k) + d * (a * k) == (a * d - c * b) * k;
  }

  /** The entries of the adjugate scaled by k times (a b; c d; e f). */
  lemma LeftInverseEntries(a: real, b: real, c: real, d: real, e: real, f: real, k: real)
    requires (a * d - c * b) * k == 1.0
    ensures d * k * a + -b * k * c == 1.0 && d * k * b + -b * k * d == 0.0
    ensures -c * k * a + a * k * c == 0.0 && -c * k * b + a * k * d == 1.0
    ensures (c * f - d * e) * k * a + (b * e - a * f) * k * c + e == 0.0
    ensures (c * f - d * e) * k * b + (b * e - a * f) * k * d + f == 0.0
  {
    assert d * k * a + -b * k * c == (a * d - c * b) * k;
    assert -c * k * b + a * k * d == (a * d - c * b) * k;
    assert (c * f - d * e) * k * a + (b * e - a * f) * k * c == -e * ((a * d - c * b) * k);
    assert (c * f - d * e) * k * b + (b * e - a * f) * k * d == -f * ((a * d - c * b) * k);
  }

  /** `average_scale`: the mean of the lengths of the two column vectors. */
  function AverageScale(t: Transform, sqrt: real -> real): real
  {
    var sx := sqrt(t.a * t.a + t.c * t.c);
    var sy := sqrt(t.b * t.b + t.d * t.d);
    (sx + sy) * 0.5
  }

  /** `font_scale`: the least multiple of 0.01 not below `average_scale`. */
  function FontScale(t: Transform, sqrt: real -> real): (r: real)
    ensures var avg := AverageScale(t, sqrt);
            avg <= r < avg + 0.01 && (r / 0.01).Floor as real == r / 0.01
  {
    var a := AverageScale(t, sqrt);
    var k := Ceil(a / 0.01);
    assert (k as real * 0.01) / 0.01 == k as real;
    k as real * 0.01
  }
}
