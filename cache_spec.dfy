// The pure part of the path cache (nona/src/cache.rs): the point record and
// its flags, polygon area and reversal, the per-point join classification,
// the subdivision counts, and the vertex counts the emitters produce and the
// arena sizes `expand_stroke` and `expand_fill` reserve for them.
module CacheSpec {
  import opened Numerics
  import opened Geometry
  import opened CanvasTypes

  /** The per-point flags PT_CORNER, PT_LEFT, PT_BEVEL and PR_INNERBEVEL. */
  datatype Flag = PtCorner | PtLeft | PtBevel | PtInnerBevel

  /** A flattened point: its position, the unit direction `d` towards the next
      point of its subpath and the distance `len` to it, the extrusion vector
      `dm` and the flags. */
  datatype VPoint = VPoint(xy: Point, d: Point, len: real, dm: Point, flags: set<Flag>)

  /** The point `add_point` appends: everything but the position and the
      flags is zero. */
  function NewVPoint(pt: Point, flags: set<Flag>): (r: VPoint)
    ensures r.xy == pt && r.flags == flags && r.len == 0.0
  {
    VPoint(pt, Point(0.0, 0.0), 0.0, Point(0.0, 0.0), flags)
  }

  // ---------------------------------------------------------------------
  // Area and reversal
  // ---------------------------------------------------------------------

  /** The signed parallelogram area spanned by p and q seen from the origin. */
  function Wedge(p: Point, q: Point): real
  {
    p.x * q.y - q.x * p.y
  }

  /** `triangle_area`: twice the signed area of abc.  It equals the shoelace
      sum of the three edges, so it does not depend on where the origin is. */
  function TriangleArea(a: Point, b: Point, c: Point): (r: real)
    ensures r == Wedge(a, c) + Wedge(c, b) + Wedge(b, a)
  {
    var abx := b.x - a.x;
    var aby := b.y - a.y;
    var acx := c.x - a.x;
    var acy := c.y - a.y;
    acx * aby - abx * acy
  }

  /** The sum over the fan of triangles (s[0], s[i-1], s[i]), 2 <= i < |s|. */
  function FanSum(s: seq<VPoint>): real
  {
    if |s| < 3 then 0.0
    else FanSum(s[..|s| - 1]) + TriangleArea(s[0].xy, s[|s| - 2].xy, s[|s| - 1].xy)
  }

  /** `poly_area`: the signed area of the polygon through the points of `s`. */
  function PolyArea(s: seq<VPoint>): real
  {
    FanSum(s) * 0.5
  }

  /** The sum of the wedges of consecutive points, without the closing edge. */
  function Chain(s: seq<VPoint>): real
  {
    if |s| < 2 then 0.0
    else Chain(s[..|s| - 1]) + Wedge(s[|s| - 1].xy, s[|s| - 2].xy)
  }

  /** The shoelace formula: the chain plus the edge from the last point back
      to the first. */
  function Shoelace(s: seq<VPoint>): real
  {
    if |s| == 0 then 0.0 else Chain(s) + Wedge(s[0].xy, s[|s| - 1].xy)
  }

  /** The fan sum and the shoelace sum agree. */
  lemma {:induction false} FanIsShoelace(s: seq<VPoint>)
    ensures FanSum(s) == Shoelace(s)
  {
    if |s| == 1 {
      assert Wedge(s[0].xy, s[0].xy) == 0.0;
    } else if |s| == 2 {
      assert Chain(s[..1]) == 0.0;
      assert Wedge(s[1].xy, s[0].xy) + Wedge(s[0].xy, s[1].xy) == 0.0;
    } else if |s| >= 3 {
      var n := |s|;
      var t := s[..n - 1];
      FanIsShoelace(t);
      assert t[0] == s[0] && t[n - 2] == s[n - 2];
      var a, b, c := s[0].xy, s[n - 2].xy, s[n - 1].xy;
      assert Wedge(a, b) + Wedge(b, a) == 0.0;
      assert FanSum(s) == Chain(t) + Wedge(a, b) + TriangleArea(a, b, c);
      assert Chain(s) == Chain(t) + Wedge(c, b);
    }
  }

  /** The chain can equally be unfolded from the front. */
  lemma {:induction false} ChainFront(s: seq<VPoint>)
    requires |s| >= 2
    ensures Chain(s) == Wedge(s[1].xy, s[0].xy) + Chain(s[1..])
  {
    var n := |s|;
    if n == 2 {
      assert |s[..1]| == 1 && |s[1..]| == 1;
    } else {
      var t := s[..n - 1];
      ChainFront(t);
      assert t[1..] == s[1..][..n - 2];
      assert t[0] == s[0] && t[1] == s[1];
      assert s[1..][n - 2] == s[n - 1] && s[1..][n - 3] == s[n - 2];
    }
  }

  /** `s` read backwards. */
  function Reversed<T>(s: seq<T>): (r: seq<T>)
    ensures |r| == |s|
    ensures forall i :: 0 <= i < |s| ==> r[i] == s[|s| - 1 - i]
  {
    if |s| == 0 then [] else Reversed(s[1..]) + [s[0]]
  }

  /** Reversal is a permutation. */
  lemma {:induction false} ReversedPermutes<T>(s: seq<T>)
    ensures multiset(Reversed(s)) == multiset(s)
  {
    if |s| > 0 {
      ReversedPermutes(s[1..]);
      assert s == [s[0]] + s[1..];
    }
  }

  /** Reversal is an involution. */
  lemma ReversedTwice<T>(s: seq<T>)
    ensures Reversed(Reversed(s)) == s
  {
    assert forall i :: 0 <= i < |s| ==> Reversed(Reversed(s))[i] == s[i];
  }

  lemma {:induction false} ChainReversed(s: seq<VPoint>)
    ensures Chain(Reversed(s)) == -Chain(s)
  {
    if |s| >= 2 {
      var n := |s|;
      var r := Reversed(s);
      var tail := Reversed(s[1..]);
      ChainReversed(s[1..]);
      ChainFront(s);
      assert r == tail + [s[0]];
      assert r[..n - 1] == tail;
      assert tail[n - 2] == s[1];
      assert Chain(r) == Chain(tail) + Wedge(s[0].xy, s[1].xy);
    }
  }

  /** Reversing a polygon negates its area: `poly_reverse` flips the winding. */
  lemma {:induction false} PolyAreaReversed(s: seq<VPoint>)
    ensures PolyArea(Reversed(s)) == -PolyArea(s)
  {
    var r := Reversed(s);
    FanIsShoelace(s);
    FanIsShoelace(r);
    if |s| > 0 {
      ChainReversed(s);
      var a, b := s[0].xy, s[|s| - 1].xy;
      assert r[0].xy == b && r[|s| - 1].xy == a;
      WedgeAntisymmetric(a, b);
      assert Shoelace(r) == -Chain(s) + Wedge(b, a);
      assert Shoelace(r) == -Shoelace(s);
    }
  }

  lemma WedgeAntisymmetric(p: Point, q: Point)
    ensures Wedge(q, p) == -Wedge(p, q)
  {
  }

  /** The area reads nothing but the positions. */
  lemma {:induction false} PolyAreaOfPositions(s: seq<VPoint>, t: seq<VPoint>)
    requires |s| == |t|
    requires forall i :: 0 <= i < |s| ==> s[i].xy == t[i].xy
    ensures PolyArea(s) == PolyArea(t)
  {
    FanSumOfPositions(s, t);
  }

  lemma {:induction false} FanSumOfPositions(s: seq<VPoint>, t: seq<VPoint>)
    requires |s| == |t|
    requires forall i :: 0 <= i < |s| ==> s[i].xy == t[i].xy
    ensures FanSum(s) == FanSum(t)
  {
    if |s| >= 3 {
      FanSumOfPositions(s[..|s| - 1], t[..|t| - 1]);
    }
  }

  /** The winding `flatten_paths` enforces on a subpath of more than two
      points: a Solid one has non-negative area, a Hole non-positive. */
  predicate Wound(s: seq<VPoint>, dir: Solidity)
  {
    |s| > 2 ==> (dir == Solid ==> PolyArea(s) >= 0.0) && (dir == Hole ==> PolyArea(s) <= 0.0)
  }

  /** The reversal decision of `flatten_paths`: a subpath of more than two
      points whose area has the wrong sign for its solidity is reversed. */
  function Oriented(s: seq<VPoint>, dir: Solidity): (r: seq<VPoint>)
    ensures Wound(r, dir)
    ensures r == s || r == Reversed(s)
    ensures multiset(r) == multiset(s)
  {
    var a := PolyArea(s);
    ReversedPermutes(s);
    if |s| > 2 && ((dir == Solid && a < 0.0) || (dir == Hole && a > 0.0)) then
      PolyAreaReversed(s);
      Reversed(s)
    else s
  }

  /** The direction and length `flatten_paths` stores in a point `p` whose
      successor in its subpath is `next`: `len` is the distance between them
      and, when it is not negligible, `d` scaled by `len` leads from p to next. */
  function Directed(p: VPoint, next: VPoint, sqrt: real -> real): (r: VPoint)
    ensures r.xy == p.xy && r.dm == p.dm && r.flags == p.flags
    ensures r.len == sqrt(SqDist(p.xy, next.xy))
    ensures r.len > 1.0e-6 ==>
      r.d.x * r.len == next.xy.x - p.xy.x && r.d.y * r.len == next.xy.y - p.xy.y
  {
    var v := Point(next.xy.x - p.xy.x, next.xy.y - p.xy.y);
    var n := Normalize(v, sqrt);
    assert v.x * v.x + v.y * v.y == SqDist(p.xy, next.xy);
    p.(d := n.dir, len := n.len)
  }

  /** The closing test of `flatten_paths`: a subpath whose last point is
      within `tol` of its first drops that point and becomes closed; any
      other subpath is left alone. */
  function CloseEnd(p: Path, pts: seq<VPoint>, tol: real): (r: Path)
    requires p.first + p.count <= |pts|
    ensures r.count <= p.count <= r.count + 1
    ensures r == p.(count := r.count, closed := r.closed)
    ensures r.count < p.count <==> p.count > 0 && Equals(pts[p.first + p.count - 1].xy, pts[p.first].xy, tol)
    ensures r.count < p.count ==> r.closed
    ensures r.count == p.count ==> r == p
  {
    if p.count > 0 && Equals(pts[p.first + p.count - 1].xy, pts[p.first].xy, tol) then
      p.(count := p.count - 1, closed := true)
    else p
  }

  /** A subpath made of a lone MoveTo becomes a closed subpath of no point. */
  lemma LoneMoveToCloses(p: Path, pts: seq<VPoint>, tol: real)
    requires p.first + p.count <= |pts| && p.count == 1 && tol != 0.0
    ensures CloseEnd(p, pts, tol).count == 0 && CloseEnd(p, pts, tol).closed
  {
    EqualsSelf(pts[p.first].xy, tol);
  }

  // ---------------------------------------------------------------------
  // Subdivision counts
  // ---------------------------------------------------------------------

  /** A number of divisions of an arc: at least 2 and, being an `i32`, at
      most `i32::MAX`. */
  type Divs = n: int | 2 <= n <= I32_MAX witness 2

  /** `curve_divs`: the number of segments, each spanning the angle
      `2·acos(r/(r+tol))`, needed to cover `arc`.  The f32 special cases are
      written out: a zero denominator makes the angle NaN, and a NaN quotient
      casts to 0; a zero angle makes the quotient ±infinity, which casts to
      the i32 bounds.  Either way the `max(2)` floor applies. */
  function CurveDivs(r: real, arc: real, tol: real, acos: real -> real): (n: Divs)
    ensures r + tol != 0.0 && acos(r / (r + tol)) * 2.0 > 0.0 && arc >= 0.0 &&
            arc / (acos(r / (r + tol)) * 2.0) <= I32_MAX as real ==>
              n as real * (acos(r / (r + tol)) * 2.0) >= arc
  {
    if r + tol == 0.0 then 2
    else
      var da := acos(r / (r + tol)) * 2.0;
      if da == 0.0 then (if arc > 0.0 then I32_MAX else 2)
      else
        var k := SaturateI32(Ceil(arc / da));
        var n := if k < 2 then 2 else k;
        if da > 0.0 && arc >= 0.0 && arc / da <= I32_MAX as real then
          assert arc / da <= k as real <= n as real;
          CoverArc(n as real, arc, da);
          n
        else n
  }

  lemma CoverArc(n: real, arc: real, da: real)
    requires da > 0.0 && arc / da <= n
    ensures n * da >= arc
  {
    var q := arc / da;
    assert q * da == arc;
    MulMonotone(n, q, da);
  }

  lemma MulMonotone(a: real, b: real, c: real)
    requires a >= b && c > 0.0
    ensures a * c >= b * c
  {
  }

  /** The most points one `tesselate_bezier` call at depth `level` can add:
      nothing past depth 10, otherwise 2^(10 - level). */
  function TessBudget(level: int): (n: nat)
    ensures level > 10 ==> n == 0
    ensures level <= 10 ==> n >= 1
    decreases 11 - level
  {
    if level > 10 then 0 else if level == 10 then 1 else 2 * TessBudget(level + 1)
  }

  /** A whole curve, subdivided from depth 0, adds at most 2^10 points. */
  lemma TessBudgetFromZero()
    ensures TessBudget(0) == 1024
  {
  }

  // ---------------------------------------------------------------------
  // Joins
  // ---------------------------------------------------------------------

  /** `choose_bevel`: the two outer corner points of a join at p1 at offset
      `w`.  A bevel takes each segment's own normal, so the first point lies
      square to the incoming direction; otherwise both points are the single
      mitre point along `dm`. */
  function ChooseBevel(bevel: bool, p0: VPoint, p1: VPoint, w: real): (r: (Point, Point))
    ensures !bevel ==> r.0 == r.1 == Point(p1.xy.x + p1.dm.x * w, p1.xy.y + p1.dm.y * w)
    ensures bevel ==> (r.0.x - p1.xy.x) * p0.d.x + (r.0.y - p1.xy.y) * p0.d.y == 0.0
    ensures bevel ==> (r.1.x - p1.xy.x) * p1.d.x + (r.1.y - p1.xy.y) * p1.d.y == 0.0
    ensures bevel && p0.d == p1.d ==> r.0 == r.1
  {
    if bevel then
      (Point(p1.xy.x + p0.d.y * w, p1.xy.y - p0.d.x * w), Point(p1.xy.x + p1.d.y * w, p1.xy.y - p1.d.x * w))
    else
      var m := Point(p1.xy.x + p1.dm.x * w, p1.xy.y + p1.dm.y * w);
      (m, m)
  }

  /** Whether a point needs a bevel join: PT_BEVEL or PR_INNERBEVEL. */
  predicate Bevelled(q: VPoint)
  {
    PtBevel in q.flags || PtInnerBevel in q.flags
  }

  /** The classification `calculate_joins` gives point `p1`, whose
      predecessor has direction `d0` and segment length `len0`: its old flags
      are cut down to PT_CORNER; PT_LEFT marks a left turn; PR_INNERBEVEL an
      inner corner too tight for the segments; PT_BEVEL a corner that the join
      style or the miter limit does not let be mitred.  Only `dm` and the flags
      change. */
  function JoinPoint(d0: Point, len0: real, p1: VPoint, iw: real, join: LineJoin, miterLimit: real): (r: VPoint)
    ensures r == p1.(dm := r.dm, flags := r.flags)
    ensures r.flags - {PtLeft, PtBevel, PtInnerBevel} == p1.flags * {PtCorner}
    ensures PtLeft in r.flags <==> p1.d.x * d0.y - d0.x * p1.d.y > 0.0
    ensures PtBevel in r.flags ==> PtCorner in r.flags
    ensures PtCorner in p1.flags && join != LineJoin.Miter ==> PtBevel in r.flags
  {
    var dlx0 := d0.y;
    var dly0 := -d0.x;
    var dlx1 := p1.d.y;
    var dly1 := -p1.d.x;
    var dmx := (dlx0 + dlx1) * 0.5;
    var dmy := (dly0 + dly1) * 0.5;
    var dmr2 := dmx * dmx + dmy * dmy;
    var dm :=
      if dmr2 > 0.000001 then
        var scale := if 1.0 / dmr2 > 600.0 then 600.0 else 1.0 / dmr2;
        Point(dmx * scale, dmy * scale)
      else Point(dmx, dmy);
    var corner := PtCorner in p1.flags;
    var left := p1.d.x * d0.y - d0.x * p1.d.y > 0.0;
    var limit := Max(Min(len0, p1.len) * iw, 1.01);
    var inner := dmr2 * limit * limit < 1.0;
    var bevel := corner && (dmr2 * miterLimit * miterLimit < 1.0 || join == LineJoin.Bevel || join == LineJoin.Round);
    var flags :=
      (if corner then {PtCorner} else {}) + (if left then {PtLeft} else {})
      + (if inner then {PtInnerBevel} else {}) + (if bevel then {PtBevel} else {});
    p1.(dm := dm, flags := flags)
  }

  /** An `atan2` whose values lie in (-PI, PI], as the f32 one does. */
  ghost predicate Atan2InRange(atan2: (real, real) -> real)
  {
    forall y: real, x: real {:trigger atan2(y, x)} :: -PI < atan2(y, x) <= PI
  }

  /** The start and end angles of the arc `round_join` sweeps at p1, taken
      from the left normals of the incoming and outgoing directions.  A left
      turn sweeps clockwise (the end angle is wound below the start), a right
      turn counter-clockwise (the end angle is wound above it). */
  function JoinAngles(p0: VPoint, p1: VPoint, atan2: (real, real) -> real): (r: (real, real))
    ensures Atan2InRange(atan2) && PtLeft in p1.flags ==> r.1 <= r.0
    ensures Atan2InRange(atan2) && PtLeft !in p1.flags ==> r.0 <= r.1
  {
    var dlx0 := p0.d.y;
    var dly0 := -p0.d.x;
    var dlx1 := p1.d.y;
    var dly1 := -p1.d.x;
    if PtLeft in p1.flags then
      var a0 := -atan2(dly0, -dlx0);
      var a1 := -atan2(dly1, -dlx1);
      (a0, if a1 > a0 then a1 - PI * 2.0 else a1)
    else
      var a0 := atan2(dly0, dlx0);
      var a1 := atan2(dly1, dlx1);
      (a0, if a1 < a0 then a1 + PI * 2.0 else a1)
  }

  /** The number of arc steps for a sweep of `sweep` radians: ncap steps per
      half turn, rounded up, saturated as an i32 and clamped to [2, ncap]. */
  function ArcSteps(sweep: real, ncap: Divs): (n: int)
    ensures 2 <= n <= ncap
    ensures sweep <= 0.0 ==> n == 2
    ensures sweep >= PI ==> n == ncap
  {
    HalfTurnSteps(sweep, ncap);
    ClampInt(SaturateI32(Ceil(sweep / PI * ncap as real)), 2, ncap)
  }

  /** A sweep of a half turn or more needs all ncap steps, one of none no step. */
  lemma HalfTurnSteps(sweep: real, ncap: Divs)
    ensures sweep >= PI ==> Ceil(sweep / PI * ncap as real) >= ncap
    ensures sweep <= 0.0 ==> Ceil(sweep / PI * ncap as real) <= 0
  {
    var turns := sweep / PI;
    var c := ncap as real;
    if sweep >= PI {
      assert turns >= 1.0;
      MulMonotone(turns, 1.0, c);
      CeilBounds(turns * c, ncap);
    }
    if sweep <= 0.0 {
      assert turns <= 0.0;
      MulMonotone(0.0, turns, c);
      CeilBounds(turns * c, ncap);
    }
  }

  /** Ceil keeps a bound by an integer below, and is not positive where x is not. */
  lemma CeilBounds(x: real, c: int)
    ensures x >= c as real ==> Ceil(x) >= c
    ensures x <= 0.0 ==> Ceil(x) <= 0
  {
  }

  /** The arc steps of `round_join` as written: both turn directions use
      a0 - a1, which is never positive for a right turn. */
  function RoundJoinStepsAsWritten(left: bool, a0: real, a1: real, ncap: Divs): (n: int)
    ensures 2 <= n <= ncap
  {
    ArcSteps(a0 - a1, ncap)
  }

  /** Finding: a right-turn round join always gets the minimum of 2 arc
      steps, however far it turns; a left turn through half a circle gets
      ncap.  With ncap 8 the two mirror-image half turns get 2 and 8 steps. */
  lemma RightTurnStepsCollapse(a0: real, a1: real, ncap: Divs)
    requires a0 <= a1
    ensures RoundJoinStepsAsWritten(false, a0, a1, ncap) == 2
    ensures RoundJoinStepsAsWritten(false, 0.0, PI, 8) == 2 && RoundJoinStepsAsWritten(true, PI, 0.0, 8) == 8
  {
  }

  /** The arc steps `round_join` intends: the sweep is a0 - a1 for a left
      turn and a1 - a0 for a right one. */
  function RoundJoinSteps(left: bool, a0: real, a1: real, ncap: Divs): (n: int)
    ensures 2 <= n <= ncap
  {
    ArcSteps(if left then a0 - a1 else a1 - a0, ncap)
  }

  /** Mirror-image turns through the same angle get the same number of arc
      steps, and a half turn either way gets ncap of them. */
  lemma MirroredTurnsAgree(a0: real, b0: real, theta: real, ncap: Divs)
    ensures RoundJoinSteps(true, b0, b0 - theta, ncap) == RoundJoinSteps(false, a0, a0 + theta, ncap)
    ensures theta >= PI ==> RoundJoinSteps(false, a0, a0 + theta, ncap) == ncap
  {
    assert b0 - (b0 - theta) == theta && (a0 + theta) - a0 == theta;
  }

  /** The number of points of `s` that need a bevel join. */
  function CountBevelled(s: seq<VPoint>): (n: nat)
    ensures n <= |s|
  {
    if |s| == 0 then 0
    else CountBevelled(s[..|s| - 1]) + (if Bevelled(s[|s| - 1]) then 1 else 0)
  }

  /** The number of points of `s` flagged PT_LEFT. */
  function CountLeft(s: seq<VPoint>): (n: nat)
    ensures n <= |s|
  {
    if |s| == 0 then 0
    else CountLeft(s[..|s| - 1]) + (if PtLeft in s[|s| - 1].flags then 1 else 0)
  }

  /** `convex` is `nleft == count`: every point of the subpath turns left. */
  lemma {:induction false} CountLeftAll(s: seq<VPoint>)
    ensures CountLeft(s) == |s| <==> forall k :: 0 <= k < |s| ==> PtLeft in s[k].flags
  {
    if |s| > 0 {
      var t := s[..|s| - 1];
      CountLeftAll(t);
      assert forall k :: 0 <= k < |t| ==> t[k] == s[k];
    }
  }

  lemma {:induction false} CountBevelledAppend(x: seq<VPoint>, y: seq<VPoint>)
    ensures CountBevelled(x + y) == CountBevelled(x) + CountBevelled(y)
  {
    if |y| > 0 {
      CountBevelledAppend(x, y[..|y| - 1]);
      assert (x + y)[..|x + y| - 1] == x + y[..|y| - 1];
    } else {
      assert x + y == x;
    }
  }

  /** A slice of a subpath has no more bevelled points than the subpath. */
  lemma CountBevelledSlice(s: seq<VPoint>, lo: nat, hi: nat)
    requires lo <= hi <= |s|
    ensures CountBevelled(s[lo..hi]) <= CountBevelled(s)
  {
    assert s == s[..lo] + s[lo..hi] + s[hi..];
    CountBevelledAppend(s[..lo] + s[lo..hi], s[hi..]);
    CountBevelledAppend(s[..lo], s[lo..hi]);
  }

  // ---------------------------------------------------------------------
  // Emitter sizes and arena budgets
  // ---------------------------------------------------------------------

  /** Which emitter draws a cap, with the inset `d` of a butt-style cap. */
  datatype CapEmitter = ButtCapAt(d: real) | RoundCapAt

  /** The vertices a cap emitter writes: 4 for a butt cap, 2·ncap+2 for a
      round cap. */
  function CapWrites(e: CapEmitter, ncap: Divs): (n: nat)
    ensures 4 <= n <= 2 * ncap + 2
  {
    match e
    case ButtCapAt(_) => 4
    case RoundCapAt => 2 * ncap + 2
  }

  /** The start cap of an open stroke: Butt is a butt cap pulled back by half
      the fringe, Square a butt cap pushed out by the half-width, Round a
      round cap. */
  function StartCap(cap: LineCap, w: real, aa: real): (e: CapEmitter)
    ensures e.RoundCapAt? <==> cap == LineCap.Round
  {
    match cap
    case Butt => ButtCapAt(-aa * 0.5)
    case Square => ButtCapAt(w - aa)
    case Round => RoundCapAt
  }

  /** The end cap as the source selects it: the Round and Square arms are
      swapped with respect to the start cap. */
  function EndCapAsWritten(cap: LineCap, w: real, aa: real): (e: CapEmitter)
    ensures cap == LineCap.Butt ==> e == StartCap(cap, w, aa)
    ensures cap != LineCap.Butt ==> e != StartCap(cap, w, aa)
  {
    match cap
    case Butt => ButtCapAt(-aa * 0.5)
    case Round => ButtCapAt(w - aa)
    case Square => RoundCapAt
  }

  /** The end cap as intended: the same emitter as the start cap, mirrored. */
  function EndCap(cap: LineCap, w: real, aa: real): (e: CapEmitter)
    ensures e == StartCap(cap, w, aa)
    ensures e.RoundCapAt? <==> cap == LineCap.Round
  {
    match cap
    case Butt => ButtCapAt(-aa * 0.5)
    case Square => ButtCapAt(w - aa)
    case Round => RoundCapAt
  }

  /** The vertices `bevel_join` writes at a point: 8 for PT_BEVEL, else 10. */
  function BevelJoinWrites(q: VPoint): nat
  {
    if PtBevel in q.flags then 8 else 10
  }

  /** The most vertices the stroke writes at an inner point: a plain point
      writes its 2 extrusions, a bevelled one a round join (at most 2·ncap+4)
      or a bevel join.  Exact unless the join is a round one. */
  function JoinWritesMax(q: VPoint, join: LineJoin, ncap: Divs): (n: nat)
    ensures 2 <= n
    ensures !Bevelled(q) ==> n == 2
  {
    if !Bevelled(q) then 2
    else if join == LineJoin.Round then 2 * ncap + 4
    else BevelJoinWrites(q)
  }

  function JoinSum(s: seq<VPoint>, join: LineJoin, ncap: Divs): (n: nat)
    ensures n >= 2 * |s|
  {
    if |s| == 0 then 0
    else JoinSum(s[..|s| - 1], join, ncap) + JoinWritesMax(s[|s| - 1], join, ncap)
  }

  /** The most vertices the stroke of one subpath writes (exactly that many
      unless the join is round): a closed subpath writes a join at each point
      and repeats its first two vertices; an open one writes its two caps and
      a join at each inner point. */
  function StrokeWritesMax(s: seq<VPoint>, closed: bool, join: LineJoin, start: CapEmitter, end: CapEmitter, ncap: Divs): (n: nat)
    requires closed || |s| >= 2
    ensures closed ==> n >= 2
    ensures !closed ==> n >= 8
  {
    if closed then JoinSum(s, join, ncap) + 2
    else CapWrites(start, ncap) + JoinSum(s[1..|s| - 1], join, ncap) + CapWrites(end, ncap)
  }

  /** Half the extra vertices `expand_stroke` reserves per bevelled point:
      a round join's ncap+2 pairs, or the 5 pairs of a bevel join. */
  function BevelPairs(join: LineJoin, ncap: Divs): (n: nat)
    ensures forall q :: JoinWritesMax(q, join, ncap) <= 2 + 2 * n
  {
    if join == LineJoin.Round then ncap + 2 else 5
  }

  /** The vertices `expand_stroke` reserves for the caps of an open subpath. */
  function CapAllowance(cap: LineCap, ncap: Divs): nat
  {
    if cap == LineCap.Round then (ncap * 2 + 2) * 2 else (3 + 3) * 2
  }

  /** The stroke reservation for one subpath as the source computes it: a
      Round join gets no cap allowance for an open subpath. */
  function StrokeAllowanceAsWritten(p: Path, join: LineJoin, cap: LineCap, ncap: Divs): (n: nat)
    ensures join != LineJoin.Round ==> n == StrokeAllowance(p, join, cap, ncap)
    ensures join == LineJoin.Round && !p.closed ==> n + CapAllowance(cap, ncap) == StrokeAllowance(p, join, cap, ncap)
  {
    if join == LineJoin.Round then (p.count + p.numBevel * (ncap + 2) + 1) * 2
    else
      (p.count + p.numBevel * 5 + 1) * 2
      + (if !p.closed then CapAllowance(cap, ncap) else 0)
  }

  /** The stroke reservation for one subpath: joins plus the closing pair,
      and the caps of an open subpath whatever the join. */
  function StrokeAllowance(p: Path, join: LineJoin, cap: LineCap, ncap: Divs): nat
  {
    (p.count + p.numBevel * BevelPairs(join, ncap) + 1) * 2
    + (if !p.closed then CapAllowance(cap, ncap) else 0)
  }

  function StrokeBudget(ps: seq<Path>, join: LineJoin, cap: LineCap, ncap: Divs): nat
  {
    if |ps| == 0 then 0
    else StrokeBudget(ps[..|ps| - 1], join, cap, ncap) + StrokeAllowance(ps[|ps| - 1], join, cap, ncap)
  }

  lemma {:induction false} JoinSumBound(s: seq<VPoint>, join: LineJoin, ncap: Divs)
    ensures JoinSum(s, join, ncap) <= 2 * |s| + 2 * BevelPairs(join, ncap) * CountBevelled(s)
  {
    if |s| > 0 {
      var init, q := s[..|s| - 1], s[|s| - 1];
      JoinSumBound(init, join, ncap);
      var b := BevelPairs(join, ncap);
      assert JoinWritesMax(q, join, ncap) <= (if Bevelled(q) then 2 + 2 * b else 2);
      BevelStep(b, CountBevelled(init), |init|, JoinSum(init, join, ncap), JoinWritesMax(q, join, ncap), Bevelled(q));
    }
  }

  /** One more point adds its writes to the bound, and a bevelled one b more pairs. */
  lemma BevelStep(b: nat, c: nat, m: nat, sum: nat, j: nat, bev: bool)
    requires sum <= 2 * m + 2 * b * c
    requires j <= (if bev then 2 + 2 * b else 2)
    ensures sum + j <= 2 * (m + 1) + 2 * b * (c + (if bev then 1 else 0))
  {
    assert 2 * b * (c + 1) == 2 * b * c + 2 * b;
  }

  /** A subpath none of whose points is bevelled writes two vertices per point. */
  lemma {:induction false} NoneBevelled(s: seq<VPoint>, join: LineJoin, ncap: Divs)
    requires forall k :: 0 <= k < |s| ==> !Bevelled(s[k])
    ensures CountBevelled(s) == 0 && JoinSum(s, join, ncap) == 2 * |s|
  {
    if |s| > 0 {
      NoneBevelled(s[..|s| - 1], join, ncap);
    }
  }

  lemma MulMonotoneNat(a: nat, b: nat, c: nat)
    requires b <= c
    ensures a * b <= a * c
  {
  }

  /** With the intended end cap, the stroke of a subpath fits its
      reservation, provided `num_bevel` counts the bevelled points. */
  lemma StrokeFits(s: seq<VPoint>, p: Path, join: LineJoin, cap: LineCap, ncap: Divs, w: real, aa: real)
    requires |s| == p.count && p.numBevel == CountBevelled(s)
    requires p.closed || |s| >= 2
    ensures StrokeWritesMax(s, p.closed, join, StartCap(cap, w, aa), EndCap(cap, w, aa), ncap)
            <= StrokeAllowance(p, join, cap, ncap)
  {
    if p.closed {
      StrokeFitsClosed(s, p, join, cap, ncap);
    } else {
      StrokeFitsOpen(s, p, join, cap, ncap, StartCap(cap, w, aa));
    }
  }

  lemma StrokeFitsClosed(s: seq<VPoint>, p: Path, join: LineJoin, cap: LineCap, ncap: Divs)
    requires |s| == p.count && p.numBevel == CountBevelled(s) && p.closed
    ensures JoinSum(s, join, ncap) + 2 <= StrokeAllowance(p, join, cap, ncap)
  {
    var b := BevelPairs(join, ncap);
    JoinSumBound(s, join, ncap);
    assert (p.count + p.numBevel * b + 1) * 2 == 2 * p.count + 2 * b * p.numBevel + 2;
  }

  lemma StrokeFitsOpen(s: seq<VPoint>, p: Path, join: LineJoin, cap: LineCap, ncap: Divs, e: CapEmitter)
    requires |s| == p.count >= 2 && p.numBevel == CountBevelled(s) && !p.closed
    requires e.RoundCapAt? <==> cap == LineCap.Round
    ensures 2 * CapWrites(e, ncap) + JoinSum(s[1..|s| - 1], join, ncap) <= StrokeAllowance(p, join, cap, ncap)
  {
    var inner := s[1..|s| - 1];
    JoinSumBound(inner, join, ncap);
    CountBevelledSlice(s, 1, |s| - 1);
    assert 2 * CapWrites(e, ncap) <= CapAllowance(cap, ncap);
    AllowanceCovers(p.count, p.numBevel, CountBevelled(inner), JoinSum(inner, join, ncap), BevelPairs(join, ncap));
  }

  lemma AllowanceCovers(c: nat, nb: nat, bi: nat, js: nat, b: nat)
    requires c >= 2 && nb >= bi && js <= 2 * (c - 2) + 2 * b * bi
    ensures js <= (c + nb * b + 1) * 2
  {
    MulMonotoneNat(b, bi, nb);
  }

  /** The U-shaped polyline (0,100) → (0,0) → (100,0) → (100,100) with its
      unit directions and segment lengths, as `flatten_paths` leaves it. */
  function UTurnPoints(): seq<VPoint>
  {
    [ VPoint(Point(0.0, 100.0), Point(0.0, -1.0), 100.0, Point(0.0, 0.0), {PtCorner}),
      VPoint(Point(0.0, 0.0), Point(1.0, 0.0), 100.0, Point(0.0, 0.0), {PtCorner}),
      VPoint(Point(100.0, 0.0), Point(0.0, 1.0), 100.0, Point(0.0, 0.0), {PtCorner}),
      VPoint(Point(100.0, 100.0), Point(-1.0, 0.0), 100.0, Point(0.0, 0.0), {PtCorner}) ]
  }

  /** Finding: with a Square cap the source's end cap is a round cap, which
      writes 2·ncap+2 vertices where 12 are reserved for both caps.  The
      U-turn stroked with miter joins (limit 10), half-width 10 and ncap 8
      has no bevelled point after `calculate_joins`, reserves 22 vertices and
      writes 26. */
  lemma {:induction false} SquareEndCapOverflows()
    ensures var u := UTurnPoints();
            var iw := 0.1;
            var joined := [ JoinPoint(u[3].d, u[3].len, u[0], iw, LineJoin.Miter, 10.0),
                            JoinPoint(u[0].d, u[0].len, u[1], iw, LineJoin.Miter, 10.0),
                            JoinPoint(u[1].d, u[1].len, u[2], iw, LineJoin.Miter, 10.0),
                            JoinPoint(u[2].d, u[2].len, u[3], iw, LineJoin.Miter, 10.0) ];
            var p := Path(0, 4, false, CountBevelled(joined), Solid, 0, 0, 0, 0, false);
            CountBevelled(joined) == 0 &&
            StrokeAllowanceAsWritten(p, LineJoin.Miter, LineCap.Square, 8) == 22 &&
            StrokeWritesMax(joined, false, LineJoin.Miter, StartCap(LineCap.Square, 10.0, 1.0),
                            EndCapAsWritten(LineCap.Square, 10.0, 1.0), 8) == 26
  {
    var u := UTurnPoints();
    var iw := 0.1;
    var j0 := JoinPoint(u[3].d, u[3].len, u[0], iw, LineJoin.Miter, 10.0);
    var j1 := JoinPoint(u[0].d, u[0].len, u[1], iw, LineJoin.Miter, 10.0);
    var j2 := JoinPoint(u[1].d, u[1].len, u[2], iw, LineJoin.Miter, 10.0);
    var j3 := JoinPoint(u[2].d, u[2].len, u[3], iw, LineJoin.Miter, 10.0);
    assert j0.flags == {PtCorner};
    assert j1.flags == {PtCorner};
    assert j2.flags == {PtCorner};
    assert j3.flags == {PtCorner};
    var joined := [j0, j1, j2, j3];
    NoneBevelled(joined, LineJoin.Miter, 8);
    NoneBevelled(joined[1..3], LineJoin.Miter, 8);
  }

  /** Finding: under a Round join the source reserves nothing for the caps
      of an open subpath, so an open three-point subpath none of whose points
      is bevelled reserves 8 vertices and writes 10. */
  lemma {:induction false} RoundJoinWithoutCapAllowance(s: seq<VPoint>)
    requires |s| == 3 && forall k :: 0 <= k < 3 ==> !Bevelled(s[k])
    ensures var p := Path(0, 3, false, CountBevelled(s), Solid, 0, 0, 0, 0, false);
            StrokeAllowanceAsWritten(p, LineJoin.Round, LineCap.Butt, 2) == 8 &&
            StrokeWritesMax(s, false, LineJoin.Round, StartCap(LineCap.Butt, 1.0, 1.0),
                            EndCapAsWritten(LineCap.Butt, 1.0, 1.0), 2) == 10
  {
    NoneBevelled(s, LineJoin.Round, 2);
    NoneBevelled(s[1..2], LineJoin.Round, 2);
  }

  /** Why the Round-join shortfall stays latent: when either end point of an
      open subpath is bevelled (every PT_CORNER point is, under a Round join,
      and a subpath starts with the PT_CORNER point of its MoveTo), the
      allowance that end point earns covers both caps, even with the swapped
      end cap. */
  lemma RoundJoinCoveredByBevelledEnd(s: seq<VPoint>, p: Path, cap: LineCap, ncap: Divs, w: real, aa: real)
    requires |s| == p.count >= 2 && !p.closed && p.numBevel == CountBevelled(s)
    requires Bevelled(s[0]) || Bevelled(s[|s| - 1])
    ensures StrokeWritesMax(s, false, LineJoin.Round, StartCap(cap, w, aa), EndCapAsWritten(cap, w, aa), ncap)
            <= StrokeAllowanceAsWritten(p, LineJoin.Round, cap, ncap)
  {
    var inner := s[1..|s| - 1];
    var caps := CapWrites(StartCap(cap, w, aa), ncap) + CapWrites(EndCapAsWritten(cap, w, aa), ncap);
    assert caps <= 2 * ncap + 6;
    JoinSumBound(inner, LineJoin.Round, ncap);
    EndBevelledCounts(s);
    RoundAllowanceCovers(p.count, p.numBevel, CountBevelled(inner), JoinSum(inner, LineJoin.Round, ncap), caps, ncap);
  }

  lemma RoundAllowanceCovers(c: nat, nb: nat, bi: nat, js: nat, caps: nat, ncap: nat)
    requires c >= 2 && nb >= bi + 1 && caps <= 2 * ncap + 6
    requires js <= 2 * (c - 2) + 2 * (ncap + 2) * bi
    ensures caps + js <= (c + nb * (ncap + 2) + 1) * 2
  {
    MulMonotoneNat(ncap + 2, bi + 1, nb);
  }

  /** A bevelled end point counts on top of the inner points' bevels. */
  lemma EndBevelledCounts(s: seq<VPoint>)
    requires |s| >= 2 && (Bevelled(s[0]) || Bevelled(s[|s| - 1]))
    ensures CountBevelled(s) >= CountBevelled(s[1..|s| - 1]) + 1
  {
    var n := |s|;
    var inner := s[1..n - 1];
    var head, last := [s[0]], [s[n - 1]];
    assert s[1..] == inner + last;
    assert s == head + s[1..];
    assert head + (inner + last) == head + inner + last;
    CountBevelledAppend(head + inner, last);
    CountBevelledAppend(head, inner);
    CountBevelledOne(s[0]);
    CountBevelledOne(s[n - 1]);
  }

  lemma CountBevelledOne(q: VPoint)
    ensures CountBevelled([q]) == if Bevelled(q) then 1 else 0
  {
    assert [q][..0] == [];
  }

  // Fill

  /** The vertices the fill interior of a fringed fill writes at a point: two
      at a PT_BEVEL point that does not turn left, else one. */
  function FillPointWrites(q: VPoint): nat
  {
    if PtBevel in q.flags && PtLeft !in q.flags then 2 else 1
  }

  function FillSum(s: seq<VPoint>): (n: nat)
    ensures |s| <= n <= |s| + CountBevelled(s)
  {
    if |s| == 0 then 0 else FillSum(s[..|s| - 1]) + FillPointWrites(s[|s| - 1])
  }

  /** The reservation `expand_fill` makes for one subpath: the interior, and
      with a fringe the anti-aliasing ring. */
  function FillAllowance(p: Path, fringe: bool): nat
  {
    p.count + p.numBevel + 1 + (if fringe then (p.count + p.numBevel * 5 + 1) * 2 else 0)
  }

  function FillBudget(ps: seq<Path>, fringe: bool): nat
  {
    if |ps| == 0 then 0 else FillBudget(ps[..|ps| - 1], fringe) + FillAllowance(ps[|ps| - 1], fringe)
  }

  /** The fill of one subpath fits its reservation: the interior writes at
      most count + num_bevel vertices and the ring at most 2·count +
      10·num_bevel + 2. */
  lemma {:induction false} FillFits(s: seq<VPoint>, p: Path, fringe: bool)
    requires |s| == p.count && p.numBevel == CountBevelled(s)
    ensures (if fringe then FillSum(s) + JoinSum(s, LineJoin.Bevel, 2) + 2 else |s|) <= FillAllowance(p, fringe)
  {
    JoinSumBound(s, LineJoin.Bevel, 2);
  }
}
