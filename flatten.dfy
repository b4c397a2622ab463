// Flattening the command buffer into subpaths (nona/src/cache.rs:49-236):
// the command phase that appends points and subpaths, and the pass that
// closes, orients and directs each subpath and gathers the bounds.
module Flatten {
  import opened Numerics
  import opened Geometry
  import opened CanvasTypes
  import opened CacheSpec

  /** The part of the path cache flattening builds: the point buffer and the
      subpaths over it. */
  datatype Sketch = Sketch(points: seq<VPoint>, paths: seq<Path>)

  /** The subpath `add_path` opens at point index `first`: no points yet,
      open, solid, no vertices. */
  function NewPath(first: nat): Path
  {
    Path(first, 0, false, 0, Solid, 0, 0, 0, 0, false)
  }

  /** A subpath lies in a buffer of n points: it starts at a point of the
      buffer (its MoveTo point) and ends within it, and only a closed one can
      have no points. */
  predicate Within(p: Path, n: nat)
  {
    p.first < n && p.first + p.count <= n && (p.count > 0 || p.closed)
  }

  /** Every subpath lies in the point buffer, and the subpaths follow one
      another without overlapping. */
  predicate Sound(k: Sketch)
  {
    && (forall i :: 0 <= i < |k.paths| ==> Within(k.paths[i], |k.points|))
    && (forall i, j :: 0 <= i < j < |k.paths| ==> k.paths[i].first + k.paths[i].count <= k.paths[j].first)
  }

  // ---------------------------------------------------------------------
  // Command phase
  // ---------------------------------------------------------------------

  /** `add_path`: a new empty subpath starting at the end of the buffer. */
  function AddPathTo(k: Sketch): Sketch
  {
    k.(paths := k.paths + [NewPath(|k.points|)])
  }

  /** `add_point`: without a subpath nothing happens; a point within `tol` of
      the last point of the buffer, while the current subpath has points,
      only adds its flags to that point; otherwise the point is appended and
      counted in the current subpath.  Either way the pen ends within `tol`
      of pt (or on it) at a point carrying the given flags. */
  function AddPointTo(k: Sketch, pt: Point, flags: set<Flag>, tol: real): (r: Sketch)
    ensures |k.paths| == 0 ==> r == k
    ensures |r.paths| == |k.paths| && |k.points| <= |r.points| <= |k.points| + 1
    ensures |k.paths| > 0 ==>
      && |r.points| > 0
      && (r.points[|r.points| - 1].xy == pt || Equals(r.points[|r.points| - 1].xy, pt, tol))
      && flags <= r.points[|r.points| - 1].flags
      && r.paths[..|r.paths| - 1] == k.paths[..|k.paths| - 1]
      && r.paths[|r.paths| - 1].first == k.paths[|k.paths| - 1].first
  {
    if |k.paths| == 0 then k
    else
      var last := k.paths[|k.paths| - 1];
      if |k.points| > 0 && last.count > 0 && Equals(k.points[|k.points| - 1].xy, pt, tol) then
        var q := k.points[|k.points| - 1];
        k.(points := k.points[|k.points| - 1 := q.(flags := q.flags + flags)])
      else
        k.(points := k.points + [NewVPoint(pt, flags)], paths := k.paths[|k.paths| - 1 := last.(count := last.count + 1)])
  }

  /** Adding a point keeps the subpaths in the buffer and apart. */
  lemma AddPointSound(k: Sketch, pt: Point, flags: set<Flag>, tol: real)
    requires Sound(k)
    ensures Sound(AddPointTo(k, pt, flags, tol))
  {
    var r := AddPointTo(k, pt, flags, tol);
    if |k.paths| > 0 {
      var n := |k.paths| - 1;
      assert forall i :: 0 <= i < n ==> r.paths[i] == k.paths[i];
    }
  }

  /** A MoveTo opens a subpath whose only point is the one moved to. */
  lemma MoveToSound(k: Sketch, pt: Point, tol: real)
    requires Sound(k)
    ensures var r := AddPointTo(AddPathTo(k), pt, {PtCorner}, tol);
      && Sound(r)
      && r.points == k.points + [NewVPoint(pt, {PtCorner})]
      && r.paths == k.paths + [NewPath(|k.points|).(count := 1)]
  {
    var r := AddPointTo(AddPathTo(k), pt, {PtCorner}, tol);
    assert forall i :: 0 <= i < |k.paths| ==> r.paths[i] == k.paths[i];
  }

  /** One `add_point` call: a position and the flags it adds. */
  datatype Call = Call(pt: Point, flags: set<Flag>)

  function Mid(a: Point, b: Point): Point
  {
    Point((a.x + b.x) * 0.5, (a.y + b.y) * 0.5)
  }

  /** A cubic Bézier segment by its four control points. */
  datatype Cubic = Cubic(p1: Point, p2: Point, p3: Point, p4: Point)

  /** The halves of a cubic split at t = 1/2 (de Casteljau). */
  function LeftHalf(c: Cubic): (h: Cubic)
    ensures h.p1 == c.p1
  {
    var p12, p23 := Mid(c.p1, c.p2), Mid(c.p2, c.p3);
    var p123 := Mid(p12, p23);
    Cubic(c.p1, p12, p123, Mid(p123, Mid(p23, Mid(c.p3, c.p4))))
  }

  function RightHalf(c: Cubic): (h: Cubic)
    ensures h.p4 == c.p4 && h.p1 == LeftHalf(c).p4
  {
    var p23, p34 := Mid(c.p2, c.p3), Mid(c.p3, c.p4);
    var p234 := Mid(p23, p34);
    Cubic(Mid(Mid(Mid(c.p1, c.p2), p23), p234), p234, p34, c.p4)
  }

  /** The flatness test of `tesselate_bezier`: the control points lie close
      enough to the chord p1-p4. */
  predicate FlatEnough(c: Cubic, tol: real)
  {
    var dx := c.p4.x - c.p1.x;
    var dy := c.p4.y - c.p1.y;
    var d2 := Deviation(c.p2, c.p4, dx, dy);
    var d3 := Deviation(c.p3, c.p4, dx, dy);
    (d2 + d3) * (d2 + d3) < tol * (dx * dx + dy * dy)
  }

  /** How far control point p strays from the chord (dx, dy) ending at p4,
      scaled by the chord's length. */
  function Deviation(p: Point, p4: Point, dx: real, dy: real): real
  {
    Abs((p.x - p4.x) * dy - (p.y - p4.y) * dx)
  }

  /** The `add_point` calls `tesselate_bezier` makes for the cubic c at
      depth `level`: none past depth 10; the end point alone when the control
      points are within tolerance of the chord; otherwise those of the two
      halves, the first half's with no flags. */
  function TessCalls(c: Cubic, level: nat, flags: set<Flag>, tol: real): (r: seq<Call>)
    ensures |r| <= TessBudget(level)
    decreases 11 - level
  {
    if level > 10 then []
    else if FlatEnough(c, tol) then [Call(c.p4, flags)]
    else TessCalls(LeftHalf(c), level + 1, {}, tol) + TessCalls(RightHalf(c), level + 1, flags, tol)
  }

  /** Every call but those equal to `end` adds no flags. */
  predicate OnlyEndFlagged(r: seq<Call>, end: Call)
  {
    forall i :: 0 <= i < |r| ==> r[i].flags == {} || r[i] == end
  }

  lemma OnlyEndFlaggedAppend(a: seq<Call>, b: seq<Call>, mid: Call, end: Call)
    requires OnlyEndFlagged(a, mid) && mid.flags == {} && OnlyEndFlagged(b, end)
    ensures OnlyEndFlagged(a + b, end)
  {
    assert forall i :: 0 <= i < |a| ==> (a + b)[i] == a[i];
    assert forall i :: |a| <= i < |a| + |b| ==> (a + b)[i] == b[i - |a|];
  }

  /** The points a subdivided curve adds in between carry no flags: only its
      end point can carry them (and it may be missing, when the depth runs
      out before the last piece is flat enough). */
  lemma {:induction false} TessCallsFlags(c: Cubic, level: nat, flags: set<Flag>, tol: real)
    ensures OnlyEndFlagged(TessCalls(c, level, flags, tol), Call(c.p4, flags))
    decreases 11 - level
  {
    if level <= 10 && !FlatEnough(c, tol) {
      var l, h := LeftHalf(c), RightHalf(c);
      TessCallsFlags(l, level + 1, {}, tol);
      TessCallsFlags(h, level + 1, flags, tol);
      OnlyEndFlaggedAppend(TessCalls(l, level + 1, {}, tol), TessCalls(h, level + 1, flags, tol), Call(l.p4, {}), Call(c.p4, flags));
    }
  }

  /** The calls made one after the other. */
  function AddAll(k: Sketch, calls: seq<Call>, tol: real): (r: Sketch)
    ensures |r.paths| == |k.paths| && |k.points| <= |r.points| <= |k.points| + |calls|
    ensures |k.paths| > 0 ==> (r.paths[..|r.paths| - 1] == k.paths[..|k.paths| - 1]
                               && r.paths[|r.paths| - 1].first == k.paths[|k.paths| - 1].first)
    ensures |k.paths| == 0 ==> r == k
    decreases |calls|
  {
    if |calls| == 0 then k else AddAll(AddPointTo(k, calls[0].pt, calls[0].flags, tol), calls[1..], tol)
  }

  /** Making the calls of a + b is making those of a, then those of b. */
  lemma {:induction false} AddAllAppend(k: Sketch, a: seq<Call>, b: seq<Call>, tol: real)
    ensures AddAll(k, a + b, tol) == AddAll(AddAll(k, a, tol), b, tol)
    decreases |a|
  {
    if |a| > 0 {
      var k1 := AddPointTo(k, a[0].pt, a[0].flags, tol);
      assert (a + b)[0] == a[0] && (a + b)[1..] == a[1..] + b;
      assert AddAll(k, a + b, tol) == AddAll(k1, a[1..] + b, tol);
      assert AddAll(k, a, tol) == AddAll(k1, a[1..], tol);
      AddAllAppend(k1, a[1..], b, tol);
    } else {
      assert a + b == b;
    }
  }

  lemma {:induction false} AddAllSound(k: Sketch, calls: seq<Call>, tol: real)
    requires Sound(k)
    ensures Sound(AddAll(k, calls, tol))
    decreases |calls|
  {
    if |calls| > 0 {
      AddPointSound(k, calls[0].pt, calls[0].flags, tol);
      AddAllSound(AddPointTo(k, calls[0].pt, calls[0].flags, tol), calls[1..], tol);
    }
  }

  /** The effect of one command on the sketch. */
  function Step(k: Sketch, cmd: Command, distTol: real, tessTol: real): (r: Sketch)
    ensures |r.paths| == |k.paths| + (if cmd.MoveTo? then 1 else 0)
    ensures forall i :: 0 <= i < |k.paths| ==> r.paths[i].first == k.paths[i].first
  {
    match cmd
    case MoveTo(p) => MoveToFirsts(k, p, distTol); AddPointTo(AddPathTo(k), p, {PtCorner}, distTol)
    case LineTo(p) => AddPointTo(k, p, {PtCorner}, distTol)
    case BezierTo(c1, c2, p) =>
      if |k.points| == 0 then k
      else AddAll(k, TessCalls(Cubic(k.points[|k.points| - 1].xy, c1, c2, p), 0, {PtCorner}, tessTol), tessTol)
    case Close =>
      if |k.paths| == 0 then k
      else k.(paths := k.paths[|k.paths| - 1 := k.paths[|k.paths| - 1].(closed := true)])
    case SetSolidity(dir) =>
      if |k.paths| == 0 then k
      else k.(paths := k.paths[|k.paths| - 1 := k.paths[|k.paths| - 1].(solidity := dir)])
  }

  lemma MoveToFirsts(k: Sketch, p: Point, tol: real)
    ensures var r := AddPointTo(AddPathTo(k), p, {PtCorner}, tol);
      |r.paths| == |k.paths| + 1 && forall i :: 0 <= i < |k.paths| ==> r.paths[i] == k.paths[i]
  {
    var r := AddPointTo(AddPathTo(k), p, {PtCorner}, tol);
    assert r.paths[..|k.paths|] == k.paths;
  }

  /** One command keeps the sketch sound, and adds at most `StepPoints` points. */
  lemma StepSound(k: Sketch, cmd: Command, distTol: real, tessTol: real)
    requires Sound(k)
    ensures Sound(Step(k, cmd, distTol, tessTol))
    ensures |Step(k, cmd, distTol, tessTol).points| <= |k.points| + StepPoints(cmd)
  {
    match cmd
    case MoveTo(p) => MoveToSound(k, p, distTol);
    case LineTo(p) => AddPointSound(k, p, {PtCorner}, distTol);
    case BezierTo(c1, c2, p) =>
      if |k.points| > 0 {
        AddAllSound(k, TessCalls(Cubic(k.points[|k.points| - 1].xy, c1, c2, p), 0, {PtCorner}, tessTol), tessTol);
        TessBudgetFromZero();
      }
    case Close =>
      if |k.paths| > 0 {
        var r := Step(k, cmd, distTol, tessTol);
        assert forall i :: 0 <= i < |k.paths| ==> r.paths[i].first == k.paths[i].first && r.paths[i].count == k.paths[i].count;
      }
    case SetSolidity(dir) =>
      if |k.paths| > 0 {
        var r := Step(k, cmd, distTol, tessTol);
        assert forall i :: 0 <= i < |k.paths| ==> r.paths[i].first == k.paths[i].first && r.paths[i].count == k.paths[i].count
                                                   && r.paths[i].closed == k.paths[i].closed;
      }
  }

  /** The most points one command adds: one for a MoveTo or LineTo, 2^10 for
      a curve, none otherwise. */
  function StepPoints(cmd: Command): nat
  {
    match cmd
    case MoveTo(_) => 1
    case LineTo(_) => 1
    case BezierTo(_, _, _) => 1024
    case _ => 0
  }

  /** The commands applied in order. */
  function Commands(k: Sketch, cmds: seq<Command>, distTol: real, tessTol: real): (r: Sketch)
    ensures Sound(k) ==> Sound(r)
  {
    if |cmds| == 0 then k
    else
      var prev := Commands(k, cmds[..|cmds| - 1], distTol, tessTol);
      if Sound(prev) then StepSound(prev, cmds[|cmds| - 1], distTol, tessTol); Step(prev, cmds[|cmds| - 1], distTol, tessTol)
      else Step(prev, cmds[|cmds| - 1], distTol, tessTol)
  }

  function CountMoveTo(cmds: seq<Command>): nat
  {
    if |cmds| == 0 then 0
    else CountMoveTo(cmds[..|cmds| - 1]) + (if cmds[|cmds| - 1].MoveTo? then 1 else 0)
  }

  function PointBudget(cmds: seq<Command>): nat
  {
    if |cmds| == 0 then 0 else PointBudget(cmds[..|cmds| - 1]) + StepPoints(cmds[|cmds| - 1])
  }

  /** The command phase opens one subpath per MoveTo,
      leaves where the earlier subpaths start alone, and adds at most
      `PointBudget` points. */
  lemma {:induction false} CommandsShape(k: Sketch, cmds: seq<Command>, distTol: real, tessTol: real)
    requires Sound(k)
    ensures var r := Commands(k, cmds, distTol, tessTol);
      && |r.paths| == |k.paths| + CountMoveTo(cmds)
      && (forall i :: 0 <= i < |k.paths| ==> r.paths[i].first == k.paths[i].first)
      && |r.points| <= |k.points| + PointBudget(cmds)
    decreases |cmds|
  {
    if |cmds| > 0 {
      var init := cmds[..|cmds| - 1];
      CommandsShape(k, init, distTol, tessTol);
      StepSound(Commands(k, init, distTol, tessTol), cmds[|cmds| - 1], distTol, tessTol);
    }
  }

  // ---------------------------------------------------------------------
  // Closing, orienting and directing each subpath
  // ---------------------------------------------------------------------

  /** The points of subpath p. */
  function Slice(pts: seq<VPoint>, p: Path): (s: seq<VPoint>)
    requires p.first + p.count <= |pts|
    ensures |s| == p.count
  {
    pts[p.first..p.first + p.count]
  }

  /** The index after i round a ring of n points. */
  function Next(i: nat, n: nat): (j: nat)
    requires i < n
    ensures j < n
  {
    if i + 1 == n then 0 else i + 1
  }

  /** Each point of a ring directed towards the next, the last towards the first. */
  function Directions(s: seq<VPoint>, sqrt: real -> real): (r: seq<VPoint>)
    ensures |r| == |s|
  {
    seq(|s|, i requires 0 <= i < |s| => Directed(s[i], s[Next(i, |s|)], sqrt))
  }

  /** Directing a ring moves no point. */
  lemma DirectionsKeepPositions(s: seq<VPoint>, sqrt: real -> real)
    ensures forall i :: 0 <= i < |s| ==> Directions(s, sqrt)[i].xy == s[i].xy
  {
  }

  /** The bounds grown to take in p. */
  function Enclose(b: Bounds, p: Point): (r: Bounds)
    ensures Inside(r, p)
    ensures Covers(r, b)
  {
    Bounds(Point(Min(b.min.x, p.x), Min(b.min.y, p.y)), Point(Max(b.max.x, p.x), Max(b.max.y, p.y)))
  }

  predicate Inside(b: Bounds, p: Point)
  {
    b.min.x <= p.x <= b.max.x && b.min.y <= p.y <= b.max.y
  }

  /** Every point inside c is inside b. */
  predicate Covers(b: Bounds, c: Bounds)
  {
    b.min.x <= c.min.x && b.min.y <= c.min.y && c.max.x <= b.max.x && c.max.y <= b.max.y
  }

  /** The bounds grown to take in every point of s, in order. */
  function EncloseAll(b: Bounds, s: seq<VPoint>): (r: Bounds)
    ensures Covers(r, b)
  {
    if |s| == 0 then b else Enclose(EncloseAll(b, s[..|s| - 1]), s[|s| - 1].xy)
  }

  /** The grown bounds take in every point. */
  lemma {:induction false} EncloseAllInside(b: Bounds, s: seq<VPoint>)
    ensures forall i :: 0 <= i < |s| ==> Inside(EncloseAll(b, s), s[i].xy)
    decreases |s|
  {
    if |s| > 0 {
      var init := s[..|s| - 1];
      EncloseAllInside(b, init);
      assert forall i :: 0 <= i < |s| - 1 ==> s[i] == init[i];
    }
  }

  /** The order the direction pass visits a ring: the last point, then the
      others from the first. */
  function Rotated(s: seq<VPoint>): (r: seq<VPoint>)
    ensures |r| == |s|
  {
    if |s| == 0 then [] else [s[|s| - 1]] + s[..|s| - 1]
  }

  /** The pass visits every point. */
  lemma RotatedVisitsAll(s: seq<VPoint>)
    ensures forall i :: 0 <= i < |s| ==> s[i] == Rotated(s)[if i + 1 == |s| then 0 else i + 1]
  {
  }

  /** Subpath j of k finished: closed if its ends meet, wound the way its
      solidity asks, each point directed towards the next; the bounds take in
      its points. */
  function FinishOne(k: Sketch, b: Bounds, j: nat, tol: real, sqrt: real -> real): (r: (Sketch, Bounds))
    requires j < |k.paths| && Within(k.paths[j], |k.points|)
    ensures |r.0.points| == |k.points| && |r.0.paths| == |k.paths|
    ensures r.0.paths == k.paths[j := r.0.paths[j]]
    ensures Covers(r.1, b)
  {
    var q := CloseEnd(k.paths[j], k.points, tol);
    var s := Oriented(Slice(k.points, q), q.solidity);
    (Sketch(k.points[..q.first] + Directions(s, sqrt) + k.points[q.first + q.count..], k.paths[j := q]),
     EncloseAll(b, Rotated(s)))
  }

  /** What the finishing pass guarantees of subpath i: it is closed or has
      at least two points, it is wound the way its solidity asks, and the
      bounds take in all of its points. */
  predicate Finished(k: Sketch, b: Bounds, i: nat)
    requires i < |k.paths| && k.paths[i].first + k.paths[i].count <= |k.points|
  {
    var p := k.paths[i];
    && (p.closed || p.count >= 2)
    && Wound(Slice(k.points, p), p.solidity)
    && (forall m :: p.first <= m < p.first + p.count ==> Inside(b, k.points[m].xy))
  }

  /** Finishing a subpath keeps the sketch sound and finishes that subpath;
      the subpaths before it, whose points lie elsewhere, stay finished. */
  lemma FinishOneShape(k: Sketch, b: Bounds, j: nat, tol: real, sqrt: real -> real)
    requires Sound(k) && j < |k.paths| && tol != 0.0
    ensures var r := FinishOne(k, b, j, tol, sqrt);
      && Sound(r.0)
      && Finished(r.0, r.1, j)
      && (forall i :: 0 <= i < j && Finished(k, b, i) ==> Finished(r.0, r.1, i))
  {
    var r := FinishOne(k, b, j, tol, sqrt);
    var q := CloseEnd(k.paths[j], k.points, tol);
    var s := Oriented(Slice(k.points, q), q.solidity);
    var d := Directions(s, sqrt);
    var pre := k.points[..q.first];
    assert r.0.points == pre + d + k.points[q.first + q.count..];
    assert r.0.points[..q.first] == pre;
    FinishOneSound(k, b, j, tol, sqrt);
    FinishOneFinishes(k, b, j, tol, sqrt);
    forall i | 0 <= i < j && Finished(k, b, i)
      ensures Finished(r.0, r.1, i)
    {
      EarlierStaysFinished(k, r.0, b, r.1, i, q.first);
    }
  }

  /** A finished subpath lying wholly before `first` stays finished when
      only points from `first` on change and the bounds only grow. */
  lemma EarlierStaysFinished(k: Sketch, k': Sketch, b: Bounds, b': Bounds, i: nat, first: nat)
    requires i < |k.paths| && i < |k'.paths| && k'.paths[i] == k.paths[i]
    requires k.paths[i].first + k.paths[i].count <= first <= |k.points| && first <= |k'.points|
    requires k'.points[..first] == k.points[..first]
    requires Covers(b', b) && Finished(k, b, i)
    ensures Finished(k', b', i)
  {
    var p := k.paths[i];
    assert Slice(k'.points, p) == k'.points[..first][p.first..p.first + p.count];
    assert Slice(k.points, p) == k.points[..first][p.first..p.first + p.count];
    FinishedFrame(k, k', b, b', i);
  }

  /** A finished subpath stays finished while its points stay put and the
      bounds only grow. */
  lemma FinishedFrame(k: Sketch, k': Sketch, b: Bounds, b': Bounds, i: nat)
    requires i < |k.paths| && i < |k'.paths| && k'.paths[i] == k.paths[i]
    requires k.paths[i].first + k.paths[i].count <= |k.points| && k.paths[i].first + k.paths[i].count <= |k'.points|
    requires Slice(k'.points, k.paths[i]) == Slice(k.points, k.paths[i])
    requires Covers(b', b) && Finished(k, b, i)
    ensures Finished(k', b', i)
  {
    var p := k.paths[i];
    forall m | p.first <= m < p.first + p.count
      ensures Inside(b', k'.points[m].xy)
    {
      assert k'.points[m] == Slice(k'.points, p)[m - p.first];
    }
  }

  /** Replacing the run at `first` leaves the points before it alone. */
  lemma Outside(pts: seq<VPoint>, first: nat, d: seq<VPoint>, post: seq<VPoint>)
    requires first <= |pts|
    ensures forall m :: 0 <= m < first ==> (pts[..first] + d + post)[m] == pts[m]
    ensures forall m :: first <= m < first + |d| ==> (pts[..first] + d + post)[m] == d[m - first]
  {
  }

  lemma FinishOneSound(k: Sketch, b: Bounds, j: nat, tol: real, sqrt: real -> real)
    requires Sound(k) && j < |k.paths| && tol != 0.0
    ensures Sound(FinishOne(k, b, j, tol, sqrt).0)
  {
    var r := FinishOne(k, b, j, tol, sqrt).0;
    assert forall i :: 0 <= i < |k.paths| && i != j ==> r.paths[i] == k.paths[i];
  }

  lemma FinishOneFinishes(k: Sketch, b: Bounds, j: nat, tol: real, sqrt: real -> real)
    requires Sound(k) && j < |k.paths| && tol != 0.0
    ensures FinishOne(k, b, j, tol, sqrt).0.paths[j].first + FinishOne(k, b, j, tol, sqrt).0.paths[j].count
            <= |FinishOne(k, b, j, tol, sqrt).0.points|
    ensures Finished(FinishOne(k, b, j, tol, sqrt).0, FinishOne(k, b, j, tol, sqrt).1, j)
  {
    var r := FinishOne(k, b, j, tol, sqrt);
    var p := k.paths[j];
    var q := CloseEnd(p, k.points, tol);
    var s := Oriented(Slice(k.points, q), q.solidity);
    var d := Directions(s, sqrt);
    var post := k.points[q.first + q.count..];
    assert r.0.points == k.points[..q.first] + d + post;
    assert r.0.paths[j] == q;
    assert r.1 == EncloseAll(b, Rotated(s));
    Outside(k.points, q.first, d, post);
    if p.count == 1 {
      LoneMoveToCloses(p, k.points, tol);
    }
    assert Slice(r.0.points, q) == d;
    FinishedRing(r.0, b, j, s, d, sqrt);
  }

  /** A subpath whose points are the directed form of a ring wound its way
      is finished against the bounds grown by that ring. */
  lemma FinishedRing(k: Sketch, b: Bounds, j: nat, s: seq<VPoint>, d: seq<VPoint>, sqrt: real -> real)
    requires j < |k.paths| && k.paths[j].first + k.paths[j].count <= |k.points|
    requires Slice(k.points, k.paths[j]) == d && d == Directions(s, sqrt)
    requires (k.paths[j].closed || k.paths[j].count >= 2) && Wound(s, k.paths[j].solidity)
    ensures Finished(k, EncloseAll(b, Rotated(s)), j)
  {
    var q := k.paths[j];
    forall m | q.first <= m < q.first + |d|
      ensures k.points[m] == d[m - q.first]
    {
      assert k.points[m] == Slice(k.points, q)[m - q.first];
    }
    RingKeepsWinding(s, d, q.solidity, sqrt);
    RingInside(b, s, d, k.points, q.first, sqrt);
  }

  /** Directing a ring keeps its winding. */
  lemma RingKeepsWinding(s: seq<VPoint>, d: seq<VPoint>, dir: Solidity, sqrt: real -> real)
    requires d == Directions(s, sqrt) && Wound(s, dir)
    ensures Wound(d, dir)
  {
    DirectionsKeepPositions(s, sqrt);
    PolyAreaOfPositions(d, s);
  }

  /** The bounds grown by the direction pass take in the directed ring,
      wherever it is placed. */
  lemma RingInside(b: Bounds, s: seq<VPoint>, d: seq<VPoint>, pts: seq<VPoint>, first: nat, sqrt: real -> real)
    requires d == Directions(s, sqrt) && first + |d| <= |pts|
    requires forall m :: first <= m < first + |d| ==> pts[m] == d[m - first]
    ensures forall m :: first <= m < first + |d| ==> Inside(EncloseAll(b, Rotated(s)), pts[m].xy)
  {
    DirectionsKeepPositions(s, sqrt);
    EncloseAllInside(b, Rotated(s));
    RotatedVisitsAll(s);
    forall m | first <= m < first + |d|
      ensures Inside(EncloseAll(b, Rotated(s)), pts[m].xy)
    {
      var t := m - first;
      assert pts[m].xy == s[t].xy;
      assert Inside(EncloseAll(b, Rotated(s)), Rotated(s)[if t + 1 == |s| then 0 else t + 1].xy);
    }
  }

  /** The first j subpaths finished, one after the other. */
  function FinishUpTo(k: Sketch, b: Bounds, j: nat, tol: real, sqrt: real -> real): (r: (Sketch, Bounds))
    requires Sound(k) && j <= |k.paths| && tol != 0.0
    ensures Sound(r.0) && |r.0.points| == |k.points| && |r.0.paths| == |k.paths|
    ensures r.0.paths[j..] == k.paths[j..]
    ensures forall i :: 0 <= i < j ==> Finished(r.0, r.1, i)
  {
    if j == 0 then
      (k, b)
    else
      var prev := FinishUpTo(k, b, j - 1, tol, sqrt);
      FinishNext(k, prev, j - 1, tol, sqrt);
      FinishOne(prev.0, prev.1, j - 1, tol, sqrt)
  }

  /** Finishing subpath j after the first j keeps the first j + 1
      finished and leaves the later records alone. */
  lemma FinishNext(k: Sketch, prev: (Sketch, Bounds), j: nat, tol: real, sqrt: real -> real)
    requires Sound(prev.0) && j < |k.paths| && tol != 0.0
    requires |prev.0.points| == |k.points| && |prev.0.paths| == |k.paths| && prev.0.paths[j..] == k.paths[j..]
    requires forall i :: 0 <= i < j ==> Finished(prev.0, prev.1, i)
    ensures var r := FinishOne(prev.0, prev.1, j, tol, sqrt);
      && Sound(r.0) && |r.0.points| == |k.points| && |r.0.paths| == |k.paths|
      && r.0.paths[j + 1..] == k.paths[j + 1..]
      && (forall i :: 0 <= i < j + 1 ==> Finished(r.0, r.1, i))
  {
    var r := FinishOne(prev.0, prev.1, j, tol, sqrt);
    FinishOneShape(prev.0, prev.1, j, tol, sqrt);
    forall i | j < i < |k.paths|
      ensures r.0.paths[i] == k.paths[i]
    {
      assert prev.0.paths[j..][i - j] == k.paths[j..][i - j];
    }
    assert r.0.paths[j + 1..] == k.paths[j + 1..];
  }
}
