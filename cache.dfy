// The path cache (nona/src/cache.rs:26-690): the point buffer, the
// subpaths over it, the vertex arena and the bounds, and the passes that
// fill them in place.
module Cache {
  import opened Numerics
  import opened Geometry
  import opened CanvasTypes
  import opened CacheSpec
  import opened Emitters
  import opened Expand
  import opened Fill
  import opened Flatten
  import opened JoinPass
  import opened Arena

  /** The bounds `flatten_paths` starts from: min at f32::MAX, max at f32::MIN. */
  const InitialBounds: Bounds := Bounds(Point(F32_MAX, F32_MAX), Point(-F32_MAX, -F32_MAX))

  class PathCache {
    var points: seq<VPoint>
    var paths: seq<Path>
    var vertexes: array<Vertex>
    var bounds: Bounds

    /** Every subpath lies in the point buffer, apart from the others. */
    ghost predicate Valid()
      reads this
    {
      Sound(Sketch(points, paths))
    }

    /** An empty cache (`Default`). */
    constructor ()
      ensures points == [] && paths == [] && vertexes.Length == 0
      ensures bounds == Bounds(Point(0.0, 0.0), Point(0.0, 0.0))
      ensures Valid()
    {
      points := [];
      paths := [];
      vertexes := new Vertex[0];
      bounds := Bounds(Point(0.0, 0.0), Point(0.0, 0.0));
    }

    /** `clear`: drops the points and the subpaths; the arena and the bounds stay. */
    method Clear()
      modifies this
      ensures points == [] && paths == [] && vertexes == old(vertexes) && bounds == old(bounds)
      ensures Valid()
    {
      points := [];
      paths := [];
    }

    /** `add_path`. */
    method AddPath()
      modifies this
      ensures Sketch(points, paths) == AddPathTo(old(Sketch(points, paths)))
      ensures vertexes == old(vertexes) && bounds == old(bounds)
    {
      paths := paths + [NewPath(|points|)];
    }

    /** `add_point`. */
    method AddPoint(pt: Point, flags: set<Flag>, tol: real)
      modifies this
      ensures Sketch(points, paths) == AddPointTo(old(Sketch(points, paths)), pt, flags, tol)
      ensures vertexes == old(vertexes) && bounds == old(bounds)
    {
      if |paths| > 0 {
        var path := paths[|paths| - 1];
        if |points| > 0 {
          var last := points[|points| - 1];
          if path.count > 0 && Equals(last.xy, pt, tol) {
            points := points[|points| - 1 := last.(flags := last.flags + flags)];
            return;
          }
        }
        points := points + [NewVPoint(pt, flags)];
        paths := paths[|paths| - 1 := path.(count := path.count + 1)];
      }
    }

    /** `close_path`. */
    method ClosePath()
      modifies this
      ensures |old(paths)| == 0 ==> paths == old(paths)
      ensures |old(paths)| > 0 ==> paths == old(paths)[|old(paths)| - 1 := old(paths)[|old(paths)| - 1].(closed := true)]
      ensures points == old(points) && vertexes == old(vertexes) && bounds == old(bounds)
    {
      if |paths| > 0 {
        paths := paths[|paths| - 1 := paths[|paths| - 1].(closed := true)];
      }
    }

    /** `path_solidity`. */
    method PathSolidity(dir: Solidity)
      modifies this
      ensures |old(paths)| == 0 ==> paths == old(paths)
      ensures |old(paths)| > 0 ==> paths == old(paths)[|old(paths)| - 1 := old(paths)[|old(paths)| - 1].(solidity := dir)]
      ensures points == old(points) && vertexes == old(vertexes) && bounds == old(bounds)
    {
      if |paths| > 0 {
        paths := paths[|paths| - 1 := paths[|paths| - 1].(solidity := dir)];
      }
    }

    /** `tesselate_bezier`: the points of the cubic p1..p4, subdivided from
        depth `level`, added one after the other with `tol` as the merging
        distance. */
    method TesselateBezier(p1: Point, p2: Point, p3: Point, p4: Point, level: nat, flags: set<Flag>, tol: real)
      modifies this
      ensures Sketch(points, paths) == AddAll(old(Sketch(points, paths)), TessCalls(Cubic(p1, p2, p3, p4), level, flags, tol), tol)
      ensures vertexes == old(vertexes) && bounds == old(bounds)
      decreases 11 - level
    {
      ghost var k0 := Sketch(points, paths);
      if level > 10 {
        return;
      }
      var c := Cubic(p1, p2, p3, p4);
      if FlatEnough(c, tol) {
        AddPoint(p4, flags, tol);
        return;
      }
      var p12, p23, p34 := Mid(p1, p2), Mid(p2, p3), Mid(p3, p4);
      var p123, p234 := Mid(p12, p23), Mid(p23, p34);
      var p1234 := Mid(p123, p234);
      assert LeftHalf(c) == Cubic(p1, p12, p123, p1234) && RightHalf(c) == Cubic(p1234, p234, p34, p4);
      TesselateBezier(p1, p12, p123, p1234, level + 1, {}, tol);
      TesselateBezier(p1234, p234, p34, p4, level + 1, flags, tol);
      AddAllAppend(k0, TessCalls(LeftHalf(c), level + 1, {}, tol), TessCalls(RightHalf(c), level + 1, flags, tol), tol);
    }

    /** One command of `flatten_paths`'s first loop. */
    method AddCommand(cmd: Command, distTol: real, tessTol: real)
      modifies this
      ensures Sketch(points, paths) == Step(old(Sketch(points, paths)), cmd, distTol, tessTol)
      ensures vertexes == old(vertexes) && bounds == old(bounds)
    {
      match cmd
      case MoveTo(p) =>
        AddPath();
        AddPoint(p, {PtCorner}, distTol);
      case LineTo(p) =>
        AddPoint(p, {PtCorner}, distTol);
      case BezierTo(c1, c2, p) =>
        if |points| > 0 {
          var last := points[|points| - 1];
          TesselateBezier(last.xy, c1, c2, p, 0, {PtCorner}, tessTol);
        }
      case Close =>
        ClosePath();
      case SetSolidity(dir) =>
        PathSolidity(dir);
    }

    /** `flatten_paths`: appends the subpaths the commands draw, then closes,
        orients and directs every subpath in the cache and recomputes the
        bounds from all of their points. */
    method FlattenPaths(commands: seq<Command>, distTol: real, tessTol: real, sqrt: real -> real)
      requires Valid() && distTol != 0.0
      modifies this
      ensures Valid()
      ensures var k := Commands(old(Sketch(points, paths)), commands, distTol, tessTol);
        (Sketch(points, paths), bounds) == FinishUpTo(k, InitialBounds, |k.paths|, distTol, sqrt)
      ensures vertexes == old(vertexes)
    {
      AddCommands(commands, distTol, tessTol);
      bounds := InitialBounds;
      FinishPaths(distTol, sqrt);
    }

    /** The first loop of `flatten_paths`: the commands, one after the other. */
    method AddCommands(commands: seq<Command>, distTol: real, tessTol: real)
      modifies this
      ensures Sketch(points, paths) == Commands(old(Sketch(points, paths)), commands, distTol, tessTol)
      ensures vertexes == old(vertexes) && bounds == old(bounds)
    {
      ghost var k0 := Sketch(points, paths);
      var i := 0;
      while i < |commands|
        invariant 0 <= i <= |commands|
        invariant Sketch(points, paths) == Commands(k0, commands[..i], distTol, tessTol)
        invariant vertexes == old(vertexes) && bounds == old(bounds)
      {
        AddCommand(commands[i], distTol, tessTol);
        assert commands[..i + 1][..i] == commands[..i];
        i := i + 1;
      }
      assert commands[..i] == commands;
    }

    /** The second loop of `flatten_paths`: every subpath finished in turn,
        the bounds grown from where they stand. */
    method FinishPaths(distTol: real, sqrt: real -> real)
      requires Valid() && distTol != 0.0
      modifies this
      ensures Valid()
      ensures (Sketch(points, paths), bounds) == FinishUpTo(old(Sketch(points, paths)), old(bounds), |old(paths)|, distTol, sqrt)
      ensures vertexes == old(vertexes)
    {
      ghost var k1 := Sketch(points, paths);
      var j := 0;
      while j < |paths|
        invariant 0 <= j <= |paths| == |k1.paths|
        invariant (Sketch(points, paths), bounds) == FinishUpTo(k1, old(bounds), j, distTol, sqrt)
        invariant vertexes == old(vertexes)
      {
        FinishPath(j, distTol, sqrt);
        j := j + 1;
      }
    }

    /** The second loop of `flatten_paths` for subpath j: drops a last point
        that repeats the first and closes the subpath, reverses a subpath of
        more than two points wound against its solidity, then points each
        point's `d` at the next one and takes it into the bounds. */
    method FinishPath(j: nat, tol: real, sqrt: real -> real)
      requires Valid() && j < |paths|
      modifies this
      ensures (Sketch(points, paths), bounds) == FinishOne(old(Sketch(points, paths)), old(bounds), j, tol, sqrt)
      ensures vertexes == old(vertexes)
    {
      ghost var k := Sketch(points, paths);
      ghost var b := bounds;
      var p := paths[j];
      if p.count > 0 && Equals(points[p.first + p.count - 1].xy, points[p.first].xy, tol) {
        p := p.(count := p.count - 1, closed := true);
      }
      assert p == CloseEnd(k.paths[j], k.points, tol);
      var s := points[p.first..p.first + p.count];
      assert s == Slice(k.points, p);
      s := OrientRing(s, p.solidity);
      var before := points[..p.first];
      var after := points[p.first + p.count..];
      var d := DirectRing(s, sqrt);
      assert points == k.points && paths == k.paths;
      points := before + d + after;
      paths := paths[j := p];
      FinishOneIs(k, b, j, tol, sqrt, p, s, d);
      assert (Sketch(points, paths), bounds) == FinishOne(k, b, j, tol, sqrt);
    }

    /** `calculate_joins`: every subpath's points get their extrusions and
        join flags, every subpath its bevel count and convexity. */
    method CalculateJoins(w: real, join: LineJoin, miterLimit: real)
      requires Valid()
      modifies this
      ensures Valid()
      ensures var iw := if w > 0.0 then 1.0 / w else 0.0;
        && |points| == |old(points)| && |paths| == |old(paths)|
        && JoinedFrom(old(Sketch(points, paths)), Sketch(points, paths), |paths|, iw, join, miterLimit)
      ensures vertexes == old(vertexes) && bounds == old(bounds)
    {
      var iw := 0.0;
      if w > 0.0 {
        iw := 1.0 / w;
      }
      ghost var k0 := Sketch(points, paths);
      NothingJoined(k0, iw, join, miterLimit);
      var i := 0;
      while i < |paths|
        invariant 0 <= i <= |k0.paths|
        invariant |points| == |k0.points| && |paths| == |k0.paths| && Valid()
        invariant JoinedFrom(k0, Sketch(points, paths), i, iw, join, miterLimit)
        invariant vertexes == old(vertexes) && bounds == old(bounds)
      {
        ghost var prev := Sketch(points, paths);
        assert Within(paths[i], |points|);
        JoinPath(i, iw, join, miterLimit);
        JoinStep(k0, prev, i, iw, join, miterLimit);
        i := i + 1;
      }
    }

    /** The loop of `calculate_joins` over subpath j: each point classified
        against its predecessor, the bevelled and left-turning points
        counted. */
    method JoinPath(j: nat, iw: real, join: LineJoin, miterLimit: real)
      requires j < |paths| && Within(paths[j], |points|)
      modifies this
      ensures Sketch(points, paths) == JoinOne(old(Sketch(points, paths)), j, iw, join, miterLimit)
      ensures vertexes == old(vertexes) && bounds == old(bounds)
    {
      ghost var k := Sketch(points, paths);
      var p := paths[j];
      var s := points[p.first..p.first + p.count];
      var r, nbevel, nleft := ClassifyRing(s, iw, join, miterLimit);
      var before, after := points[..p.first], points[p.first + p.count..];
      points := before + r + after;
      paths := paths[j := p.(numBevel := nbevel, convex := nleft == p.count)];
      JoinOneIs(k, j, iw, join, miterLimit, r);
    }

    /** `alloc_temp_vertexes`: the arena resized to `count` vertices, keeping
        what it held and padding with zero vertices; a null pointer (false)
        when it comes out empty. */
    method AllocTempVertexes(count: nat) returns (ok: bool)
      modifies this
      ensures fresh(vertexes) && vertexes[..] == Resized(old(vertexes[..]), count)
      ensures ok <==> count > 0
      ensures points == old(points) && paths == old(paths) && bounds == old(bounds)
    {
      var a := new Vertex[count];
      var keep := if count < vertexes.Length then count else vertexes.Length;
      var k := 0;
      while k < count
        invariant 0 <= k <= count
        invariant forall m :: 0 <= m < k ==> a[m] == if m < keep then vertexes[m] else ZeroVertex
        modifies a
      {
        a[k] := if k < keep then vertexes[k] else ZeroVertex;
        k := k + 1;
      }
      vertexes := a;
      ok := count > 0;
    }

    /** The reservation loop of `expand_stroke`, with the allowance of each
        subpath corrected to cover its caps whatever the join. */
    method StrokeReservation(join: LineJoin, cap: LineCap, ncap: Divs) returns (n: nat)
      ensures n == StrokeBudget(paths, join, cap, ncap)
    {
      n := 0;
      var i := 0;
      while i < |paths|
        invariant 0 <= i <= |paths|
        invariant n == StrokeBudget(paths[..i], join, cap, ncap)
      {
        StrokeBudgetPrefix(paths, i, join, cap, ncap);
        var p := paths[i];
        var c := (p.count + p.numBevel * BevelPairs(join, ncap) + 1) * 2;
        if !p.closed {
          c := c + CapAllowance(cap, ncap);
        }
        n := n + c;
        i := i + 1;
      }
      assert paths[..i] == paths;
    }

    /** The stroke of subpath i, written at `dst`: its fill cleared, its
        stroke recorded where the run starts and by its length. */
    method StrokePath(i: nat, dst: nat, join: LineJoin, cap: LineCap, w: real, aa: real,
                      u0: real, u1: real, ncap: Divs, lib: Libm) returns (end: nat)
      requires i < |paths| && ReadyPath(points, paths[i])
      requires dst + StrokeAllowance(paths[i], join, cap, ncap) <= vertexes.Length
      modifies this, vertexes
      ensures points == old(points) && vertexes == old(vertexes) && bounds == old(bounds)
      ensures dst <= end <= dst + StrokeAllowance(old(paths[i]), join, cap, ncap) && dst + 2 <= vertexes.Length
      ensures paths == old(paths)[i := old(paths[i]).(fill := 0, numFill := 0, stroke := dst, numStroke := end - dst)]
      ensures vertexes[dst..end] == Stroker(points, join, cap, w, aa, u0, u1, ncap, lib)(old(paths[i]), old(vertexes[dst..dst + 2]))
      ensures vertexes[..dst] == old(vertexes[..dst]) && vertexes[end..] == old(vertexes[end..])
    {
      var p := paths[i];
      var s := Slice(points, p);
      StrokeFits(s, p, join, cap, ncap, w, aa);
      ghost var under := vertexes[dst..dst + 2];
      ghost var run := StrokeRun(s, p.closed, join, cap, w, aa, u0, u1, ncap, lib, under);
      assert Stroker(points, join, cap, w, aa, u0, u1, ncap, lib)(p, under) == StrokeOf(points, p, under, join, cap, w, aa, u0, u1, ncap, lib) == run;
      end := WriteStroke(vertexes, dst, s, p.closed, join, cap, w, aa, u0, u1, ncap, lib);
      Placed(old(vertexes[..]), vertexes[..], dst, run, end);
      paths := paths[i := p.(fill := 0, numFill := 0, stroke := dst, numStroke := end - dst)];
    }

    /** The stroke loop of `expand_stroke`: the subpaths stroked one after the
        other from the start of the arena, which holds their reservation. */
    method StrokePaths(join: LineJoin, cap: LineCap, w: real, aa: real, u0: real, u1: real, ncap: Divs, lib: Libm)
      requires Ready(Sketch(points, paths))
      requires vertexes.Length == StrokeBudget(paths, join, cap, ncap)
      modifies this, vertexes
      ensures points == old(points) && vertexes == old(vertexes) && bounds == old(bounds)
      ensures |paths| == |old(paths)| && StrokesPacked(paths, |paths|)
      ensures forall j :: 0 <= j < |paths| ==>
        StrokedPath(vertexes[..], old(vertexes[..]), points, old(paths), paths, j,
                    Stroker(points, join, cap, w, aa, u0, u1, ncap, lib))
      ensures StrokeStart(paths, |paths|) <= vertexes.Length
      ensures vertexes[StrokeStart(paths, |paths|)..] == old(vertexes[..])[StrokeStart(paths, |paths|)..]
    {
      ghost var v0 := vertexes[..];
      ghost var ps0 := paths;
      ghost var run := Stroker(points, join, cap, w, aa, u0, u1, ncap, lib);
      StrokeLoopStart(v0, points, ps0, join, cap, ncap, run);
      var dst := 0;
      var i := 0;
      while i < |paths|
        invariant points == old(points) && vertexes == old(vertexes) && bounds == old(bounds)
        invariant StrokeLoop(vertexes[..], v0, points, ps0, paths, i, dst, join, cap, ncap, run)
      {
        StrokeLoopNext(vertexes[..], v0, points, ps0, paths, i, dst, join, cap, ncap, run);
        ghost var before := vertexes[..];
        ghost var ps := paths;
        var end := StrokePath(i, dst, join, cap, w, aa, u0, u1, ncap, lib);
        StrokeLoopStep(before, vertexes[..], v0, points, ps0, ps, paths, i, dst, end, join, cap, ncap, run);
        dst := end;
        i := i + 1;
      }
      StrokeLoopDone(vertexes[..], v0, points, ps0, paths, dst, join, cap, ncap, run);
    }

    /** The reservation loop of `expand_fill`. */
    method FillReservation(fringe: bool) returns (n: nat)
      ensures n == FillBudget(paths, fringe)
    {
      n := 0;
      var i := 0;
      while i < |paths|
        invariant 0 <= i <= |paths|
        invariant n == FillBudget(paths[..i], fringe)
      {
        FillBudgetPrefix(paths, i, fringe);
        var p := paths[i];
        n := n + p.count + p.numBevel + 1;
        if fringe {
          n := n + (p.count + p.numBevel * 5 + 1) * 2;
        }
        i := i + 1;
      }
      assert paths[..i] == paths;
    }

    /** The interior of the fill of subpath i, written at `dst`: pulled in
        by half a pixel at each point with a fringe, the plain points
        without one. */
    method FillInterior(i: nat, dst: nat, fringe: bool, woff: real) returns (mid: nat)
      requires i < |paths| && ReadyPath(points, paths[i])
      requires dst + FillAllowance(paths[i], fringe) <= vertexes.Length
      modifies vertexes
      ensures fringe ==> mid + JoinSum(Slice(points, paths[i]), LineJoin.Bevel, 2) + 2 <= dst + FillAllowance(paths[i], fringe)
      ensures dst <= mid <= dst + FillAllowance(paths[i], fringe)
      ensures vertexes[..] == old(vertexes[..dst]) + Filler(points, fringe, woff)(paths[i]) + old(vertexes[mid..])
    {
      var a := vertexes;
      var p := paths[i];
      var s := Slice(points, p);
      FillFits(s, p, fringe);
      assert Filler(points, fringe, woff)(p) == InteriorOf(points, p, fringe, woff) == FillRun(s, fringe, woff);
      mid := WriteFillInterior(a, dst, s, fringe, woff);
    }

    /** The anti-aliasing ring of the fill of subpath i, written at `dst`:
        a bevelled ring whose outer side reaches `w + woff` out (`woff`
        when the shape is convex) and whose inner side `w - woff` in. */
    method FillFringe(i: nat, dst: nat, w: real, woff: real, convex: bool) returns (end: nat)
      requires i < |paths| && ReadyPath(points, paths[i])
      requires dst + JoinSum(Slice(points, paths[i]), LineJoin.Bevel, 2) + 2 <= vertexes.Length
      modifies vertexes
      ensures dst + 2 <= end <= dst + JoinSum(Slice(points, paths[i]), LineJoin.Bevel, 2) + 2
      ensures vertexes[..] == old(vertexes[..dst]) + Fringer(points, w, woff, convex)(paths[i], old(vertexes[dst..dst + 2]))
                              + old(vertexes[end..])
    {
      var a := vertexes;
      var p := paths[i];
      var s := Slice(points, p);
      var lw, rw, lu := FringeOuter(w, woff, convex), w - woff, FringeOuterU(convex);
      ghost var under := a[dst..dst + 2];
      FringeIsRing(s, w, woff, convex, under);
      assert Fringer(points, w, woff, convex)(p, under) == FringeOf(points, p, under, w, woff, convex)
          == RingRun(s, LineJoin.Bevel, lw, rw, lu, 1.0, 2, NoLibm, under);
      end := WriteFringe(a, dst, s, lw, rw, lu);
    }

    /** The fill of subpath i, written at `dst`: its interior, recorded as
        its fill, and with a fringe its anti-aliasing ring right after,
        recorded as its stroke; without a fringe it has no stroke. */
    method FillPath(i: nat, dst: nat, fringe: bool, w: real, woff: real, convex: bool) returns (end: nat)
      requires i < |paths| && ReadyPath(points, paths[i])
      requires dst + FillAllowance(paths[i], fringe) <= vertexes.Length
      modifies this, vertexes
      ensures points == old(points) && vertexes == old(vertexes) && bounds == old(bounds)
      ensures dst <= end <= dst + FillAllowance(old(paths[i]), fringe)
      ensures |paths| == |old(paths)| && paths == old(paths)[i := paths[i]]
      ensures paths[i].fill == dst && FillEnd(paths[i], fringe) == end
      ensures FilledAt(vertexes[..], old(vertexes[..]), points, old(paths[i]), paths[i], fringe,
                       Filler(points, fringe, woff), Fringer(points, w, woff, convex))
      ensures vertexes[..dst] == old(vertexes[..dst]) && vertexes[end..] == old(vertexes[end..])
    {
      var p := paths[i];
      var mid;
      mid, end := FillRuns(i, dst, fringe, w, woff, convex);
      var q;
      if fringe {
        q := p.(fill := dst, numFill := mid - dst, stroke := mid, numStroke := end - mid);
      } else {
        q := p.(fill := dst, numFill := mid - dst, stroke := 0, numStroke := 0);
      }
      paths := paths[i := q];
    }

    /** The interior of subpath i written from dst on and, with a fringe,
        its anti-aliasing ring after it; the records are not touched. */
    method FillRuns(i: nat, dst: nat, fringe: bool, w: real, woff: real, convex: bool) returns (mid: nat, end: nat)
      requires i < |paths| && ReadyPath(points, paths[i])
      requires dst + FillAllowance(paths[i], fringe) <= vertexes.Length
      modifies vertexes
      ensures dst <= mid <= end <= dst + FillAllowance(paths[i], fringe)
      ensures !fringe ==> end == mid
      ensures FilledAt(vertexes[..], old(vertexes[..]), points, paths[i],
                       paths[i].(fill := dst, numFill := mid - dst, stroke := if fringe then mid else 0,
                                 numStroke := if fringe then end - mid else 0),
                       fringe, Filler(points, fringe, woff), Fringer(points, w, woff, convex))
      ensures vertexes[..dst] == old(vertexes[..dst]) && vertexes[end..] == old(vertexes[end..])
    {
      var p := paths[i];
      ghost var v0 := vertexes[..];
      mid := FillInterior(i, dst, fringe, woff);
      ghost var v1 := vertexes[..];
      if fringe {
        end := FillFringe(i, mid, w, woff, convex);
      } else {
        end := mid;
      }
      FilledPlaced(v0, v1, vertexes[..], points, p,
                   p.(fill := dst, numFill := mid - dst, stroke := if fringe then mid else 0,
                      numStroke := if fringe then end - mid else 0),
                   dst, mid, end, fringe, Filler(points, fringe, woff), Fringer(points, w, woff, convex));
    }

    /** The fill loop of `expand_fill`: the subpaths filled one after the
        other from the start of the arena, which holds their reservation. */
    method FillPaths(fringe: bool, w: real, woff: real, convex: bool)
      requires Ready(Sketch(points, paths))
      requires vertexes.Length == FillBudget(paths, fringe)
      modifies this, vertexes
      ensures points == old(points) && vertexes == old(vertexes) && bounds == old(bounds)
      ensures |paths| == |old(paths)| && FillsPacked(paths, |paths|, fringe)
      ensures forall j :: 0 <= j < |paths| ==>
        FilledPath(vertexes[..], old(vertexes[..]), points, old(paths), paths, j, fringe,
                   Filler(points, fringe, woff), Fringer(points, w, woff, convex))
      ensures FillStart(paths, |paths|, fringe) <= vertexes.Length
      ensures vertexes[FillStart(paths, |paths|, fringe)..] == old(vertexes[..])[FillStart(paths, |paths|, fringe)..]
    {
      ghost var v0 := vertexes[..];
      ghost var ps0 := paths;
      ghost var inner := Filler(points, fringe, woff);
      ghost var ring := Fringer(points, w, woff, convex);
      FillLoopStart(v0, points, ps0, fringe, inner, ring);
      var dst := 0;
      var i := 0;
      while i < |paths|
        invariant points == old(points) && vertexes == old(vertexes) && bounds == old(bounds)
        invariant FillLoop(vertexes[..], v0, points, ps0, paths, i, dst, fringe, inner, ring)
      {
        FillLoopNext(vertexes[..], v0, points, ps0, paths, i, dst, fringe, inner, ring);
        ghost var before := vertexes[..];
        ghost var ps := paths;
        var end := FillPath(i, dst, fringe, w, woff, convex);
        FillLoopStep(before, vertexes[..], v0, points, ps0, ps, paths[i], i, dst, end, fringe, inner, ring);
        dst := end;
        i := i + 1;
      }
      FillLoopDone(vertexes[..], v0, points, ps0, paths, dst, fringe, inner, ring);
    }

    /** The stroke half of `expand_stroke` once the joins are known: the
        arena resized to the reservation and every subpath stroked into it;
        with no subpath the reservation is empty, `alloc_temp_vertexes`
        gives null and nothing is stroked. */
    method StrokeArena(join: LineJoin, cap: LineCap, w: real, aa: real, u0: real, u1: real, ncap: Divs, lib: Libm)
      requires Valid() && Ready(Sketch(points, paths))
      modifies this
      ensures Valid() && fresh(vertexes) && points == old(points) && bounds == old(bounds)
      ensures |paths| == |old(paths)| && vertexes.Length == StrokeBudget(old(paths), join, cap, ncap)
      ensures StrokesPacked(paths, |paths|)
      ensures AllStroked(vertexes[..], Resized(old(vertexes[..]), vertexes.Length), points, old(paths), paths,
                         Stroker(points, join, cap, w, aa, u0, u1, ncap, lib))
    {
      var n := StrokeReservation(join, cap, ncap);
      var ok := AllocTempVertexes(n);
      BudgetsEmpty(paths, join, cap, ncap, false);
      if !ok {
        return;
      }
      ghost var ps0 := paths;
      StrokePaths(join, cap, w, aa, u0, u1, ncap, lib);
      StrokedSound(vertexes[..], Resized(old(vertexes[..]), vertexes.Length), points, ps0, paths,
                   Stroker(points, join, cap, w, aa, u0, u1, ncap, lib));
    }

    /** `expand_stroke`: the joins of every subpath worked out for the
        half width `w + aa/2`, then every subpath stroked at that half
        width, with caps of `curve_divs(w, PI, tess_tol)` divisions.
        Without anti-aliasing both sides of the stroke take the texture
        coordinate 0.5, with it the left side 0 and the right side 1. */
    method ExpandStroke(w: real, aa: real, cap: LineCap, join: LineJoin, miterLimit: real, tessTol: real, lib: Libm)
      returns (ghost joined: seq<Path>)
      requires Valid() && Outlined(paths)
      modifies this
      ensures Valid() && fresh(vertexes) && bounds == old(bounds)
      ensures |paths| == |joined| == |old(paths)|
      ensures var hw := w + aa * 0.5;
        JoinedFrom(old(Sketch(points, paths)), Sketch(points, joined), |joined|,
                   if hw > 0.0 then 1.0 / hw else 0.0, join, miterLimit)
      ensures vertexes.Length == StrokeBudget(joined, join, cap, CurveDivs(w, PI, tessTol, lib.acos))
      ensures StrokesPacked(paths, |paths|)
      ensures AllStroked(vertexes[..], Resized(old(vertexes[..]), vertexes.Length), points, joined, paths,
                         Stroker(points, join, cap, w + aa * 0.5, aa, if aa == 0.0 then 0.5 else 0.0,
                                 if aa == 0.0 then 0.5 else 1.0, CurveDivs(w, PI, tessTol, lib.acos), lib))
    {
      var ncap := CurveDivs(w, PI, tessTol, lib.acos);
      var hw := w + aa * 0.5;
      var u0, u1 := 0.0, 1.0;
      if aa == 0.0 {
        u0, u1 := 0.5, 0.5;
      }
      ghost var k0 := Sketch(points, paths);
      CalculateJoins(hw, join, miterLimit);
      joined := paths;
      JoinedReady(k0, Sketch(points, paths), if hw > 0.0 then 1.0 / hw else 0.0, join, miterLimit);
      StrokeArena(join, cap, hw, aa, u0, u1, ncap, lib);
    }

    /** The fill half of `expand_fill` once the joins are known: the arena
        resized to the reservation and every subpath filled into it; with
        no subpath nothing is filled. */
    method FillArena(fringe: bool, w: real, woff: real, convex: bool)
      requires Valid() && Ready(Sketch(points, paths))
      modifies this
      ensures Valid() && fresh(vertexes) && points == old(points) && bounds == old(bounds)
      ensures |paths| == |old(paths)| && vertexes.Length == FillBudget(old(paths), fringe)
      ensures FillsPacked(paths, |paths|, fringe)
      ensures AllFilled(vertexes[..], Resized(old(vertexes[..]), vertexes.Length), points, old(paths), paths, fringe,
                        Filler(points, fringe, woff), Fringer(points, w, woff, convex))
    {
      var n := FillReservation(fringe);
      var ok := AllocTempVertexes(n);
      BudgetsEmpty(paths, LineJoin.Miter, LineCap.Butt, 2, fringe);
      if !ok {
        return;
      }
      ghost var ps0 := paths;
      FillPaths(fringe, w, woff, convex);
      FilledSound(vertexes[..], Resized(old(vertexes[..]), vertexes.Length), points, ps0, paths, fringe,
                  Filler(points, fringe, woff), Fringer(points, w, woff, convex));
    }

    /** `expand_fill`: the joins of every subpath worked out for the fringe
        width `w`, then every subpath filled, with an anti-aliasing ring
        when `w > 0`; the interior is pulled in by `aa/2`, and a single
        convex subpath gets a ring that only reaches `aa/2` out. */
    method ExpandFill(w: real, join: LineJoin, miterLimit: real, aa: real) returns (ghost joined: seq<Path>)
      requires Valid() && Outlined(paths)
      modifies this
      ensures Valid() && fresh(vertexes) && bounds == old(bounds)
      ensures |paths| == |joined| == |old(paths)|
      ensures JoinedFrom(old(Sketch(points, paths)), Sketch(points, joined), |joined|,
                         if w > 0.0 then 1.0 / w else 0.0, join, miterLimit)
      ensures vertexes.Length == FillBudget(joined, w > 0.0)
      ensures FillsPacked(paths, |paths|, w > 0.0)
      ensures AllFilled(vertexes[..], Resized(old(vertexes[..]), vertexes.Length), points, joined, paths, w > 0.0,
                        Filler(points, w > 0.0, 0.5 * aa),
                        Fringer(points, w, 0.5 * aa, |joined| == 1 && joined[0].convex))
    {
      var fringe := w > 0.0;
      ghost var k0 := Sketch(points, paths);
      CalculateJoins(w, join, miterLimit);
      joined := paths;
      JoinedReady(k0, Sketch(points, paths), if w > 0.0 then 1.0 / w else 0.0, join, miterLimit);
      var convex := |paths| == 1 && paths[0].convex;
      FillArena(fringe, w, 0.5 * aa, convex);
    }

    /** The direction loop of `flatten_paths` over the ring s: the last
        point, then the others from the first, each pointed at its successor
        and taken into the bounds. */
    method DirectRing(s: seq<VPoint>, sqrt: real -> real) returns (d: seq<VPoint>)
      modifies this
      ensures d == Directions(s, sqrt)
      ensures bounds == EncloseAll(old(bounds), Rotated(s))
      ensures points == old(points) && paths == old(paths) && vertexes == old(vertexes)
    {
      var n := |s|;
      d := s;
      var i := 0;
      while i < n
        invariant 0 <= i <= n == |d|
        invariant forall k :: 0 <= k < n ==> d[k] == if Visited(k, i, n) then Directed(s[k], s[Next(k, n)], sqrt) else s[k]
        invariant bounds == EncloseAll(old(bounds), Rotated(s)[..i])
        invariant points == old(points) && paths == old(paths) && vertexes == old(vertexes)
      {
        var i0 := Prev(i, n);
        DirectStep(s, d, i, sqrt);
        RotatedPrefix(s, i);
        d := d[i0 := Directed(d[i0], d[i], sqrt)];
        bounds := Enclose(bounds, d[i0].xy);
        i := i + 1;
      }
      assert Rotated(s)[..n] == Rotated(s);
    }
  }

  /** FinishOne by its parts: the closed subpath q, its oriented points s and
      their directions d. */
  lemma FinishOneIs(k: Sketch, b: Bounds, j: nat, tol: real, sqrt: real -> real, q: Path, s: seq<VPoint>, d: seq<VPoint>)
    requires j < |k.paths| && Within(k.paths[j], |k.points|)
    requires q == CloseEnd(k.paths[j], k.points, tol) && s == Oriented(Slice(k.points, q), q.solidity)
    requires d == Directions(s, sqrt)
    ensures FinishOne(k, b, j, tol, sqrt)
      == (Sketch(k.points[..q.first] + d + k.points[q.first + q.count..], k.paths[j := q]), EncloseAll(b, Rotated(s)))
  {
  }

  /** The classification loop of `calculate_joins` over the ring s, counting
      the bevelled points and the left turns. */
  method ClassifyRing(s: seq<VPoint>, iw: real, join: LineJoin, miterLimit: real)
    returns (r: seq<VPoint>, nbevel: nat, nleft: nat)
    ensures r == Joined(s, iw, join, miterLimit)
    ensures nbevel == CountBevelled(r) && nleft == CountLeft(r)
  {
    ghost var js := Joined(s, iw, join, miterLimit);
    var n := |s|;
    r := s;
    nbevel, nleft := 0, 0;
    var t := 0;
    while t < n
      invariant 0 <= t <= n == |r|
      invariant forall m :: 0 <= m < t ==> r[m] == js[m]
      invariant forall m :: t <= m < n ==> r[m] == s[m]
      invariant nbevel == CountBevelled(js[..t]) && nleft == CountLeft(js[..t])
    {
      var p0 := r[Prev(t, n)];
      JoinedAt(s, iw, join, miterLimit, t);
      var q := JoinPoint(p0.d, p0.len, r[t], iw, join, miterLimit);
      r := r[t := q];
      if PtLeft in q.flags {
        nleft := nleft + 1;
      }
      if PtBevel in q.flags || PtInnerBevel in q.flags {
        nbevel := nbevel + 1;
      }
      CountsStep(js, t);
      t := t + 1;
    }
    assert r == js;
    assert js[..n] == js;
  }

  /** JoinOne by its parts: the joined points js of subpath j. */
  lemma JoinOneIs(k: Sketch, j: nat, iw: real, join: LineJoin, miterLimit: real, js: seq<VPoint>)
    requires j < |k.paths| && Within(k.paths[j], |k.points|)
    requires js == Joined(Slice(k.points, k.paths[j]), iw, join, miterLimit)
    ensures var p := k.paths[j];
      JoinOne(k, j, iw, join, miterLimit)
      == Sketch(k.points[..p.first] + js + k.points[p.first + p.count..],
                k.paths[j := p.(numBevel := CountBevelled(js), convex := CountLeft(js) == p.count)])
  {
  }

  /** Point k of a joined ring, and the direction and length of its
      predecessor, which joining keeps. */
  lemma JoinedAt(s: seq<VPoint>, iw: real, join: LineJoin, miterLimit: real, k: nat)
    requires k < |s|
    ensures var p := s[Prev(k, |s|)];
      var js := Joined(s, iw, join, miterLimit);
      && js[k] == JoinPoint(p.d, p.len, s[k], iw, join, miterLimit)
      && js[Prev(k, |s|)].d == p.d && js[Prev(k, |s|)].len == p.len
  {
  }

  /** The counts over one more point. */
  lemma CountsStep(js: seq<VPoint>, t: nat)
    requires t < |js|
    ensures CountBevelled(js[..t + 1]) == CountBevelled(js[..t]) + (if Bevelled(js[t]) then 1 else 0)
    ensures CountLeft(js[..t + 1]) == CountLeft(js[..t]) + (if PtLeft in js[t].flags then 1 else 0)
  {
    assert js[..t + 1][..t] == js[..t];
  }

  /** After i steps of the direction loop over n points, point k has been
      visited: the last point first, then the others from the first. */
  predicate Visited(k: nat, i: nat, n: nat)
  {
    (i > 0 && k + 1 == n) || k + 1 < i
  }

  /** One step of the direction pass: point Prev(i) takes its direction
      towards point i, which still holds its own position. */
  lemma DirectStep(s: seq<VPoint>, d: seq<VPoint>, i: nat, sqrt: real -> real)
    requires i < |s| == |d|
    requires forall k :: 0 <= k < |s| ==>
      d[k] == if Visited(k, i, |s|) then Directed(s[k], s[Next(k, |s|)], sqrt) else s[k]
    ensures var n, i0 := |s|, Prev(i, |s|);
      d[i0].xy == s[i0].xy
      && forall k :: 0 <= k < n ==>
        d[i0 := Directed(d[i0], d[i], sqrt)][k] == if Visited(k, i + 1, n) then Directed(s[k], s[Next(k, n)], sqrt) else s[k]
  {
    var n, i0 := |s|, Prev(i, |s|);
    assert Next(i0, n) == i;
    assert d[i].xy == s[i].xy;
    DirectedByPosition(s[i0], d[i], s[i], sqrt);
  }

  /** The pass visits the rotated ring in order: the point before i next. */
  lemma RotatedPrefix(s: seq<VPoint>, i: nat)
    requires i < |s|
    ensures Rotated(s)[..i + 1] == Rotated(s)[..i] + [s[Prev(i, |s|)]]
  {
  }

  /** The direction stored in a point depends only on where its successor is. */
  lemma DirectedByPosition(p: VPoint, n1: VPoint, n2: VPoint, sqrt: real -> real)
    requires n1.xy == n2.xy
    ensures Directed(p, n1, sqrt) == Directed(p, n2, sqrt)
  {
  }

  /** The winding step of `flatten_paths`: a subpath of more than two points
      wound against its solidity is reversed in place. */
  method OrientRing(s: seq<VPoint>, dir: Solidity) returns (r: seq<VPoint>)
    ensures r == Oriented(s, dir)
  {
    r := s;
    if |s| > 2 {
      var area := ComputePolyArea(s);
      if dir == Solid && area < 0.0 {
        r := PolyReverse(r);
      }
      if dir == Hole && area > 0.0 {
        r := PolyReverse(r);
      }
    }
  }

  /** `poly_area`: the fan of triangles from the first point, summed. */
  method ComputePolyArea(s: seq<VPoint>) returns (area: real)
    ensures area == PolyArea(s)
  {
    area := 0.0;
    if |s| < 3 {
      return;
    }
    var i := 2;
    assert FanSum(s[..2]) == 0.0;
    while i < |s|
      invariant 2 <= i <= |s|
      invariant area == FanSum(s[..i])
    {
      ghost var t := s[..i + 1];
      assert t[..i] == s[..i] && t[0] == s[0] && t[i - 1] == s[i - 1] && t[i] == s[i];
      area := area + TriangleArea(s[0].xy, s[i - 1].xy, s[i].xy);
      i := i + 1;
    }
    assert s[..i] == s;
    area := area * 0.5;
  }

  /** `poly_reverse`: swaps the ends inwards. */
  method PolyReverse(s: seq<VPoint>) returns (r: seq<VPoint>)
    ensures r == Reversed(s)
  {
    r := s;
    var i: int := 0;
    var j: int := |s| - 1;
    while i < j
      invariant 0 <= i <= j + 1 && j == |s| - 1 - i && |r| == |s|
      invariant forall k :: 0 <= k < i ==> r[k] == s[|s| - 1 - k]
      invariant forall k :: j < k < |s| ==> r[k] == s[|s| - 1 - k]
      invariant forall k :: i <= k <= j ==> r[k] == s[k]
    {
      r := r[i := r[j]][j := r[i]];
      i := i + 1;
      j := j - 1;
    }
  }
}
