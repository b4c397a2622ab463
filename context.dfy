// The canvas (nona/src/context.rs:451-1163): the state stack, the command
// buffer, the path cache and the frame statistics, and the methods of
// `Context` that change them.  The renderer is not modelled: what it reports
// (its device pixel ratio, whether it antialiases edges, whether a draw call
// succeeded) comes in as arguments, and what `fill` and `stroke` hand it
// comes back as a record.
module Canvas {
  import opened Numerics
  import opened Geometry
  import opened CanvasTypes
  import opened CacheSpec
  import opened Flatten
  import opened JoinPass
  import opened Arena
  import opened Cache
  import opened Paints
  import opened CanvasState

  /** The arguments of `Renderer::fill`. */
  datatype FillCall = FillCall(
    paint: Paint, composite: CompositeOperationState, scissor: Scissor, fringe: real, bounds: Bounds,
    paths: seq<Path>)

  /** The arguments of `Renderer::stroke`. */
  datatype StrokeCall = StrokeCall(
    paint: Paint, composite: CompositeOperationState, scissor: Scissor, fringe: real, strokeWidth: real,
    paths: seq<Path>)

  /** What `flatten_paths` leaves: the commands flattened on top of the
      sketch `k0` into `flat`, with the bounds `b` of the result. */
  ghost predicate FlattenedFrom(k0: Sketch, cmds: seq<Command>, distTol: real, tessTol: real,
                                sqrt: real -> real, flat: Sketch, b: Bounds)
    requires Sound(k0) && distTol != 0.0
  {
    var k := Commands(k0, cmds, distTol, tessTol);
    (flat, b) == FinishUpTo(k, InitialBounds, |k.paths|, distTol, sqrt)
  }

  /** What `expand_fill(w, Miter, 2.4, fringe)` leaves after `flat`: the
      joins, the packed subpaths `ps` and the arena `v` (grown from `v0`). */
  ghost predicate FilledFrom(flat: Sketch, v0: seq<Vertex>, v: seq<Vertex>, pts: seq<VPoint>,
                             joined: seq<Path>, ps: seq<Path>, w: real, fringe: real)
  {
    && JoinedFrom(flat, Sketch(pts, joined), |joined|, if w > 0.0 then 1.0 / w else 0.0, LineJoin.Miter, 2.4)
    && |ps| == |joined| && |v| == FillBudget(joined, w > 0.0)
    && FillsPacked(ps, |ps|, w > 0.0)
    && AllFilled(v, Resized(v0, |v|), pts, joined, ps, w > 0.0, Filler(pts, w > 0.0, 0.5 * fringe),
                 Fringer(pts, w, 0.5 * fringe, |joined| == 1 && joined[0].convex))
  }

  /** Half a stroke width: the half width `stroke` expands by. */
  function Half(width: real): real
  {
    width * 0.5
  }

  /** What `expand_stroke(width / 2, aa, cap, join, miterLimit)` leaves
      after `flat`: the joins for the half width `width/2 + aa/2`, the packed
      subpaths `ps` and the arena `v` (grown from `v0`). */
  ghost predicate StrokedFrom(flat: Sketch, v0: seq<Vertex>, v: seq<Vertex>, pts: seq<VPoint>,
                              joined: seq<Path>, ps: seq<Path>, width: real, aa: real, cap: LineCap,
                              join: LineJoin, miterLimit: real, tessTol: real, lib: Libm)
  {
    var w := Half(width);
    var hw := w + aa * 0.5;
    var ncap := CurveDivs(w, PI, tessTol, lib.acos);
    && JoinedFrom(flat, Sketch(pts, joined), |joined|, if hw > 0.0 then 1.0 / hw else 0.0, join, miterLimit)
    && |ps| == |joined| && |v| == StrokeBudget(joined, join, cap, ncap)
    && StrokesPacked(ps, |ps|)
    && AllStroked(v, Resized(v0, |v|), pts, joined, ps,
                  Stroker(pts, join, cap, hw, aa, if aa == 0.0 then 0.5 else 0.0, if aa == 0.0 then 0.5 else 1.0, ncap, lib))
  }

  /** What `expand_stroke` promises at the call `stroke` makes is what
      `StrokedFrom` asks, and every stroke has two vertices or more. */
  lemma StrokedFromExpand(flat: Sketch, v0: seq<Vertex>, v: seq<Vertex>, pts: seq<VPoint>,
                          joined: seq<Path>, ps: seq<Path>, width: real, aa: real, cap: LineCap,
                          join: LineJoin, miterLimit: real, tessTol: real, lib: Libm)
    requires var w := Half(width);
      var ncap := CurveDivs(w, PI, tessTol, lib.acos);
      && |ps| == |joined|
      && (var hw := w + aa * 0.5;
          JoinedFrom(flat, Sketch(pts, joined), |joined|, if hw > 0.0 then 1.0 / hw else 0.0, join, miterLimit))
      && |v| == StrokeBudget(joined, join, cap, ncap)
      && StrokesPacked(ps, |ps|)
      && AllStroked(v, Resized(v0, |v|), pts, joined, ps,
                    Stroker(pts, join, cap, w + aa * 0.5, aa, if aa == 0.0 then 0.5 else 0.0,
                            if aa == 0.0 then 0.5 else 1.0, ncap, lib))
    ensures StrokedFrom(flat, v0, v, pts, joined, ps, width, aa, cap, join, miterLimit, tessTol, lib)
    ensures StrokesLong(ps)
  {
    var w := Half(width);
    StrokedLong(v, Resized(v0, |v|), pts, joined, ps, join, cap, w + aa * 0.5, aa, if aa == 0.0 then 0.5 else 0.0,
                if aa == 0.0 then 0.5 else 1.0, CurveDivs(w, PI, tessTol, lib.acos), lib);
  }

  class Context {
    var commands: seq<Command>
    var lastPosition: Point
    var states: seq<State>
    var cache: PathCache
    var tessTol: real
    var distTol: real
    var fringeWidth: real
    var devicePixelRatio: real
    var drawCallCount: nat
    var fillTrianglesCount: nat
    var strokeTrianglesCount: nat
    var textTrianglesCount: nat

    /** There is always a current state, and the cache is sound. */
    ghost predicate Valid()
      reads this, cache
    {
      |states| >= 1 && cache.Valid()
    }

    function Counts(): Counters
      reads this
    {
      Counters(drawCallCount, fillTrianglesCount, strokeTrianglesCount, textTrianglesCount)
    }

    /** The command buffer, the last position and the cache are as they were. */
    twostate predicate KeepsPath()
      reads this
    {
      commands == old(commands) && lastPosition == old(lastPosition) && cache == old(cache)
    }

    /** The tolerances and the statistics are as they were. */
    twostate predicate KeepsFrame()
      reads this
    {
      && tessTol == old(tessTol) && distTol == old(distTol) && fringeWidth == old(fringeWidth)
      && devicePixelRatio == old(devicePixelRatio) && Counts() == old(Counts())
    }

    /** `create`: one default state, an empty buffer and cache, zero
        tolerances and counters. */
    constructor Create()
      ensures Valid() && fresh(cache)
      ensures states == [DefaultState] && commands == [] && lastPosition == Point(0.0, 0.0)
      ensures cache.points == [] && cache.paths == []
      ensures tessTol == 0.0 && distTol == 0.0 && fringeWidth == 0.0 && devicePixelRatio == 0.0
      ensures Counts() == NoCounts
    {
      commands := [];
      lastPosition := Point(0.0, 0.0);
      states := [DefaultState];
      cache := new PathCache();
      tessTol, distTol, fringeWidth, devicePixelRatio := 0.0, 0.0, 0.0, 0.0;
      drawCallCount, fillTrianglesCount, strokeTrianglesCount, textTrianglesCount := 0, 0, 0, 0;
    }

    /** `set_device_pixel_ratio`: the tolerances and the fringe shrink as
        the pixel density grows. */
    method SetDevicePixelRatio(ratio: real)
      requires ratio != 0.0
      modifies this
      ensures tessTol == 0.25 / ratio && distTol == 0.01 / ratio && fringeWidth == 1.0 / ratio
      ensures devicePixelRatio == ratio && tessTol == 25.0 * distTol && fringeWidth * ratio == 1.0
      ensures states == old(states) && KeepsPath() && Counts() == old(Counts())
    {
      tessTol := 0.25 / ratio;
      distTol := 0.01 / ratio;
      fringeWidth := 1.0 / ratio;
      devicePixelRatio := ratio;
    }

    /** `begin_frame` after the renderer's viewport is set: the renderer's
        pixel ratio applied, a single default state, zero counters. */
    method BeginFrame(ratio: real)
      requires Valid() && ratio != 0.0
      modifies this
      ensures Valid() && states == [DefaultState] && Counts() == NoCounts && KeepsPath()
      ensures tessTol == 0.25 / ratio && distTol == 0.01 / ratio && fringeWidth == 1.0 / ratio
      ensures devicePixelRatio == ratio
    {
      SetDevicePixelRatio(ratio);
      states := [DefaultState];
      drawCallCount, fillTrianglesCount, strokeTrianglesCount, textTrianglesCount := 0, 0, 0, 0;
    }

    // -------------------------------------------------------------------
    // The state stack
    // -------------------------------------------------------------------

    method Save()
      requires Valid()
      modifies this
      ensures Valid() && states == Saved(old(states)) && KeepsPath() && KeepsFrame()
    {
      if |states| > 0 {
        var last := states[|states| - 1];
        states := states + [last];
      }
    }

    method Restore()
      requires Valid()
      modifies this
      ensures Valid() && states == Restored(old(states)) && KeepsPath() && KeepsFrame()
    {
      if |states| <= 1 {
        return;
      }
      states := states[..|states| - 1];
    }

    method Reset()
      requires Valid()
      modifies this
      ensures Valid() && states == WithTop(old(states), DefaultState) && KeepsPath() && KeepsFrame()
    {
      states := WithTop(states, DefaultState);
    }

    method ShapeAntialias(enabled: bool)
      requires Valid()
      modifies this
      ensures Valid() && KeepsPath() && KeepsFrame()
      ensures states == WithTop(old(states), old(Top(states)).(shapeAntialias := enabled))
    {
      states := WithTop(states, Top(states).(shapeAntialias := enabled));
    }

    method StrokeWidth(width: real)
      requires Valid()
      modifies this
      ensures Valid() && KeepsPath() && KeepsFrame()
      ensures states == WithTop(old(states), old(Top(states)).(strokeWidth := width))
    {
      states := WithTop(states, Top(states).(strokeWidth := width));
    }

    method MiterLimit(limit: real)
      requires Valid()
      modifies this
      ensures Valid() && KeepsPath() && KeepsFrame()
      ensures states == WithTop(old(states), old(Top(states)).(miterLimit := limit))
    {
      states := WithTop(states, Top(states).(miterLimit := limit));
    }

    method SetLineCap(cap: LineCap)
      requires Valid()
      modifies this
      ensures Valid() && KeepsPath() && KeepsFrame()
      ensures states == WithTop(old(states), old(Top(states)).(lineCap := cap))
    {
      states := WithTop(states, Top(states).(lineCap := cap));
    }

    method SetLineJoin(join: LineJoin)
      requires Valid()
      modifies this
      ensures Valid() && KeepsPath() && KeepsFrame()
      ensures states == WithTop(old(states), old(Top(states)).(lineJoin := join))
    {
      states := WithTop(states, Top(states).(lineJoin := join));
    }

    method GlobalAlpha(alpha: real)
      requires Valid()
      modifies this
      ensures Valid() && KeepsPath() && KeepsFrame()
      ensures states == WithTop(old(states), old(Top(states)).(alpha := alpha))
    {
      states := WithTop(states, Top(states).(alpha := alpha));
    }

    /** `transform`: the given transform is applied before the current one. */
    method TransformBy(xform: Transform)
      requires Valid()
      modifies this
      ensures Valid() && KeepsPath() && KeepsFrame()
      ensures states == WithTop(old(states), old(Top(states)).(xform := Mul(xform, old(Top(states)).xform)))
    {
      var s := Top(states);
      states := WithTop(states, s.(xform := Mul(xform, s.xform)));
    }

    method ResetTransform()
      requires Valid()
      modifies this
      ensures Valid() && KeepsPath() && KeepsFrame()
      ensures states == WithTop(old(states), old(Top(states)).(xform := Identity()))
    {
      states := WithTop(states, Top(states).(xform := Identity()));
    }

    method Translate(tx: real, ty: real)
      requires Valid()
      modifies this
      ensures Valid() && KeepsPath() && KeepsFrame()
      ensures states == WithTop(old(states), old(Top(states)).(xform := Mul(Geometry.Translate(tx, ty), old(Top(states)).xform)))
    {
      TransformBy(Geometry.Translate(tx, ty));
    }

    method Rotate(angle: real, lib: Libm)
      requires Valid()
      modifies this
      ensures Valid() && KeepsPath() && KeepsFrame()
      ensures states == WithTop(old(states), old(Top(states)).(xform := Mul(Geometry.Rotate(angle, lib), old(Top(states)).xform)))
    {
      TransformBy(Geometry.Rotate(angle, lib));
    }

    method SkewX(angle: real, lib: Libm)
      requires Valid()
      modifies this
      ensures Valid() && KeepsPath() && KeepsFrame()
      ensures states == WithTop(old(states), old(Top(states)).(xform := Mul(Geometry.SkewX(angle, lib), old(Top(states)).xform)))
    {
      TransformBy(Geometry.SkewX(angle, lib));
    }

    method SkewY(angle: real, lib: Libm)
      requires Valid()
      modifies this
      ensures Valid() && KeepsPath() && KeepsFrame()
      ensures states == WithTop(old(states), old(Top(states)).(xform := Mul(Geometry.SkewY(angle, lib), old(Top(states)).xform)))
    {
      TransformBy(Geometry.SkewY(angle, lib));
    }

    method Scale(sx: real, sy: real)
      requires Valid()
      modifies this
      ensures Valid() && KeepsPath() && KeepsFrame()
      ensures states == WithTop(old(states), old(Top(states)).(xform := Mul(Geometry.Scale(sx, sy), old(Top(states)).xform)))
    {
      TransformBy(Geometry.Scale(sx, sy));
    }

    method CurrentTransform() returns (t: Transform)
      requires Valid()
      ensures t == Top(states).xform
    {
      t := Top(states).xform;
    }

    /** `stroke_paint`: the paint placed in the current coordinates, so its
        own transform is applied first and then the current one. */
    method StrokePaint(paint: Paint)
      requires Valid()
      modifies this
      ensures Valid() && KeepsPath() && KeepsFrame()
      ensures states == WithTop(old(states), old(Top(states)).(stroke := paint.(xform := Mul(paint.xform, old(Top(states)).xform))))
    {
      var p := paint.(xform := Mul(paint.xform, Top(states).xform));
      states := WithTop(states, Top(states).(stroke := p));
    }

    method FillPaint(paint: Paint)
      requires Valid()
      modifies this
      ensures Valid() && KeepsPath() && KeepsFrame()
      ensures states == WithTop(old(states), old(Top(states)).(fill := paint.(xform := Mul(paint.xform, old(Top(states)).xform))))
    {
      var p := paint.(xform := Mul(paint.xform, Top(states).xform));
      states := WithTop(states, Top(states).(fill := p));
    }

    method SetScissor(r: Rect)
      requires Valid()
      modifies this
      ensures Valid() && KeepsPath() && KeepsFrame()
      ensures states == WithTop(old(states), old(Top(states)).(scissor := ScissorFor(r, old(Top(states)).xform)))
    {
      var s := Top(states);
      states := WithTop(states, s.(scissor := ScissorFor(r, s.xform)));
    }

    method IntersectScissor(r: Rect)
      requires Valid()
      modifies this
      ensures Valid() && KeepsPath() && KeepsFrame()
      ensures states == WithTop(old(states),
        old(Top(states)).(scissor := IntersectedScissor(old(Top(states)).scissor, old(Top(states)).xform, r)))
    {
      var s := Top(states);
      states := WithTop(states, s.(scissor := IntersectedScissor(s.scissor, s.xform, r)));
    }

    method ResetScissor()
      requires Valid()
      modifies this
      ensures Valid() && KeepsPath() && KeepsFrame()
      ensures states == WithTop(old(states), old(Top(states)).(scissor := NoScissor))
    {
      states := WithTop(states, Top(states).(scissor := NoScissor));
    }

    method GlobalCompositeOperation(op: CompositeOperation)
      requires Valid()
      modifies this
      ensures Valid() && KeepsPath() && KeepsFrame()
      ensures states == WithTop(old(states), old(Top(states)).(compositeOperation := ToState(op)))
    {
      states := WithTop(states, Top(states).(compositeOperation := ToState(op)));
    }

    method FontSize(size: real)
      requires Valid()
      modifies this
      ensures Valid() && KeepsPath() && KeepsFrame()
      ensures states == WithTop(old(states), old(Top(states)).(fontSize := size))
    {
      states := WithTop(states, Top(states).(fontSize := size));
    }

    method TextLetterSpacing(spacing: real)
      requires Valid()
      modifies this
      ensures Valid() && KeepsPath() && KeepsFrame()
      ensures states == WithTop(old(states), old(Top(states)).(letterSpacing := spacing))
    {
      states := WithTop(states, Top(states).(letterSpacing := spacing));
    }

    method TextLineHeight(lineHeight: real)
      requires Valid()
      modifies this
      ensures Valid() && KeepsPath() && KeepsFrame()
      ensures states == WithTop(old(states), old(Top(states)).(lineHeight := lineHeight))
    {
      states := WithTop(states, Top(states).(lineHeight := lineHeight));
    }

    method TextAlign(align: set<AlignFlag>)
      requires Valid()
      modifies this
      ensures Valid() && KeepsPath() && KeepsFrame()
      ensures states == WithTop(old(states), old(Top(states)).(textAlign := align))
    {
      states := WithTop(states, Top(states).(textAlign := align));
    }

    method FontId(id: nat)
      requires Valid()
      modifies this
      ensures Valid() && KeepsPath() && KeepsFrame()
      ensures states == WithTop(old(states), old(Top(states)).(fontId := id))
    {
      states := WithTop(states, Top(states).(fontId := id));
    }

    // -------------------------------------------------------------------
    // The command buffer
    // -------------------------------------------------------------------

    /** `append_command`: the command stored mapped through the current
        transform; the last position follows the untransformed end point. */
    method AppendCommand(cmd: Command)
      requires Valid()
      modifies this
      ensures Valid() && states == old(states) && cache == old(cache) && KeepsFrame()
      ensures commands == old(commands) + [Mapped(Top(states).xform, cmd)]
      ensures lastPosition == EndPoint(cmd, old(lastPosition))
    {
      var xform := Top(states).xform;
      match cmd {
        case MoveTo(pt) =>
          commands := commands + [Command.MoveTo(TransformPoint(xform, pt))];
          lastPosition := pt;
        case LineTo(pt) =>
          commands := commands + [Command.LineTo(TransformPoint(xform, pt))];
          lastPosition := pt;
        case BezierTo(pt1, pt2, pt3) =>
          lastPosition := pt3;
          commands := commands + [Command.BezierTo(TransformPoint(xform, pt1), TransformPoint(xform, pt2),
                                                   TransformPoint(xform, pt3))];
        case _ =>
          commands := commands + [cmd];
      }
    }

    /** The commands of a shape builder, appended one after the other. */
    method AppendAll(cmds: seq<Command>)
      requires Valid()
      modifies this
      ensures Valid() && states == old(states) && cache == old(cache) && KeepsFrame()
      ensures commands == old(commands) + MappedAll(Top(states).xform, cmds)
      ensures lastPosition == LastAfter(cmds, old(lastPosition))
    {
      var i := 0;
      while i < |cmds|
        invariant 0 <= i <= |cmds|
        invariant Valid() && states == old(states) && cache == old(cache) && KeepsFrame()
        invariant commands == old(commands) + MappedAll(Top(states).xform, cmds[..i])
        invariant lastPosition == LastAfter(cmds[..i], old(lastPosition))
      {
        AppendOne(Top(states).xform, cmds, i, old(lastPosition));
        AppendCommand(cmds[i]);
        i := i + 1;
      }
      assert cmds[..i] == cmds;
    }

    /** `begin_path`: no commands and no subpaths. */
    method BeginPath()
      requires Valid()
      modifies this, cache
      ensures Valid() && commands == [] && cache == old(cache) && cache.points == [] && cache.paths == []
      ensures cache.vertexes == old(cache.vertexes) && cache.bounds == old(cache.bounds)
      ensures states == old(states) && lastPosition == old(lastPosition) && KeepsFrame()
    {
      commands := [];
      cache.Clear();
    }

    method MoveTo(pt: Point)
      requires Valid()
      modifies this
      ensures Valid() && states == old(states) && cache == old(cache) && KeepsFrame()
      ensures commands == old(commands) + [Command.MoveTo(TransformPoint(Top(states).xform, pt))]
      ensures lastPosition == pt
    {
      AppendCommand(Command.MoveTo(pt));
    }

    method LineTo(pt: Point)
      requires Valid()
      modifies this
      ensures Valid() && states == old(states) && cache == old(cache) && KeepsFrame()
      ensures commands == old(commands) + [Command.LineTo(TransformPoint(Top(states).xform, pt))]
      ensures lastPosition == pt
    {
      AppendCommand(Command.LineTo(pt));
    }

    method BezierTo(cp1: Point, cp2: Point, pt: Point)
      requires Valid()
      modifies this
      ensures Valid() && states == old(states) && cache == old(cache) && KeepsFrame()
      ensures commands == old(commands) + [Mapped(Top(states).xform, Command.BezierTo(cp1, cp2, pt))]
      ensures lastPosition == pt
    {
      AppendCommand(Command.BezierTo(cp1, cp2, pt));
    }

    /** `quad_to`: the quadratic from the last position, as the cubic that
        traces it (`QuadraticElevated`). */
    method QuadTo(cp: Point, pt: Point)
      requires Valid()
      modifies this
      ensures Valid() && states == old(states) && cache == old(cache) && KeepsFrame()
      ensures var (c1, c2) := QuadControls(old(lastPosition), cp, pt);
        commands == old(commands) + [Mapped(Top(states).xform, Command.BezierTo(c1, c2, pt))]
      ensures lastPosition == pt
    {
      var x0 := lastPosition.x;
      var y0 := lastPosition.y;
      AppendCommand(Command.BezierTo(
        Point(x0 + 2.0 / 3.0 * (cp.x - x0), y0 + 2.0 / 3.0 * (cp.y - y0)),
        Point(pt.x + 2.0 / 3.0 * (cp.x - pt.x), pt.y + 2.0 / 3.0 * (cp.y - pt.y)),
        pt));
    }

    /** `close_path` and `path_solidity` push their command as it is. */
    method ClosePath()
      requires Valid()
      modifies this
      ensures Valid() && states == old(states) && cache == old(cache) && lastPosition == old(lastPosition)
      ensures KeepsFrame() && commands == old(commands) + [Close]
    {
      commands := commands + [Close];
    }

    method PathSolidity(dir: Solidity)
      requires Valid()
      modifies this
      ensures Valid() && states == old(states) && cache == old(cache) && lastPosition == old(lastPosition)
      ensures KeepsFrame() && commands == old(commands) + [SetSolidity(dir)]
    {
      commands := commands + [SetSolidity(dir)];
    }

    /** The first part of `arc`: the gap between the angles normalised to
        the sweep the direction asks for. */
    static method ArcSweep(a0: real, a1: real, dir: Solidity) returns (da: real)
      ensures da == Sweep(a0, a1, dir)
    {
      da := a1 - a0;
      if dir == Hole {
        if Abs(da) >= PI * 2.0 {
          da := PI * 2.0;
        } else {
          while da < 0.0
            invariant da == a1 - a0 || da == a1 - a0 + 2.0 * PI
            invariant da < 0.0 ==> da == a1 - a0 && -2.0 * PI < da
            invariant da == a1 - a0 + 2.0 * PI ==> a1 - a0 < 0.0
            decreases if da < 0.0 then 1 else 0
          {
            da := da + PI * 2.0;
          }
        }
      } else {
        if Abs(da) >= PI * 2.0 {
          da := -PI * 2.0;
        } else {
          while da > 0.0
            invariant da == a1 - a0 || da == a1 - a0 - 2.0 * PI
            invariant da > 0.0 ==> da == a1 - a0 && da < 2.0 * PI
            invariant da == a1 - a0 - 2.0 * PI ==> a1 - a0 > 0.0
            decreases if da > 0.0 then 1 else 0
          {
            da := da - PI * 2.0;
          }
        }
      }
    }

    /** `arc`: the sweep normalised by turns, then a move (on an empty
        buffer) or a line to the first point and one curve per division. */
    method Arc(cp: Point, radius: real, a0: real, a1: real, dir: Solidity, lib: Libm)
      requires Valid()
      modifies this
      ensures Valid() && states == old(states) && cache == old(cache) && KeepsFrame()
      ensures var cmds := ArcCommands(cp, radius, a0, a1, dir, |old(commands)| == 0, lib);
        && commands == old(commands) + MappedAll(Top(states).xform, cmds)
        && lastPosition == LastAfter(cmds, old(lastPosition))
    {
      var move := |commands| == 0;
      var da := ArcSweep(a0, a1, dir);
      var ndivs := ArcDivs(da);
      var kappa := ArcKappa(da, ndivs, dir, lib);
      AppendArc(cp, radius, a0, da, ndivs, kappa, move, lib);
    }

    /** The loop of `arc`: point i of the arc and its tangent, appended as
        a move or line for i = 0 and otherwise as a curve from point i - 1,
        whose point and tangent the loop carries over. */
    method AppendArc(cp: Point, radius: real, a0: real, da: real, ndivs: int, kappa: real, move: bool, lib: Libm)
      requires Valid() && ndivs >= 1
      modifies this
      ensures Valid() && states == old(states) && cache == old(cache) && KeepsFrame()
      ensures var cmds := ArcRun(cp, radius, a0, da, ndivs, kappa, move, lib);
        && commands == old(commands) + MappedAll(Top(states).xform, cmds)
        && lastPosition == LastAfter(cmds, old(lastPosition))
    {
      ghost var cmds := ArcRun(cp, radius, a0, da, ndivs, kappa, move, lib);
      ghost var xf := Top(states).xform;
      ghost var last0 := lastPosition;
      var px, py, ptanx, ptany := 0.0, 0.0, 0.0, 0.0;
      var i := 0;
      while i <= ndivs
        invariant 0 <= i <= ndivs + 1 == |cmds|
        invariant Valid() && states == old(states) && cache == old(cache) && KeepsFrame()
        invariant commands == old(commands) + MappedAll(xf, cmds[..i])
        invariant lastPosition == LastAfter(cmds[..i], last0)
        invariant i >= 1 ==> ArcNode(px, py, ptanx, ptany) == ArcNodeAt(cp, radius, a0, da, ndivs, kappa, i - 1, lib)
      {
        var q := ArcNodeAt(cp, radius, a0, da, ndivs, kappa, i, lib);
        var cmd;
        if i == 0 {
          cmd := if move then Command.MoveTo(Point(q.x, q.y)) else Command.LineTo(Point(q.x, q.y));
        } else {
          cmd := Command.BezierTo(Point(px + ptanx, py + ptany), Point(q.x - q.tanx, q.y - q.tany), Point(q.x, q.y));
        }
        ArcCommandFromNodes(cp, radius, a0, da, ndivs, kappa, move, i, lib, px, py, ptanx, ptany);
        assert cmd == cmds[i];
        AppendOne(xf, cmds, i, last0);
        AppendCommand(cmd);
        AppendRegroup(old(commands), MappedAll(xf, cmds[..i]), [Mapped(xf, cmd)]);
        px, py, ptanx, ptany := q.x, q.y, q.tanx, q.tany;
        i := i + 1;
      }
      assert cmds[..i] == cmds;
    }

    /** `arc_to`: a rounded corner at pt1 towards pt2 from the last
        position, or a line to pt1 where no arc fits (`ArcToPlanOf`). */
    method ArcTo(pt1: Point, pt2: Point, radius: real, lib: Libm)
      requires Valid()
      modifies this
      ensures Valid() && states == old(states) && cache == old(cache) && KeepsFrame()
      ensures var plan := ArcToPlanOf(|old(commands)| == 0, old(lastPosition), pt1, pt2, radius, distTol, lib);
        var cmds := ArcToCommands(plan, pt1, radius, lib);
        && commands == old(commands) + MappedAll(Top(states).xform, cmds)
        && lastPosition == LastAfter(cmds, old(lastPosition))
    {
      var plan := ArcToPlanOf(|commands| == 0, lastPosition, pt1, pt2, radius, distTol, lib);
      ghost var cmds := ArcToCommands(plan, pt1, radius, lib);
      match plan {
        case NoArc =>
          assert MappedAll(Top(states).xform, cmds) == [];
        case LineToCorner =>
          LineTo(pt1);
          assert cmds[..0] == [] && cmds[..1] == cmds;
        case ArcAround(center, b0, b1, dir) =>
          Arc(center, radius, b0, b1, dir, lib);
      }
    }

    /** `rect`: the closed outline of the rectangle (`RectCommands`). */
    method Rect(r: Geometry.Rect)
      requires Valid()
      modifies this
      ensures Valid() && states == old(states) && cache == old(cache) && KeepsFrame()
      ensures commands == old(commands) + MappedAll(Top(states).xform, RectCommands(r))
      ensures lastPosition == Point(r.xy.x + r.size.width, r.xy.y)
    {
      AppendAll(RectCommands(r));
      ghost var c := RectCommands(r);
      assert c[..4][..3] == c[..3];
      assert LastAfter(c, old(lastPosition)) == EndPoint(c[3], LastAfter(c[..4], old(lastPosition)));
    }

    method RoundedRect(r: Geometry.Rect, radius: real)
      requires Valid()
      modifies this
      ensures Valid() && states == old(states) && cache == old(cache) && KeepsFrame()
      ensures commands == old(commands) + MappedAll(Top(states).xform, RoundedRectCommands(r, radius, radius, radius, radius))
      ensures lastPosition == LastAfter(RoundedRectCommands(r, radius, radius, radius, radius), old(lastPosition))
    {
      RoundedRectVarying(r, radius, radius, radius, radius);
    }

    /** `rounded_rect_varying`: the rectangle with each corner rounded by
        its own radius (`RoundedRectCommands`). */
    method RoundedRectVarying(r: Geometry.Rect, lt: real, rt: real, rb: real, lb: real)
      requires Valid()
      modifies this
      ensures Valid() && states == old(states) && cache == old(cache) && KeepsFrame()
      ensures commands == old(commands) + MappedAll(Top(states).xform, RoundedRectCommands(r, lt, rt, rb, lb))
      ensures lastPosition == LastAfter(RoundedRectCommands(r, lt, rt, rb, lb), old(lastPosition))
    {
      if lt < 0.1 && rt < 0.1 && lb < 0.1 && rb < 0.1 {
        Rect(r);
        ghost var c := RectCommands(r);
        assert c[..4][..3] == c[..3];
      } else {
        AppendAll(RoundedRectCommands(r, lt, rt, rb, lb));
      }
    }

    /** `ellipse`: four quarter curves around the centre (`EllipseCommands`). */
    method Ellipse(center: Point, rx: real, ry: real)
      requires Valid()
      modifies this
      ensures Valid() && states == old(states) && cache == old(cache) && KeepsFrame()
      ensures commands == old(commands) + MappedAll(Top(states).xform, EllipseCommands(center, rx, ry))
      ensures lastPosition == Point(center.x - rx, center.y)
    {
      AppendAll(EllipseCommands(center, rx, ry));
      ghost var c := EllipseCommands(center, rx, ry);
      assert c[..5][..4] == c[..4];
      assert LastAfter(c, old(lastPosition)) == EndPoint(c[4], LastAfter(c[..5][..4], old(lastPosition)));
    }

    method Circle(center: Point, radius: real)
      requires Valid()
      modifies this
      ensures Valid() && states == old(states) && cache == old(cache) && KeepsFrame()
      ensures commands == old(commands) + MappedAll(Top(states).xform, EllipseCommands(center, radius, radius))
      ensures lastPosition == Point(center.x - radius, center.y)
    {
      Ellipse(center, radius, radius);
    }
  
    // -------------------------------------------------------------------
    // Drawing
    // -------------------------------------------------------------------

    /** The statistics loop of `fill`. */
    method TallyFill(ps: seq<Path>)
      modifies this
      ensures Counts() == FillTally(old(Counts()), ps)
      ensures states == old(states) && KeepsPath()
      ensures tessTol == old(tessTol) && distTol == old(distTol) && fringeWidth == old(fringeWidth)
      ensures devicePixelRatio == old(devicePixelRatio)
    {
      var i := 0;
      while i < |ps|
        invariant 0 <= i <= |ps|
        invariant Counts() == FillTally(old(Counts()), ps[..i])
        invariant states == old(states) && KeepsPath()
        invariant tessTol == old(tessTol) && distTol == old(distTol) && fringeWidth == old(fringeWidth)
        invariant devicePixelRatio == old(devicePixelRatio)
      {
        var path := ps[i];
        if path.numFill > 2 {
          fillTrianglesCount := fillTrianglesCount + (path.numFill - 2);
        }
        if path.numStroke > 2 {
          fillTrianglesCount := fillTrianglesCount + (path.numStroke - 2);
        }
        drawCallCount := drawCallCount + 2;
        assert ps[..i + 1][..i] == ps[..i];
        i := i + 1;
      }
      assert ps[..i] == ps;
    }

    /** The statistics loop of `stroke`, counting the strips' triangles as
        stroke triangles (`StrokeTally`; the source adds them to the fill
        counter, `StrokeTallyAsWritten`). */
    method TallyStroke(ps: seq<Path>)
      requires StrokesLong(ps)
      modifies this
      ensures Counts() == StrokeTally(old(Counts()), ps)
      ensures states == old(states) && KeepsPath()
      ensures tessTol == old(tessTol) && distTol == old(distTol) && fringeWidth == old(fringeWidth)
      ensures devicePixelRatio == old(devicePixelRatio)
    {
      var i := 0;
      while i < |ps|
        invariant 0 <= i <= |ps|
        invariant Counts() == StrokeTally(old(Counts()), ps[..i])
        invariant states == old(states) && KeepsPath()
        invariant tessTol == old(tessTol) && distTol == old(distTol) && fringeWidth == old(fringeWidth)
        invariant devicePixelRatio == old(devicePixelRatio)
      {
        var path := ps[i];
        strokeTrianglesCount := strokeTrianglesCount + (path.numStroke - 2);
        drawCallCount := drawCallCount + 1;
        assert ps[..i + 1][..i] == ps[..i];
        i := i + 1;
      }
      assert ps[..i] == ps;
    }

    /** `flatten_paths` on the cache: the commands flattened on top of the
        subpaths it holds, every subpath outlined. */
    method Flatten(lib: Libm) returns (ghost flat: Sketch)
      requires Valid() && distTol != 0.0
      modifies cache
      ensures Valid() && cache.vertexes == old(cache.vertexes)
      ensures flat == Sketch(cache.points, cache.paths) && Outlined(cache.paths)
      ensures FlattenedFrom(old(Sketch(cache.points, cache.paths)), commands, distTol, tessTol, lib.sqrt, flat, cache.bounds)
    {
      ghost var k0 := Sketch(cache.points, cache.paths);
      cache.FlattenPaths(commands, distTol, tessTol, lib.sqrt);
      flat := Sketch(cache.points, cache.paths);
      FlattenedOutlined(Commands(k0, commands, distTol, tessTol), InitialBounds, distTol, lib.sqrt);
    }

    /** The geometry half of `fill`: `flatten_paths` followed by
        `expand_fill(w, Miter, 2.4, fringe)`. */
    method FlattenAndFill(w: real, fringe: real, lib: Libm) returns (ghost flat: Sketch, ghost joined: seq<Path>)
      requires Valid() && distTol != 0.0
      modifies cache
      ensures Valid() && fresh(cache.vertexes)
      ensures FlattenedFrom(old(Sketch(cache.points, cache.paths)), commands, distTol, tessTol, lib.sqrt, flat, cache.bounds)
      ensures FilledFrom(flat, old(cache.vertexes[..]), cache.vertexes[..], cache.points, joined, cache.paths, w, fringe)
    {
      flat := Flatten(lib);
      joined := cache.ExpandFill(w, LineJoin.Miter, 2.4, fringe);
    }

    /** `fill`: the commands flattened into the cache (on top of the
        subpaths it already holds), the cache filled with a fringe when both
        the renderer and the state antialias, the fill paint faded by the
        state's alpha and handed to the renderer; the statistics grow only
        when the renderer accepts the call. */
    method Fill(edgeAntialias: bool, rendererOk: bool, lib: Libm)
      returns (call: FillCall, ghost flat: Sketch, ghost joined: seq<Path>)
      requires Valid() && distTol != 0.0
      modifies this, cache
      ensures Valid() && states == old(states) && commands == old(commands) && lastPosition == old(lastPosition)
      ensures cache == old(cache) && fresh(cache.vertexes)
      ensures tessTol == old(tessTol) && distTol == old(distTol) && fringeWidth == old(fringeWidth)
      ensures devicePixelRatio == old(devicePixelRatio)
      ensures FlattenedFrom(old(Sketch(cache.points, cache.paths)), commands, distTol, tessTol, lib.sqrt, flat, cache.bounds)
      ensures FilledFrom(flat, old(cache.vertexes[..]), cache.vertexes[..], cache.points, joined, cache.paths,
                         if edgeAntialias && Top(states).shapeAntialias then fringeWidth else 0.0, fringeWidth)
      ensures call == FillCall(FillPaintOf(Top(states)), Top(states).compositeOperation, Top(states).scissor,
                               fringeWidth, cache.bounds, cache.paths)
      ensures Counts() == if rendererOk then FillTally(old(Counts()), cache.paths) else old(Counts())
    {
      var state := Top(states);
      var w := if edgeAntialias && state.shapeAntialias then fringeWidth else 0.0;
      flat, joined := FlattenAndFill(w, fringeWidth, lib);
      var fillPaint := FadePaint(state.fill, state.alpha);
      call := FillCall(fillPaint, state.compositeOperation, state.scissor, fringeWidth, cache.bounds, cache.paths);
      if !rendererOk {
        return;
      }
      TallyFill(cache.paths);
    }

    /** The geometry half of `stroke`: `flatten_paths` followed by
        `expand_stroke(width / 2, aa, cap, join, miter_limit)`; every
        subpath's stroke comes out with at least two vertices. */
    method FlattenAndStroke(width: real, aa: real, cap: LineCap, join: LineJoin, miterLimit: real, tess: real, lib: Libm)
      returns (ghost flat: Sketch, ghost joined: seq<Path>)
      requires Valid() && distTol != 0.0 && tess == tessTol
      modifies cache
      ensures Valid() && fresh(cache.vertexes)
      ensures FlattenedFrom(old(Sketch(cache.points, cache.paths)), commands, distTol, tessTol, lib.sqrt, flat, cache.bounds)
      ensures StrokedFrom(flat, old(cache.vertexes[..]), cache.vertexes[..], cache.points, joined, cache.paths,
                          width, aa, cap, join, miterLimit, tess, lib)
      ensures StrokesLong(cache.paths)
    {
      flat := Flatten(lib);
      ghost var v0 := cache.vertexes[..];
      assert v0 == old(cache.vertexes[..]);
      joined := StrokeFlat(flat, width, aa, cap, join, miterLimit, tess, lib);
    }

    /** `expand_stroke(width / 2, aa, cap, join, miter_limit)` over the
        flattened subpaths `flat` the cache holds. */
    method StrokeFlat(ghost flat: Sketch, width: real, aa: real, cap: LineCap, join: LineJoin, miterLimit: real, tess: real,
                      lib: Libm)
      returns (ghost joined: seq<Path>)
      requires Valid() && flat == Sketch(cache.points, cache.paths) && Outlined(cache.paths)
      modifies cache
      ensures Valid() && fresh(cache.vertexes) && cache.bounds == old(cache.bounds)
      ensures StrokedFrom(flat, old(cache.vertexes[..]), cache.vertexes[..], cache.points, joined, cache.paths,
                          width, aa, cap, join, miterLimit, tess, lib)
      ensures StrokesLong(cache.paths)
    {
      ghost var v0 := cache.vertexes[..];
      joined := cache.ExpandStroke(Half(width), aa, cap, join, miterLimit, tess, lib);
      StrokedFromExpand(flat, v0, cache.vertexes[..], cache.points, joined, cache.paths,
                        width, aa, cap, join, miterLimit, tess, lib);
    }

    /** The width and paint computation at the head of `stroke`. */
    static method ComputeStrokeStyle(state: State, fringe: real, sqrt: real -> real)
      returns (strokeWidth: real, strokePaint: Paint)
      ensures (strokeWidth, strokePaint) == StrokeStyle(state, fringe, sqrt)
    {
      strokeWidth := ScaledStrokeWidth(state, sqrt);
      strokePaint := state.stroke;
      if strokeWidth < fringe {
        strokePaint := FadePaint(strokePaint, FringeFade(strokeWidth, fringe));
        strokeWidth := fringe;
      }
      strokePaint := FadePaint(strokePaint, state.alpha);
    }

    /** `stroke`: the width and paint of `StrokeStyle`, the commands
        flattened into the cache, the cache stroked at half that width with
        a fringe when both the renderer and the state antialias, and the
        result handed to the renderer; every subpath's stroke has at least
        two vertices, so the statistics subtract nothing that is not there. */
    method Stroke(edgeAntialias: bool, rendererOk: bool, lib: Libm)
      returns (call: StrokeCall, ghost flat: Sketch, ghost joined: seq<Path>)
      requires Valid() && distTol != 0.0
      modifies this, cache
      ensures Valid() && states == old(states) && commands == old(commands) && lastPosition == old(lastPosition)
      ensures cache == old(cache) && fresh(cache.vertexes)
      ensures tessTol == old(tessTol) && distTol == old(distTol) && fringeWidth == old(fringeWidth)
      ensures devicePixelRatio == old(devicePixelRatio)
      ensures FlattenedFrom(old(Sketch(cache.points, cache.paths)), commands, distTol, tessTol, lib.sqrt, flat, cache.bounds)
      ensures var s := Top(states);
        var style := StrokeStyle(s, fringeWidth, lib.sqrt);
        && StrokedFrom(flat, old(cache.vertexes[..]), cache.vertexes[..], cache.points, joined, cache.paths,
                       style.0, if edgeAntialias && s.shapeAntialias then fringeWidth else 0.0,
                       s.lineCap, s.lineJoin, s.miterLimit, tessTol, lib)
        && call == StrokeCall(style.1, s.compositeOperation, s.scissor, fringeWidth, style.0, cache.paths)
      ensures StrokesLong(cache.paths)
      ensures Counts() == if rendererOk then StrokeTally(old(Counts()), cache.paths) else old(Counts())
    {
      var state := Top(states);
      var strokeWidth, strokePaint := ComputeStrokeStyle(state, fringeWidth, lib.sqrt);
      var aa := if edgeAntialias && state.shapeAntialias then fringeWidth else 0.0;
      flat, joined := FlattenAndStroke(strokeWidth, aa, state.lineCap, state.lineJoin, state.miterLimit,
                                       tessTol, lib);
      call := StrokeCall(strokePaint, state.compositeOperation, state.scissor, fringeWidth, strokeWidth, cache.paths);
      if !rendererOk {
        return;
      }
      TallyStroke(cache.paths);
    }
  }
}
