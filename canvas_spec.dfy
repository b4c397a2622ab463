// The values behind the canvas (nona/src/context.rs): the drawing state and
// its stack, the commands the path builders emit before they are mapped
// through the current transform, and the rules `fill` and `stroke` apply to
// paints, widths and the frame statistics.
module CanvasState {
  import opened Numerics
  import opened Geometry
  import opened Colors
  import opened CanvasTypes
  import opened CacheSpec
  import opened Paints

  /** The clip region: the rectangle of half size `extent` around the origin
      of `xform`.  A negative extent means that nothing is clipped. */
  datatype Scissor = Scissor(xform: Transform, extent: Extent)

  /** The flags of the `Align` bit set. */
  datatype AlignFlag = AlignLeft | AlignCenter | AlignRight | AlignTop | AlignMiddle | AlignBottom | AlignBaseline

  /** One entry of the state stack. */
  datatype State = State(
    compositeOperation: CompositeOperationState,
    shapeAntialias: bool,
    fill: Paint,
    stroke: Paint,
    strokeWidth: real,
    miterLimit: real,
    lineJoin: LineJoin,
    lineCap: LineCap,
    alpha: real,
    xform: Transform,
    scissor: Scissor,
    fontSize: real,
    letterSpacing: real,
    lineHeight: real,
    textAlign: set<AlignFlag>,
    fontId: nat)

  /** The scissor of a fresh state and of `reset_scissor`: the all-zero
      transform (`Default`) and an extent of -1, that is, no clipping. */
  const NoScissor: Scissor := Scissor(Transform(0.0, 0.0, 0.0, 0.0, 0.0, 0.0), Extent(-1.0, -1.0))

  /** `impl Default for State`. */
  const DefaultState: State := State(
    ToState(Basic(SrcOver)), true,
    ColorPaint(Rgb(1.0, 1.0, 1.0)), ColorPaint(Rgb(0.0, 0.0, 0.0)),
    1.0, 10.0, LineJoin.Miter, LineCap.Butt, 1.0, Identity(), NoScissor,
    16.0, 0.0, 1.0, {AlignLeft, AlignBaseline}, 0)

  // ---------------------------------------------------------------------
  // The state stack
  // ---------------------------------------------------------------------

  function Top(st: seq<State>): State
    requires |st| >= 1
  {
    st[|st| - 1]
  }

  /** `save`: a copy of the top state goes on top; an empty stack has no
      top to copy and stays empty. */
  function Saved(st: seq<State>): (r: seq<State>)
    ensures |st| >= 1 ==> |r| == |st| + 1 && r[..|st|] == st && Top(r) == Top(st)
    ensures |st| == 0 ==> r == []
  {
    if |st| == 0 then st else st + [Top(st)]
  }

  /** `restore`: the top state is dropped, unless it is the only one. */
  function Restored(st: seq<State>): (r: seq<State>)
    ensures |st| <= 1 ==> r == st
    ensures |st| > 1 ==> |r| == |st| - 1 && st == r + [Top(st)]
  {
    if |st| <= 1 then st else st[..|st| - 1]
  }

  /** The stack with its top state replaced by s: what `reset` and every
      setter do through `state_mut`. */
  function WithTop(st: seq<State>, s: State): (r: seq<State>)
    requires |st| >= 1
    ensures |r| == |st| && Top(r) == s && r[..|st| - 1] == st[..|st| - 1]
  {
    st[..|st| - 1] + [s]
  }

  /** A `restore` undoes a `save`, and a `save` after a `restore` only
      brings back a copy of the state that is now on top. */
  lemma RestoreUndoesSave(st: seq<State>)
    requires |st| >= 1
    ensures Restored(Saved(st)) == st
    ensures |st| >= 2 ==> Saved(Restored(st)) == st[..|st| - 1] + [st[|st| - 2]]
  {
    assert Saved(st)[..|st|] == st;
  }

  datatype StackOp = Save | Restore | Reset

  function Apply(st: seq<State>, op: StackOp): seq<State>
  {
    match op
    case Save => Saved(st)
    case Restore => Restored(st)
    case Reset => if |st| >= 1 then WithTop(st, DefaultState) else st
  }

  function ApplyAll(st: seq<State>, ops: seq<StackOp>): seq<State>
    decreases |ops|
  {
    if |ops| == 0 then st else ApplyAll(Apply(st, ops[0]), ops[1..])
  }

  /** Whatever the program does with the stack, a stack that starts with a
      state never becomes empty, and its bottom state changes only through
      a `reset` while it is the only one. */
  lemma {:induction false} StackNeverEmpty(st: seq<State>, ops: seq<StackOp>)
    requires |st| >= 1
    ensures |ApplyAll(st, ops)| >= 1
    ensures Reset !in ops ==> ApplyAll(st, ops)[0] == st[0]
    decreases |ops|
  {
    if |ops| > 0 {
      var next := Apply(st, ops[0]);
      assert |next| >= 1 && (ops[0] != Reset ==> next[0] == st[0]);
      assert Reset !in ops ==> Reset !in ops[1..];
      StackNeverEmpty(next, ops[1..]);
    }
  }

  // ---------------------------------------------------------------------
  // Commands
  // ---------------------------------------------------------------------

  /** The command `append_command` stores for cmd: the points of a move,
      a line or a curve mapped through t; a close or a winding as they are. */
  function Mapped(t: Transform, cmd: Command): (r: Command)
    ensures r.MoveTo? == cmd.MoveTo? && r.LineTo? == cmd.LineTo? && r.BezierTo? == cmd.BezierTo?
    ensures r.Close? == cmd.Close? && r.SetSolidity? == cmd.SetSolidity?
    ensures cmd.Close? || cmd.SetSolidity? ==> r == cmd
    ensures cmd.MoveTo? || cmd.LineTo? || cmd.BezierTo? ==> r.p == TransformPoint(t, cmd.p)
    ensures cmd.BezierTo? ==> r.c1 == TransformPoint(t, cmd.c1) && r.c2 == TransformPoint(t, cmd.c2)
  {
    match cmd
    case MoveTo(p) => MoveTo(TransformPoint(t, p))
    case LineTo(p) => LineTo(TransformPoint(t, p))
    case BezierTo(c1, c2, p) => BezierTo(TransformPoint(t, c1), TransformPoint(t, c2), TransformPoint(t, p))
    case _ => cmd
  }

  /** The identity transform stores commands unchanged. */
  lemma MappedIdentity(cmd: Command)
    ensures Mapped(Identity(), cmd) == cmd
  {
  }

  /** Mapping through `s * t` is mapping through s and then through t. */
  lemma MappedComposes(s: Transform, t: Transform, cmd: Command)
    ensures Mapped(Mul(s, t), cmd) == Mapped(t, Mapped(s, cmd))
  {
    match cmd
    case MoveTo(p) => MulApplies(s, t, p);
    case LineTo(p) => MulApplies(s, t, p);
    case BezierTo(c1, c2, p) =>
      MulApplies(s, t, c1);
      MulApplies(s, t, c2);
      MulApplies(s, t, p);
    case _ =>
  }

  function MappedAll(t: Transform, cmds: seq<Command>): (r: seq<Command>)
    ensures |r| == |cmds|
  {
    seq(|cmds|, i requires 0 <= i < |cmds| => Mapped(t, cmds[i]))
  }

  /** The `last_position` after appending cmd: the untransformed end point
      of a move, a line or a curve; unchanged for anything else. */
  function EndPoint(cmd: Command, last: Point): Point
  {
    if cmd.MoveTo? || cmd.LineTo? || cmd.BezierTo? then cmd.p else last
  }

  function LastAfter(cmds: seq<Command>, last: Point): Point
  {
    if |cmds| == 0 then last else EndPoint(cmds[|cmds| - 1], LastAfter(cmds[..|cmds| - 1], last))
  }

  /** Appending one more command maps it and moves the last position to it. */
  lemma AppendOne(t: Transform, cmds: seq<Command>, i: nat, last: Point)
    requires i < |cmds|
    ensures MappedAll(t, cmds[..i + 1]) == MappedAll(t, cmds[..i]) + [Mapped(t, cmds[i])]
    ensures LastAfter(cmds[..i + 1], last) == EndPoint(cmds[i], LastAfter(cmds[..i], last))
  {
    assert cmds[..i + 1][..i] == cmds[..i];
  }

  lemma AppendRegroup<T>(a: seq<T>, b: seq<T>, c: seq<T>)
    ensures a + b + c == a + (b + c)
  {
  }

  // ---------------------------------------------------------------------
  // Shapes, before the current transform is applied
  // ---------------------------------------------------------------------

  /** The control-point distance of a quarter-circle cubic. */
  const Kappa90: real := 0.5522847493

  function Pt(x: real, y: real): Point
  {
    Point(x, y)
  }

  /** `rect`: a closed subpath around the four corners of r, starting at
      its origin and going down the side at x first. */
  function RectCommands(r: Rect): (c: seq<Command>)
    ensures |c| == 5 && c[0].MoveTo? && c[4].Close?
    ensures forall i :: 1 <= i < 4 ==> c[i].LineTo?
    ensures c[0].p == r.xy
    ensures {c[0].p, c[1].p, c[2].p, c[3].p} ==
            {Pt(r.xy.x, r.xy.y), Pt(r.xy.x + r.size.width, r.xy.y),
             Pt(r.xy.x, r.xy.y + r.size.height), Pt(r.xy.x + r.size.width, r.xy.y + r.size.height)}
    ensures forall i :: 0 <= i < 3 ==> c[i].p.x == c[i + 1].p.x || c[i].p.y == c[i + 1].p.y
  {
    var x, y, w, h := r.xy.x, r.xy.y, r.size.width, r.size.height;
    [MoveTo(Pt(x, y)), LineTo(Pt(x, y + h)), LineTo(Pt(x + w, y + h)), LineTo(Pt(x + w, y)), Close]
  }

  /** The rectangle's outline has the signed area w·h in the sense the
      path cache measures it, so a rectangle of positive size comes out
      Solid and is never reversed by the winding pass. */
  lemma RectIsSolid(r: Rect)
    ensures var c := RectCommands(r);
      TriangleArea(c[0].p, c[1].p, c[2].p) + TriangleArea(c[0].p, c[2].p, c[3].p) == 2.0 * r.size.width * r.size.height
  {
  }

  /** `ellipse`: a move to the leftmost point, four quarter curves through
      the bottom, right and top points back to it, and a close. */
  function EllipseCommands(c: Point, rx: real, ry: real): (r: seq<Command>)
    ensures |r| == 6 && r[0].MoveTo? && r[5].Close?
    ensures forall i :: 1 <= i < 5 ==> r[i].BezierTo?
    ensures r[0].p == Pt(c.x - rx, c.y) && r[4].p == r[0].p
    ensures r[1].p == Pt(c.x, c.y + ry) && r[2].p == Pt(c.x + rx, c.y) && r[3].p == Pt(c.x, c.y - ry)
    ensures forall i :: 1 <= i < 5 ==>
      (r[i].c1.x == r[i - 1].p.x || r[i].c1.y == r[i - 1].p.y) && (r[i].c2.x == r[i].p.x || r[i].c2.y == r[i].p.y)
  {
    var cx, cy := c.x, c.y;
    [MoveTo(Pt(cx - rx, cy)),
     BezierTo(Pt(cx - rx, cy + ry * Kappa90), Pt(cx - rx * Kappa90, cy + ry), Pt(cx, cy + ry)),
     BezierTo(Pt(cx + rx * Kappa90, cy + ry), Pt(cx + rx, cy + ry * Kappa90), Pt(cx + rx, cy)),
     BezierTo(Pt(cx + rx, cy - ry * Kappa90), Pt(cx + rx * Kappa90, cy - ry), Pt(cx, cy - ry)),
     BezierTo(Pt(cx - rx * Kappa90, cy - ry), Pt(cx - rx, cy - ry * Kappa90), Pt(cx - rx, cy)),
     Close]
  }

  /** The four curve ends span a diamond of signed area 2·rx·ry, the same
      sense as a rectangle: an ellipse of positive radii is Solid. */
  lemma EllipseIsSolid(c: Point, rx: real, ry: real)
    ensures var e := EllipseCommands(c, rx, ry);
      TriangleArea(e[0].p, e[1].p, e[2].p) + TriangleArea(e[0].p, e[2].p, e[3].p) == 4.0 * rx * ry
  {
  }

  /** `f32::signum` on the reals: 1 for zero and above, -1 below. */
  function Signum(x: real): (r: real)
    ensures r == 1.0 || r == -1.0
    ensures (r == 1.0) == (x >= 0.0)
  {
    if x < 0.0 then -1.0 else 1.0
  }

  /** A corner radius cut down to half the side and signed like the side. */
  function CornerRadius(radius: real, size: real): (r: real)
    ensures radius >= 0.0 ==> Abs(r) <= Abs(size) * 0.5
    ensures radius >= 0.0 && Abs(size) * 0.5 >= radius ==> Abs(r) == radius
  {
    Min(radius, Abs(size) * 0.5) * Signum(size)
  }

  /** True when a point lies on the border of r's axis-aligned outline. */
  predicate OnBorder(r: Rect, p: Point)
  {
    p.x == r.xy.x || p.x == r.xy.x + r.size.width || p.y == r.xy.y || p.y == r.xy.y + r.size.height
  }

  /** `rounded_rect_varying`: the plain rectangle when every radius is below
      0.1; otherwise a move, then a side and a corner curve four times going
      round the same way as `rect`, ending where it started. */
  function RoundedRectCommands(r: Rect, lt: real, rt: real, rb: real, lb: real): (c: seq<Command>)
    ensures lt < 0.1 && rt < 0.1 && lb < 0.1 && rb < 0.1 ==> c == RectCommands(r)
    ensures !(lt < 0.1 && rt < 0.1 && lb < 0.1 && rb < 0.1) ==>
      && |c| == 10 && c[0].MoveTo? && c[9].Close?
      && (forall i :: 0 < i < 9 ==> (if i % 2 == 1 then c[i].LineTo? else c[i].BezierTo?))
      && c[8].p == c[0].p
      && (forall i :: 0 <= i < 9 ==> OnBorder(r, c[i].p))
  {
    if lt < 0.1 && rt < 0.1 && lb < 0.1 && rb < 0.1 then RectCommands(r)
    else
      var x, y, w, h := r.xy.x, r.xy.y, r.size.width, r.size.height;
      var rxlb, rylb := CornerRadius(lb, w), CornerRadius(lb, h);
      var rxrb, ryrb := CornerRadius(rb, w), CornerRadius(rb, h);
      var rxrt, ryrt := CornerRadius(rt, w), CornerRadius(rt, h);
      var rxlt, rylt := CornerRadius(lt, w), CornerRadius(lt, h);
      var k := 1.0 - Kappa90;
      [MoveTo(Pt(x, y + rylt)),
       LineTo(Pt(x, y + h - rylb)),
       BezierTo(Pt(x, y + h - rylb * k), Pt(x + rxlb * k, y + h), Pt(x + rxlb, y + h)),
       LineTo(Pt(x + w - rxrb, y + h)),
       BezierTo(Pt(x + w - rxrb * k, y + h), Pt(x + w, y + h - ryrb * k), Pt(x + w, y + h - ryrb)),
       LineTo(Pt(x + w, y + ryrt)),
       BezierTo(Pt(x + w, y + ryrt * k), Pt(x + w - rxrt * k, y), Pt(x + w - rxrt, y)),
       LineTo(Pt(x + rxlt, y)),
       BezierTo(Pt(x + rxlt * k, y), Pt(x, y + rylt * k), Pt(x, y + rylt)),
       Close]
  }

  /** `quad_to`: the inner control points of the cubic that traces the
      quadratic from p0 through the control cp to pt. */
  function QuadControls(p0: Point, cp: Point, pt: Point): (r: (Point, Point))
  {
    (Pt(p0.x + 2.0 / 3.0 * (cp.x - p0.x), p0.y + 2.0 / 3.0 * (cp.y - p0.y)),
     Pt(pt.x + 2.0 / 3.0 * (cp.x - pt.x), pt.y + 2.0 / 3.0 * (cp.y - pt.y)))
  }

  /** One coordinate of a quadratic and of a cubic Bezier curve at t. */
  function QuadAt(a: real, b: real, c: real, t: real): real
  {
    (1.0 - t) * (1.0 - t) * a + 2.0 * (1.0 - t) * t * b + t * t * c
  }

  function CubicAt(a: real, b: real, c: real, d: real, t: real): real
  {
    (1.0 - t) * (1.0 - t) * (1.0 - t) * a + 3.0 * (1.0 - t) * (1.0 - t) * t * b
    + 3.0 * (1.0 - t) * t * t * c + t * t * t * d
  }

  /** The cubic `quad_to` appends is the quadratic it was given, at every
      parameter t and in both coordinates (degree elevation). */
  lemma QuadraticElevated(p0: Point, cp: Point, pt: Point, t: real)
    ensures var (c1, c2) := QuadControls(p0, cp, pt);
      && CubicAt(p0.x, c1.x, c2.x, pt.x, t) == QuadAt(p0.x, cp.x, pt.x, t)
      && CubicAt(p0.y, c1.y, c2.y, pt.y, t) == QuadAt(p0.y, cp.y, pt.y, t)
  {
    var (c1, c2) := QuadControls(p0, cp, pt);
    Elevated(p0.x, cp.x, pt.x, c1.x, c2.x, t);
    Elevated(p0.y, cp.y, pt.y, c1.y, c2.y, t);
  }

  lemma Elevated(a: real, b: real, c: real, e1: real, e2: real, t: real)
    requires e1 == a + 2.0 / 3.0 * (b - a) && e2 == c + 2.0 / 3.0 * (b - c)
    ensures CubicAt(a, e1, e2, c, t) == QuadAt(a, b, c, t)
  {
    var s := 1.0 - t;
    assert 3.0 * e1 == a + 2.0 * b;
    assert 3.0 * e2 == c + 2.0 * b;
    calc {
      CubicAt(a, e1, e2, c, t);
      s * s * s * a + s * s * t * (3.0 * e1) + s * t * t * (3.0 * e2) + t * t * t * c;
      s * s * s * a + s * s * t * (a + 2.0 * b) + s * t * t * (c + 2.0 * b) + t * t * t * c;
      s * s * a * (s + t) + 2.0 * s * t * b * (s + t) + t * t * c * (s + t);
      QuadAt(a, b, c, t);
    }
  }

  // ---------------------------------------------------------------------
  // Arcs
  // ---------------------------------------------------------------------

  /** The angle `arc` sweeps from a0 to a1: a whole turn (positive for a
      Hole, negative for a Solid) when the gap is a turn or more, and
      otherwise the gap moved by at most one turn so that its sign is the
      one the direction asks for. */
  function Sweep(a0: real, a1: real, dir: Solidity): (da: real)
    ensures dir == Hole ==> 0.0 <= da <= 2.0 * PI
    ensures dir == Solid ==> -2.0 * PI <= da <= 0.0
    ensures Abs(a1 - a0) >= 2.0 * PI ==> da == (if dir == Hole then 2.0 * PI else -2.0 * PI)
    ensures Abs(a1 - a0) < 2.0 * PI ==>
      da == a1 - a0 || da == a1 - a0 + 2.0 * PI || da == a1 - a0 - 2.0 * PI
    ensures Abs(a1 - a0) < 2.0 * PI && (dir == Hole <==> a1 - a0 >= 0.0) ==> da == a1 - a0
  {
    var gap := a1 - a0;
    if dir == Hole then
      if Abs(gap) >= 2.0 * PI then 2.0 * PI else if gap < 0.0 then gap + 2.0 * PI else gap
    else
      if Abs(gap) >= 2.0 * PI then -2.0 * PI else if gap > 0.0 then gap - 2.0 * PI else gap
  }

  /** The number of curves of an arc: the sweep in quarter turns, rounded,
      saturated into i32 and clamped to [1, 5]; a sweep of at most a turn
      never needs the fifth. */
  function ArcDivs(da: real): (n: int)
    ensures 1 <= n <= 5
    ensures Abs(da) <= 2.0 * PI ==> n <= 4
  {
    ClampInt(ClampInt(SaturateI32(Trunc(Abs(da) / (PI * 0.5) + 0.5)), -I32_MAX - 1, 5), 1, 5)
  }

  /** The tangent length factor of each arc curve, signed by the direction.
      A zero sine (a zero sweep) gives 0 here where f32 gives NaN. */
  function ArcKappa(da: real, n: int, dir: Solidity, lib: Libm): (k: real)
    requires n >= 1
    ensures dir == Hole ==> k >= 0.0
    ensures dir == Solid ==> k <= 0.0
  {
    var hda := (da / n as real) / 2.0;
    var s := lib.sin(hda);
    var kappa := if s == 0.0 then 0.0 else Abs(4.0 / 3.0 * (1.0 - lib.cos(hda)) / s);
    if dir == Solid then -kappa else kappa
  }

  /** Point i of an arc and its tangent offset. */
  datatype ArcNode = ArcNode(x: real, y: real, tanx: real, tany: real)

  function ArcNodeAt(cp: Point, radius: real, a0: real, da: real, n: int, kappa: real, i: int, lib: Libm): ArcNode
    requires n >= 1
  {
    var a := a0 + da * (i as real / n as real);
    var dx := lib.cos(a);
    var dy := lib.sin(a);
    ArcNode(cp.x + dx * radius, cp.y + dy * radius, -dy * radius * kappa, dx * radius * kappa)
  }

  /** Command i of an arc: a move (or a line, when there are commands
      already) to the first point, then one curve per division. */
  function ArcCommand(cp: Point, radius: real, a0: real, da: real, n: int, kappa: real, move: bool, i: int,
                      lib: Libm): Command
    requires n >= 1
  {
    var q := ArcNodeAt(cp, radius, a0, da, n, kappa, i, lib);
    if i == 0 then
      if move then MoveTo(Pt(q.x, q.y)) else LineTo(Pt(q.x, q.y))
    else
      var p := ArcNodeAt(cp, radius, a0, da, n, kappa, i - 1, lib);
      BezierTo(Pt(p.x + p.tanx, p.y + p.tany), Pt(q.x - q.tanx, q.y - q.tany), Pt(q.x, q.y))
  }

  /** The commands of an arc of n curves over the sweep da from a0. */
  function ArcRun(cp: Point, radius: real, a0: real, da: real, n: int, kappa: real, move: bool, lib: Libm)
    : (c: seq<Command>)
    requires n >= 1
    ensures |c| == n + 1
  {
    seq(n + 1, i requires 0 <= i <= n => ArcCommand(cp, radius, a0, da, n, kappa, move, i, lib))
  }

  /** Command i of an arc, built from the node before it (px, py with
      tangent ptanx, ptany) as the drawing loop keeps it. */
  lemma ArcCommandFromNodes(cp: Point, radius: real, a0: real, da: real, n: int, kappa: real, move: bool, i: int,
                            lib: Libm, px: real, py: real, ptanx: real, ptany: real)
    requires n >= 1 && i >= 0
    requires i >= 1 ==> ArcNode(px, py, ptanx, ptany) == ArcNodeAt(cp, radius, a0, da, n, kappa, i - 1, lib)
    ensures var q := ArcNodeAt(cp, radius, a0, da, n, kappa, i, lib);
      ArcCommand(cp, radius, a0, da, n, kappa, move, i, lib)
      == if i == 0 then (if move then MoveTo(Point(q.x, q.y)) else LineTo(Point(q.x, q.y)))
         else BezierTo(Point(px + ptanx, py + ptany), Point(q.x - q.tanx, q.y - q.tany), Point(q.x, q.y))
  {
  }

  /** `arc`: a move or line to the start, then `ArcDivs` curves. */
  function ArcCommands(cp: Point, radius: real, a0: real, a1: real, dir: Solidity, move: bool, lib: Libm)
    : (c: seq<Command>)
    ensures 2 <= |c| <= 6 && |c| == ArcDivs(Sweep(a0, a1, dir)) + 1
    ensures c[0].MoveTo? == move && c[0].LineTo? == !move
    ensures forall i :: 1 <= i < |c| ==> c[i].BezierTo?
  {
    var da := Sweep(a0, a1, dir);
    var n := ArcDivs(da);
    ArcRun(cp, radius, a0, da, n, ArcKappa(da, n, dir, lib), move, lib)
  }

  /** Consecutive arc curves meet smoothly: at every inner joint the last
      control of one curve and the first control of the next lie opposite
      each other at the same distance from the joint. */
  lemma ArcJointsSmooth(cp: Point, radius: real, a0: real, a1: real, dir: Solidity, move: bool, lib: Libm, i: int)
    requires 1 <= i < |ArcCommands(cp, radius, a0, a1, dir, move, lib)| - 1
    ensures var c := ArcCommands(cp, radius, a0, a1, dir, move, lib);
      && c[i + 1].c1.x - c[i].p.x == c[i].p.x - c[i].c2.x
      && c[i + 1].c1.y - c[i].p.y == c[i].p.y - c[i].c2.y
  {
  }

  /** How far from the corner the arc of `arc_to` touches its sides. */
  function CornerDistance(radius: real, t: real): real
    requires t != 0.0
  {
    radius / t
  }

  /** What `arc_to` does after its first check, decided from the last
      position pt0, the corner pt1, the next point pt2 and the radius. */
  datatype ArcToPlan = NoArc | LineToCorner | ArcAround(center: Point, a0: real, a1: real, dir: Solidity)

  /** `arc_to`: nothing without commands; a line to the corner when a point
      coincides with another, the corner is flat, the radius is below the
      tolerance or the tangent distance exceeds 10000; otherwise an arc
      turning the way the corner turns.  The opening angle is the cosine of
      the raw dot product, as the source computes it.  A zero tangent is
      taken as an infinite distance. */
  function ArcToPlanOf(empty: bool, pt0: Point, pt1: Point, pt2: Point, radius: real, distTol: real, lib: Libm)
    : (r: ArcToPlan)
    ensures empty <==> r == NoArc
    ensures !empty && (|| Equals(pt0, pt1, distTol) || Equals(pt1, pt2, distTol)
                       || DistPtSeg(pt1, pt0, pt2) < distTol * distTol || radius < distTol)
            ==> r == LineToCorner
    ensures r.ArcAround? ==>
      (r.dir == Hole <==> Cross(Pt(pt0.x - pt1.x, pt0.y - pt1.y), Pt(pt2.x - pt1.x, pt2.y - pt1.y)) > 0.0)
  {
    if empty then NoArc
    else if Equals(pt0, pt1, distTol) || Equals(pt1, pt2, distTol)
            || DistPtSeg(pt1, pt0, pt2) < distTol * distTol || radius < distTol then LineToCorner
    else
      var d0 := Pt(pt0.x - pt1.x, pt0.y - pt1.y);
      var d1 := Pt(pt2.x - pt1.x, pt2.y - pt1.y);
      var a := lib.cos(d0.x * d1.x + d0.y * d1.y);
      var t := lib.tan(a / 2.0);
      if t == 0.0 then LineToCorner
      else
        var d := CornerDistance(radius, t);
        if d > 10000.0 then LineToCorner
        else if Cross(d0, d1) > 0.0 then
          ArcAround(Pt(pt1.x + d0.x * d + d0.y * radius, pt1.y + d0.y * d + -d0.x * radius),
                    lib.atan2(d0.x, -d0.y), -lib.atan2(d1.x, d1.y), Hole)
        else
          ArcAround(Pt(pt1.x + d0.x * d + -d0.y * radius, pt1.y + d0.y * d + d0.x * radius),
                    -lib.atan2(d0.x, d0.y), lib.atan2(d1.x, -d1.y), Solid)
  }

  /** The commands `arc_to` appends for a plan: none, a line to the corner,
      or an arc that continues the current subpath with a line to its start. */
  function ArcToCommands(plan: ArcToPlan, pt1: Point, radius: real, lib: Libm): (c: seq<Command>)
    ensures |c| == 0 <==> plan.NoArc?
    ensures plan.LineToCorner? ==> c == [LineTo(pt1)]
    ensures plan.ArcAround? ==> 2 <= |c| <= 6 && c[0].LineTo? && forall i :: 1 <= i < |c| ==> c[i].BezierTo?
  {
    match plan
    case NoArc => []
    case LineToCorner => [LineTo(pt1)]
    case ArcAround(center, a0, a1, dir) => ArcCommands(center, radius, a0, a1, dir, false, lib)
  }

  // ---------------------------------------------------------------------
  // Scissors
  // ---------------------------------------------------------------------

  /** `scissor`: the rectangle, with negative sizes taken as 0, as a half
      extent around its centre, placed by the current transform. */
  function ScissorFor(r: Rect, xform: Transform): (s: Scissor)
    ensures s.extent.width >= 0.0 && s.extent.height >= 0.0
    ensures s.extent.width * 2.0 == Max(r.size.width, 0.0) && s.extent.height * 2.0 == Max(r.size.height, 0.0)
    ensures TransformPoint(s.xform, Pt(0.0, 0.0)) ==
            TransformPoint(xform, Pt(r.xy.x + s.extent.width, r.xy.y + s.extent.height))
  {
    var w := Max(r.size.width, 0.0);
    var h := Max(r.size.height, 0.0);
    var local := Transform(1.0, 0.0, 0.0, 1.0, r.xy.x + w * 0.5, r.xy.y + h * 0.5);
    MulApplies(local, xform, Pt(0.0, 0.0));
    Scissor(Mul(local, xform), Extent(w * 0.5, h * 0.5))
  }

  /** The old scissor brought into the current coordinates and bounded by
      the axis-aligned box `intersect_scissor` intersects with. */
  function ScissorBox(old_: Scissor, xform: Transform): (b: Rect)
    ensures old_.extent.width >= 0.0 && old_.extent.height >= 0.0 ==>
      b.size.width >= 0.0 && b.size.height >= 0.0
  {
    var ex, ey := old_.extent.width, old_.extent.height;
    var p := Mul(old_.xform, Inverse(xform));
    var tex := ex * Abs(p.a) + ey * Abs(p.c);
    var tey := ex * Abs(p.b) + ey * Abs(p.d);
    Rect(Point(p.e - tex, p.f - tey), Extent(tex * 2.0, tey * 2.0))
  }

  /** `intersect_scissor`, with the intersection corrected: with no scissor
      yet, the rectangle itself; otherwise the old scissor's box intersected
      with the rectangle.  The result never reaches beyond the new rectangle,
      nor beyond the old scissor's box. */
  function IntersectedScissor(old_: Scissor, xform: Transform, r: Rect): (s: Scissor)
    ensures old_.extent.width < 0.0 ==> s == ScissorFor(r, xform)
    ensures s.extent.width * 2.0 <= Max(r.size.width, 0.0) && s.extent.height * 2.0 <= Max(r.size.height, 0.0)
    ensures old_.extent.width >= 0.0 ==>
      s.extent.width * 2.0 <= Max(ScissorBox(old_, xform).size.width, 0.0) &&
      s.extent.height * 2.0 <= Max(ScissorBox(old_, xform).size.height, 0.0)
  {
    if old_.extent.width < 0.0 then ScissorFor(r, xform)
    else ScissorFor(Intersect(ScissorBox(old_, xform), r), xform)
  }

  /** `intersect_scissor` as written, through `Rect::intersect`, which reads
      both of its operands from the argument. */
  function IntersectedScissorAsWritten(old_: Scissor, xform: Transform, r: Rect): (s: Scissor)
    ensures old_.extent.width < 0.0 ==> s == ScissorFor(r, xform)
  {
    if old_.extent.width < 0.0 then ScissorFor(r, xform)
    else ScissorFor(IntersectAsWritten(ScissorBox(old_, xform), r), xform)
  }

  /** As written, an existing scissor is replaced by the rectangle instead of
      narrowed: the result is the one `scissor` would set, whatever the old
      scissor was. */
  lemma ScissorReplacedAsWritten(old_: Scissor, xform: Transform, r: Rect)
    ensures IntersectedScissorAsWritten(old_, xform, r) == ScissorFor(r, xform)
  {
    if old_.extent.width >= 0.0 {
      var c := IntersectAsWritten(ScissorBox(old_, xform), r);
      assert c.xy == r.xy;
      assert Max(c.size.width, 0.0) == Max(r.size.width, 0.0);
      assert Max(c.size.height, 0.0) == Max(r.size.height, 0.0);
    }
  }

  // ---------------------------------------------------------------------
  // Fill and stroke rules
  // ---------------------------------------------------------------------

  /** The paint `fill` hands the renderer: the fill paint at the state's alpha. */
  function FillPaintOf(s: State): (p: Paint)
    ensures p.innerColor.a == s.fill.innerColor.a * s.alpha && p.outerColor.a == s.fill.outerColor.a * s.alpha
    ensures p.xform == s.fill.xform && p.image == s.fill.image
  {
    FadePaint(s.fill, s.alpha)
  }

  /** The state's stroke width scaled by the transform and clamped to
      [0, 200]. */
  function ScaledStrokeWidth(s: State, sqrt: real -> real): real
  {
    Clamp(s.strokeWidth * AverageScale(s.xform, sqrt), 0.0, 200.0)
  }

  /** How much a line of width w thinner than the fringe is faded: the
      square of the share of the fringe it covers. */
  function FringeFade(w: real, fringe: real): real
    requires fringe != 0.0
  {
    var alpha := Clamp(w / fringe, 0.0, 1.0);
    alpha * alpha
  }

  /** The width and paint `stroke` uses: the state's width scaled by the
      transform and clamped to [0, 200]; a line thinner than the fringe is
      drawn at the fringe width and faded by the square of how much thinner
      it was; then the state's alpha applies. */
  function StrokeStyle(s: State, fringe: real, sqrt: real -> real): (r: (real, Paint))
    ensures var w := Clamp(s.strokeWidth * AverageScale(s.xform, sqrt), 0.0, 200.0);
      && r.0 == Max(w, fringe)
      && (w >= fringe ==> r.1 == FadePaint(s.stroke, s.alpha))
      && (w < fringe ==> 0.0 < fringe && 0.0 <= w / fringe < 1.0
                         && r.1 == FadePaint(s.stroke, (w / fringe) * (w / fringe) * s.alpha))
  {
    var w := ScaledStrokeWidth(s, sqrt);
    if w < fringe then
      FadeComposes(s.stroke, FringeFade(w, fringe), s.alpha);
      (fringe, FadePaint(FadePaint(s.stroke, FringeFade(w, fringe)), s.alpha))
    else
      (w, FadePaint(s.stroke, s.alpha))
  }

  /** The four statistics counters of a frame. */
  datatype Counters = Counters(drawCalls: nat, fillTriangles: nat, strokeTriangles: nat, textTriangles: nat)

  const NoCounts: Counters := Counters(0, 0, 0, 0)

  /** The triangles a fill draws for one subpath: a fan of its fill
      vertices and a strip of its fringe, each counted when longer than 2. */
  function FillTrianglesOf(p: Path): nat
  {
    (if p.numFill > 2 then p.numFill - 2 else 0) + (if p.numStroke > 2 then p.numStroke - 2 else 0)
  }

  function FillTriangles(ps: seq<Path>): (n: nat)
    ensures n <= VertexTotal(ps)
  {
    if |ps| == 0 then 0 else FillTriangles(ps[..|ps| - 1]) + FillTrianglesOf(ps[|ps| - 1])
  }

  /** Every fill and stroke vertex of the subpaths. */
  function VertexTotal(ps: seq<Path>): nat
  {
    if |ps| == 0 then 0 else VertexTotal(ps[..|ps| - 1]) + ps[|ps| - 1].numFill + ps[|ps| - 1].numStroke
  }

  /** The triangles of the strips a stroke draws, one per subpath. */
  function StrokeTriangles(ps: seq<Path>): (n: nat)
    requires StrokesLong(ps)
    ensures n + 2 * |ps| == VertexTotal(ps) - FillTotal(ps)
  {
    if |ps| == 0 then 0 else StrokeTriangles(ps[..|ps| - 1]) + (ps[|ps| - 1].numStroke - 2)
  }

  function FillTotal(ps: seq<Path>): (n: nat)
    ensures n <= VertexTotal(ps)
  {
    if |ps| == 0 then 0 else FillTotal(ps[..|ps| - 1]) + ps[|ps| - 1].numFill
  }

  /** `fill`'s statistics: two draw calls per subpath and its fill and
      fringe triangles. */
  function FillTally(c: Counters, ps: seq<Path>): (r: Counters)
    ensures r.drawCalls == c.drawCalls + 2 * |ps| && r.fillTriangles == c.fillTriangles + FillTriangles(ps)
    ensures r.strokeTriangles == c.strokeTriangles && r.textTriangles == c.textTriangles
  {
    c.(drawCalls := c.drawCalls + 2 * |ps|, fillTriangles := c.fillTriangles + FillTriangles(ps))
  }

  /** `stroke`'s statistics as the source writes them: the stroke strips'
      triangles go to the fill counter and the stroke counter never moves. */
  function StrokeTallyAsWritten(c: Counters, ps: seq<Path>): (r: Counters)
    requires StrokesLong(ps)
    ensures r.drawCalls == c.drawCalls + |ps| && r.fillTriangles == c.fillTriangles + StrokeTriangles(ps)
    ensures r.strokeTriangles == c.strokeTriangles && r.textTriangles == c.textTriangles
  {
    c.(drawCalls := c.drawCalls + |ps|, fillTriangles := c.fillTriangles + StrokeTriangles(ps))
  }

  /** `stroke`'s statistics as intended: one draw call per subpath, and
      its strip's triangles on the stroke counter. */
  function StrokeTally(c: Counters, ps: seq<Path>): (r: Counters)
    requires StrokesLong(ps)
    ensures r.drawCalls == c.drawCalls + |ps| && r.strokeTriangles == c.strokeTriangles + StrokeTriangles(ps)
    ensures r.fillTriangles == c.fillTriangles && r.textTriangles == c.textTriangles
  {
    c.(drawCalls := c.drawCalls + |ps|, strokeTriangles := c.strokeTriangles + StrokeTriangles(ps))
  }

  /** A single stroked subpath of ten vertices: as written, its eight
      triangles land on the fill counter and the stroke counter stays 0. */
  lemma StrokeTallyMisfiled()
    ensures var ps := [Path(0, 4, false, 0, Solid, 0, 0, 0, 10, false)];
      && StrokeTallyAsWritten(NoCounts, ps) == Counters(1, 8, 0, 0)
      && StrokeTally(NoCounts, ps) == Counters(1, 0, 8, 0)
  {
    var ps := [Path(0, 4, false, 0, Solid, 0, 0, 0, 10, false)];
    assert ps[..0] == [];
  }

  /** Every subpath has a stroke of at least two vertices, as a stroke
      pass leaves it. */
  predicate StrokesLong(ps: seq<Path>)
  {
    forall j :: 0 <= j < |ps| ==> ps[j].numStroke >= 2
  }

  /** The tallies of two batches of subpaths add up. */
  lemma {:induction false} TalliesAdd(a: seq<Path>, b: seq<Path>)
    ensures FillTriangles(a + b) == FillTriangles(a) + FillTriangles(b)
    ensures StrokesLong(a) && StrokesLong(b) ==>
      StrokesLong(a + b) && StrokeTriangles(a + b) == StrokeTriangles(a) + StrokeTriangles(b)
    decreases |b|
  {
    if |b| > 0 {
      var b' := b[..|b| - 1];
      assert (a + b)[..|a + b| - 1] == a + b';
      TalliesAdd(a, b');
    } else {
      assert a + b == a;
    }
  }
}
