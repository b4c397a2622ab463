# nona / nonaquad core in Dafny

A model of the core of nona, a Rust port of the NanoVG vector-graphics
library, and of its miniquad back end (nonaquad). It proves properties of
that model.

The model follows the program's own path from a drawing call to GPU
indices:

- **Geometry and colour (`numerics.dfy`, `geometry.dfy`, `colors.dfy`).**
  Points, rectangles, 2×3 affine transforms, colours, HSL conversion and
  interpolation, as in `nona/src/math.rs` and `nona/src/color.rs`.
- **The canvas (`canvas_types.dfy`, `paint.dfy`, `canvas_spec.dfy`,
  `context.dfy`).** The `Context` of `nona/src/context.rs` is a class.
  - It holds a stack of drawing states: transform, paints, stroke style,
    scissor and composite operation.
  - It holds the command buffer that path-building calls append to. Every
    point in that buffer is stored already transformed.
  - It keeps the frame's counters.
  - `fill` and `stroke` flatten the commands through the path cache and
    hand one draw call to the renderer.
- **The path cache (`cache_spec.dfy`, `flatten.dfy`, `joins.dfy`,
  `arena.dfy`, `emitters.dfy`, `fill.dfy`, `stroke.dfy`, `cache.dfy`).**
  The `PathCache` of `nona/src/cache.rs` is a class.
  - Its points and subpaths are sequences. Its vertex arena is an array.
  - Flattening turns commands into polylines and splits Béziers
    recursively.
  - Join analysis computes normals, miter extrusions and corner flags.
  - Fill expansion writes each subpath's interior and anti-aliasing fringe
    into the arena.
  - Stroke expansion writes caps and joins as triangle strips into the
    arena.
  - Each writer is specified by a function of its inputs. Its arena
    contract says exactly which vertices it writes and that it leaves the
    rest alone.
- **The renderer (`nvgimpl.dfy`).** The renderer of `src/nvgimpl.rs` is a
  class.
  - It collects vertices, path records, calls and uniforms per frame.
  - It converts blend factors and premultiplies colours.
  - It turns triangle fans, strips and lists into 16-bit index lists.

Floating-point numbers are modelled as `real`. `sqrt`, `acos`, `atan2`,
`sin`, `cos` and `tan` are fields of a `Libm` value passed as a parameter,
so every fact holds for any interpretation of them. Where a fact needs a
real square root, it is conditioned on `IsSqrt(sqrt)`.

## Model

| member | source | states |
|---|---|---|
| Geometry.Equals | nona/src/math.rs:14-18 | two points are equal within `tol` only when each coordinate differs by less than `|tol|` |
| Geometry.EqualsSymmetric | nona/src/math.rs:14-18 | point equality within a tolerance is symmetric |
| Geometry.EqualsSelf | nona/src/math.rs:14-18 | a point equals itself exactly when the tolerance is non-zero (the test is strict) |
| Geometry.SegmentParam | nona/src/math.rs:20-34 | the parameter of the nearest point on the segment is clamped to [0, 1] |
| Geometry.DistPtSeg | nona/src/math.rs:20-38 | the squared distance to a segment is non-negative and zero at either end point |
| Geometry.NearestAtStart | nona/src/math.rs:20-38 | for a point at the segment's start, the nearest point found is that point itself |
| Geometry.NearestAtEnd | nona/src/math.rs:20-38 | for a point at the segment's end, the nearest point found is no distance from it: the parameter is 1, or the segment has zero length |
| Geometry.SqDistFlip | nona/src/math.rs:36-37 | the squared distance is symmetric |
| Geometry.Normalize | nona/src/math.rs:40-48 | returns the length; above 1e-6 the vector is divided by it (and is then of unit length under a true square root); otherwise left as it is |
| Geometry.UnitAfterDivision | nona/src/math.rs:40-48 | multiplying by the reciprocal of the true length gives a unit vector |
| Geometry.CrossAntisymmetric | nona/src/math.rs:50-52 | swapping the arguments of the cross product negates it |
| Geometry.IntersectAsWritten | nona/src/math.rs:100-125 | `Rect::intersect` as written: a rectangle of non-negative size |
| Geometry.IntersectAsWrittenIgnoresReceiver | nona/src/math.rs:100-125 | the result as written does not depend on the receiver; two disjoint rectangles "intersect" in the argument |
| Geometry.Intersect | nona/src/math.rs:100-125 | the corrected intersection has non-negative size, starts inside both rectangles and ends inside both when non-empty |
| Geometry.IntersectCommutes | nona/src/math.rs:100-125 | the corrected intersection is commutative |
| Geometry.IntersectIdempotent | nona/src/math.rs:100-125 | a rectangle intersected with itself is unchanged |
| Geometry.Grow | nona/src/math.rs:127-132 | growing keeps the centre and adds exactly the given width and height |
| Geometry.Translate | nona/src/math.rs:181-183 | the transform moves every point by (tx, ty) |
| Geometry.Scale | nona/src/math.rs:185-187 | the transform scales every point by (sx, sy) |
| Geometry.MulApplies | nona/src/math.rs:246-263 | `s * t` applies s first, then t, to every point |
| Geometry.PreMultiply | nona/src/math.rs:203-205 | `pre_multiply(rhs)` applies rhs first, then self |
| Geometry.IdentityUnit | nona/src/math.rs:177-179 | the identity is a unit of multiplication on both sides |
| Geometry.Inverse | nona/src/math.rs:207-222 | a transform whose determinant lies strictly inside (-1e-6, 1e-6) inverts to the identity |
| Geometry.InverseIsInverse | nona/src/math.rs:207-222 | otherwise the inverse is a two-sided inverse under multiplication |
| Geometry.FontScale | nona/src/math.rs:239-243 | the font scale is the average scale rounded up to a multiple of 0.01 |
| Colors.Rgba | nona/src/color.rs:13-15 | the colour holds exactly the four given channels |
| Colors.Rgb | nona/src/color.rs:17-19 | an opaque colour: `rgba` with alpha 1 |
| Colors.RgbaI | nona/src/color.rs:21-28 | each byte is divided by 255, so every channel is in [0, 1] |
| Colors.RgbI | nona/src/color.rs:30-32 | channels in [0, 1] and alpha 1 |
| Colors.Lerp | nona/src/color.rs:34-43 | the weight is clamped: at or below 0 the first colour, at or above 1 the second |
| Colors.LerpStaysInUnit | nona/src/color.rs:34-43 | interpolating two colours of channels in [0, 1] stays in [0, 1] |
| Colors.WheelPosition | nona/src/color.rs:46-49 | the hue reduced with the truncating remainder and moved up by one when negative lies in [0, 1) and differs from the hue by a whole number |
| Colors.HueWrap | nona/src/color.rs:84-89 | `hue` shifts its argument by at most one turn, into [0, 1] when it started in [-1, 2] |
| Colors.Hue | nona/src/color.rs:83-98 | the channel lies between the two levels m1 and m2 and equals them when they agree |
| Colors.UpperLevel | nona/src/color.rs:52-56 | with no saturation the upper level is the lightness |
| Colors.Hsla | nona/src/color.rs:45-64 | every channel is in [0, 1], alpha is kept, and a grey (saturation clamped to 0) has all three channels equal to the clamped lightness |
| Colors.Hsl | nona/src/color.rs:66-68 | `hsla` with alpha 1 |
| Paints.RampDirection | nona/src/context.rs:67-77 | the ramp direction is the unit vector from start to end, or (0, 1) when they lie within 1e-4 |
| Paints.GradientPaint | nona/src/context.rs:56-141 | every gradient keeps its colours, has no image and a feather of at least 1; a linear one is rotated onto its ramp and starts 1e5 before it; a radial one is centred with radius the mean of its radii; a box one is centred on its rectangle with half its size |
| Paints.PatternPaint | nona/src/context.rs:143-158 | an image pattern is rotated about its centre, keeps its size and image, and is tinted white at its alpha |
| Paints.ColorPaint | nona/src/context.rs:160-172 | a solid colour: both colours equal, identity transform, feather 1, no image |
| Paints.FadePaint | nona/src/context.rs:1080-1081 | fading scales both colours' alpha and changes nothing else |
| Paints.FadeComposes | nona/src/context.rs:1117-1123 | fading by 1 changes nothing, and two fades compose into one by the product |
| Paints.PorterDuff | nona/src/context.rs:254-281 | the Porter-Duff factor pairs: the source factor uses only destination alpha, the destination factor only source alpha |
| Paints.PorterDuffInjective | nona/src/context.rs:254-281 | no two basic operations share a factor pair |
| Paints.ToState | nona/src/context.rs:251-309 | a basic operation uses its Porter-Duff pair for colour and alpha; a blend function uses its pair for both; a separate one is kept as given |
| Paints.ToStateCovers | nona/src/context.rs:251-309 | every state is reached, and a basic operation is the blend function of its pair |
| CanvasState.Saved | nona/src/context.rs:535-540 | `save` pushes a copy of the top state, so the stack grows by one with the same top and the old states below; on an empty stack nothing happens |
| CanvasState.Restored | nona/src/context.rs:542-547 | `restore` pops the top state unless only one is left |
| CanvasState.WithTop | nona/src/context.rs:553-559 | replacing the top state keeps the depth and every state below |
| CanvasState.RestoreUndoesSave | nona/src/context.rs:535-547 | `restore` undoes `save`, and `save` after `restore` duplicates the new top |
| CanvasState.StackNeverEmpty | nona/src/context.rs:535-559 | no sequence of save, restore and reset empties a non-empty stack; without a reset the bottom state never changes |
| CanvasState.Mapped | nona/src/context.rs:745-771 | `append_command` keeps each command's kind; it maps every point of a move, line or Bézier through the current transform, and it stores close and solidity as given |
| CanvasState.MappedIdentity | nona/src/context.rs:745-771 | under the identity transform a command is stored unchanged |
| CanvasState.MappedComposes | nona/src/context.rs:745-771 | mapping through `s * t` is mapping through s and then through t |
| CanvasState.MappedAll | nona/src/context.rs:745-771 | mapping a run of commands keeps its length |
| CanvasState.AppendOne | nona/src/context.rs:745-771 | appending one more command extends the mapped run by that command's image and moves the last position to its end point |
| CanvasState.RectCommands | nona/src/context.rs:927-943 | `rect` is a move to the origin corner, three axis-parallel lines through the other three corners, and a close |
| CanvasState.RectIsSolid | nona/src/context.rs:927-943 | the rectangle's outline encloses twice its area in signed triangle area |
| CanvasState.EllipseCommands | nona/src/context.rs:1032-1056 | `ellipse` is a move to the leftmost point, four Béziers through the bottom, right, top and back to the left, with axis-aligned tangents, and a close |
| CanvasState.EllipseIsSolid | nona/src/context.rs:1032-1056 | the four on-curve points of the ellipse span the rhombus of area 2·rx·ry |
| CanvasState.Signum | nona/src/context.rs:964-971 | `f32::signum`: 1 for non-negative, -1 for negative |
| CanvasState.CornerRadius | nona/src/context.rs:962-971 | a non-negative corner radius is capped at half the side and kept when it fits |
| CanvasState.RoundedRectCommands | nona/src/context.rs:945-1030 | radii all below 0.1 give the plain rectangle; otherwise the outline alternates four lines and four Béziers, closes where it began, and every on-curve point lies on the rectangle's border |
| CanvasState.QuadraticElevated | nona/src/context.rs:790-803 | the cubic that `quad_to` appends traces exactly the quadratic curve |
| CanvasState.Elevated | nona/src/context.rs:790-803 | degree elevation of one coordinate: the cubic with control points at two thirds equals the quadratic |
| CanvasState.Sweep | nona/src/context.rs:866-883 | the arc sweep is within one turn, counter-clockwise (`Hole`) non-negative and clockwise (`Solid`) non-positive; a full turn when the angles are a turn or more apart; otherwise the angle difference, moved by at most one turn, and kept when it already has the right sign |
| CanvasState.ArcDivs | nona/src/context.rs:885 | between 1 and 5 Bézier segments, at most 4 for a sweep within one turn |
| CanvasState.ArcKappa | nona/src/context.rs:886-891 | the tangent length factor is non-negative for a counter-clockwise arc and non-positive for a clockwise one |
| CanvasState.ArcRun | nona/src/context.rs:898-924 | the arc has one command for its start and one per segment |
| CanvasState.ArcCommands | nona/src/context.rs:862-925 | `arc` appends 2 to 6 commands: a move when the buffer is empty (a line otherwise), then Béziers only |
| CanvasState.ArcJointsSmooth | nona/src/context.rs:898-924 | where two Bézier segments of an arc meet, their control points are mirror images through the joint |
| CanvasState.ArcToPlanOf | nona/src/context.rs:805-849 | `arc_to` does nothing on an empty buffer; it falls back to a line to the corner when a point coincides or is collinear within tolerance or when the radius is below tolerance; otherwise it turns counter-clockwise exactly when the corner turns left |
| CanvasState.ArcToCommands | nona/src/context.rs:805-852 | no commands for an empty buffer, one line for the fallback, otherwise a line and Béziers |
| CanvasState.ScissorFor | nona/src/context.rs:693-706 | the scissor's half extents are half the rectangle's size clamped at 0, and its transform maps the origin to the rectangle's centre under the current transform |
| CanvasState.ScissorBox | nona/src/context.rs:717-729 | the axis-aligned box around the old scissor in the current coordinates has non-negative size when the old scissor has |
| CanvasState.IntersectedScissor | nona/src/context.rs:708-732 | with the corrected intersection: with no scissor yet, `intersect_scissor` sets the rectangle; otherwise the new scissor lies within both the rectangle and the old scissor's box |
| CanvasState.IntersectedScissorAsWritten | nona/src/context.rs:708-732 | `intersect_scissor` as written, through `Rect::intersect`: with no scissor yet, the rectangle |
| CanvasState.ScissorReplacedAsWritten | nona/src/context.rs:708-732 | as written, the new scissor is the one `scissor` sets for the rectangle alone, whatever the old scissor was |
| CanvasState.FillPaintOf | nona/src/context.rs:1068-1081 | the fill paint has both colours' alpha scaled by the global alpha and keeps its placement and image |
| CanvasState.StrokeStyle | nona/src/context.rs:1111-1123 | the stroke width is the scaled width clamped to [0, 200], raised to the fringe width; a stroke thinner than the fringe fades by the square of their ratio, and every stroke fades by the global alpha |
| CanvasState.FillTriangles | nona/src/context.rs:1092-1099 | the fill triangle count is at most the number of vertices drawn |
| CanvasState.StrokeTriangles | nona/src/context.rs:1155-1158 | each subpath's strip of n vertices adds n - 2 triangles |
| CanvasState.FillTotal | nona/src/context.rs:1092-1099 | the fill vertices are part of all vertices drawn |
| CanvasState.FillTally | nona/src/context.rs:1092-1099 | `fill` adds two draw calls per subpath and the fan and strip triangles to the fill count, and leaves the other counters alone |
| CanvasState.StrokeTallyAsWritten | nona/src/context.rs:1155-1158 | `stroke` as written adds one draw call per subpath and adds the stroke triangles to the fill counter |
| CanvasState.StrokeTally | nona/src/context.rs:1155-1158 | the corrected tally adds the stroke triangles to the stroke counter and leaves the fill counter alone |
| CanvasState.StrokeTallyMisfiled | nona/src/context.rs:1155-1158 | one ten-vertex stroke counts 8 fill triangles as written and 8 stroke triangles as intended |
| CanvasState.TalliesAdd | nona/src/context.rs:1092-1158 | the triangle tallies of two subpath lists add up |
| Canvas.Context.Create | nona/src/context.rs:466-485 | a new context has one default state, no commands, an empty cache, zero tolerances and ratio, and zero counters |
| Canvas.Context.SetDevicePixelRatio | nona/src/context.rs:487-492 | the tessellation tolerance is 0.25 / ratio, the distance tolerance 0.01 / ratio and the fringe 1 / ratio, so the tessellation tolerance is 25 times the distance tolerance; nothing else changes |
| Canvas.Context.BeginFrame | nona/src/context.rs:498-518 | a frame starts with the ratio's tolerances, a single default state and zero counters, and keeps the path |
| Canvas.Context.Save | nona/src/context.rs:535-540 | the state stack becomes `Saved` of the old one; the path and the frame are kept |
| Canvas.Context.Restore | nona/src/context.rs:542-547 | the state stack becomes `Restored` of the old one |
| Canvas.Context.Reset | nona/src/context.rs:557-559 | the top state becomes the default state and the states below are kept |
| Canvas.Context.ShapeAntialias | nona/src/context.rs:561-563 | only the top state's anti-alias flag changes |
| Canvas.Context.StrokeWidth | nona/src/context.rs:565-567 | only the top state's stroke width changes |
| Canvas.Context.MiterLimit | nona/src/context.rs:569-571 | only the top state's miter limit changes |
| Canvas.Context.SetLineCap | nona/src/context.rs:573-575 | only the top state's line cap changes |
| Canvas.Context.SetLineJoin | nona/src/context.rs:577-579 | only the top state's line join changes |
| Canvas.Context.GlobalAlpha | nona/src/context.rs:581-583 | only the top state's alpha changes |
| Canvas.Context.TransformBy | nona/src/context.rs:585-588 | the new transform is applied before the current one (`xform * state.xform`) |
| Canvas.Context.ResetTransform | nona/src/context.rs:590-592 | the top state's transform becomes the identity |
| Canvas.Context.Translate | nona/src/context.rs:594-596 | the translation is applied before the current transform |
| Canvas.Context.Rotate | nona/src/context.rs:598-600 | the rotation is applied before the current transform |
| Canvas.Context.SkewX | nona/src/context.rs:602-604 | the horizontal skew is applied before the current transform |
| Canvas.Context.SkewY | nona/src/context.rs:606-608 | the vertical skew is applied before the current transform |
| Canvas.Context.Scale | nona/src/context.rs:610-612 | the scale is applied before the current transform |
| Canvas.Context.CurrentTransform | nona/src/context.rs:614-616 | returns the top state's transform |
| Canvas.Context.StrokePaint | nona/src/context.rs:618-622 | the stroke paint is stored with the current transform applied after its own |
| Canvas.Context.FillPaint | nona/src/context.rs:624-628 | the fill paint is stored with the current transform applied after its own |
| Canvas.Context.SetScissor | nona/src/context.rs:693-706 | the top state's scissor becomes `ScissorFor` the rectangle under the current transform |
| Canvas.Context.IntersectScissor | nona/src/context.rs:708-732 | the top state's scissor becomes the corrected `IntersectedScissor` of the old one and the rectangle |
| Canvas.Context.ResetScissor | nona/src/context.rs:734-739 | the scissor is switched off: zero transform and extent (-1, -1) |
| Canvas.Context.GlobalCompositeOperation | nona/src/context.rs:741-743 | the top state's blend state becomes the operation's `ToState` |
| Canvas.Context.FontSize | nona/src/context.rs:1199-1201 | only the top state's font size changes |
| Canvas.Context.TextLetterSpacing | nona/src/context.rs:1203-1205 | only the top state's letter spacing changes |
| Canvas.Context.TextLineHeight | nona/src/context.rs:1207-1209 | only the top state's line height changes |
| Canvas.Context.TextAlign | nona/src/context.rs:1211-1213 | only the top state's text alignment changes |
| Canvas.Context.FontId | nona/src/context.rs:1215-1217 | only the top state's font changes |
| Canvas.Context.AppendCommand | nona/src/context.rs:745-771 | the command buffer grows by exactly the mapped command, and the last position becomes the command's end point (untransformed) |
| Canvas.Context.AppendAll | nona/src/context.rs:745-771 | appending a run of commands one by one appends their images in order and leaves the last position at the run's end |
| Canvas.Context.BeginPath | nona/src/context.rs:773-776 | the commands and the cache's points and subpaths are cleared; the states and the last position are kept |
| Canvas.Context.MoveTo | nona/src/context.rs:778-780 | appends a move to the transformed point, which becomes the last position |
| Canvas.Context.LineTo | nona/src/context.rs:782-784 | appends a line to the transformed point, which becomes the last position |
| Canvas.Context.BezierTo | nona/src/context.rs:786-788 | appends the transformed Bézier; its end point becomes the last position |
| Canvas.Context.QuadTo | nona/src/context.rs:790-803 | appends the cubic whose controls are two thirds of the way to the quadratic's control point (see `QuadraticElevated`) |
| Canvas.Context.ClosePath | nona/src/context.rs:854-856 | appends a close |
| Canvas.Context.PathSolidity | nona/src/context.rs:858-860 | appends a solidity command |
| Canvas.Context.ArcSweep | nona/src/context.rs:866-883 | the normalising loops compute `Sweep` |
| Canvas.Context.Arc | nona/src/context.rs:862-925 | appends the transformed `ArcCommands`, starting with a move exactly when the buffer was empty |
| Canvas.Context.AppendArc | nona/src/context.rs:893-924 | the segment loop appends the transformed `ArcRun` |
| Canvas.Context.ArcTo | nona/src/context.rs:805-852 | appends the transformed commands of the plan `ArcToPlanOf` chooses from the last position, the two points and the radius |
| Canvas.Context.Rect | nona/src/context.rs:927-943 | appends the transformed `RectCommands` and ends at the corner (x + w, y) |
| Canvas.Context.RoundedRect | nona/src/context.rs:945-948 | a rounded rectangle with the same radius at every corner |
| Canvas.Context.RoundedRectVarying | nona/src/context.rs:950-1030 | appends the transformed `RoundedRectCommands` |
| Canvas.Context.Ellipse | nona/src/context.rs:1032-1056 | appends the transformed `EllipseCommands` and ends at the leftmost point |
| Canvas.Context.Circle | nona/src/context.rs:1058-1060 | an ellipse with equal radii |
| Canvas.Context.TallyFill | nona/src/context.rs:1092-1099 | the counter loop of `fill` yields `FillTally` and changes nothing else |
| Canvas.Context.TallyStroke | nona/src/context.rs:1155-1158 | the counter loop of `stroke` yields the corrected `StrokeTally` |
| Canvas.Context.Flatten | nona/src/context.rs:1070-1071 | the cache holds the flattened commands: `FinishUpTo` of `Commands` applied to the old cache, with every subpath outlined |
| Canvas.Context.FlattenAndFill | nona/src/context.rs:1070-1078 | after flattening, the arena holds each subpath's interior and fringe as `FilledFrom` says |
| Canvas.Context.Fill | nona/src/context.rs:1062-1103 | `fill` flattens, expands with the fringe only when both the renderer and the state anti-alias, hands the renderer the faded fill paint, composite operation, scissor, fringe, bounds and subpaths, and adds `FillTally` to the counters only when the renderer succeeds |
| Canvas.Context.FlattenAndStroke | nona/src/context.rs:1125-1146 | after flattening, the arena holds each subpath's stroke strip as `StrokedFrom` says, every strip having at least two vertices |
| Canvas.Context.StrokeFlat | nona/src/context.rs:1128-1146 | stroking the flattened subpaths at half the width leaves the arena as `StrokedFrom` says, keeps the bounds and gives every strip at least two vertices |
| Canvas.StrokedFromExpand | nona/src/context.rs:1128-1146 | what `expand_stroke` promises at half the width is what `StrokedFrom` asks, and every strip then has at least two vertices |
| Canvas.Context.ComputeStrokeStyle | nona/src/context.rs:1111-1123 | computes `StrokeStyle` |
| Canvas.Context.Stroke | nona/src/context.rs:1105-1163 | `stroke` flattens, expands with half the `StrokeStyle` width and the fringe only when anti-aliasing, hands the renderer the faded stroke paint and width, and adds `StrokeTally` only when the renderer succeeds |
| CacheSpec.NewVPoint | nona/src/cache.rs:80-86 | a new point has the given position and flags and length 0 |
| CacheSpec.TriangleArea | nona/src/cache.rs:695-704 | `triangle_area` is the sum of the three edges' wedge products |
| CacheSpec.FanIsShoelace | nona/src/cache.rs:706-715 | the fan of triangles from the first point sums to the shoelace formula of the polygon |
| CacheSpec.Reversed | nona/src/cache.rs:717-725 | `poly_reverse` puts element i at position n - 1 - i |
| CacheSpec.ReversedPermutes | nona/src/cache.rs:717-725 | reversing keeps the same points |
| CacheSpec.ReversedTwice | nona/src/cache.rs:717-725 | reversing twice gives back the sequence |
| CacheSpec.PolyAreaReversed | nona/src/cache.rs:706-725 | reversing a polygon negates its signed area |
| CacheSpec.PolyAreaOfPositions | nona/src/cache.rs:706-715 | the area depends only on the points' positions |
| CacheSpec.Oriented | nona/src/cache.rs:220-228 | after orientation a subpath is wound as its solidity asks (a solid one counter-clockwise, a hole clockwise); it is either the same points or their reversal, a permutation in both cases |
| CacheSpec.Directed | nona/src/cache.rs:230-233 | each point keeps its position, gets the distance to the next point as its length and, above 1e-6, the unit direction towards it |
| CacheSpec.CloseEnd | nona/src/cache.rs:212-218 | a subpath whose last point coincides with its first loses that point and becomes closed; otherwise it is unchanged |
| CacheSpec.LoneMoveToCloses | nona/src/cache.rs:212-218 | a subpath of a single point is compared with itself and becomes an empty closed subpath |
| CacheSpec.CurveDivs | nona/src/cache.rs:727-730 | the number of divisions is between 2 and the i32 maximum, and (when the angle step is positive) enough steps to cover the arc |
| CacheSpec.TessBudget | nona/src/cache.rs:111-172 | Bézier subdivision stops below depth 10: no points beyond level 10, at least one per call otherwise |
| CacheSpec.TessBudgetFromZero | nona/src/cache.rs:111-172 | a Bézier flattens to at most 1024 points |
| CacheSpec.ChooseBevel | nona/src/cache.rs:732-746 | without inner bevel both corners are the miter point; with it, each corner lies on the normal of its segment, and the two coincide when the segments are parallel |
| CacheSpec.JoinPoint | nona/src/cache.rs:264-308 | join analysis keeps the point's position and direction and keeps only its corner flag, adding left exactly when the turn is to the left; it adds bevel only to corners, and to every corner when the join is not a miter |
| CacheSpec.JoinAngles | nona/src/cache.rs:767-805 | the round join's angles are ordered: descending for a left turn, ascending for a right turn |
| CacheSpec.ArcSteps | nona/src/cache.rs:779-813 | the steps of a round join are clamped to [2, ncap]: 2 for no sweep, ncap for half a turn or more |
| CacheSpec.RoundJoinStepsAsWritten | nona/src/cache.rs:779-813 | the step count as written, `(a0 - a1) / PI · ncap` on both branches, lies in [2, ncap] |
| CacheSpec.RightTurnStepsCollapse | nona/src/cache.rs:801-813 | on a right turn a1 ≥ a0, so the count as written is always 2; a half-turn right gets 2 steps where the mirror left turn gets 8 |
| CacheSpec.RoundJoinSteps | nona/src/cache.rs:779-813 | the corrected step count measures the sweep on each side, in [2, ncap] |
| CacheSpec.MirroredTurnsAgree | nona/src/cache.rs:779-813 | the corrected count gives mirror-image turns the same number of steps, ncap for half a turn or more |
| CacheSpec.CountBevelled | nona/src/cache.rs:304-308 | the bevel count is at most the number of points |
| CacheSpec.CountLeft | nona/src/cache.rs:284-288 | the left-turn count is at most the number of points |
| CacheSpec.CountLeftAll | nona/src/cache.rs:314 | every point turns left exactly when the count equals the number of points, the convexity test |
| CacheSpec.CapWrites | nona/src/cache.rs:957-1091 | a butt cap writes 4 vertices, a round cap 2·ncap+2 |
| CacheSpec.StartCap | nona/src/cache.rs:385-425 | the start cap is a round cap exactly for `LineCap::Round` |
| CacheSpec.EndCapAsWritten | nona/src/cache.rs:489-529 | the end cap as written matches the start cap for Butt and differs from it for Round and Square |
| CacheSpec.EndCap | nona/src/cache.rs:489-529 | the corrected end cap is the start cap's emitter: round exactly for `LineCap::Round` |
| CacheSpec.JoinWritesMax | nona/src/cache.rs:429-472 | a point that is not bevelled writes 2 vertices; every point writes at least 2 |
| CacheSpec.JoinSum | nona/src/cache.rs:428-475 | the joins of a run write at least two vertices per point |
| CacheSpec.StrokeWritesMax | nona/src/cache.rs:376-531 | a closed stroke writes at least its 2 closing vertices, an open one at least its two 4-vertex caps |
| CacheSpec.BevelPairs | nona/src/cache.rs:346-348 | no join writes more than 2 + 2·BevelPairs vertices |
| CacheSpec.StrokeAllowanceAsWritten | nona/src/cache.rs:342-357 | the sizing as written agrees with the corrected one except under a round join, where an open subpath gets no cap allowance |
| CacheSpec.JoinSumBound | nona/src/cache.rs:342-357 | the joins of a run write at most two vertices per point plus 2·BevelPairs per bevelled point |
| CacheSpec.StrokeFits | nona/src/cache.rs:342-357 | with the corrected sizing and the corrected end cap, a subpath's stroke never writes more than its reservation |
| CacheSpec.SquareEndCapOverflows | nona/src/cache.rs:342-357 | a U-shaped open polyline with square caps and miter joins gets 22 vertices reserved but the as-written round end cap makes it write 26 (the end cap that writes them is at lines 516-528) |
| CacheSpec.RoundJoinWithoutCapAllowance | nona/src/cache.rs:345-346 | three unbevelled points with a round join and butt caps get 8 vertices reserved and write 10 |
| CacheSpec.RoundJoinCoveredByBevelledEnd | nona/src/cache.rs:345-346 | when an end point of the open subpath is bevelled, the as-written round-join sizing still covers its writes |
| CacheSpec.FillSum | nona/src/cache.rs:577-612 | the fringe interior writes one vertex per point and at most one extra per bevelled point |
| CacheSpec.FillFits | nona/src/cache.rs:550-556 | the fill reservation covers the interior and, with a fringe, the fringe ring and its closing pair |
| Flatten.AddPointTo | nona/src/cache.rs:69-89 | with no subpath nothing happens; otherwise at most one point is added, the last point is the new one or one within tolerance of it (which gains the flags), and only the last subpath's count can change |
| Flatten.AddPointSound | nona/src/cache.rs:69-89 | adding a point keeps every subpath inside the buffer and the subpaths disjoint |
| Flatten.MoveToSound | nona/src/cache.rs:177-180 | a move opens a new subpath holding exactly the new corner point |
| Flatten.LeftHalf | nona/src/cache.rs:130-162 | the left half of de Casteljau's split starts where the curve starts |
| Flatten.RightHalf | nona/src/cache.rs:149-171 | the right half ends where the curve ends and starts where the left half ends |
| Flatten.TessCalls | nona/src/cache.rs:111-172 | the points `tesselate_bezier` adds for a cubic at a given depth are within the depth budget (`TessBudget`) |
| Flatten.TessCallsFlags | nona/src/cache.rs:154-171 | only the curve's end point carries the caller's flags; every intermediate point is added with none |
| Flatten.AddAll | nona/src/cache.rs:69-89 | adding a run of points adds at most one point per call, changes only the last subpath's count, and does nothing without a subpath |
| Flatten.AddAllAppend | nona/src/cache.rs:69-89 | adding two runs is adding their concatenation |
| Flatten.AddAllSound | nona/src/cache.rs:69-89 | adding a run keeps the sketch sound |
| Flatten.Step | nona/src/cache.rs:175-199 | one command adds a subpath exactly when it is a move, and no subpath's start moves |
| Flatten.MoveToFirsts | nona/src/cache.rs:177-180 | a move keeps every earlier subpath as it was |
| Flatten.StepSound | nona/src/cache.rs:175-199 | one command keeps the sketch sound and adds at most its point budget |
| Flatten.Commands | nona/src/cache.rs:175-200 | the command phase keeps the sketch sound |
| Flatten.CommandsShape | nona/src/cache.rs:175-200 | the command phase adds one subpath per move, moves no earlier subpath's start, and adds at most the commands' point budget |
| Flatten.Slice | nona/src/cache.rs:208 | a subpath's points are `count` consecutive points from `first` |
| Flatten.Next | nona/src/cache.rs:240-241 | the next point index stays in the ring |
| Flatten.Directions | nona/src/cache.rs:230-242 | the direction pass keeps the number of points |
| Flatten.DirectionsKeepPositions | nona/src/cache.rs:230-233 | the direction pass does not move any point |
| Flatten.Enclose | nona/src/cache.rs:235-238 | growing the bounds by a point takes it in and keeps what they covered |
| Flatten.EncloseAll | nona/src/cache.rs:230-242 | growing by a run keeps what the bounds covered |
| Flatten.EncloseAllInside | nona/src/cache.rs:230-242 | every point of the run lies inside the grown bounds |
| Flatten.Rotated | nona/src/cache.rs:209-242 | the pass visits the points from the last one round, keeping their number |
| Flatten.RotatedVisitsAll | nona/src/cache.rs:209-242 | every point is visited |
| Flatten.FinishOne | nona/src/cache.rs:206-242 | finishing subpath j changes only subpath j, keeps the buffer's size and only grows the bounds |
| Flatten.FinishOneShape | nona/src/cache.rs:206-242 | finishing subpath j keeps the sketch sound, finishes j (closed or of two points or more, wound as its solidity asks, inside the bounds) and keeps the earlier subpaths finished |
| Flatten.FinishedFrame | nona/src/cache.rs:206-242 | a finished subpath stays finished when its points are untouched and the bounds only grow |
| Flatten.FinishOneSound | nona/src/cache.rs:206-242 | finishing a subpath keeps the sketch sound |
| Flatten.FinishOneFinishes | nona/src/cache.rs:206-242 | finishing a subpath leaves it finished |
| Flatten.EarlierStaysFinished | nona/src/cache.rs:206-242 | a finished subpath lying before the rewritten run stays finished when the bounds only grow |
| Flatten.RingKeepsWinding | nona/src/cache.rs:220-233 | computing directions keeps the winding |
| Flatten.RingInside | nona/src/cache.rs:230-238 | each point written back lies inside the grown bounds |
| Flatten.FinishUpTo | nona/src/cache.rs:202-244 | the finishing pass over the first j subpaths keeps the sketch sound and its size, leaves the later subpaths alone and finishes every earlier one |
| Flatten.FinishNext | nona/src/cache.rs:202-244 | one more iteration of the finishing loop keeps the sketch sound and its size, leaves the later subpaths alone and extends the finished prefix by one |
| JoinPass.Joined | nona/src/cache.rs:258-311 | the join pass gives every point of a subpath its own join data, keeping their number |
| JoinPass.JoinedKeepsPositions | nona/src/cache.rs:258-311 | the join pass leaves each point's position, direction and segment length alone |
| JoinPass.Classified | nona/src/cache.rs:253-314 | a subpath's bevel count is the number of bevelled points and it is convex exactly when every turn is to the left |
| JoinPass.JoinOne | nona/src/cache.rs:250-316 | joining subpath j keeps the buffer's size and changes no other subpath record |
| JoinPass.JoinOneSound | nona/src/cache.rs:250-316 | joining a subpath keeps the sketch sound |
| JoinPass.JoinOneFrame | nona/src/cache.rs:250-316 | joining subpath j rewrites exactly its points, with `Joined`, records `Classified`, and leaves every other subpath's points as they were |
| JoinPass.NothingJoined | nona/src/cache.rs:247-250 | before the pass no subpath is joined yet |
| JoinPass.JoinStep | nona/src/cache.rs:250-316 | joining one more subpath extends the joined prefix by one and keeps the sketch sound |
| Arena.Resized | nona/src/cache.rs:103-109 | resizing keeps the vertices that fit, pads with zero vertices and has the asked-for length |
| Arena.FlattenedOutlined | nona/src/cache.rs:202-244 | after flattening, every subpath is closed or has two points or more |
| Arena.JoinedReady | nona/src/cache.rs:247-317 | after the join pass every subpath is ready to be expanded |
| Arena.StrokeBudgetPrefix | nona/src/cache.rs:342-357 | the stroke budget adds each subpath's allowance and a prefix's budget is within the whole budget |
| Arena.StrokeBudgetGrows | nona/src/cache.rs:342-357 | a prefix's stroke budget is within the whole budget |
| Arena.FillBudgetPrefix | nona/src/cache.rs:550-556 | the fill budget adds each subpath's allowance and a prefix's budget is within the whole budget |
| Arena.FillBudgetGrows | nona/src/cache.rs:550-556 | a prefix's fill budget is within the whole budget |
| Arena.StrokeOf | nona/src/cache.rs:365-534 | the vertices written for a drawable subpath are its stroke run |
| Arena.StrokeLoopStart | nona/src/cache.rs:360-365 | the stroke loop starts with nothing written, over a buffer of the full budget |
| Arena.StrokeLoopNext | nona/src/cache.rs:365-380 | the next subpath is untouched and ready, and its allowance fits in what is left of the buffer |
| Arena.StrokeLoopStep | nona/src/cache.rs:365-534 | writing one subpath's stroke run after the earlier ones extends the loop invariant by one subpath |
| Arena.StrokeLoopDone | nona/src/cache.rs:365-536 | after the loop every subpath's stroke is written, packed one after another, and the rest of the buffer is untouched |
| Arena.InteriorOf | nona/src/cache.rs:574-619 | the interior vertices written for a subpath are its fill run |
| Arena.FringeOf | nona/src/cache.rs:624-685 | the fringe vertices written for a subpath are its fringe ring |
| Arena.FilledPlaced | nona/src/cache.rs:569-689 | placing a subpath's interior and then its fringe (only when there is one) records the two runs and leaves the rest of the buffer alone |
| Arena.FillLoopStart | nona/src/cache.rs:560-567 | the fill loop starts with nothing written, over a buffer of the full budget |
| Arena.FillLoopNext | nona/src/cache.rs:567-572 | the next subpath is untouched and ready, and its allowance fits in what is left of the buffer |
| Arena.FillLoopStep | nona/src/cache.rs:567-690 | writing one subpath's fill after the earlier ones extends the loop invariant by one subpath |
| Arena.FillLoopDone | nona/src/cache.rs:567-692 | after the loop every subpath's fill is written, packed one after another, and the rest of the buffer is untouched |
| Arena.BudgetsEmpty | nona/src/cache.rs:342-357 | a budget is zero exactly when there are no subpaths (the same code recurs at lines 550-556) |
| Arena.PlacedSound | nona/src/cache.rs:369-371 | recording where a subpath's vertices went does not change which points it owns (the same code recurs at lines 569-571) |
| Arena.StrokedSound | nona/src/cache.rs:365-536 | the stroke expansion keeps the sketch sound |
| Arena.FilledSound | nona/src/cache.rs:567-692 | the fill expansion keeps the sketch sound |
| Arena.StrokedLong | nona/src/cache.rs:382-532 | every stroked subpath has at least two vertices |
| Emitters.ButtCapStartRun | nona/src/cache.rs:957-986 | a starting butt cap is four vertices: the fringe pair then the edge pair, with texture coordinates u0/u1 and v 0 then 1 |
| Emitters.ButtCapEndRun | nona/src/cache.rs:988-1017 | an ending butt cap is four vertices: the edge pair then the fringe pair, with v 1 then 0 |
| Emitters.ButtCapStartShape | nona/src/cache.rs:957-986 | the edge pair is centred d behind the point, 2w apart across the direction, and each fringe vertex lies aa further back |
| Emitters.ButtCapEndShape | nona/src/cache.rs:988-1017 | the edge pair is centred d behind the point, 2w apart, and each fringe vertex lies aa further forward |
| Emitters.ButtCapStart | nona/src/cache.rs:957-986 | writes exactly the starting butt cap at dst and nothing else of the buffer |
| Emitters.ButtCapEnd | nona/src/cache.rs:988-1017 | writes exactly the ending butt cap at dst and nothing else of the buffer |
| Emitters.Centre | nona/src/cache.rs:1043-1084 | the centre vertex sits on the point with texture coordinates (0.5, 1) |
| Emitters.CapPair | nona/src/cache.rs:1035-1088 | one step of a round cap is a rim vertex and the centre, in the order the cap's end asks |
| Emitters.CapFan | nona/src/cache.rs:1035-1088 | i steps of a round cap write 2i vertices |
| Emitters.CapFanShape | nona/src/cache.rs:1035-1088 | every step's centre vertex is the point, every rim vertex has u0, and all of them are solid (v = 1) |
| Emitters.SidePair | nona/src/cache.rs:1047-1076 | the side pair is centred on the point, 2w apart across the direction, with u0/u1 |
| Emitters.RoundCapStartRun | nona/src/cache.rs:1019-1054 | a starting round cap is 2·ncap + 2 vertices ending with the side pair |
| Emitters.RoundCapStartShape | nona/src/cache.rs:1019-1054 | its fan alternates rim vertex and centre and every vertex is solid |
| Emitters.RoundCapEndRun | nona/src/cache.rs:1056-1091 | an ending round cap is 2·ncap + 2 vertices starting with the side pair |
| Emitters.RoundCapEndShape | nona/src/cache.rs:1056-1091 | after the side pair its fan alternates centre and rim vertex and every vertex is solid |
| Emitters.WriteFan | nona/src/cache.rs:1035-1088 | the fan loop writes exactly the fan at dst and nothing else |
| Emitters.RoundCapStart | nona/src/cache.rs:1019-1054 | writes exactly the starting round cap at dst and nothing else |
| Emitters.RoundCapEnd | nona/src/cache.rs:1056-1091 | writes exactly the ending round cap at dst and nothing else |
| Emitters.BevelJoinRun | nona/src/cache.rs:837-955 | a bevel join writes `BevelJoinWrites` vertices, starts and ends with an lu/ru pair, ends on the outer offset of the point on the side away from the turn, and, for an inner bevel that is not a bevel, passes through the point twice |
| Emitters.BevelJoinSolid | nona/src/cache.rs:837-955 | every bevel join vertex is solid |
| Emitters.BevelJoin | nona/src/cache.rs:837-955 | writes exactly the bevel join at dst and nothing else |
| Emitters.ArcPair | nona/src/cache.rs:780-825 | one step of a round join's arc is a rim vertex and the point, the point on the inner side |
| Emitters.RoundJoinArc | nona/src/cache.rs:779-825 | i arc steps write 2i vertices |
| Emitters.RoundJoinArcShape | nona/src/cache.rs:779-825 | every arc step is solid and passes through the point on the inner side |
| Emitters.RoundJoinEnd | nona/src/cache.rs:793-831 | the closing pair of a round join has lu/ru and ends on the outgoing offset on the side away from the turn |
| Emitters.RoundJoinRun | nona/src/cache.rs:748-835 | with the corrected step count RoundJoinSteps, a round join writes 2·steps + 4 vertices, between 8 and 2·ncap + 4, and starts and ends with an lu/ru pair |
| Emitters.RoundJoinShape | nona/src/cache.rs:748-835 | with the corrected step count, every round join vertex is solid and each arc step passes through the point on the inner side |
| Emitters.RoundJoin | nona/src/cache.rs:748-835 | writes exactly the round join, with the corrected step count, at dst and nothing else |
| Emitters.WriteArc | nona/src/cache.rs:779-825 | the arc loop writes exactly the arc at dst and nothing else |
| Fill.FillPointRun | nona/src/cache.rs:578-608 | a point of a fringed fill gives one interior vertex, or two at a right-turning bevel, all solid and at the point when there is no offset |
| Fill.FillPoints | nona/src/cache.rs:577-612 | one interior run per point |
| Fill.PlainVertex | nona/src/cache.rs:614-618 | an unfringed fill copies the point with texture coordinates (0.5, 1) |
| Fill.FillRun | nona/src/cache.rs:574-619 | the interior has `FillSum` vertices with a fringe and one per point without |
| Fill.FillPrefixLength | nona/src/cache.rs:577-612 | the interior written for the first k points has their fill allowance's length |
| Fill.FillRunShape | nona/src/cache.rs:574-619 | every interior vertex is solid, and without a fringe vertex i is point i |
| Fill.ConcatInterior | nona/src/cache.rs:577-612 | joining solid runs gives a solid run |
| Fill.WriteFillInterior | nona/src/cache.rs:572-621 | writes exactly the interior at dst and nothing else |
| Fill.WritePulledIn | nona/src/cache.rs:574-612 | the fringed interior loop writes exactly the pulled-in interior |
| Fill.WritePlain | nona/src/cache.rs:613-619 | the unfringed loop writes exactly the points |
| Fill.FringeRun | nona/src/cache.rs:624-685 | the fringe ring has between 2 and its bevel budget + 2 vertices, and its closing pair repeats the position of its first pair with u (0 or 0.5 when convex) and 1 |
| Fill.FringeIsRing | nona/src/cache.rs:624-685 | the fringe is the stroke ring with bevel joins, outer width w + woff (woff when convex) and inner width w − woff |
| Fill.WriteFringe | nona/src/cache.rs:624-685 | writes exactly the ring at dst, within its budget, and nothing else |
| Expand.Prev | nona/src/cache.rs:376-380 | the point before k in a ring is k − 1, wrapping to the last point (the same code recurs at lines 473-474) |
| Expand.MiterPair | nona/src/cache.rs:457-471 | an unbevelled join is a pair with u0/u1, solid, centred on the point shifted along the miter by the width difference |
| Expand.JoinRun | nona/src/cache.rs:429-472 | a join writes between 2 and its worst-case budget, is the miter pair when the point is not bevelled, and starts and ends with an lu/ru pair |
| Expand.Concat | nona/src/cache.rs:428-475 | no runs give no vertices |
| Expand.ConcatStep | nona/src/cache.rs:428-475 | one more join appends its run |
| Expand.ConcatPrefix | nona/src/cache.rs:428-475 | the runs written so far never exceed the whole |
| Expand.ConcatSolid | nona/src/cache.rs:428-475 | solid runs join into a solid run |
| Expand.ConcatEnds | nona/src/cache.rs:428-475 | the joined runs start with the first run's first pair and end with the last run's last pair |
| Expand.Joins | nona/src/cache.rs:428-475 | the join loop from s to e makes one run per point |
| Expand.JoinsAt | nona/src/cache.rs:428-475 | run i joins point s + i to the point before it |
| Expand.JoinsPrefix | nona/src/cache.rs:428-475 | the first runs of a longer loop are the runs of the shorter loop |
| Expand.JoinsRun | nona/src/cache.rs:428-475 | an empty loop writes nothing |
| Expand.JoinRunSolid | nona/src/cache.rs:429-472 | every join vertex is solid |
| Expand.JoinsRunShape | nona/src/cache.rs:428-475 | the join loop's vertices are solid and, when any, start and end with a u0/u1 pair |
| Expand.JoinsRunFits | nona/src/cache.rs:428-475 | the join loop writes no more than the joins' budget |
| Expand.ClosingPair | nona/src/cache.rs:477-485 | a closed stroke ends by repeating the positions of its first two vertices, with u0/u1 |
| Expand.CapRun | nona/src/cache.rs:382-426 | a cap writes exactly its emitter's count (the same code recurs at lines 486-530) |
| Expand.Heading | nona/src/cache.rs:383-384 | a cap's direction is the unit vector from one end point to the next when the segment is not degenerate (the same code recurs at lines 487-488) |
| Expand.RingRun | nona/src/cache.rs:428-485 | a closed ring is its joins plus the closing pair, which repeats the ring's first two positions |
| Expand.StrokeRun | nona/src/cache.rs:372-532 | a stroke writes at least 2 and at most its worst-case budget, and a closed one ends by repeating its first two positions with u0/u1 |
| Expand.OpenStrokeRun | nona/src/cache.rs:382-530 | an open stroke writes at least 8 (two caps) and at most its budget |
| Expand.OpenTailRun | nona/src/cache.rs:428-530 | after the start cap, an open stroke writes its inner joins and then its end cap, chosen by the corrected EndCap |
| Expand.WriteJoins | nona/src/cache.rs:428-475 | the join loop writes exactly the joins at dst and nothing else |
| Expand.WriteJoin | nona/src/cache.rs:429-472 | writes exactly one join at dst and nothing else |
| Expand.WriteStroke | nona/src/cache.rs:372-532 | writes exactly the subpath's stroke run at dst and nothing else |
| Expand.WriteRing | nona/src/cache.rs:428-485 | writes exactly the closed ring at dst and nothing else |
| Expand.WriteOpenStroke | nona/src/cache.rs:382-530 | writes exactly the open stroke at dst and nothing else |
| Expand.WriteOpenTail | nona/src/cache.rs:428-530 | writes exactly the joins and the corrected end cap at dst and nothing else |
| Expand.WriteCap | nona/src/cache.rs:382-426 | writes exactly the chosen cap at dst and nothing else (the same code recurs at lines 486-530) |
| Cache.PathCache.constructor | nona/src/cache.rs:26-32 | a new cache has no points, no subpaths, no vertices and zero bounds |
| Cache.PathCache.Clear | nona/src/cache.rs:48-51 | clearing empties the points and subpaths and keeps the vertex buffer and bounds |
| Cache.PathCache.AddPath | nona/src/cache.rs:53-67 | opening a subpath is `AddPathTo` on the points and subpaths, and nothing else changes |
| Cache.PathCache.AddPoint | nona/src/cache.rs:69-89 | adding a point is `AddPointTo`, and nothing else changes |
| Cache.PathCache.ClosePath | nona/src/cache.rs:91-95 | only the last subpath, if any, becomes closed |
| Cache.PathCache.PathSolidity | nona/src/cache.rs:97-101 | only the last subpath, if any, takes the new solidity |
| Cache.PathCache.TesselateBezier | nona/src/cache.rs:111-172 | the recursive subdivision adds exactly the points `TessCalls` lists, and nothing else changes |
| Cache.PathCache.AddCommand | nona/src/cache.rs:175-199 | one command is `Step` |
| Cache.PathCache.AddCommands | nona/src/cache.rs:175-200 | the command loop is `Commands` |
| Cache.PathCache.FlattenPaths | nona/src/cache.rs:174-244 | flattening is the command phase followed by finishing every subpath from the initial bounds, and keeps the cache valid |
| Cache.PathCache.FinishPaths | nona/src/cache.rs:205-244 | the finishing loop is `FinishUpTo` over all subpaths |
| Cache.PathCache.FinishPath | nona/src/cache.rs:206-243 | finishing one subpath is `FinishOne` |
| Cache.PathCache.DirectRing | nona/src/cache.rs:230-242 | the direction loop gives `Directions` and grows the bounds over the points in visiting order |
| Cache.FinishOneIs | nona/src/cache.rs:206-243 | `FinishOne` splices the oriented, directed points back in place of the subpath's points |
| Cache.PathCache.CalculateJoins | nona/src/cache.rs:247-317 | the join pass joins every subpath with the inverse width (0 for a non-positive width) and keeps the cache valid |
| Cache.PathCache.JoinPath | nona/src/cache.rs:254-315 | joining one subpath is `JoinOne` |
| Cache.ClassifyRing | nona/src/cache.rs:258-314 | the per-point loop computes `Joined` and counts its bevelled and left-turning points |
| Cache.JoinOneIs | nona/src/cache.rs:254-315 | `JoinOne` splices the joined points in place and records the bevel count and convexity |
| Cache.JoinedAt | nona/src/cache.rs:258-311 | point k is joined against the point before it, whose direction and length are kept |
| Cache.CountsStep | nona/src/cache.rs:299-308 | the counts grow by one exactly for a bevelled or left-turning point |
| Cache.DirectedByPosition | nona/src/cache.rs:230-233 | a point's direction depends only on the next point's position |
| Cache.PathCache.AllocTempVertexes | nona/src/cache.rs:103-109 | the buffer is resized to the count, keeping what fits, and the result is null exactly for a count of 0 |
| Cache.PathCache.StrokeReservation | nona/src/cache.rs:342-357 | the sizing loop computes the stroke budget, with each open subpath's caps always allowed for |
| Cache.PathCache.StrokePath | nona/src/cache.rs:366-533 | subpath i's stroke run is written at dst within its allowance, its record points to it with no fill, and nothing else of the buffer changes |
| Cache.PathCache.StrokePaths | nona/src/cache.rs:365-534 | every subpath's stroke is written, packed one after another, and the rest of the buffer is untouched |
| Cache.PathCache.StrokeArena | nona/src/cache.rs:342-536 | a fresh buffer of exactly the budget holds every subpath's stroke, packed |
| Cache.PathCache.ExpandStroke | nona/src/cache.rs:319-536 | `expand_stroke` joins with half the stroke plus half the fringe as width, uses u 0.5 without antialiasing, sizes the buffer to the budget and writes every subpath's stroke |
| Cache.PathCache.FillReservation | nona/src/cache.rs:550-556 | the sizing loop computes the fill budget |
| Cache.PathCache.FillInterior | nona/src/cache.rs:572-621 | the interior is written at dst and leaves room for the fringe within the allowance |
| Cache.PathCache.FillFringe | nona/src/cache.rs:624-685 | the fringe ring is written at dst within its budget and nothing else changes |
| Cache.PathCache.FillPath | nona/src/cache.rs:567-689 | subpath i's interior and fringe are written at dst within its allowance and its record points to them |
| Cache.PathCache.FillRuns | nona/src/cache.rs:572-685 | the interior, then with a fringe the ring after it, are written from dst on within subpath i's allowance, with no ring when there is no fringe, and the vertices outside that span are unchanged |
| Cache.PathCache.FillPaths | nona/src/cache.rs:566-690 | every subpath's fill is written, packed one after another, and the rest of the buffer is untouched |
| Cache.PathCache.FillArena | nona/src/cache.rs:550-692 | a fresh buffer of exactly the budget holds every subpath's fill, packed |
| Cache.PathCache.ExpandFill | nona/src/cache.rs:538-692 | `expand_fill` joins with the fringe width, fringes only for a positive width, treats the fill as convex only for a single convex subpath, and writes every subpath's fill |
| Cache.OrientRing | nona/src/cache.rs:220-228 | orienting gives `Oriented` |
| Cache.ComputePolyArea | nona/src/cache.rs:706-715 | the area loop computes `PolyArea`, the fan sum of triangle areas |
| Cache.PolyReverse | nona/src/cache.rs:717-725 | the swapping loop reverses the points |
| Backend.TriangulatedLayout | src/nvgimpl.rs:343-395 | n emitted triangles give 3n indices, triangle k at positions 3k to 3k + 2 |
| Backend.TriangulatedFrom | src/nvgimpl.rs:343-395 | every emitted index belongs to one of the triangles |
| Backend.FanShape | src/nvgimpl.rs:343-350 | a fan of count vertices gives count − 2 triangles (none below 3), triangle k being (first, first + k + 1, first + k + 2), all indices within the fan's vertices |
| Backend.StripShape | src/nvgimpl.rs:382-395 | a strip gives count − 2 triangles, even ones in order and odd ones with the first two swapped, all indices within the strip's vertices |
| Backend.ConsistentWinding | src/nvgimpl.rs:368-395 | neighbouring triangles of a fan or of the reordered strip traverse their shared edge in opposite directions, so all are wound alike |
| Backend.ListInOrder | src/nvgimpl.rs:359-366 | a triangle list emits first, first + 1, … in order, three per group started |
| Backend.AddTriangleFan | src/nvgimpl.rs:343-350 | the loop appends exactly the fan's indices |
| Backend.AddTriangleStrip | src/nvgimpl.rs:382-395 | the loop appends exactly the strip's indices, alternating the winding |
| Backend.AddTriangles | src/nvgimpl.rs:359-366 | the stepping loop appends exactly the list's indices, one group per step of 3 |
| Backend.LoopEndAsWritten | src/nvgimpl.rs:345-384 | the 16-bit loop bound `first + count − 2` exists exactly when it neither drops below 0 nor exceeds 65535 |
| Backend.UnfringedFillStripUnderflows | src/nvgimpl.rs:284-287 | an unfringed fill path is passed on with stroke offset and count 0, for which the strip bound is undefined and no strip indices exist (the path is recorded at lines 894-913) |
| Backend.EmptyFillFanUnderflows | src/nvgimpl.rs:248-251 | a path with no fill vertices is passed on with fill offset and count 0, for which the fan bound is undefined and no fan indices exist |
| Backend.PremulColor | src/nvgimpl.rs:1054-1062 | premultiplying keeps alpha, leaves an opaque colour alone and blacks out a transparent one |
| Backend.PremulBounded | src/nvgimpl.rs:1054-1062 | premultiplied channels of a colour in range lie between 0 and alpha |
| Backend.ConvertBlendFactor | src/nvgimpl.rs:1027-1052 | every canvas blend factor maps to the GPU factor that reads back as it |
| Backend.ConvertBlendFactorBijective | src/nvgimpl.rs:1027-1052 | the mapping is one-to-one and onto the GPU factors used |
| Backend.BlendOf | src/nvgimpl.rs:24-35 | the blend state carries the composite operation's four factors, each converted |
| Backend.LocatedGrows | src/nvgimpl.rs:901-916 | a path's vertices stay where they were recorded when more vertices are appended |
| Backend.LocatedLast | src/nvgimpl.rs:891-916 | the record of a newly copied path locates its fill and stroke vertices, with offset 0 for an empty part |
| Backend.FillGLPathsLength | src/nvgimpl.rs:892-917 | the fill loop pushes one record per path |
| Backend.LocatedStep | src/nvgimpl.rs:892-917 | records already pushed stay located after one more path is copied |
| Backend.FillPathLocated | src/nvgimpl.rs:891-917 | after the fill loop, record j locates path j's fill and stroke vertices in the renderer's buffer |
| Backend.FillPathsLocate | src/nvgimpl.rs:891-917 | every path's record locates its fill and stroke vertices |
| Backend.StrokePathsCount | src/nvgimpl.rs:966-983 | the stroke loop pushes at most one record per path, and one for every path exactly when no path has an empty stroke |
| Backend.CanvasStrokesAllDrawn | src/nvgimpl.rs:976-982 | strokes expanded by the cache are never empty, so every stroked path gets a record |
| Backend.Renderer.Create | src/nvgimpl.rs:138-192 | a new renderer has no calls, paths, vertices or uniforms and a zero view |
| Backend.Renderer.Viewport | src/nvgimpl.rs:666-669 | only the view changes |
| Backend.Renderer.Cancel | src/nvgimpl.rs:671-677 | all recorded calls, paths, vertices and uniforms are dropped; the view stays |
| Backend.Renderer.Flush | src/nvgimpl.rs:679-865 | the recorded calls are handed over in order and everything recorded is dropped |
| Backend.Renderer.GrownFits | src/nvgimpl.rs:876-943 | calls recorded earlier still address the buffers after they grow |
| Backend.Renderer.CopyFill | src/nvgimpl.rs:893-916 | copying one path appends its fill then its stroke vertices and pushes its record, and nothing else changes |
| Backend.Renderer.CopyFills | src/nvgimpl.rs:891-917 | the fill loop appends every path's fill and stroke vertices, in order, and one record per path |
| Backend.Renderer.PushBoundsQuad | src/nvgimpl.rs:921-928 | the stencil fill's cover quad appends the bounds' four corners, in the order max/max, max/min, min/max, min/min, and changes nothing else |
| Backend.Renderer.Fill | src/nvgimpl.rs:867-944 | a fill records a fill call (convex for a single convex path), copies the paths' vertices, adds the bounds quad and two uniforms for a non-convex fill, one uniform otherwise, and keeps every call in range |
| Backend.Renderer.CopyStrokes | src/nvgimpl.rs:966-983 | the stroke loop appends every non-empty stroke's vertices, in order, with one record locating each, and skips paths without a stroke |
| Backend.Renderer.Stroke | src/nvgimpl.rs:946-997 | a stroke copies only non-empty strokes, records a stroke call over every path with two uniforms, and its path range is valid exactly when every stroke is non-empty |
| Backend.Renderer.Triangles | src/nvgimpl.rs:999-1024 | a triangles call records the given vertices after the existing ones and one image uniform |

## Left out

- Floating point: `f32` is modelled as `real`, so rounding, infinities, NaN and the sign of zero are not modelled. Where the code depends on a special value, the model writes it out: `curve_divs` handles its zero and NaN quotients, and the casts to `i32` saturate.
- Transcendental functions (`sqrt`, `acos`, `atan2`, `sin`, `cos`, `tan`): these come from the platform's maths library. They are fields of a `Libm` argument, so every fact holds for any implementation of them. Facts that need a true square root are conditioned on `IsSqrt`.
- Emitters.ArcPair: follows nona/src/cache.rs:818 as written, taking the y coordinate of a right-turn round join's rim vertex from the cosine. No property proved here depends on rim positions, so no corrected version is given.
- CanvasState.ArcKappa: a zero sine gives 0 where `f32` gives NaN.
- CanvasState.ArcToPlanOf: takes the cosine of the raw dot product of the two edge vectors, as the code does, rather than the angle between them. A zero tangent is taken as an infinite corner distance, which draws a line to the corner; that is what `f32` gives for a positive radius.
- CanvasState.Signum: `f32::signum` of −0 and of NaN is not modelled, since reals have neither.
- Canvas.Context.SetDevicePixelRatio: requires a non-zero ratio. With a zero ratio the code divides by zero and produces infinite tolerances, which reals cannot represent.
- Cache.PathCache.FlattenPaths, Canvas.Context.Fill, Canvas.Context.Stroke: require a non-zero distance tolerance. That is what any finite pixel ratio gives. With a zero tolerance no two points count as equal, and the lone-point closing step relies on equality.
- Text and fonts (`Fonts`, `text`, `text_size` and friends in nona/src/context.rs): font shaping and glyph atlases are not part of this model. `Context::create` cannot fail here, whereas the code fails when `Fonts::new` fails.
- Images and textures (`create_image`, `update_image`, `delete_image`, and the texture calls of src/nvgimpl.rs:597-664): they only forward to the renderer and the GPU.
- The renderer's GPU work is not part of this model, because it is driver calls:
  - pipeline and buffer creation in `Renderer::create`;
  - `do_fill`, `do_convex_fill`, `do_stroke` and `do_triangles`;
  - `set_uniforms` and `xform_to_3x4`/`xform_to_4x4`;
  - the render pass inside `flush`.
  The index lists those functions build are modelled: AddTriangleFan, AddTriangleStrip and AddTriangles.
- Backend.Renderer: a uniform block is recorded as the arguments `convert_paint` was called with, not as the block it computes. The colour, transform and gradient layout of `convert_paint` (src/nvgimpl.rs:496-575) is not modelled.
- Backend.AddTriangleFan, Backend.AddTriangleStrip, Backend.AddTriangles: require that `first + count` does not overflow `u16`. For `first + count < 2`, the fan and strip versions emit no indices. The code's bound underflows in that case; LoopEndAsWritten models what the code does, and the Findings below show where it happens.
- Cache.PathCache.AllocTempVertexes: the resized `Vec` is modelled as a fresh array. Reallocation, and the pointers into the old buffer, are not modelled.
- Integer widths in the path cache (`usize` counts and offsets) are unbounded. The code would overflow only beyond addressable memory.
- Flatten.TessCalls: `tesselate_bezier` stops at depth 10. The model keeps that bound exactly. It models no other limit on recursion.
- Canvas.Context.AppendAll: the path builders (`rect`, `rounded_rect`, `ellipse`, `circle`, `arc`, `arc_to`) build their command list with a specification function and append it in one step. The code appends it point by point, with the same result.
- Canvas.Context.ArcTo: computes its plan (the circle, the sweep and its direction) with ArcToPlanOf instead of step by step in a method.
- Stroke width scaling by the transform (`get_average_scale`), global alpha and the other `State` setters are modelled. Frame statistics are modelled. `end_frame` is not modelled, because it only forwards the flush to the renderer.
- Cache.PathCache.StrokeReservation, Cache.PathCache.ExpandStroke: reserve every open subpath's cap allowance whatever the join (StrokeAllowance), where the code skips it for round joins (StrokeAllowanceAsWritten, nona/src/cache.rs:345-346). Under a round join every point flagged as a corner is bevelled (nona/src/cache.rs:295-301). The point a MoveTo adds is a corner (nona/src/cache.rs:177-180) and is one end of its subpath, except when a cache that was already flattened is flattened again. The other end need not be a corner: only the last piece of a subdivided Bézier carries the caller's corner flag (nona/src/cache.rs:144-171), and a piece still too curved at depth 10 adds no point (nona/src/cache.rs:121-123), so the subpath can end on a point without flags. RoundJoinCoveredByBevelledEnd proves that the code's reservation suffices whenever one end point is bevelled. RoundJoinWithoutCapAllowance gives the overflow the code would have if neither end were bevelled; no drawing sequence producing such a subpath is known, so it is not listed as a finding.
- Cache.PathCache.ExpandStroke, Emitters.RoundJoinRun, Emitters.RoundJoinShape, Emitters.RoundJoin, Expand.OpenTailRun, Expand.WriteOpenTail: draw end caps with the corrected choice EndCap and round-join steps with the corrected RoundJoinSteps, not as nona/src/cache.rs:486-530 and 813 are written; see Findings. The join and stroke members of Expand that build on them (JoinRun, Joins, StrokeRun, OpenStrokeRun, RingRun and their Write methods) inherit the corrected choices.
- CanvasState.IntersectedScissor, Canvas.Context.IntersectScissor: use the corrected intersection, so an existing scissor is narrowed. As written, nona/src/context.rs:724-731 replaces it by the rectangle (IntersectedScissorAsWritten, ScissorReplacedAsWritten); see Findings.

## Findings

| source | as written | input that shows it | evidently intended | confidence | as-written member | corrected member |
|---|---|---|---|---|---|---|
| nona/src/cache.rs:486-530 | The end cap's match is swapped. A round cap ends with `butt_cap_end` at `w - aa`, and a square cap ends with `round_cap_end`. The reservation at nona/src/cache.rs:342-357 only allows 12 cap vertices for a square cap. | An open U-shaped polyline of 4 points with miter joins, square caps, width 10, fringe 1 and ncap 8. The reservation is 22 vertices but the stroke writes 26, past the end of the buffer. | Each end cap is the same kind as the start cap: a square end is `butt_cap_end` at `w - aa`, and a round end is `round_cap_end`. Every stroke then fits its reservation. | high for the swap, medium for the overflow (not executed) | CacheSpec.SquareEndCapOverflows, CacheSpec.EndCapAsWritten | CacheSpec.EndCap, CacheSpec.StrokeFits |
| nona/src/cache.rs:813 | The right-turn branch of `round_join` computes its step count from `a0 - a1`. There `a1 >= a0`, so the count always clamps to 2. | A right turn through half a circle (a0 = 0, a1 = π) with ncap 8 gets 2 arc steps. The mirror-image left turn gets 8. | The right-turn sweep is `a1 - a0`, so mirror-image turns get the same number of steps. | high (not executed) | CacheSpec.RightTurnStepsCollapse, CacheSpec.RoundJoinStepsAsWritten | CacheSpec.RoundJoinSteps, CacheSpec.MirroredTurnsAgree |
| nona/src/math.rs:100-125 | `Rect::intersect` takes both operands from `rect`, so `self` is ignored. `intersect_scissor` (nona/src/context.rs:708-732) therefore replaces the scissor instead of narrowing it. | The unit square at (0, 0) intersected with the unit square at (5, 5) gives the second square, not an empty rectangle. | The first operand is `self`, so the result lies within both rectangles and the operation commutes. | high (not executed) | Geometry.IntersectAsWrittenIgnoresReceiver, Geometry.IntersectAsWritten, CanvasState.ScissorReplacedAsWritten | Geometry.Intersect, Geometry.IntersectCommutes, CanvasState.IntersectedScissor |
| nona/src/context.rs:1155-1158 | `stroke` adds its strips' triangles to the fill-triangle counter. | One stroked subpath of 10 vertices counts 8 fill triangles and 0 stroke triangles. | Stroke triangles go to the stroke-triangle counter. | high (not executed) | CanvasState.StrokeTallyMisfiled, CanvasState.StrokeTallyAsWritten | CanvasState.StrokeTally, Canvas.Context.TallyStroke |
| src/nvgimpl.rs:284-287 | `do_fill` adds a triangle strip for every path, without the `stroke_count > 0` check that `do_convex_fill` makes (src/nvgimpl.rs:415). An unfringed fill path is recorded with stroke offset 0 and count 0 (src/nvgimpl.rs:894-913). The strip loop's bound `0 + 0 - 2` then underflows `u16`. That is a panic in a debug build; in a release build it wraps, and the loop emits indices over most of the `u16` range. | A fill of two subpaths (so not convex) with `shape_antialias(false)`: `expand_fill` then gets width 0 and makes no fringe. | Skip the strip for a path with no stroke vertices, as `do_convex_fill` does. The strip of a path with at least 2 vertices is well defined. | medium (not executed) | Backend.UnfringedFillStripUnderflows, Backend.LoopEndAsWritten | Backend.AddTriangleStrip, Backend.StripShape |
| src/nvgimpl.rs:248-251 | `do_fill` adds a triangle fan for every path, and so does `do_convex_fill` (src/nvgimpl.rs:413); neither checks `fill_count`. A path with no fill vertices is recorded with fill offset 0 and count 0 (src/nvgimpl.rs:894-906). The fan loop's bound `0 + 0 - 2` then underflows `u16`, with anti-aliasing on or off. | `move_to(a); rect(..); fill()`. The lone MoveTo becomes a closed subpath with no points (CacheSpec.LoneMoveToCloses), whose fill run is empty (Fill.FillRun). | Skip the fan of a path with fewer than 2 fill vertices, as the corrected fan conversion does. From 2 vertices on, the bound is defined. | medium (not executed) | Backend.EmptyFillFanUnderflows, Backend.LoopEndAsWritten | Backend.AddTriangleFan, Backend.FanShape |
