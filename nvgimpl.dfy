// The miniquad back end (src/nvgimpl.rs): the conversion of fans and strips
// into triangle index lists, the bookkeeping of the draw calls a frame
// collects, and the colour and blend conversions.
module Backend {
  import opened Geometry
  import opened CanvasTypes
  import opened Colors
  import opened Paints
  import opened CanvasState

  // ---------------------------------------------------------------------
  // Index lists
  // ---------------------------------------------------------------------

  const U16Max: nat := 0xFFFF

  /** An index into the vertex buffer, a `u16`. */
  type U16 = x: nat | x <= U16Max

  /** The n triangles tri(0), ..., tri(n - 1), one after another. */
  function Triangulated(tri: nat -> seq<nat>, n: nat): seq<nat>
  {
    if n == 0 then [] else Triangulated(tri, n - 1) + tri(n - 1)
  }

  lemma ParityFlips(k: nat)
    ensures (k + 1) % 2 == 0 <==> k % 2 != 0
  {
  }

  /** Appending triangle n to a buffer that holds the first n. */
  lemma TriangulatedSnoc(tri: nat -> seq<nat>, indices: seq<nat>, out: seq<nat>, n: nat)
    requires out == indices + Triangulated(tri, n)
    ensures out + tri(n) == indices + Triangulated(tri, n + 1)
  {
  }

  /** Triangles of three indices each lie at 3k, 3k + 1, 3k + 2. */
  lemma {:induction false} TriangulatedLayout(tri: nat -> seq<nat>, n: nat)
    requires forall k :: |tri(k)| == 3
    ensures |Triangulated(tri, n)| == 3 * n
    ensures forall k :: 0 <= k < n ==> Triangulated(tri, n)[3 * k .. 3 * k + 3] == tri(k)
  {
    if n > 0 {
      TriangulatedLayout(tri, n - 1);
      var prev := Triangulated(tri, n - 1);
      assert Triangulated(tri, n) == prev + tri(n - 1);
      forall k | 0 <= k < n
        ensures Triangulated(tri, n)[3 * k .. 3 * k + 3] == tri(k)
      {
        if k < n - 1 {
          assert (prev + tri(n - 1))[3 * k .. 3 * k + 3] == prev[3 * k .. 3 * k + 3];
        } else {
          assert (prev + tri(n - 1))[3 * k .. 3 * k + 3] == tri(n - 1);
        }
      }
    }
  }

  /** Every index of n triangles comes from one of them. */
  lemma {:induction false} TriangulatedFrom(tri: nat -> seq<nat>, n: nat, i: nat)
    requires i < |Triangulated(tri, n)|
    ensures exists k :: 0 <= k < n && Triangulated(tri, n)[i] in tri(k)
  {
    var prev := Triangulated(tri, n - 1);
    if i < |prev| {
      TriangulatedFrom(tri, n - 1, i);
      var k :| 0 <= k < n - 1 && prev[i] in tri(k);
      assert Triangulated(tri, n)[i] == prev[i];
    } else {
      assert Triangulated(tri, n)[i] == tri(n - 1)[i - |prev|];
    }
  }

  /** The triangles a fan or strip of `count` vertices is made of: two
      fewer than its vertices, and none below three vertices. */
  function TriangleCount(count: nat): nat
  {
    if count >= 2 then count - 2 else 0
  }

  /** Triangle k of the fan whose hub is vertex `first`. */
  function FanTriangle(first: nat, k: nat): seq<nat>
  {
    [first, first + k + 1, first + k + 2]
  }

  function Fan(first: nat): nat -> seq<nat>
  {
    k => FanTriangle(first, k)
  }

  function FanIndices(first: nat, count: nat): seq<nat>
  {
    Triangulated(Fan(first), TriangleCount(count))
  }

  /** Triangle k of the strip from vertex `first`: vertices k to k + 2,
      the first two swapped on every other triangle so that all of them
      wind the same way. */
  function StripTriangle(first: nat, k: nat): seq<nat>
  {
    if k % 2 == 0 then [first + k, first + k + 1, first + k + 2]
    else [first + k + 1, first + k, first + k + 2]
  }

  function Strip(first: nat): nat -> seq<nat>
  {
    k => StripTriangle(first, k)
  }

  function StripIndices(first: nat, count: nat): seq<nat>
  {
    Triangulated(Strip(first), TriangleCount(count))
  }

  /** Triangle k of a list of separate triangles from vertex `first`. */
  function ListTriangle(first: nat, k: nat): seq<nat>
  {
    [first + 3 * k, first + 3 * k + 1, first + 3 * k + 2]
  }

  function List(first: nat): nat -> seq<nat>
  {
    k => ListTriangle(first, k)
  }

  function ListIndices(first: nat, groups: nat): seq<nat>
  {
    Triangulated(List(first), groups)
  }

  /** The triangles of a fan: `3 (count - 2)` indices, triangle k being
      the hub and vertices k + 1 and k + 2, every index one of the fan's
      vertices. */
  lemma FanShape(first: nat, count: nat)
    ensures |FanIndices(first, count)| == 3 * TriangleCount(count)
    ensures forall k :: 0 <= k < TriangleCount(count) ==>
      FanIndices(first, count)[3 * k .. 3 * k + 3] == [first, first + k + 1, first + k + 2]
    ensures forall i :: 0 <= i < |FanIndices(first, count)| ==> first <= FanIndices(first, count)[i] < first + count
  {
    var tri := Fan(first);
    assert forall k :: tri(k) == FanTriangle(first, k);
    TriangulatedLayout(tri, TriangleCount(count));
    forall k | 0 <= k < TriangleCount(count)
      ensures FanIndices(first, count)[3 * k .. 3 * k + 3] == [first, first + k + 1, first + k + 2]
    {
      assert FanIndices(first, count)[3 * k .. 3 * k + 3] == tri(k) == FanTriangle(first, k);
    }
    forall i | 0 <= i < |FanIndices(first, count)|
      ensures first <= FanIndices(first, count)[i] < first + count
    {
      TriangulatedFrom(tri, TriangleCount(count), i);
      var k :| 0 <= k < TriangleCount(count) && FanIndices(first, count)[i] in tri(k);
      FanTriangleWithin(first, k, FanIndices(first, count)[i]);
    }
  }

  lemma FanTriangleWithin(first: nat, k: nat, x: nat)
    requires x in FanTriangle(first, k)
    ensures first <= x <= first + k + 2
  {
    assert x in [first, first + k + 1, first + k + 2];
  }

  /** The triangles of a strip: `3 (count - 2)` indices, triangle k being
      vertices k, k + 1, k + 2 with the first two swapped when k is odd,
      every index one of the strip's vertices. */
  lemma StripShape(first: nat, count: nat)
    ensures |StripIndices(first, count)| == 3 * TriangleCount(count)
    ensures forall k :: 0 <= k < TriangleCount(count) ==>
      StripIndices(first, count)[3 * k .. 3 * k + 3] ==
        if k % 2 == 0 then [first + k, first + k + 1, first + k + 2] else [first + k + 1, first + k, first + k + 2]
    ensures forall i :: 0 <= i < |StripIndices(first, count)| ==> first <= StripIndices(first, count)[i] < first + count
  {
    var tri := Strip(first);
    assert forall k :: tri(k) == StripTriangle(first, k);
    TriangulatedLayout(tri, TriangleCount(count));
    forall k | 0 <= k < TriangleCount(count)
      ensures StripIndices(first, count)[3 * k .. 3 * k + 3] == if k % 2 == 0 then [first + k, first + k + 1, first + k + 2] else [first + k + 1, first + k, first + k + 2]
    {
      assert StripIndices(first, count)[3 * k .. 3 * k + 3] == tri(k) == StripTriangle(first, k);
    }
    forall i | 0 <= i < |StripIndices(first, count)|
      ensures first <= StripIndices(first, count)[i] < first + count
    {
      TriangulatedFrom(tri, TriangleCount(count), i);
      var k :| 0 <= k < TriangleCount(count) && StripIndices(first, count)[i] in tri(k);
      StripTriangleWithin(first, k, StripIndices(first, count)[i]);
    }
  }

  lemma StripTriangleWithin(first: nat, k: nat, x: nat)
    requires x in StripTriangle(first, k)
    ensures first + k <= x <= first + k + 2
  {
    if k % 2 == 0 {
      assert x in [first + k, first + k + 1, first + k + 2];
    } else {
      assert x in [first + k + 1, first + k, first + k + 2];
    }
  }

  /** The directed edges of a triangle (a, b, c): a→b, b→c, c→a. */
  predicate HasEdge(t: seq<nat>, x: nat, y: nat)
    requires |t| == 3
  {
    (t[0] == x && t[1] == y) || (t[1] == x && t[2] == y) || (t[2] == x && t[0] == y)
  }

  /** Neighbouring triangles of a fan or strip share an edge that they
      run in opposite directions: the whole fan or strip winds one way,
      as OpenGL draws it. */
  lemma ConsistentWinding(first: nat, k: nat)
    ensures var a, b := FanTriangle(first, k), FanTriangle(first, k + 1);
      HasEdge(a, first + k + 2, first) && HasEdge(b, first, first + k + 2)
    ensures var a, b := StripTriangle(first, k), StripTriangle(first, k + 1);
      var x, y := first + k + 1, first + k + 2;
      (HasEdge(a, x, y) && HasEdge(b, y, x)) || (HasEdge(a, y, x) && HasEdge(b, x, y))
  {
  }

  /** With a multiple of three vertices, a list of triangles is every
      vertex once, in order. */
  lemma {:induction false} ListInOrder(first: nat, groups: nat)
    ensures ListIndices(first, groups) == seq(3 * groups, j => first + j)
  {
    if groups > 0 {
      ListInOrder(first, groups - 1);
      assert ListIndices(first, groups) == ListIndices(first, groups - 1) + ListTriangle(first, groups - 1);
    }
  }

  /** `add_triangle_fan`: the fan of `count` vertices from `first`
      appended as separate triangles. */
  method AddTriangleFan(indices: seq<U16>, first: U16, count: U16) returns (out: seq<U16>)
    requires first + count <= U16Max
    ensures out == indices + FanIndices(first, count)
  {
    out := indices;
    if count < 2 {
      return;
    }
    var start := first;
    var i: U16 := first;
    while i < first + count - 2
      invariant first <= i <= first + count - 2
      invariant out == indices + Triangulated(Fan(first), i - first)
    {
      out := out + [start];
      out := out + [i + 1];
      out := out + [i + 2];
      i := i + 1;
    }
  }

  /** `add_triangle_strip`: the strip of `count` vertices from `first`
      appended as separate triangles of one winding. */
  method AddTriangleStrip(indices: seq<U16>, first: U16, count: U16) returns (out: seq<U16>)
    requires first + count <= U16Max
    ensures out == indices + StripIndices(first, count)
  {
    out := indices;
    if count < 2 {
      return;
    }
    var drawOrderWinding := true;
    var i: U16 := first;
    ghost var k: nat := 0;
    while i < first + count - 2
      invariant i == first + k <= first + count - 2
      invariant drawOrderWinding <==> k % 2 == 0
      invariant out == indices + Triangulated(Strip(first), k)
    {
      ghost var before := out;
      if drawOrderWinding {
        out := out + [i];
        out := out + [i + 1];
      } else {
        out := out + [i + 1];
        out := out + [i];
      }
      drawOrderWinding := !drawOrderWinding;
      out := out + [i + 2];
      StripPushed(before, out, first, k, i, !drawOrderWinding);
      TriangulatedSnoc(Strip(first), indices, before, k);
      ParityFlips(k);
      i := i + 1;
      k := k + 1;
    }
  }

  /** The three indices one turn of the strip loop pushes make triangle k. */
  lemma StripPushed(before: seq<nat>, out: seq<nat>, first: nat, k: nat, i: nat, straight: bool)
    requires i == first + k && (straight <==> k % 2 == 0)
    requires out == (if straight then before + [i] + [i + 1] else before + [i + 1] + [i]) + [i + 2]
    ensures out == before + StripTriangle(first, k)
  {
  }

  /** `add_triangles`: the vertices from `first` taken three at a time,
      one group for every started three of the `count`. */
  method AddTriangles(indices: seq<U16>, first: U16, count: U16) returns (out: seq<U16>)
    requires first + count <= U16Max && first + 3 * ((count + 2) / 3) <= U16Max + 1
    ensures out == indices + ListIndices(first, (count + 2) / 3)
  {
    out := indices;
    var i: U16 := first;
    ghost var k := 0;
    while i < first + count
      invariant i == first + 3 * k && k <= (count + 2) / 3
      invariant i < first + count ==> k < (count + 2) / 3
      invariant i >= first + count ==> k == (count + 2) / 3
      invariant out == indices + ListIndices(first, k)
    {
      out := out + [i];
      out := out + [i + 1];
      out := out + [i + 2];
      k := k + 1;
      if i + 3 > U16Max {
        // the range is exhausted: `step_by` stops before overflowing
        break;
      }
      i := i + 3;
    }
  }

  /** `first + count - 2` in `u16` arithmetic, which `add_triangle_fan`
      and `add_triangle_strip` compute as the end of their loops: `None`
      where it overflows (a panic in a debug build, a wrap in a release
      build). */
  function LoopEndAsWritten(first: U16, count: U16): (r: Option<U16>)
    ensures r.Some? <==> 2 <= first + count <= U16Max
    ensures r.Some? ==> r.value == first + count - 2
  {
    if first + count > U16Max || first + count < 2 then None else Some(first + count - 2)
  }

  // ---------------------------------------------------------------------
  // Colours and blending
  // ---------------------------------------------------------------------

  /** `premul_color`: red, green and blue multiplied by alpha. */
  function PremulColor(c: Color): (r: Color)
    ensures r.a == c.a
    ensures c.a == 1.0 ==> r == c
    ensures c.a == 0.0 ==> r.r == r.g == r.b == 0.0
  {
    Color(c.r * c.a, c.g * c.a, c.b * c.a, c.a)
  }

  /** A premultiplied colour of components in [0, 1] has no channel
      above its alpha. */
  lemma PremulBounded(c: Color)
    requires 0.0 <= c.r <= 1.0 && 0.0 <= c.g <= 1.0 && 0.0 <= c.b <= 1.0 && 0.0 <= c.a <= 1.0
    ensures var p := PremulColor(c);
      0.0 <= p.r <= p.a && 0.0 <= p.g <= p.a && 0.0 <= p.b <= p.a
  {
    var p := PremulColor(c);
    ChannelBelowAlpha(c.r, c.a, p.r);
    ChannelBelowAlpha(c.g, c.a, p.g);
    ChannelBelowAlpha(c.b, c.a, p.b);
  }

  lemma ChannelBelowAlpha(x: real, a: real, v: real)
    requires 0.0 <= x <= 1.0 && 0.0 <= a && v == x * a
    ensures 0.0 <= v <= a
  {
    ProductNonnegative(x, a);
    ProductNonnegative(1.0 - x, a);
    assert (1.0 - x) * a == a - x * a;
  }

  datatype BlendValue = SourceColor | SourceAlpha | DestinationColor | DestinationAlpha

  /** miniquad's blend factors. */
  datatype GpuFactor =
    | GpuZero
    | GpuOne
    | Value(of: BlendValue)
    | OneMinusValue(of: BlendValue)
    | SourceAlphaSaturate

  /** `convert_blend_factor`. */
  function ConvertBlendFactor(f: BlendFactor): (g: GpuFactor)
    ensures FactorOf(g) == f
  {
    match f
    case Zero => GpuZero
    case One => GpuOne
    case SrcColor => Value(SourceColor)
    case OneMinusSrcColor => OneMinusValue(SourceColor)
    case DstColor => Value(DestinationColor)
    case OneMinusDstColor => OneMinusValue(DestinationColor)
    case SrcAlpha => Value(SourceAlpha)
    case OneMinusSrcAlpha => OneMinusValue(SourceAlpha)
    case DstAlpha => Value(DestinationAlpha)
    case OneMinusDstAlpha => OneMinusValue(DestinationAlpha)
    case SrcAlphaSaturate => SourceAlphaSaturate
  }

  /** The canvas factor a miniquad factor stands for. */
  function FactorOf(g: GpuFactor): BlendFactor
  {
    match g
    case GpuZero => Zero
    case GpuOne => One
    case Value(SourceColor) => SrcColor
    case OneMinusValue(SourceColor) => OneMinusSrcColor
    case Value(DestinationColor) => DstColor
    case OneMinusValue(DestinationColor) => OneMinusDstColor
    case Value(SourceAlpha) => SrcAlpha
    case OneMinusValue(SourceAlpha) => OneMinusSrcAlpha
    case Value(DestinationAlpha) => DstAlpha
    case OneMinusValue(DestinationAlpha) => OneMinusDstAlpha
    case SourceAlphaSaturate => SrcAlphaSaturate
  }

  /** The conversion is one-to-one and reaches every miniquad factor. */
  lemma ConvertBlendFactorBijective(f1: BlendFactor, f2: BlendFactor, g: GpuFactor)
    ensures ConvertBlendFactor(f1) == ConvertBlendFactor(f2) ==> f1 == f2
    ensures ConvertBlendFactor(FactorOf(g)) == g
  {
    assert FactorOf(ConvertBlendFactor(f1)) == f1;
  }

  /** The blend state of a call; both equations are additions. */
  datatype Blend = Blend(srcRgb: GpuFactor, dstRgb: GpuFactor, srcAlpha: GpuFactor, dstAlpha: GpuFactor)

  /** `impl From<CompositeOperationState> for Blend`. */
  function BlendOf(s: CompositeOperationState): (b: Blend)
    ensures FactorOf(b.srcRgb) == s.srcRgb && FactorOf(b.dstRgb) == s.dstRgb
    ensures FactorOf(b.srcAlpha) == s.srcAlpha && FactorOf(b.dstAlpha) == s.dstAlpha
  {
    Blend(ConvertBlendFactor(s.srcRgb), ConvertBlendFactor(s.dstRgb),
          ConvertBlendFactor(s.srcAlpha), ConvertBlendFactor(s.dstAlpha))
  }

  // ---------------------------------------------------------------------
  // Draw calls
  // ---------------------------------------------------------------------

  datatype CallType = FillType | ConvexFillType | StrokeType | TrianglesType

  datatype Call = Call(
    callType: CallType,
    image: Option<nat>,
    pathOffset: nat,
    pathCount: nat,
    triangleOffset: nat,
    triangleCount: nat,
    uniformOffset: nat,
    blend: Blend)

  /** Where the fan and the strip of one subpath lie in the vertex buffer. */
  datatype GLPath = GLPath(fillOffset: nat, fillCount: nat, strokeOffset: nat, strokeCount: nat)

  /** The shader uniforms of a call: the plain ones of a stencil pass, or
      those `convert_paint` builds from these arguments (with the shader
      type switched to image for triangles). */
  datatype Uniforms =
    | SimpleUniforms
    | PaintUniforms(paint: Paint, scissor: Scissor, width: real, fringe: real, strokeThr: real, asImage: bool)

  /** The uniforms a call reads: the two passes of a fill or a stroke read
      two. */
  function UniformsUsed(t: CallType): nat
  {
    if t == FillType || t == StrokeType then 2 else 1
  }

  /** Everything a call reads while the frame is drawn lies inside the
      buffers: its subpaths, its uniforms and, for a fill's bounding quad
      and for triangles, its vertices. */
  predicate CallFits(c: Call, npaths: nat, nverts: nat, nuniforms: nat)
  {
    && c.pathOffset + c.pathCount <= npaths
    && c.uniformOffset + UniformsUsed(c.callType) <= nuniforms
    && ((c.callType == FillType || c.callType == TrianglesType) ==> c.triangleOffset + c.triangleCount <= nverts)
  }

  /** Each subpath's fill and stroke lie inside the vertex arena. */
  predicate Addressable(arena: seq<Vertex>, ps: seq<Path>)
  {
    forall j :: 0 <= j < |ps| ==> ps[j].fill + ps[j].numFill <= |arena| && ps[j].stroke + ps[j].numStroke <= |arena|
  }

  /** `Path::get_fill` and `Path::get_stroke`. */
  function FillSlice(arena: seq<Vertex>, p: Path): seq<Vertex>
    requires p.fill + p.numFill <= |arena|
  {
    arena[p.fill .. p.fill + p.numFill]
  }

  function StrokeSlice(arena: seq<Vertex>, p: Path): seq<Vertex>
    requires p.stroke + p.numStroke <= |arena|
  {
    arena[p.stroke .. p.stroke + p.numStroke]
  }

  /** The vertices `fill` copies for the first n subpaths: each subpath's
      fill, then its stroke. */
  function FilledVertexes(arena: seq<Vertex>, ps: seq<Path>, n: nat): seq<Vertex>
    requires Addressable(arena, ps) && n <= |ps|
  {
    if n == 0 then []
    else FilledVertexes(arena, ps, n - 1) + FillSlice(arena, ps[n - 1]) + StrokeSlice(arena, ps[n - 1])
  }

  /** The record of one subpath copied at `offset`: an empty fill or
      stroke keeps offset 0. */
  function FillGLPath(arena: seq<Vertex>, p: Path, offset: nat): GLPath
    requires p.fill + p.numFill <= |arena| && p.stroke + p.numStroke <= |arena|
  {
    var nf := |FillSlice(arena, p)|;
    var ns := |StrokeSlice(arena, p)|;
    GLPath(if nf > 0 then offset else 0, nf, if ns > 0 then offset + nf else 0, ns)
  }

  /** The records `fill` pushes for the first n subpaths when the buffer
      held `base` vertices. */
  function FillGLPaths(arena: seq<Vertex>, ps: seq<Path>, n: nat, base: nat): seq<GLPath>
    requires Addressable(arena, ps) && n <= |ps|
  {
    if n == 0 then []
    else FillGLPaths(arena, ps, n - 1, base) + [FillGLPath(arena, ps[n - 1], base + |FilledVertexes(arena, ps, n - 1)|)]
  }

  /** The record g finds the fill f and the stroke s in the buffer v. */
  predicate Located(v: seq<Vertex>, g: GLPath, f: seq<Vertex>, s: seq<Vertex>)
  {
    && g.fillCount == |f| && g.strokeCount == |s|
    && g.fillOffset + |f| <= |v| && v[g.fillOffset .. g.fillOffset + |f|] == f
    && g.strokeOffset + |s| <= |v| && v[g.strokeOffset .. g.strokeOffset + |s|] == s
  }

  /** Appending to the buffer does not move what a record finds. */
  lemma LocatedGrows(v: seq<Vertex>, w: seq<Vertex>, g: GLPath, f: seq<Vertex>, s: seq<Vertex>)
    requires Located(v, g, f, s)
    ensures Located(v + w, g, f, s)
  {
    assert (v + w)[g.fillOffset .. g.fillOffset + |f|] == v[g.fillOffset .. g.fillOffset + |f|];
    assert (v + w)[g.strokeOffset .. g.strokeOffset + |s|] == v[g.strokeOffset .. g.strokeOffset + |s|];
  }

  /** The record of a subpath copied at the end of the buffer vi finds
      what was copied. */
  lemma LocatedLast(vi: seq<Vertex>, f: seq<Vertex>, s: seq<Vertex>, g: GLPath)
    requires g == GLPath(if |f| > 0 then |vi| else 0, |f|, if |s| > 0 then |vi| + |f| else 0, |s|)
    ensures Located(vi + f + s, g, f, s)
  {
    var u := vi + f;
    var v := u + s;
    if |f| > 0 {
      assert u[|vi| ..] == f;
      assert v[|vi| .. |vi| + |f|] == u[|vi| ..];
    }
    if |s| > 0 {
      assert v[|u| ..] == s;
      assert v[|vi| + |f| .. |vi| + |f| + |s|] == v[|u| ..];
    }
  }

  /** `fill` pushes one record per subpath. */
  lemma {:induction false} FillGLPathsLength(arena: seq<Vertex>, ps: seq<Path>, n: nat, base: nat)
    requires Addressable(arena, ps) && n <= |ps|
    ensures |FillGLPaths(arena, ps, n, base)| == n
  {
    if n > 0 {
      FillGLPathsLength(arena, ps, n - 1, base);
    }
  }

  lemma AppendThree<T>(a: seq<T>, b: seq<T>, c: seq<T>, d: seq<T>)
    ensures a + (b + c + d) == a + b + c + d
  {
  }

  /** One step of `fill`'s loop keeps every record finding its subpath:
      the older records still find theirs in the grown buffer, and the new
      one finds what was just copied. */
  lemma LocatedStep(vi: seq<Vertex>, f: seq<Vertex>, s: seq<Vertex>, gi: seq<GLPath>, x: GLPath,
                    j: nat, fj: seq<Vertex>, sj: seq<Vertex>)
    requires j <= |gi|
    requires j < |gi| ==> Located(vi, gi[j], fj, sj)
    requires j == |gi| ==> fj == f && sj == s && x == GLPath(if |f| > 0 then |vi| else 0, |f|, if |s| > 0 then |vi| + |f| else 0, |s|)
    ensures Located(vi + f + s, (gi + [x])[j], fj, sj)
  {
    if j < |gi| {
      assert (gi + [x])[j] == gi[j];
      LocatedGrows(vi, f + s, gi[j], fj, sj);
      assert vi + (f + s) == vi + f + s;
    } else {
      LocatedLast(vi, f, s, x);
    }
  }

  /** The record `fill` pushes for subpath j finds its fill and stroke in
      the vertex buffer: the offset recorded is the buffer's length before
      the copy. */
  lemma {:induction false} FillPathLocated(arena: seq<Vertex>, ps: seq<Path>, n: nat, before: seq<Vertex>, j: nat)
    requires Addressable(arena, ps) && j < n <= |ps|
    ensures |FillGLPaths(arena, ps, n, |before|)| == n
    ensures Located(before + FilledVertexes(arena, ps, n), FillGLPaths(arena, ps, n, |before|)[j],
                    FillSlice(arena, ps[j]), StrokeSlice(arena, ps[j]))
  {
    FillGLPathsLength(arena, ps, n, |before|);
    FillGLPathsLength(arena, ps, n - 1, |before|);
    FillSnoc(arena, ps, n, before);
    var vi := before + FilledVertexes(arena, ps, n - 1);
    var f, s := FillSlice(arena, ps[n - 1]), StrokeSlice(arena, ps[n - 1]);
    var gi, x := FillGLPaths(arena, ps, n - 1, |before|), FillGLPath(arena, ps[n - 1], |vi|);
    if j < n - 1 {
      FillPathLocated(arena, ps, n - 1, before, j);
    }
    LocatedStep(vi, f, s, gi, x, j, FillSlice(arena, ps[j]), StrokeSlice(arena, ps[j]));
  }

  /** The vertices and records of the first n subpaths are those of the
      first n - 1 followed by subpath n - 1's. */
  lemma FillSnoc(arena: seq<Vertex>, ps: seq<Path>, n: nat, before: seq<Vertex>)
    requires Addressable(arena, ps) && 0 < n <= |ps|
    ensures var vi := before + FilledVertexes(arena, ps, n - 1);
      && before + FilledVertexes(arena, ps, n) == vi + FillSlice(arena, ps[n - 1]) + StrokeSlice(arena, ps[n - 1])
      && FillGLPaths(arena, ps, n, |before|) == FillGLPaths(arena, ps, n - 1, |before|) + [FillGLPath(arena, ps[n - 1], |vi|)]
  {
    AppendThree(before, FilledVertexes(arena, ps, n - 1), FillSlice(arena, ps[n - 1]), StrokeSlice(arena, ps[n - 1]));
  }

  /** Every record `fill` pushes finds its subpath. */
  lemma FillPathsLocate(arena: seq<Vertex>, ps: seq<Path>, before: seq<Vertex>)
    requires Addressable(arena, ps)
    ensures |FillGLPaths(arena, ps, |ps|, |before|)| == |ps|
    ensures forall j :: 0 <= j < |ps| ==>
      Located(before + FilledVertexes(arena, ps, |ps|), FillGLPaths(arena, ps, |ps|, |before|)[j],
              FillSlice(arena, ps[j]), StrokeSlice(arena, ps[j]))
  {
    FillGLPathsLength(arena, ps, |ps|, |before|);
    forall j | 0 <= j < |ps|
      ensures Located(before + FilledVertexes(arena, ps, |ps|), FillGLPaths(arena, ps, |ps|, |before|)[j],
                      FillSlice(arena, ps[j]), StrokeSlice(arena, ps[j]))
    {
      FillPathLocated(arena, ps, |ps|, before, j);
    }
  }

  /** The vertices `stroke` copies for the first n subpaths: each
      subpath's stroke. */
  function StrokedVertexes(arena: seq<Vertex>, ps: seq<Path>, n: nat): seq<Vertex>
    requires Addressable(arena, ps) && n <= |ps|
  {
    if n == 0 then [] else StrokedVertexes(arena, ps, n - 1) + StrokeSlice(arena, ps[n - 1])
  }

  /** The records `stroke` pushes for the first n subpaths when the buffer
      held `base` vertices: one for each subpath with a stroke, none for
      the others. */
  function StrokeGLPaths(arena: seq<Vertex>, ps: seq<Path>, n: nat, base: nat): seq<GLPath>
    requires Addressable(arena, ps) && n <= |ps|
  {
    if n == 0 then []
    else
      var s := StrokeSlice(arena, ps[n - 1]);
      StrokeGLPaths(arena, ps, n - 1, base)
        + (if |s| > 0 then [GLPath(0, 0, base + |StrokedVertexes(arena, ps, n - 1)|, |s|)] else [])
  }

  /** The first n subpaths all have a stroke to draw. */
  predicate AllStrokesDrawn(ps: seq<Path>, n: nat)
    requires n <= |ps|
  {
    forall j :: 0 <= j < n ==> ps[j].numStroke > 0
  }

  /** `stroke` pushes one record per subpath exactly when every subpath
      has a stroke; otherwise fewer. */
  lemma {:induction false} StrokePathsCount(arena: seq<Vertex>, ps: seq<Path>, n: nat, base: nat)
    requires Addressable(arena, ps) && n <= |ps|
    ensures |StrokeGLPaths(arena, ps, n, base)| <= n
    ensures |StrokeGLPaths(arena, ps, n, base)| == n <==> AllStrokesDrawn(ps, n)
  {
    if n > 0 {
      StrokePathsCount(arena, ps, n - 1, base);
      if !AllStrokesDrawn(ps, n) && ps[n - 1].numStroke > 0 {
        var j :| 0 <= j < n && ps[j].numStroke == 0;
        assert !AllStrokesDrawn(ps, n - 1);
      }
    }
  }

  /** A subpath filled without a fringe (anti-aliasing off) has no
      stroke, so `fill` records it with stroke offset 0 and count 0; the
      anti-aliasing strip pass of `do_fill` still converts that strip, and
      the loop bound 0 + 0 - 2 has no value in u16, whereas the strip
      conversion with the short-count guard adds nothing. */
  lemma UnfringedFillStripUnderflows(arena: seq<Vertex>, p: Path, offset: nat)
    requires p.fill + p.numFill <= |arena| && p.stroke + p.numStroke <= |arena|
    requires p.numStroke == 0
    ensures var g := FillGLPath(arena, p, offset);
      && g.strokeOffset == 0 && g.strokeCount == 0
      && LoopEndAsWritten(g.strokeOffset, g.strokeCount) == None
      && StripIndices(g.strokeOffset, g.strokeCount) == []
  {
  }

  /** A subpath with no points (a lone MoveTo, which closing empties) gets
      no fill vertices, so `fill` records it with fill offset 0 and count 0;
      `do_fill` and `do_convex_fill` both convert its fan without a guard,
      and the loop bound 0 + 0 - 2 has no value in u16, whereas the fan
      conversion with the short-count guard adds nothing. */
  lemma EmptyFillFanUnderflows(arena: seq<Vertex>, p: Path, offset: nat)
    requires p.fill + p.numFill <= |arena| && p.stroke + p.numStroke <= |arena|
    requires p.numFill == 0
    ensures var g := FillGLPath(arena, p, offset);
      && g.fillOffset == 0 && g.fillCount == 0
      && LoopEndAsWritten(g.fillOffset, g.fillCount) == None
      && FanIndices(g.fillOffset, g.fillCount) == []
  {
  }

  /** The canvas strokes every subpath with at least two vertices, so what
      it hands `stroke` always gets one record per subpath. */
  lemma CanvasStrokesAllDrawn(ps: seq<Path>)
    requires StrokesLong(ps)
    ensures AllStrokesDrawn(ps, |ps|)
  {
  }

  /** The four vertices of a fill's bounding quad. */
  function BoundsQuad(b: Bounds): seq<Vertex>
  {
    [Vertex(b.max.x, b.max.y, 0.5, 1.0), Vertex(b.max.x, b.min.y, 0.5, 1.0),
     Vertex(b.min.x, b.max.y, 0.5, 1.0), Vertex(b.min.x, b.min.y, 0.5, 1.0)]
  }

  /** The renderer's buffers for the frame being collected. */
  class Renderer {
    var view: Extent
    var calls: seq<Call>
    var paths: seq<GLPath>
    var vertexes: seq<Vertex>
    var uniforms: seq<Uniforms>

    /** Every call recorded can be drawn from the buffers. */
    predicate Valid()
      reads this
    {
      forall i :: 0 <= i < |calls| ==> CallFits(calls[i], |paths|, |vertexes|, |uniforms|)
    }

    /** `Renderer::create`, without its pipeline and buffers. */
    constructor Create()
      ensures Valid() && calls == [] && paths == [] && vertexes == [] && uniforms == []
      ensures view == Extent(0.0, 0.0)
    {
      view := Extent(0.0, 0.0);
      calls, paths, vertexes, uniforms := [], [], [], [];
    }

    /** `viewport`. */
    method Viewport(extent: Extent)
      modifies this
      ensures view == extent
      ensures calls == old(calls) && paths == old(paths) && vertexes == old(vertexes) && uniforms == old(uniforms)
    {
      view := extent;
    }

    /** `cancel`: the frame collected so far is dropped. */
    method Cancel()
      modifies this
      ensures Valid() && calls == [] && paths == [] && vertexes == [] && uniforms == []
      ensures view == old(view)
    {
      vertexes := [];
      paths := [];
      calls := [];
      uniforms := [];
    }

    /** `flush`: the calls collected are drawn, in order, and on both exits
        the buffers are emptied for the next frame. */
    method Flush() returns (drawn: seq<Call>)
      modifies this
      ensures drawn == old(calls)
      ensures Valid() && calls == [] && paths == [] && vertexes == [] && uniforms == []
      ensures view == old(view)
    {
      drawn := calls;
      if |calls| == 0 {
        vertexes := [];
        paths := [];
        calls := [];
        uniforms := [];
        return;
      }
      vertexes := [];
      paths := [];
      calls := [];
      uniforms := [];
    }

    /** Older calls keep fitting when buffers only grow. */
    lemma GrownFits(c0: seq<Call>, np: nat, nv: nat, nu: nat)
      requires forall i :: 0 <= i < |c0| ==> CallFits(c0[i], np, nv, nu)
      requires np <= |paths| && nv <= |vertexes| && nu <= |uniforms|
      ensures forall i :: 0 <= i < |c0| ==> CallFits(c0[i], |paths|, |vertexes|, |uniforms|)
    {
    }

    /** One subpath of `fill`'s loop: its fill, then its stroke, appended
        to the vertex buffer, and the record of where they went. */
    method CopyFill(arena: seq<Vertex>, path: Path, offset0: nat) returns (offset: nat)
      requires path.fill + path.numFill <= |arena| && path.stroke + path.numStroke <= |arena|
      requires offset0 == |vertexes|
      modifies this
      ensures vertexes == old(vertexes) + FillSlice(arena, path) + StrokeSlice(arena, path) && offset == |vertexes|
      ensures paths == old(paths) + [FillGLPath(arena, path, offset0)]
      ensures calls == old(calls) && uniforms == old(uniforms) && view == old(view)
    {
      offset := offset0;
      var fill := FillSlice(arena, path);
      var glPath := GLPath(0, 0, 0, 0);
      if |fill| > 0 {
        glPath := glPath.(fillOffset := offset, fillCount := |fill|);
        vertexes := vertexes + fill;
        offset := offset + |fill|;
      }
      var stroke := StrokeSlice(arena, path);
      if |stroke| > 0 {
        glPath := glPath.(strokeOffset := offset, strokeCount := |stroke|);
        vertexes := vertexes + stroke;
        offset := offset + |stroke|;
      }
      paths := paths + [glPath];
    }

    /** The loop of `fill`: each subpath's fill and stroke appended to the
        vertex buffer, and a record of where they went; returns the
        buffer's new length. */
    method CopyFills(arena: seq<Vertex>, ps: seq<Path>) returns (offset: nat)
      requires Addressable(arena, ps)
      modifies this
      ensures vertexes == old(vertexes) + FilledVertexes(arena, ps, |ps|) && offset == |vertexes|
      ensures paths == old(paths) + FillGLPaths(arena, ps, |ps|, |old(vertexes)|)
      ensures calls == old(calls) && uniforms == old(uniforms) && view == old(view)
    {
      ghost var v0, p0 := vertexes, paths;
      offset := |vertexes|;
      var j := 0;
      while j < |ps|
        invariant 0 <= j <= |ps|
        invariant vertexes == v0 + FilledVertexes(arena, ps, j) && offset == |vertexes|
        invariant paths == p0 + FillGLPaths(arena, ps, j, |v0|)
        invariant calls == old(calls) && uniforms == old(uniforms) && view == old(view)
      {
        offset := CopyFill(arena, ps[j], offset);
        AppendThree(v0, FilledVertexes(arena, ps, j), FillSlice(arena, ps[j]), StrokeSlice(arena, ps[j]));
        j := j + 1;
      }
    }

    /** The loop of `stroke`: each subpath's stroke appended to the vertex
        buffer, with a record of where it went when there is one. */
    method CopyStrokes(arena: seq<Vertex>, ps: seq<Path>)
      requires Addressable(arena, ps)
      modifies this
      ensures vertexes == old(vertexes) + StrokedVertexes(arena, ps, |ps|)
      ensures paths == old(paths) + StrokeGLPaths(arena, ps, |ps|, |old(vertexes)|)
      ensures calls == old(calls) && uniforms == old(uniforms) && view == old(view)
    {
      ghost var v0, p0 := vertexes, paths;
      var offset := |vertexes|;
      var j := 0;
      while j < |ps|
        invariant 0 <= j <= |ps|
        invariant vertexes == v0 + StrokedVertexes(arena, ps, j) && offset == |vertexes|
        invariant paths == p0 + StrokeGLPaths(arena, ps, j, |v0|)
        invariant calls == old(calls) && uniforms == old(uniforms) && view == old(view)
      {
        var glPath := GLPath(0, 0, 0, 0);
        var stroke := StrokeSlice(arena, ps[j]);
        if |stroke| > 0 {
          glPath := glPath.(strokeOffset := offset, strokeCount := |stroke|);
          vertexes := vertexes + stroke;
          offset := offset + |stroke|;
          paths := paths + [glPath];
        }
        j := j + 1;
      }
    }

    /** The four corners of the bounds pushed for the stencil fill's cover
        quad. */
    method PushBoundsQuad(bounds: Bounds)
      modifies this
      ensures vertexes == old(vertexes) + BoundsQuad(bounds)
      ensures paths == old(paths) && calls == old(calls) && uniforms == old(uniforms) && view == old(view)
    {
      vertexes := vertexes + [Vertex(bounds.max.x, bounds.max.y, 0.5, 1.0)];
      vertexes := vertexes + [Vertex(bounds.max.x, bounds.min.y, 0.5, 1.0)];
      vertexes := vertexes + [Vertex(bounds.min.x, bounds.max.y, 0.5, 1.0)];
      vertexes := vertexes + [Vertex(bounds.min.x, bounds.min.y, 0.5, 1.0)];
    }

    /** `fill`: each subpath's fill and stroke copied into the vertex
        buffer with a record of where they went; a single convex subpath is
        drawn as a convex fill with one uniform, anything else through the
        stencil with the bounding quad appended and two uniforms. */
    method Fill(paint: Paint, op: CompositeOperationState, scissor: Scissor, fringe: real, bounds: Bounds,
                arena: seq<Vertex>, ps: seq<Path>)
      requires Valid() && Addressable(arena, ps)
      modifies this
      ensures Valid() && view == old(view)
      ensures var convex := |ps| == 1 && ps[0].convex;
        var quad := |old(vertexes)| + |FilledVertexes(arena, ps, |ps|)|;
        && vertexes == old(vertexes) + FilledVertexes(arena, ps, |ps|) + (if convex then [] else BoundsQuad(bounds))
        && paths == old(paths) + FillGLPaths(arena, ps, |ps|, |old(vertexes)|)
        && calls == old(calls) + [Call(if convex then ConvexFillType else FillType, paint.image, |old(paths)|, |ps|,
                                       if convex then 0 else quad, 4, |old(uniforms)|, BlendOf(op))]
        && uniforms == old(uniforms)
             + (if convex then [] else [SimpleUniforms])
             + [PaintUniforms(paint, scissor, fringe, fringe, -1.0, false)]
    {
      var call := Call(FillType, paint.image, |paths|, |ps|, 0, 4, 0, BlendOf(op));
      if |ps| == 1 && ps[0].convex {
        call := call.(callType := ConvexFillType);
      }
      ghost var v0, p0, c0, u0 := vertexes, paths, calls, uniforms;
      var offset := CopyFills(arena, ps);
      if call.callType == FillType {
        call := call.(triangleOffset := offset);
        PushBoundsQuad(bounds);
        call := call.(uniformOffset := |uniforms|);
        uniforms := uniforms + [SimpleUniforms];
        uniforms := uniforms + [PaintUniforms(paint, scissor, fringe, fringe, -1.0, false)];
      } else {
        call := call.(uniformOffset := |uniforms|);
        uniforms := uniforms + [PaintUniforms(paint, scissor, fringe, fringe, -1.0, false)];
      }
      FillGLPathsLength(arena, ps, |ps|, |v0|);
      GrownFits(c0, |p0|, |v0|, |u0|);
      calls := calls + [call];
      assert calls[|calls| - 1] == call;
    }

    /** `stroke`: each subpath's stroke copied into the vertex buffer, a
        record pushed only for a subpath that has one, yet the call claims
        one record per subpath; two uniforms, the second for the
        anti-aliasing pass. The calls stay drawable exactly when every
        subpath has a stroke. */
    method Stroke(paint: Paint, op: CompositeOperationState, scissor: Scissor, fringe: real, strokeWidth: real,
                  arena: seq<Vertex>, ps: seq<Path>)
      requires Valid() && Addressable(arena, ps)
      modifies this
      ensures Valid() <==> AllStrokesDrawn(ps, |ps|)
      ensures view == old(view)
      ensures vertexes == old(vertexes) + StrokedVertexes(arena, ps, |ps|)
      ensures paths == old(paths) + StrokeGLPaths(arena, ps, |ps|, |old(vertexes)|)
      ensures calls == old(calls) + [Call(StrokeType, paint.image, |old(paths)|, |ps|, 0, 0, |old(uniforms)|, BlendOf(op))]
      ensures uniforms == old(uniforms) + [PaintUniforms(paint, scissor, strokeWidth, fringe, -1.0, false),
                                           PaintUniforms(paint, scissor, strokeWidth, fringe, 1.0 - 0.5 / 255.0, false)]
    {
      var call := Call(StrokeType, paint.image, |paths|, |ps|, 0, 0, 0, BlendOf(op));
      ghost var v0, p0, c0, u0 := vertexes, paths, calls, uniforms;
      CopyStrokes(arena, ps);
      call := call.(uniformOffset := |uniforms|);
      uniforms := uniforms + [PaintUniforms(paint, scissor, strokeWidth, fringe, -1.0, false)];
      uniforms := uniforms + [PaintUniforms(paint, scissor, strokeWidth, fringe, 1.0 - 0.5 / 255.0, false)];
      GrownFits(c0, |p0|, |v0|, |u0|);
      calls := calls + [call];
      StrokePathsCount(arena, ps, |ps|, |v0|);
      assert CallFits(call, |paths|, |vertexes|, |uniforms|) <==> AllStrokesDrawn(ps, |ps|);
      assert calls[|calls| - 1] == call;
    }

    /** `triangles`: the vertices appended as they are, one call reading
        exactly them and one image uniform. */
    method Triangles(paint: Paint, op: CompositeOperationState, scissor: Scissor, verts: seq<Vertex>)
      requires Valid()
      modifies this
      ensures Valid() && view == old(view)
      ensures calls == old(calls) + [Call(TrianglesType, paint.image, 0, 0, |old(vertexes)|, |verts|, |old(uniforms)|, BlendOf(op))]
      ensures vertexes == old(vertexes) + verts && paths == old(paths)
      ensures uniforms == old(uniforms) + [PaintUniforms(paint, scissor, 1.0, 1.0, -1.0, true)]
    {
      var call := Call(TrianglesType, paint.image, 0, 0, |vertexes|, |verts|, |uniforms|, BlendOf(op));
      ghost var v0, p0, c0, u0 := vertexes, paths, calls, uniforms;
      calls := calls + [call];
      vertexes := vertexes + verts;
      var u := PaintUniforms(paint, scissor, 1.0, 1.0, -1.0, false);
      u := u.(asImage := true);
      uniforms := uniforms + [u];
      GrownFits(c0, |p0|, |v0|, |u0|);
      assert calls[|calls| - 1] == call;
    }
  }
}
