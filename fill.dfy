// What `expand_fill` writes for the interior of one subpath
// (nona/src/cache.rs:598-653): the polygon itself, or with a fringe the
// polygon pulled in by half the fringe width.  The anti-aliasing ring round
// it is a `RingRun` of bevel joins (module Expand).
module Fill {
  import opened Numerics
  import opened CanvasTypes
  import opened CacheSpec
  import opened Emitters
  import opened Expand

  /** Every vertex sits at the middle of the texture's u range, on its solid
      part: the interior of a fill is never faded. */
  predicate Interior(r: seq<Vertex>)
  {
    forall k :: 0 <= k < |r| ==> r[k].u == 0.5 && r[k].v == 1.0
  }

  /** The vertices of the pulled-in polygon at p1 (reached from p0): a
      PT_BEVEL point that does not turn left is cut by two vertices, one
      along the left normal of each segment meeting there; every other point
      moves along its extrusion `dm`. */
  function FillPointRun(p0: VPoint, p1: VPoint, woff: real): (r: seq<Vertex>)
    ensures |r| == FillPointWrites(p1)
    ensures Interior(r)
    ensures woff == 0.0 ==> forall k :: 0 <= k < |r| ==> r[k].x == p1.xy.x && r[k].y == p1.xy.y
  {
    if PtBevel in p1.flags && PtLeft !in p1.flags then
      [ Vertex(p1.xy.x + p0.d.y * woff, p1.xy.y - p0.d.x * woff, 0.5, 1.0),
        Vertex(p1.xy.x + p1.d.y * woff, p1.xy.y - p1.d.x * woff, 0.5, 1.0) ]
    else
      [Vertex(p1.xy.x + p1.dm.x * woff, p1.xy.y + p1.dm.y * woff, 0.5, 1.0)]
  }

  /** One run per point of a closed subpath. */
  function FillPoints(s: seq<VPoint>, woff: real): (fs: seq<seq<Vertex>>)
    ensures |fs| == |s|
  {
    seq(|s|, i requires 0 <= i < |s| => FillPointRun(s[Prev(i, |s|)], s[i], woff))
  }

  /** The vertex of a fill without fringe at point q: the point itself. */
  function PlainVertex(q: VPoint): (v: Vertex)
    ensures v.x == q.xy.x && v.y == q.xy.y && v.u == 0.5 && v.v == 1.0
  {
    Vertex(q.xy.x, q.xy.y, 0.5, 1.0)
  }

  /** The interior of a fill: with a fringe the pulled-in polygon, without
      one the points themselves.  It has one vertex per point, and with a
      fringe one more at each bevelled point that does not turn left. */
  function FillRun(s: seq<VPoint>, fringe: bool, woff: real): (r: seq<Vertex>)
    ensures |r| == if fringe then FillSum(s) else |s|
  {
    if fringe then
      FillPrefixLength(s, woff, |s|);
      assert s[..|s|] == s;
      assert FillPoints(s, woff)[..|s|] == FillPoints(s, woff);
      Concat(FillPoints(s, woff))
    else seq(|s|, i requires 0 <= i < |s| => PlainVertex(s[i]))
  }

  lemma {:induction false} FillPrefixLength(s: seq<VPoint>, woff: real, k: nat)
    requires k <= |s|
    ensures |Concat(FillPoints(s, woff)[..k])| == FillSum(s[..k])
  {
    if k > 0 {
      FillPrefixLength(s, woff, k - 1);
      ConcatStep(FillPoints(s, woff), k - 1);
      assert s[..k][..k - 1] == s[..k - 1];
    }
  }

  /** Every vertex of the interior is at mid texture and solid; without a
      fringe the interior passes through the points of the subpath in order. */
  lemma FillRunShape(s: seq<VPoint>, fringe: bool, woff: real)
    ensures Interior(FillRun(s, fringe, woff))
    ensures !fringe ==> forall i :: 0 <= i < |s| ==>
      FillRun(s, fringe, woff)[i].x == s[i].xy.x && FillRun(s, fringe, woff)[i].y == s[i].xy.y
  {
    if fringe {
      ConcatInterior(FillPoints(s, woff));
    }
  }

  lemma {:induction false} ConcatInterior(runs: seq<seq<Vertex>>)
    requires forall i :: 0 <= i < |runs| ==> Interior(runs[i])
    ensures Interior(Concat(runs))
    decreases |runs|
  {
    if |runs| > 0 {
      var init := runs[..|runs| - 1];
      ConcatInterior(init);
      var r := Concat(init) + runs[|runs| - 1];
      assert forall k :: |Concat(init)| <= k < |r| ==> r[k] == runs[|runs| - 1][k - |Concat(init)|];
    }
  }

  /** The interior of a fill, written at `dst`. */
  method WriteFillInterior(a: array<Vertex>, dst: nat, s: seq<VPoint>, fringe: bool, woff: real) returns (end: nat)
    requires dst + (if fringe then FillSum(s) else |s|) <= a.Length
    modifies a
    ensures end == dst + (if fringe then FillSum(s) else |s|)
    ensures a[..] == old(a[..dst]) + FillRun(s, fringe, woff) + old(a[end..])
  {
    if fringe {
      end := WritePulledIn(a, dst, s, woff);
    } else {
      end := WritePlain(a, dst, s);
    }
  }

  /** The loop of a fringed fill: the pulled-in vertices of one point per
      iteration. */
  method WritePulledIn(a: array<Vertex>, dst: nat, s: seq<VPoint>, woff: real) returns (end: nat)
    requires dst + FillSum(s) <= a.Length
    modifies a
    ensures end == dst + FillSum(s)
    ensures a[..] == old(a[..dst]) + FillRun(s, true, woff) + old(a[end..])
  {
    ghost var base := a[..];
    ghost var fs := FillPoints(s, woff);
    assert |FillRun(s, true, woff)| == FillSum(s);
    end := dst;
    var i := 0;
    while i < |s|
      invariant 0 <= i <= |s|
      invariant end == dst + |Concat(fs[..i])|
      invariant end <= dst + |Concat(fs)|
      invariant a[..] == base[..dst] + Concat(fs[..i]) + base[end..]
    {
      ConcatStep(fs, i);
      ConcatPrefix(fs, i + 1);
      var run := FillPointRun(s[Prev(i, |s|)], s[i], woff);
      assert run == fs[i];
      end := Extend(a, base, dst, Concat(fs[..i]), end, run);
      i := i + 1;
    }
    assert fs[..|s|] == fs;
  }

  /** The loop of a fill without fringe: one vertex per point. */
  method WritePlain(a: array<Vertex>, dst: nat, s: seq<VPoint>) returns (end: nat)
    requires dst + |s| <= a.Length
    modifies a
    ensures end == dst + |s|
    ensures a[..] == old(a[..dst]) + FillRun(s, false, 0.0) + old(a[end..])
  {
    var j := 0;
    while j < |s|
      invariant 0 <= j <= |s|
      invariant forall k :: 0 <= k < a.Length ==> a[k] == if dst <= k < dst + j then PlainVertex(s[k - dst]) else old(a[k])
    {
      a[dst + j] := Vertex(s[j].xy.x, s[j].xy.y, 0.5, 1.0);
      j := j + 1;
    }
    end := dst + |s|;
    ghost var r := FillRun(s, false, 0.0);
    assert a[..] == old(a[..dst]) + r + old(a[end..]) by {
      assert forall k :: 0 <= k < a.Length ==> a[..][k] == (old(a[..dst]) + r + old(a[end..]))[k];
    }
  }

  /** Bevel joins call no library function: this stands in for the library
      where a ring of bevel joins is built. */
  const NoLibm: Libm := Libm(x => 0.0, x => 0.0, (y, x) => 0.0, x => 0.0, x => 0.0, x => 0.0)

  /** How far the outer edge of the anti-aliasing ring lies from the
      points: w + woff, or only woff for a lone convex subpath. */
  function FringeOuter(w: real, woff: real, convex: bool): real
  {
    if convex then woff else w + woff
  }

  /** The texture coordinate of the outer edge of the ring: faded (0), or
      from the middle of the texture (0.5) for a lone convex subpath. */
  function FringeOuterU(convex: bool): real
  {
    if convex then 0.5 else 0.0
  }

  /** The anti-aliasing ring round the interior of a fringed fill: a bevel
      join at every bevelled point, elsewhere the point extruded by
      `FringeOuter` outwards (u = `FringeOuterU`) and by w - woff inwards
      (u = 1), then the first pair again.  It fits the reservation of a
      bevel-joined ring. */
  function FringeRun(s: seq<VPoint>, w: real, woff: real, convex: bool, under: seq<Vertex>): (r: seq<Vertex>)
    requires |under| == 2
    ensures 2 <= |r| <= JoinSum(s, LineJoin.Bevel, 2) + 2
    ensures r[|r| - 2].u == (if convex then 0.5 else 0.0) && r[|r| - 1].u == 1.0
    ensures |s| > 0 ==>
      r[|r| - 2].x == r[0].x && r[|r| - 2].y == r[0].y && r[|r| - 1].x == r[1].x && r[|r| - 1].y == r[1].y
  {
    RingJoinsFit(s, LineJoin.Bevel, FringeOuter(w, woff, convex), w - woff, FringeOuterU(convex), 1.0, 2, NoLibm);
    RingRun(s, LineJoin.Bevel, FringeOuter(w, woff, convex), w - woff, FringeOuterU(convex), 1.0, 2, NoLibm, under)
  }

  /** The ring of a fringed fill is the bevel-joined ring at the fringe's
      offsets. */
  lemma FringeIsRing(s: seq<VPoint>, w: real, woff: real, convex: bool, under: seq<Vertex>)
    requires |under| == 2
    ensures FringeRun(s, w, woff, convex, under)
         == RingRun(s, LineJoin.Bevel, FringeOuter(w, woff, convex), w - woff, FringeOuterU(convex), 1.0, 2, NoLibm, under)
  {
  }

  /** A ring of bevel joins round s, offset by lw to the left and rw to the
      right, written at `dst`: the anti-aliasing ring of a fringed fill. */
  method WriteFringe(a: array<Vertex>, dst: nat, s: seq<VPoint>, lw: real, rw: real, lu: real) returns (end: nat)
    requires dst + JoinSum(s, LineJoin.Bevel, 2) + 2 <= a.Length
    modifies a
    ensures dst + 2 <= end <= dst + JoinSum(s, LineJoin.Bevel, 2) + 2
    ensures a[..] == old(a[..dst]) + RingRun(s, LineJoin.Bevel, lw, rw, lu, 1.0, 2, NoLibm, old(a[dst..dst + 2])) + old(a[end..])
  {
    RingJoinsFit(s, LineJoin.Bevel, lw, rw, lu, 1.0, 2, NoLibm);
    end := WriteRing(a, dst, s, LineJoin.Bevel, lw, rw, lu, 1.0, 2, NoLibm);
  }
}
