// The cap and join emitters of the stroke and fill expansion
// (nona/src/cache.rs: bevel_join, round_join, butt_cap_start/end,
// round_cap_start/end).  Each writes a fixed run of vertices into the arena
// starting at index `dst` and returns the index after the last one written;
// nothing outside that run changes.
module Emitters {
  import opened Numerics
  import opened Geometry
  import opened CanvasTypes
  import opened CacheSpec

  /** The vertices of `butt_cap_start`: a fringe pair pulled back by `aa`
      along the direction (dx, dy), then the solid pair, both square to the
      direction and centred on the cap point, which is `p` moved back by `d`
      along the direction. */
  function ButtCapStartRun(p: VPoint, dx: real, dy: real, w: real, d: real,
                           aa: real, u0: real, u1: real): (r: seq<Vertex>)
    ensures |r| == 4
    ensures r[0].u == u0 && r[1].u == u1 && r[2].u == u0 && r[3].u == u1
    ensures r[0].v == 0.0 && r[1].v == 0.0 && r[2].v == 1.0 && r[3].v == 1.0
  {
    var px := p.xy.x - dx * d;
    var py := p.xy.y - dy * d;
    var dlx := dy;
    var dly := -dx;
    [ Vertex(px + dlx * w - dx * aa, py + dly * w - dy * aa, u0, 0.0),
      Vertex(px - dlx * w - dx * aa, py - dly * w - dy * aa, u1, 0.0),
      Vertex(px + dlx * w, py + dly * w, u0, 1.0),
      Vertex(px - dlx * w, py - dly * w, u1, 1.0) ]
  }

  /** The vertices of `butt_cap_end`: the solid pair, centred on `p` moved
      back by `d`, then the fringe pair pushed on by `aa` along the direction. */
  function ButtCapEndRun(p: VPoint, dx: real, dy: real, w: real, d: real,
                         aa: real, u0: real, u1: real): (r: seq<Vertex>)
    ensures |r| == 4
    ensures r[0].u == u0 && r[1].u == u1 && r[2].u == u0 && r[3].u == u1
    ensures r[0].v == 1.0 && r[1].v == 1.0 && r[2].v == 0.0 && r[3].v == 0.0
  {
    var px := p.xy.x - dx * d;
    var py := p.xy.y - dy * d;
    var dlx := dy;
    var dly := -dx;
    [ Vertex(px + dlx * w, py + dly * w, u0, 1.0),
      Vertex(px - dlx * w, py - dly * w, u1, 1.0),
      Vertex(px + dlx * w + dx * aa, py + dly * w + dy * aa, u0, 0.0),
      Vertex(px - dlx * w + dx * aa, py - dly * w + dy * aa, u1, 0.0) ]
  }

  /** Where the butt cap at the start puts its vertices: the solid pair is
      centred on `p` moved back by `d`, spread by `w` square to the
      direction, and the fringe pair is the solid pair moved back by `aa`. */
  lemma ButtCapStartShape(p: VPoint, dx: real, dy: real, w: real, d: real, aa: real, u0: real, u1: real)
    ensures var r := ButtCapStartRun(p, dx, dy, w, d, aa, u0, u1);
      && r[2].x + r[3].x == 2.0 * (p.xy.x - dx * d) && r[2].y + r[3].y == 2.0 * (p.xy.y - dy * d)
      && r[2].x - r[3].x == 2.0 * dy * w && r[2].y - r[3].y == -2.0 * dx * w
      && r[0].x == r[2].x - dx * aa && r[0].y == r[2].y - dy * aa
      && r[1].x == r[3].x - dx * aa && r[1].y == r[3].y - dy * aa
  {
  }

  /** Where the butt cap at the end puts its vertices: the solid pair as at
      the start, and the fringe pair moved on by `aa`. */
  lemma ButtCapEndShape(p: VPoint, dx: real, dy: real, w: real, d: real, aa: real, u0: real, u1: real)
    ensures var r := ButtCapEndRun(p, dx, dy, w, d, aa, u0, u1);
      && r[0].x + r[1].x == 2.0 * (p.xy.x - dx * d) && r[0].y + r[1].y == 2.0 * (p.xy.y - dy * d)
      && r[0].x - r[1].x == 2.0 * dy * w && r[0].y - r[1].y == -2.0 * dx * w
      && r[2].x == r[0].x + dx * aa && r[2].y == r[0].y + dy * aa
      && r[3].x == r[1].x + dx * aa && r[3].y == r[1].y + dy * aa
  {
  }

  /** `butt_cap_start`: writes its four vertices at `dst`. */
  method ButtCapStart(a: array<Vertex>, dst: nat, p: VPoint, dx: real, dy: real, w: real, d: real,
                      aa: real, u0: real, u1: real) returns (end: nat)
    requires dst + 4 <= a.Length
    modifies a
    ensures end == dst + 4
    ensures a[..] == old(a[..dst]) + ButtCapStartRun(p, dx, dy, w, d, aa, u0, u1) + old(a[end..])
  {
    end := WriteRun(a, dst, ButtCapStartRun(p, dx, dy, w, d, aa, u0, u1));
  }

  /** `butt_cap_end`: writes its four vertices at `dst`. */
  method ButtCapEnd(a: array<Vertex>, dst: nat, p: VPoint, dx: real, dy: real, w: real, d: real,
                    aa: real, u0: real, u1: real) returns (end: nat)
    requires dst + 4 <= a.Length
    modifies a
    ensures end == dst + 4
    ensures a[..] == old(a[..dst]) + ButtCapEndRun(p, dx, dy, w, d, aa, u0, u1) + old(a[end..])
  {
    end := WriteRun(a, dst, ButtCapEndRun(p, dx, dy, w, d, aa, u0, u1));
  }

  /** The vertex at the centre of a cap or join: the point itself, at the
      middle of the texture's u range. */
  function Centre(p: VPoint): (v: Vertex)
    ensures v.x == p.xy.x && v.y == p.xy.y && v.u == 0.5 && v.v == 1.0
  {
    Vertex(p.xy.x, p.xy.y, 0.5, 1.0)
  }

  /** Step i of a round cap's half turn: the rim vertex at angle
      i/(ncap-1)·PI round `p`, paired with the centre.  A start cap puts the
      rim vertex first and sweeps backwards along the direction, an end cap
      puts the centre first and sweeps forwards. */
  function CapPair(start: bool, p: VPoint, dx: real, dy: real, w: real, ncap: Divs,
                   u0: real, i: int, lib: Libm): (r: seq<Vertex>)
    ensures |r| == 2 && r[if start then 1 else 0] == Centre(p)
    ensures r[if start then 0 else 1].u == u0 && r[0].v == 1.0 && r[1].v == 1.0
  {
    var ang := (i as real) / ((ncap - 1) as real) * PI;
    var ax := lib.cos(ang) * w;
    var ay := lib.sin(ang) * w;
    var dlx := dy;
    var dly := -dx;
    if start then [Vertex(p.xy.x - dlx * ax - dx * ay, p.xy.y - dly * ax - dy * ay, u0, 1.0), Centre(p)]
    else [Centre(p), Vertex(p.xy.x - dlx * ax + dx * ay, p.xy.y - dly * ax + dy * ay, u0, 1.0)]
  }

  /** The first i steps of a round cap's fan. */
  function CapFan(start: bool, p: VPoint, dx: real, dy: real, w: real, ncap: Divs,
                  u0: real, i: nat, lib: Libm): (r: seq<Vertex>)
    ensures |r| == 2 * i
  {
    if i == 0 then []
    else CapFan(start, p, dx, dy, w, ncap, u0, i - 1, lib) + CapPair(start, p, dx, dy, w, ncap, u0, i - 1, lib)
  }

  /** Every step of a fan pairs a rim vertex at u0 with the centre, and the
      whole fan lies on the solid part of the stroke. */
  lemma {:induction false} CapFanShape(start: bool, p: VPoint, dx: real, dy: real, w: real, ncap: Divs,
                                       u0: real, i: nat, lib: Libm)
    ensures var r := CapFan(start, p, dx, dy, w, ncap, u0, i, lib);
      && (forall k :: 0 <= k < i ==> r[2 * k + (if start then 1 else 0)] == Centre(p))
      && (forall k :: 0 <= k < i ==> r[2 * k + (if start then 0 else 1)].u == u0)
      && AllSolid(r)
  {
    if i > 0 {
      CapFanShape(start, p, dx, dy, w, ncap, u0, i - 1, lib);
      var prev := CapFan(start, p, dx, dy, w, ncap, u0, i - 1, lib);
      var pair := CapPair(start, p, dx, dy, w, ncap, u0, i - 1, lib);
      var r := prev + pair;
      assert forall k :: 0 <= k < i - 1 ==> r[2 * k] == prev[2 * k] && r[2 * k + 1] == prev[2 * k + 1];
    }
  }

  /** Every vertex of the run lies on the solid part of the stroke (v = 1). */
  predicate AllSolid(r: seq<Vertex>)
  {
    forall k :: 0 <= k < |r| ==> r[k].v == 1.0
  }

  /** The solid pair square to the direction at `p`, spread by w to each side. */
  function SidePair(p: VPoint, dx: real, dy: real, w: real, u0: real, u1: real): (r: seq<Vertex>)
    ensures |r| == 2 && r[0].u == u0 && r[1].u == u1 && r[0].v == 1.0 && r[1].v == 1.0
    ensures r[0].x + r[1].x == 2.0 * p.xy.x && r[0].y + r[1].y == 2.0 * p.xy.y
    ensures r[0].x - r[1].x == 2.0 * dy * w && r[0].y - r[1].y == -2.0 * dx * w
  {
    [Vertex(p.xy.x + dy * w, p.xy.y - dx * w, u0, 1.0), Vertex(p.xy.x - dy * w, p.xy.y + dx * w, u1, 1.0)]
  }

  /** The vertices of `round_cap_start`: a fan of ncap rim vertices, each
      followed by the centre, sweeping half a circle round `p`, then the
      solid pair that starts the stroke. */
  function RoundCapStartRun(p: VPoint, dx: real, dy: real, w: real, ncap: Divs,
                            u0: real, u1: real, lib: Libm): (r: seq<Vertex>)
    ensures |r| == 2 * ncap + 2
    ensures r[|r| - 2..] == SidePair(p, dx, dy, w, u0, u1)
  {
    CapFan(true, p, dx, dy, w, ncap, u0, ncap, lib) + SidePair(p, dx, dy, w, u0, u1)
  }

  /** A round start cap alternates rim vertex and centre ncap times, and lies
      on the solid part of the stroke. */
  lemma RoundCapStartShape(p: VPoint, dx: real, dy: real, w: real, ncap: Divs, u0: real, u1: real, lib: Libm)
    ensures var r := RoundCapStartRun(p, dx, dy, w, ncap, u0, u1, lib);
      && (forall i :: 0 <= i < ncap ==> r[2 * i + 1] == Centre(p) && r[2 * i].u == u0)
      && AllSolid(r)
  {
    CapFanShape(true, p, dx, dy, w, ncap, u0, ncap, lib);
  }

  /** The vertices of `round_cap_end`: the solid pair that ends the stroke,
      then the centre of `p` followed by a rim vertex, ncap times, sweeping
      half a circle. */
  function RoundCapEndRun(p: VPoint, dx: real, dy: real, w: real, ncap: Divs,
                          u0: real, u1: real, lib: Libm): (r: seq<Vertex>)
    ensures |r| == 2 * ncap + 2
    ensures r[..2] == SidePair(p, dx, dy, w, u0, u1)
  {
    SidePair(p, dx, dy, w, u0, u1) + CapFan(false, p, dx, dy, w, ncap, u0, ncap, lib)
  }

  /** A round end cap alternates centre and rim vertex ncap times after its
      solid pair, and lies on the solid part of the stroke. */
  lemma RoundCapEndShape(p: VPoint, dx: real, dy: real, w: real, ncap: Divs, u0: real, u1: real, lib: Libm)
    ensures var r := RoundCapEndRun(p, dx, dy, w, ncap, u0, u1, lib);
      && (forall i :: 0 <= i < ncap ==> r[2 * i + 2] == Centre(p) && r[2 * i + 3].u == u0)
      && AllSolid(r)
  {
    var side := SidePair(p, dx, dy, w, u0, u1);
    var fan := CapFan(false, p, dx, dy, w, ncap, u0, ncap, lib);
    CapFanShape(false, p, dx, dy, w, ncap, u0, ncap, lib);
    assert forall i :: 0 <= i < ncap ==> (side + fan)[2 * i + 2] == fan[2 * i] && (side + fan)[2 * i + 3] == fan[2 * i + 1];
  }

  /** The loop of a round cap: one step of the fan per iteration. */
  method WriteFan(a: array<Vertex>, dst: nat, start: bool, p: VPoint, dx: real, dy: real, w: real,
                  ncap: Divs, u0: real, lib: Libm) returns (end: nat)
    requires dst + 2 * ncap <= a.Length
    modifies a
    ensures end == dst + 2 * ncap
    ensures a[..] == old(a[..dst]) + CapFan(start, p, dx, dy, w, ncap, u0, ncap, lib) + old(a[end..])
  {
    ghost var base := a[..];
    end := dst;
    var i := 0;
    while i < ncap
      invariant 0 <= i <= ncap
      invariant end == dst + 2 * i
      invariant a[..] == base[..dst] + CapFan(start, p, dx, dy, w, ncap, u0, i, lib) + base[end..]
    {
      var pair := CapPair(start, p, dx, dy, w, ncap, u0, i, lib);
      end := Extend(a, base, dst, CapFan(start, p, dx, dy, w, ncap, u0, i, lib), end, pair);
      i := i + 1;
    }
  }

  /** `round_cap_start`: writes its 2·ncap+2 vertices at `dst`. */
  method RoundCapStart(a: array<Vertex>, dst: nat, p: VPoint, dx: real, dy: real, w: real,
                       ncap: Divs, u0: real, u1: real, lib: Libm) returns (end: nat)
    requires dst + 2 * ncap + 2 <= a.Length
    modifies a
    ensures end == dst + 2 * ncap + 2
    ensures a[..] == old(a[..dst]) + RoundCapStartRun(p, dx, dy, w, ncap, u0, u1, lib) + old(a[end..])
  {
    ghost var s0 := a[..];
    ghost var fan := CapFan(true, p, dx, dy, w, ncap, u0, ncap, lib);
    var side := SidePair(p, dx, dy, w, u0, u1);
    var mid := WriteFan(a, dst, true, p, dx, dy, w, ncap, u0, lib);
    ghost var s1 := a[..];
    end := WriteRun(a, mid, side);
    Sequenced(s0, s1, a[..], dst, mid, end, fan, side);
  }

  /** `round_cap_end`: writes its 2·ncap+2 vertices at `dst`. */
  method RoundCapEnd(a: array<Vertex>, dst: nat, p: VPoint, dx: real, dy: real, w: real,
                     ncap: Divs, u0: real, u1: real, lib: Libm) returns (end: nat)
    requires dst + 2 * ncap + 2 <= a.Length
    modifies a
    ensures end == dst + 2 * ncap + 2
    ensures a[..] == old(a[..dst]) + RoundCapEndRun(p, dx, dy, w, ncap, u0, u1, lib) + old(a[end..])
  {
    ghost var s0 := a[..];
    ghost var fan := CapFan(false, p, dx, dy, w, ncap, u0, ncap, lib);
    var side := SidePair(p, dx, dy, w, u0, u1);
    var mid := WriteRun(a, dst, side);
    ghost var s1 := a[..];
    end := WriteFan(a, mid, false, p, dx, dy, w, ncap, u0, lib);
    Sequenced(s0, s1, a[..], dst, mid, end, side, fan);
  }

  /** Writes `run` into the arena at `dst`; nothing else changes. */
  method WriteRun(a: array<Vertex>, dst: nat, run: seq<Vertex>) returns (end: nat)
    requires dst + |run| <= a.Length
    modifies a
    ensures end == dst + |run|
    ensures a[..] == old(a[..dst]) + run + old(a[end..])
  {
    var i := 0;
    while i < |run|
      invariant 0 <= i <= |run|
      invariant forall k :: 0 <= k < a.Length ==> a[k] == if dst <= k < dst + i then run[k - dst] else old(a[k])
    {
      a[dst + i] := run[i];
      i := i + 1;
    }
    end := dst + |run|;
    assert a[..] == old(a[..dst]) + run + old(a[end..]) by {
      assert forall k :: 0 <= k < a.Length ==> a[..][k] == (old(a[..dst]) + run + old(a[end..]))[k];
    }
  }

  /** The vertices of `bevel_join` at p1, for the segment from p0 into p1 and
      the one leaving p1: 8 at a PT_BEVEL point and 10 at a point that is only
      an inner bevel, the latter passing twice through the centre of p1.  The
      run opens with the left/right pair of the incoming segment and closes
      with that of the outgoing one, so the strip continues through it. */
  function BevelJoinRun(p0: VPoint, p1: VPoint, lw: real, rw: real, lu: real, ru: real): (r: seq<Vertex>)
    ensures |r| == BevelJoinWrites(p1)
    ensures r[0].u == lu && r[1].u == ru && r[|r| - 2].u == lu && r[|r| - 1].u == ru
    ensures PtLeft in p1.flags ==>
      r[|r| - 1] == Vertex(p1.xy.x - p1.d.y * rw, p1.xy.y + p1.d.x * rw, ru, 1.0)
    ensures PtLeft !in p1.flags ==>
      r[|r| - 2] == Vertex(p1.xy.x + p1.d.y * lw, p1.xy.y - p1.d.x * lw, lu, 1.0)
    ensures PtBevel !in p1.flags && PtLeft in p1.flags ==> r[2] == Centre(p1) && r[6] == Centre(p1)
    ensures PtBevel !in p1.flags && PtLeft !in p1.flags ==> r[3] == Centre(p1) && r[7] == Centre(p1)
  {
    var dlx0 := p0.d.y;
    var dly0 := -p0.d.x;
    var dlx1 := p1.d.y;
    var dly1 := -p1.d.x;
    var x := p1.xy.x;
    var y := p1.xy.y;
    var inner := PtInnerBevel in p1.flags;
    if PtLeft in p1.flags then
      var (l0, l1) := ChooseBevel(inner, p0, p1, lw);
      var in0 := Vertex(l0.x, l0.y, lu, 1.0);
      var in1 := Vertex(x - dlx0 * rw, y - dly0 * rw, ru, 1.0);
      var out0 := Vertex(l1.x, l1.y, lu, 1.0);
      var out1 := Vertex(x - dlx1 * rw, y - dly1 * rw, ru, 1.0);
      if PtBevel in p1.flags then
        [in0, in1, in0, in1, out0, out1, out0, out1]
      else
        var r0 := Vertex(x - p1.dm.x * rw, y - p1.dm.y * rw, ru, 1.0);
        [in0, in1, Centre(p1), in1, r0, r0, Centre(p1), out1, out0, out1]
    else
      var (r0, r1) := ChooseBevel(inner, p0, p1, -rw);
      var in0 := Vertex(x + dlx0 * lw, y + dly0 * lw, lu, 1.0);
      var in1 := Vertex(r0.x, r0.y, ru, 1.0);
      var out0 := Vertex(x + dlx1 * lw, y + dly1 * lw, lu, 1.0);
      var out1 := Vertex(r1.x, r1.y, ru, 1.0);
      if PtBevel in p1.flags then
        [in0, in1, in0, in1, out0, out1, out0, out1]
      else
        var l0 := Vertex(x + p1.dm.x * lw, y + p1.dm.y * lw, lu, 1.0);
        [in0, in1, in0, Centre(p1), l0, l0, out0, Centre(p1), out0, out1]
  }

  /** A bevel join lies on the solid part of the stroke. */
  lemma BevelJoinSolid(p0: VPoint, p1: VPoint, lw: real, rw: real, lu: real, ru: real)
    ensures AllSolid(BevelJoinRun(p0, p1, lw, rw, lu, ru))
  {
  }

  /** `bevel_join`: writes the join's vertices at `dst`. */
  method BevelJoin(a: array<Vertex>, dst: nat, p0: VPoint, p1: VPoint, lw: real, rw: real,
                   lu: real, ru: real) returns (end: nat)
    requires dst + BevelJoinWrites(p1) <= a.Length
    modifies a
    ensures end == dst + BevelJoinWrites(p1)
    ensures a[..] == old(a[..dst]) + BevelJoinRun(p0, p1, lw, rw, lu, ru) + old(a[end..])
  {
    end := WriteRun(a, dst, BevelJoinRun(p0, p1, lw, rw, lu, ru));
  }

  /** One step of `round_join`'s arc at angle `ang`: a left turn puts the
      centre of p1 first and the rim vertex on the right side after it; a
      right turn puts the rim vertex on the left side first.  The source
      computes that left rim vertex's y from the cosine as well as its x. */
  function ArcPair(left: bool, p1: VPoint, lw: real, rw: real, lu: real, ru: real, ang: real, lib: Libm): (r: seq<Vertex>)
    ensures |r| == 2 && r[0].v == 1.0 && r[1].v == 1.0
    ensures r[if left then 0 else 1] == Centre(p1)
  {
    var x := p1.xy.x;
    var y := p1.xy.y;
    if left then [Centre(p1), Vertex(x + lib.cos(ang) * rw, y + lib.sin(ang) * rw, ru, 1.0)]
    else [Vertex(x + lib.cos(ang) * lw, y + lib.cos(ang) * lw, lu, 1.0), Centre(p1)]
  }

  /** The angle of step i of n from a0 to a1. */
  function StepAngle(a0: real, a1: real, n: int, i: int): real
    requires n >= 2
  {
    a0 + (i as real) / ((n - 1) as real) * (a1 - a0)
  }

  /** The first i steps of the arc. */
  function RoundJoinArc(left: bool, p1: VPoint, lw: real, rw: real, lu: real, ru: real,
                        a0: real, a1: real, n: int, i: nat, lib: Libm): (r: seq<Vertex>)
    requires n >= 2
    ensures |r| == 2 * i
  {
    if i == 0 then []
    else
      var prev := RoundJoinArc(left, p1, lw, rw, lu, ru, a0, a1, n, i - 1, lib);
      prev + ArcPair(left, p1, lw, rw, lu, ru, StepAngle(a0, a1, n, i - 1), lib)
  }

  /** Every step of the arc passes through the centre of p1, and the arc lies
      on the solid part of the stroke. */
  lemma {:induction false} RoundJoinArcShape(left: bool, p1: VPoint, lw: real, rw: real, lu: real, ru: real,
                                             a0: real, a1: real, n: int, i: nat, lib: Libm)
    requires n >= 2
    ensures var r := RoundJoinArc(left, p1, lw, rw, lu, ru, a0, a1, n, i, lib);
      && AllSolid(r)
      && (forall k :: 0 <= k < i ==> r[2 * k + (if left then 0 else 1)] == Centre(p1))
  {
    if i > 0 {
      RoundJoinArcShape(left, p1, lw, rw, lu, ru, a0, a1, n, i - 1, lib);
      var prev := RoundJoinArc(left, p1, lw, rw, lu, ru, a0, a1, n, i - 1, lib);
      var pair := ArcPair(left, p1, lw, rw, lu, ru, StepAngle(a0, a1, n, i - 1), lib);
      var r := prev + pair;
      assert forall k :: 0 <= k < i - 1 ==> r[2 * k] == prev[2 * k] && r[2 * k + 1] == prev[2 * k + 1];
    }
  }

  /** The pair `round_join` writes before and after the arc, for the segment
      from p0 into p1 (`outgoing` false) or the one leaving p1 (true). */
  function RoundJoinEnd(outgoing: bool, p0: VPoint, p1: VPoint, lw: real, rw: real, lu: real, ru: real): (r: seq<Vertex>)
    ensures |r| == 2 && r[0].u == lu && r[1].u == ru && r[0].v == 1.0 && r[1].v == 1.0
    ensures outgoing && PtLeft in p1.flags ==> r[1] == Vertex(p1.xy.x - p1.d.y * rw, p1.xy.y + p1.d.x * rw, ru, 1.0)
    ensures outgoing && PtLeft !in p1.flags ==> r[0] == Vertex(p1.xy.x + p1.d.y * rw, p1.xy.y - p1.d.x * rw, lu, 1.0)
  {
    var left := PtLeft in p1.flags;
    var (c0, c1) := ChooseBevel(PtInnerBevel in p1.flags, p0, p1, if left then lw else -rw);
    var c := if outgoing then c1 else c0;
    var d := if outgoing then p1.d else p0.d;
    var x := p1.xy.x;
    var y := p1.xy.y;
    if left then [Vertex(c.x, c.y, lu, 1.0), Vertex(x - d.y * rw, y + d.x * rw, ru, 1.0)]
    else [Vertex(x + d.y * rw, y - d.x * rw, lu, 1.0), Vertex(c.x, c.y, ru, 1.0)]
  }

  /** The vertices of `round_join` at p1: the incoming pair, n arc steps
      round p1 with n the sweep's share of ncap steps per half turn clamped
      to [2, ncap], and the outgoing pair, so 2n + 4 in all. */
  function RoundJoinRun(p0: VPoint, p1: VPoint, lw: real, rw: real, lu: real, ru: real,
                        ncap: Divs, lib: Libm): (r: seq<Vertex>)
    ensures var angles := JoinAngles(p0, p1, lib.atan2);
            |r| == 2 * RoundJoinSteps(PtLeft in p1.flags, angles.0, angles.1, ncap) + 4
    ensures 8 <= |r| <= 2 * ncap + 4
    ensures r[0].u == lu && r[1].u == ru && r[|r| - 2].u == lu && r[|r| - 1].u == ru
  {
    var left := PtLeft in p1.flags;
    var angles := JoinAngles(p0, p1, lib.atan2);
    var n := RoundJoinSteps(left, angles.0, angles.1, ncap);
    var arc := RoundJoinArc(left, p1, lw, rw, lu, ru, angles.0, angles.1, n, n, lib);
    RoundJoinEnd(false, p0, p1, lw, rw, lu, ru) + arc + RoundJoinEnd(true, p0, p1, lw, rw, lu, ru)
  }

  /** Between its incoming and outgoing pairs a round join fans round the
      centre of p1 (centre first on a left turn, second on a right one), and
      the whole join lies on the solid part of the stroke. */
  lemma RoundJoinShape(p0: VPoint, p1: VPoint, lw: real, rw: real, lu: real, ru: real, ncap: Divs, lib: Libm)
    ensures var r := RoundJoinRun(p0, p1, lw, rw, lu, ru, ncap, lib);
      && AllSolid(r)
      && (PtLeft in p1.flags ==> forall k :: 0 <= k < (|r| - 4) / 2 ==> r[2 + 2 * k] == Centre(p1))
      && (PtLeft !in p1.flags ==> forall k :: 0 <= k < (|r| - 4) / 2 ==> r[3 + 2 * k] == Centre(p1))
  {
    var left := PtLeft in p1.flags;
    var angles := JoinAngles(p0, p1, lib.atan2);
    var n := RoundJoinSteps(left, angles.0, angles.1, ncap);
    var arc := RoundJoinArc(left, p1, lw, rw, lu, ru, angles.0, angles.1, n, n, lib);
    var head := RoundJoinEnd(false, p0, p1, lw, rw, lu, ru);
    var r := head + arc + RoundJoinEnd(true, p0, p1, lw, rw, lu, ru);
    RoundJoinArcShape(left, p1, lw, rw, lu, ru, angles.0, angles.1, n, n, lib);
    assert forall k :: 0 <= k < n ==> r[2 + 2 * k] == arc[2 * k] && r[3 + 2 * k] == arc[2 * k + 1];
  }

  /** `round_join`: writes the join's vertices at `dst`. */
  method RoundJoin(a: array<Vertex>, dst: nat, p0: VPoint, p1: VPoint, lw: real, rw: real,
                   lu: real, ru: real, ncap: Divs, lib: Libm) returns (end: nat)
    requires dst + |RoundJoinRun(p0, p1, lw, rw, lu, ru, ncap, lib)| <= a.Length
    modifies a
    ensures end == dst + |RoundJoinRun(p0, p1, lw, rw, lu, ru, ncap, lib)|
    ensures a[..] == old(a[..dst]) + RoundJoinRun(p0, p1, lw, rw, lu, ru, ncap, lib) + old(a[end..])
  {
    var left := PtLeft in p1.flags;
    var angles := JoinAngles(p0, p1, lib.atan2);
    var a0, a1 := angles.0, angles.1;
    var n := RoundJoinSteps(left, a0, a1, ncap);
    var head := RoundJoinEnd(false, p0, p1, lw, rw, lu, ru);
    var tail := RoundJoinEnd(true, p0, p1, lw, rw, lu, ru);
    ghost var arc := RoundJoinArc(left, p1, lw, rw, lu, ru, angles.0, angles.1, n, n, lib);
    assert RoundJoinRun(p0, p1, lw, rw, lu, ru, ncap, lib) == head + arc + tail;
    ghost var s0 := a[..];
    var mid := WriteRun(a, dst, head);
    ghost var s1 := a[..];
    var mid2 := WriteArc(a, mid, left, p1, lw, rw, lu, ru, a0, a1, n, lib);
    Sequenced(s0, s1, a[..], dst, mid, mid2, head, arc);
    ghost var s2 := a[..];
    end := WriteRun(a, mid2, tail);
    Sequenced(s0, s2, a[..], dst, mid2, end, head + arc, tail);
  }

  /** A run written at `mid`, right after a run written at `dst`, extends it. */
  lemma Sequenced<T>(s0: seq<T>, s1: seq<T>, s2: seq<T>, dst: nat, mid: nat, end: nat, h: seq<T>, t: seq<T>)
    requires mid == dst + |h| && end == mid + |t| && end <= |s0|
    requires s1 == s0[..dst] + h + s0[mid..]
    requires s2 == s1[..mid] + t + s1[end..]
    ensures s2 == s0[..dst] + (h + t) + s0[end..]
  {
    assert s1[..mid] == s0[..dst] + h;
    assert s1[end..] == s0[end..];
  }

  /** The loop of `round_join`: one arc step per iteration. */
  method WriteArc(a: array<Vertex>, dst: nat, left: bool, p1: VPoint, lw: real, rw: real, lu: real, ru: real,
                  a0: real, a1: real, n: int, lib: Libm) returns (end: nat)
    requires 2 <= n && dst + 2 * n <= a.Length
    modifies a
    ensures end == dst + 2 * n
    ensures a[..] == old(a[..dst]) + RoundJoinArc(left, p1, lw, rw, lu, ru, a0, a1, n, n, lib) + old(a[end..])
  {
    ghost var base := a[..];
    end := dst;
    var i := 0;
    while i < n
      invariant 0 <= i <= n
      invariant end == dst + 2 * i
      invariant a[..] == base[..dst] + RoundJoinArc(left, p1, lw, rw, lu, ru, a0, a1, n, i, lib) + base[end..]
    {
      var pair := ArcPair(left, p1, lw, rw, lu, ru, StepAngle(a0, a1, n, i), lib);
      end := Extend(a, base, dst, RoundJoinArc(left, p1, lw, rw, lu, ru, a0, a1, n, i, lib), end, pair);
      i := i + 1;
    }
  }

  /** Writes `run` right after the run `done` already written at dst over
      the arena `base`. */
  method Extend(a: array<Vertex>, ghost base: seq<Vertex>, ghost dst: nat, ghost done: seq<Vertex>,
                at: nat, run: seq<Vertex>) returns (end: nat)
    requires at == dst + |done| && |base| == a.Length && at + |run| <= a.Length
    requires a[..] == base[..dst] + done + base[dst + |done|..]
    modifies a
    ensures end == dst + |done| + |run|
    ensures a[..] == base[..dst] + (done + run) + base[end..]
  {
    ghost var before := a[..];
    ghost var rest := base[dst + |done|..];
    end := WriteRun(a, at, run);
    Splice(before, base[..dst] + done, rest, run, a[..]);
    assert rest[|run|..] == base[end..];
    Regroup(base[..dst], done, run, base[end..]);
  }

  lemma Regroup<T>(a: seq<T>, b: seq<T>, c: seq<T>, d: seq<T>)
    ensures a + b + c + d == a + (b + c) + d
  {
  }

  /** Overwriting the run that starts where `pre` ends. */
  lemma Splice<T>(before: seq<T>, pre: seq<T>, rest: seq<T>, run: seq<T>, after: seq<T>)
    requires before == pre + rest && |run| <= |rest|
    requires after == before[..|pre|] + run + before[|pre| + |run|..]
    ensures after == pre + run + rest[|run|..]
  {
    assert before[..|pre|] == pre;
    assert before[|pre| + |run|..] == rest[|run|..];
  }
}
