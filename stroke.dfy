// What `expand_stroke` and `expand_fill` write for one subpath
// (nona/src/cache.rs:404-538, 570-690): the run of vertices as a function of
// the subpath's points, and the writers that put that run into the arena.
module Expand {
  import opened Numerics
  import opened Geometry
  import opened CanvasTypes
  import opened CacheSpec
  import opened Emitters

  // ---------------------------------------------------------------------
  // Joins along a subpath
  // ---------------------------------------------------------------------

  /** The index of the point before point k of a closed subpath of n points. */
  function Prev(k: nat, n: nat): (j: nat)
    requires k < n
    ensures j < n
    ensures k > 0 ==> j == k - 1
  {
    if k == 0 then n - 1 else k - 1
  }

  /** The pair an unbevelled point contributes: its extrusions along `dm`,
      by lw to the left and by rw to the right. */
  function MiterPair(p1: VPoint, lw: real, rw: real, lu: real, ru: real): (r: seq<Vertex>)
    ensures |r| == 2 && r[0].u == lu && r[1].u == ru && r[0].v == 1.0 && r[1].v == 1.0
    ensures r[0].x + r[1].x == 2.0 * p1.xy.x + p1.dm.x * (lw - rw)
  {
    [ Vertex(p1.xy.x + p1.dm.x * lw, p1.xy.y + p1.dm.y * lw, lu, 1.0),
      Vertex(p1.xy.x - p1.dm.x * rw, p1.xy.y - p1.dm.y * rw, ru, 1.0) ]
  }

  /** The vertices written at point p1 (reached from p0): a round or bevel
      join where p1 is bevelled, else its extrusion pair.  Every one lies on
      the solid part of the strip, and the run starts and ends with a
      left/right pair. */
  function JoinRun(p0: VPoint, p1: VPoint, join: LineJoin, lw: real, rw: real, lu: real, ru: real,
                   ncap: Divs, lib: Libm): (r: seq<Vertex>)
    ensures 2 <= |r| <= JoinWritesMax(p1, join, ncap)
    ensures !Bevelled(p1) ==> r == MiterPair(p1, lw, rw, lu, ru)
    ensures r[0].u == lu && r[1].u == ru && r[|r| - 2].u == lu && r[|r| - 1].u == ru
  {
    if !Bevelled(p1) then MiterPair(p1, lw, rw, lu, ru)
    else if join == LineJoin.Round then RoundJoinRun(p0, p1, lw, rw, lu, ru, ncap, lib)
    else BevelJoinRun(p0, p1, lw, rw, lu, ru)
  }

  /** The runs of `runs`, one after the other. */
  function Concat<T>(runs: seq<seq<T>>): (r: seq<T>)
    ensures |runs| == 0 ==> r == []
  {
    if |runs| == 0 then [] else Concat(runs[..|runs| - 1]) + runs[|runs| - 1]
  }

  /** Taking one more run appends it. */
  lemma ConcatStep<T>(runs: seq<seq<T>>, k: nat)
    requires k < |runs|
    ensures Concat(runs[..k + 1]) == Concat(runs[..k]) + runs[k]
  {
    assert runs[..k + 1][..k] == runs[..k];
  }

  /** The runs of a prefix are a prefix of the runs. */
  lemma {:induction false} ConcatPrefix<T>(runs: seq<seq<T>>, k: nat)
    requires k <= |runs|
    ensures |Concat(runs[..k])| <= |Concat(runs)|
    decreases |runs|
  {
    if k < |runs| {
      var init := runs[..|runs| - 1];
      assert init[..k] == runs[..k];
      ConcatPrefix(init, k);
    } else {
      assert runs[..k] == runs;
    }
  }

  /** Runs that all lie on the solid part of the stroke concatenate to one that does. */
  lemma {:induction false} ConcatSolid(runs: seq<seq<Vertex>>)
    requires forall i :: 0 <= i < |runs| ==> AllSolid(runs[i])
    ensures AllSolid(Concat(runs))
    decreases |runs|
  {
    if |runs| > 0 {
      var init := runs[..|runs| - 1];
      ConcatSolid(init);
      var r := Concat(init) + runs[|runs| - 1];
      assert forall k :: 0 <= k < |Concat(init)| ==> r[k] == Concat(init)[k];
      assert forall k :: |Concat(init)| <= k < |r| ==> r[k] == runs[|runs| - 1][k - |Concat(init)|];
    }
  }

  /** Runs of at least two vertices concatenate to one that starts with the
      first two of the first run and ends with the last two of the last. */
  lemma {:induction false} ConcatEnds<T>(runs: seq<seq<T>>)
    requires |runs| > 0
    requires forall i :: 0 <= i < |runs| ==> |runs[i]| >= 2
    ensures var r := Concat(runs);
      && |r| >= 2
      && r[0] == runs[0][0] && r[1] == runs[0][1]
      && r[|r| - 2] == runs[|runs| - 1][|runs[|runs| - 1]| - 2] && r[|r| - 1] == runs[|runs| - 1][|runs[|runs| - 1]| - 1]
    decreases |runs|
  {
    var init := runs[..|runs| - 1];
    if |init| > 0 {
      ConcatEnds(init);
    }
  }

  /** The joins at points lo..hi-1 of a subpath, one run per point, each
      reached from the point before it (the last point for point 0). */
  function Joins(s: seq<VPoint>, lo: nat, hi: nat, join: LineJoin, lw: real, rw: real, lu: real, ru: real,
                 ncap: Divs, lib: Libm): (js: seq<seq<Vertex>>)
    requires lo <= hi <= |s|
    ensures |js| == hi - lo
  {
    seq(hi - lo, i requires 0 <= i < hi - lo => JoinRun(s[Prev(lo + i, |s|)], s[lo + i], join, lw, rw, lu, ru, ncap, lib))
  }

  /** Run i of `Joins` is the join at point lo + i. */
  lemma JoinsAt(s: seq<VPoint>, lo: nat, hi: nat, join: LineJoin, lw: real, rw: real, lu: real, ru: real,
                ncap: Divs, lib: Libm, i: nat)
    requires lo <= hi <= |s| && i < hi - lo
    ensures Joins(s, lo, hi, join, lw, rw, lu, ru, ncap, lib)[i]
         == JoinRun(s[Prev(lo + i, |s|)], s[lo + i], join, lw, rw, lu, ru, ncap, lib)
  {
  }

  /** The joins of the first points are a prefix of the joins of them all. */
  lemma JoinsPrefix(s: seq<VPoint>, lo: nat, k: nat, hi: nat, join: LineJoin, lw: real, rw: real, lu: real, ru: real,
                    ncap: Divs, lib: Libm)
    requires lo <= k <= hi <= |s|
    ensures Joins(s, lo, hi, join, lw, rw, lu, ru, ncap, lib)[..k - lo] == Joins(s, lo, k, join, lw, rw, lu, ru, ncap, lib)
  {
  }

  /** The joins at points lo..hi-1, one after the other. */
  function JoinsRun(s: seq<VPoint>, lo: nat, hi: nat, join: LineJoin, lw: real, rw: real, lu: real, ru: real,
                    ncap: Divs, lib: Libm): (r: seq<Vertex>)
    requires lo <= hi <= |s|
    ensures hi == lo ==> r == []
  {
    Concat(Joins(s, lo, hi, join, lw, rw, lu, ru, ncap, lib))
  }

  /** Every join lies on the solid part of the stroke. */
  lemma JoinRunSolid(p0: VPoint, p1: VPoint, join: LineJoin, lw: real, rw: real, lu: real, ru: real,
                     ncap: Divs, lib: Libm)
    ensures AllSolid(JoinRun(p0, p1, join, lw, rw, lu, ru, ncap, lib))
  {
    if Bevelled(p1) {
      if join == LineJoin.Round {
        RoundJoinShape(p0, p1, lw, rw, lu, ru, ncap, lib);
      } else {
        BevelJoinSolid(p0, p1, lw, rw, lu, ru);
      }
    }
  }

  /** The joins along a subpath lie on the solid part of the stroke, and
      open with a left/right pair and close with one. */
  lemma JoinsRunShape(s: seq<VPoint>, lo: nat, hi: nat, join: LineJoin, lw: real, rw: real,
                      lu: real, ru: real, ncap: Divs, lib: Libm)
    requires lo <= hi <= |s|
    ensures var r := JoinsRun(s, lo, hi, join, lw, rw, lu, ru, ncap, lib);
      && AllSolid(r)
      && (hi > lo ==> |r| >= 2 && r[0].u == lu && r[1].u == ru && r[|r| - 2].u == lu && r[|r| - 1].u == ru)
  {
    var js := Joins(s, lo, hi, join, lw, rw, lu, ru, ncap, lib);
    forall i | 0 <= i < |js|
      ensures AllSolid(js[i]) && |js[i]| >= 2
      ensures js[i][0].u == lu && js[i][1].u == ru && js[i][|js[i]| - 2].u == lu && js[i][|js[i]| - 1].u == ru
    {
      JoinsAt(s, lo, hi, join, lw, rw, lu, ru, ncap, lib, i);
      JoinRunSolid(s[Prev(lo + i, |s|)], s[lo + i], join, lw, rw, lu, ru, ncap, lib);
    }
    ConcatSolid(js);
    if hi > lo {
      ConcatEnds(js);
    }
  }

  /** The joins up to hi are those up to hi - 1 followed by the join at
      point hi - 1. */
  lemma JoinsRunSnoc(s: seq<VPoint>, lo: nat, hi: nat, join: LineJoin, lw: real, rw: real,
                     lu: real, ru: real, ncap: Divs, lib: Libm)
    requires lo < hi <= |s|
    ensures JoinsRun(s, lo, hi, join, lw, rw, lu, ru, ncap, lib)
         == JoinsRun(s, lo, hi - 1, join, lw, rw, lu, ru, ncap, lib)
            + JoinRun(s[Prev(hi - 1, |s|)], s[hi - 1], join, lw, rw, lu, ru, ncap, lib)
  {
    var js := Joins(s, lo, hi, join, lw, rw, lu, ru, ncap, lib);
    var k := hi - 1 - lo;
    JoinsPrefix(s, lo, hi - 1, hi, join, lw, rw, lu, ru, ncap, lib);
    ConcatStep(js, k);
    assert js[..|js|] == js;
    JoinsAt(s, lo, hi, join, lw, rw, lu, ru, ncap, lib, k);
  }

  /** The allowance of points lo..hi is that of lo..hi-1 and point hi - 1. */
  lemma JoinSumSnoc(s: seq<VPoint>, lo: nat, hi: nat, join: LineJoin, ncap: Divs)
    requires lo < hi <= |s|
    ensures JoinSum(s[lo..hi], join, ncap) == JoinSum(s[lo..hi - 1], join, ncap) + JoinWritesMax(s[hi - 1], join, ncap)
  {
    var t := s[lo..hi];
    var init, w := t[..|t| - 1], s[lo..hi - 1];
    assert |init| == |w|;
    forall i | 0 <= i < |w|
      ensures init[i] == w[i]
    {
      assert t[i] == s[lo + i];
    }
    assert init == w;
    assert t[|t| - 1] == s[hi - 1];
  }

  /** The joins of a subpath fit the most its points can need. */
  lemma {:induction false} JoinsRunFits(s: seq<VPoint>, lo: nat, hi: nat, join: LineJoin, lw: real, rw: real,
                                        lu: real, ru: real, ncap: Divs, lib: Libm)
    requires lo <= hi <= |s|
    ensures |JoinsRun(s, lo, hi, join, lw, rw, lu, ru, ncap, lib)| <= JoinSum(s[lo..hi], join, ncap)
    decreases hi
  {
    if hi > lo {
      JoinsRunFits(s, lo, hi - 1, join, lw, rw, lu, ru, ncap, lib);
      JoinsRunSnoc(s, lo, hi, join, lw, rw, lu, ru, ncap, lib);
      JoinSumSnoc(s, lo, hi, join, ncap);
    }
  }

  /** The joins round a whole subpath fit its allowance. */
  lemma RingJoinsFit(s: seq<VPoint>, join: LineJoin, lw: real, rw: real, lu: real, ru: real, ncap: Divs, lib: Libm)
    ensures |JoinsRun(s, 0, |s|, join, lw, rw, lu, ru, ncap, lib)| <= JoinSum(s, join, ncap)
  {
    JoinsRunFits(s, 0, |s|, join, lw, rw, lu, ru, ncap, lib);
    assert s[0..|s|] == s;
  }

  /** Where a subpath of no points has no joins, the closing pair repeats the
      two vertices the arena already held where the strip starts. */
  function ClosingPair(body: seq<Vertex>, under: seq<Vertex>, lu: real, ru: real): (r: seq<Vertex>)
    requires |under| == 2
    ensures |r| == 2 && r[0].u == lu && r[1].u == ru && r[0].v == 1.0 && r[1].v == 1.0
    ensures |body| >= 2 ==> r[0].x == body[0].x && r[0].y == body[0].y && r[1].x == body[1].x && r[1].y == body[1].y
    ensures |body| < 2 ==> r[0].x == under[0].x && r[0].y == under[0].y && r[1].x == under[1].x && r[1].y == under[1].y
  {
    var src := if |body| >= 2 then body[..2] else under;
    [Vertex(src[0].x, src[0].y, lu, 1.0), Vertex(src[1].x, src[1].y, ru, 1.0)]
  }

  // ---------------------------------------------------------------------
  // Stroke
  // ---------------------------------------------------------------------

  /** The vertices a cap emitter writes at the start or the end of an open
      stroke at p, with (dx, dy) the direction of the stroke there. */
  function CapRun(e: CapEmitter, start: bool, p: VPoint, dx: real, dy: real, w: real, aa: real,
                  u0: real, u1: real, ncap: Divs, lib: Libm): (r: seq<Vertex>)
    ensures |r| == CapWrites(e, ncap)
  {
    match e
    case ButtCapAt(d) =>
      if start then ButtCapStartRun(p, dx, dy, w, d, aa, u0, u1) else ButtCapEndRun(p, dx, dy, w, d, aa, u0, u1)
    case RoundCapAt =>
      if start then RoundCapStartRun(p, dx, dy, w, ncap, u0, u1, lib) else RoundCapEndRun(p, dx, dy, w, ncap, u0, u1, lib)
  }

  /** The unit direction from a to b, as `Point::normalize` leaves it. */
  function Heading(a: VPoint, b: VPoint, sqrt: real -> real): (d: Point)
    ensures var n := Normalize(Point(b.xy.x - a.xy.x, b.xy.y - a.xy.y), sqrt);
            n.len > 1.0e-6 ==> d.x * n.len == b.xy.x - a.xy.x && d.y * n.len == b.xy.y - a.xy.y
  {
    Normalize(Point(b.xy.x - a.xy.x, b.xy.y - a.xy.y), sqrt).dir
  }

  /** A closed strip round a subpath: a join at every point, each offset by
      lw to the left and rw to the right, then the strip's first pair again
      (what the arena held at its start, for a subpath of no points). */
  function RingRun(s: seq<VPoint>, join: LineJoin, lw: real, rw: real, lu: real, ru: real,
                   ncap: Divs, lib: Libm, under: seq<Vertex>): (r: seq<Vertex>)
    requires |under| == 2
    ensures |r| == |JoinsRun(s, 0, |s|, join, lw, rw, lu, ru, ncap, lib)| + 2
    ensures |s| > 0 ==>
      r[|r| - 2].x == r[0].x && r[|r| - 2].y == r[0].y && r[|r| - 1].x == r[1].x && r[|r| - 1].y == r[1].y
    ensures r[|r| - 2].u == lu && r[|r| - 1].u == ru
  {
    var body := JoinsRun(s, 0, |s|, join, lw, rw, lu, ru, ncap, lib);
    JoinsRunShape(s, 0, |s|, join, lw, rw, lu, ru, ncap, lib);
    body + ClosingPair(body, under, lu, ru)
  }

  /** The stroke of one subpath with half-width w.  A closed subpath is a
      join at every point followed by a repeat of the strip's first pair; an
      open one is the start cap at its first point, a join at each inner
      point, and the end cap at its last point.  `under` is what the arena
      held where the strip starts, which the closing pair of a subpath of no
      points repeats. */
  function StrokeRun(s: seq<VPoint>, closed: bool, join: LineJoin, cap: LineCap, w: real, aa: real,
                     u0: real, u1: real, ncap: Divs, lib: Libm, under: seq<Vertex>): (r: seq<Vertex>)
    requires closed || |s| >= 2
    requires |under| == 2
    ensures 2 <= |r| <= StrokeWritesMax(s, closed, join, StartCap(cap, w, aa), EndCap(cap, w, aa), ncap)
    ensures closed && |s| > 0 ==>
      r[|r| - 2].x == r[0].x && r[|r| - 2].y == r[0].y && r[|r| - 1].x == r[1].x && r[|r| - 1].y == r[1].y
    ensures closed ==> r[|r| - 2].u == u0 && r[|r| - 1].u == u1
  {
    if closed then
      RingJoinsFit(s, join, w, w, u0, u1, ncap, lib);
      RingRun(s, join, w, w, u0, u1, ncap, lib, under)
    else
      var n := |s|;
      OpenStrokeRun(s, Heading(s[0], s[1], lib.sqrt), Heading(s[n - 2], s[n - 1], lib.sqrt),
                    join, StartCap(cap, w, aa), EndCap(cap, w, aa), w, aa, u0, u1, ncap, lib)
  }

  /** The stroke of an open subpath whose first segment has direction d0 and
      last segment direction d1: the cap emitter e0 at its first point, a
      join at each inner point, and the cap emitter e1 at its last point. */
  function OpenStrokeRun(s: seq<VPoint>, d0: Point, d1: Point, join: LineJoin, e0: CapEmitter, e1: CapEmitter,
                         w: real, aa: real, u0: real, u1: real, ncap: Divs, lib: Libm): (r: seq<Vertex>)
    requires |s| >= 2
    ensures 8 <= |r| <= StrokeWritesMax(s, false, join, e0, e1, ncap)
  {
    CapRun(e0, true, s[0], d0.x, d0.y, w, aa, u0, u1, ncap, lib) + OpenTailRun(s, d1, join, e1, w, aa, u0, u1, ncap, lib)
  }

  /** What follows the start cap of an open stroke: the inner joins, then the
      cap emitter e1 at the last point. */
  function OpenTailRun(s: seq<VPoint>, d1: Point, join: LineJoin, e1: CapEmitter,
                       w: real, aa: real, u0: real, u1: real, ncap: Divs, lib: Libm): (r: seq<Vertex>)
    requires |s| >= 2
    ensures CapWrites(e1, ncap) <= |r| <= JoinSum(s[1..|s| - 1], join, ncap) + CapWrites(e1, ncap)
  {
    var n := |s|;
    JoinsRunFits(s, 1, n - 1, join, w, w, u0, u1, ncap, lib);
    JoinsRun(s, 1, n - 1, join, w, w, u0, u1, ncap, lib) + CapRun(e1, false, s[n - 1], d1.x, d1.y, w, aa, u0, u1, ncap, lib)
  }

  /** The joins at points lo..hi-1, written one after the other at `dst`. */
  method WriteJoins(a: array<Vertex>, dst: nat, s: seq<VPoint>, lo: nat, hi: nat, join: LineJoin,
                    lw: real, rw: real, lu: real, ru: real, ncap: Divs, lib: Libm) returns (end: nat)
    requires lo <= hi <= |s|
    requires dst + |JoinsRun(s, lo, hi, join, lw, rw, lu, ru, ncap, lib)| <= a.Length
    modifies a
    ensures end == dst + |JoinsRun(s, lo, hi, join, lw, rw, lu, ru, ncap, lib)|
    ensures a[..] == old(a[..dst]) + JoinsRun(s, lo, hi, join, lw, rw, lu, ru, ncap, lib) + old(a[end..])
  {
    ghost var base := a[..];
    ghost var js := Joins(s, lo, hi, join, lw, rw, lu, ru, ncap, lib);
    end := dst;
    var k := lo;
    while k < hi
      invariant lo <= k <= hi
      invariant end == dst + |Concat(js[..k - lo])|
      invariant end <= dst + |Concat(js)|
      invariant a[..] == base[..dst] + Concat(js[..k - lo]) + base[end..]
    {
      ConcatStep(js, k - lo);
      ConcatPrefix(js, k - lo + 1);
      end := ExtendJoin(a, base, dst, Concat(js[..k - lo]), end, s, lo, hi, k, join, lw, rw, lu, ru, ncap, lib, js);
      k := k + 1;
    }
    assert js[..hi - lo] == js;
  }

  /** The join at point k, written right after the run `done` that starts at
      dst; js is the run of every join at lo..hi-1. */
  method ExtendJoin(a: array<Vertex>, ghost base: seq<Vertex>, ghost dst: nat, ghost done: seq<Vertex>, at: nat,
                    s: seq<VPoint>, lo: nat, hi: nat, k: nat, join: LineJoin, lw: real, rw: real, lu: real, ru: real,
                    ncap: Divs, lib: Libm, ghost js: seq<seq<Vertex>>) returns (end: nat)
    requires lo <= k < hi <= |s|
    requires js == Joins(s, lo, hi, join, lw, rw, lu, ru, ncap, lib)
    requires at == dst + |done| && |base| == a.Length
    requires at + |js[k - lo]| <= a.Length
    requires a[..] == base[..dst] + done + base[at..]
    modifies a
    ensures end == at + |js[k - lo]|
    ensures a[..] == base[..dst] + (done + js[k - lo]) + base[end..]
  {
    JoinsAt(s, lo, hi, join, lw, rw, lu, ru, ncap, lib, k - lo);
    ghost var before := a[..];
    end := WriteJoin(a, at, s[Prev(k, |s|)], s[k], join, lw, rw, lu, ru, ncap, lib);
    Appended(base, dst, done, before, a[..], at, js[k - lo]);
  }

  /** The join at p1, written at `dst`. */
  method WriteJoin(a: array<Vertex>, dst: nat, p0: VPoint, p1: VPoint, join: LineJoin,
                   lw: real, rw: real, lu: real, ru: real, ncap: Divs, lib: Libm) returns (end: nat)
    requires dst + |JoinRun(p0, p1, join, lw, rw, lu, ru, ncap, lib)| <= a.Length
    modifies a
    ensures end == dst + |JoinRun(p0, p1, join, lw, rw, lu, ru, ncap, lib)|
    ensures a[..] == old(a[..dst]) + JoinRun(p0, p1, join, lw, rw, lu, ru, ncap, lib) + old(a[end..])
  {
    if Bevelled(p1) {
      if join == LineJoin.Round {
        end := RoundJoin(a, dst, p0, p1, lw, rw, lu, ru, ncap, lib);
      } else {
        end := BevelJoin(a, dst, p0, p1, lw, rw, lu, ru);
      }
    } else {
      end := WriteRun(a, dst, MiterPair(p1, lw, rw, lu, ru));
    }
  }

  /** Writing `run` where the run `done` written at dst over `base` ends
      extends it. */
  lemma Appended<T>(base: seq<T>, dst: nat, done: seq<T>, before: seq<T>, after: seq<T>, at: nat, run: seq<T>)
    requires at == dst + |done| && |base| == |before| && at + |run| <= |before|
    requires before == base[..dst] + done + base[at..]
    requires after == before[..at] + run + before[at + |run|..]
    ensures after == base[..dst] + (done + run) + base[at + |run|..]
  {
    assert before[..at] == base[..dst] + done;
    assert before[at + |run|..] == base[at + |run|..];
  }

  /** The stroke of one subpath, written at `dst`: the corrected end cap, the
      same emitter as the start cap, is used. */
  method WriteStroke(a: array<Vertex>, dst: nat, s: seq<VPoint>, closed: bool, join: LineJoin, cap: LineCap,
                     w: real, aa: real, u0: real, u1: real, ncap: Divs, lib: Libm) returns (end: nat)
    requires closed || |s| >= 2
    requires dst + StrokeWritesMax(s, closed, join, StartCap(cap, w, aa), EndCap(cap, w, aa), ncap) <= a.Length
    modifies a
    ensures end == dst + |StrokeRun(s, closed, join, cap, w, aa, u0, u1, ncap, lib, old(a[dst..dst + 2]))|
    ensures a[..] == old(a[..dst]) + StrokeRun(s, closed, join, cap, w, aa, u0, u1, ncap, lib, old(a[dst..dst + 2]))
                     + old(a[end..])
  {
    ghost var under := a[dst..dst + 2];
    ghost var r := StrokeRun(s, closed, join, cap, w, aa, u0, u1, ncap, lib, under);
    if closed {
      end := WriteRing(a, dst, s, join, w, w, u0, u1, ncap, lib);
    } else {
      var n := |s|;
      var d0 := Heading(s[0], s[1], lib.sqrt);
      var d1 := Heading(s[n - 2], s[n - 1], lib.sqrt);
      end := WriteOpenStroke(a, dst, s, d0, d1, join, StartCap(cap, w, aa), EndCap(cap, w, aa), w, aa, u0, u1, ncap, lib);
    }
  }

  /** A closed strip round a subpath, written at `dst`: the joins, then the
      first pair of the strip again, read back from the arena. */
  method WriteRing(a: array<Vertex>, dst: nat, s: seq<VPoint>, join: LineJoin,
                   lw: real, rw: real, lu: real, ru: real, ncap: Divs, lib: Libm) returns (end: nat)
    requires dst + |JoinsRun(s, 0, |s|, join, lw, rw, lu, ru, ncap, lib)| + 2 <= a.Length
    modifies a
    ensures end == dst + |JoinsRun(s, 0, |s|, join, lw, rw, lu, ru, ncap, lib)| + 2
    ensures a[..] == old(a[..dst]) + RingRun(s, join, lw, rw, lu, ru, ncap, lib, old(a[dst..dst + 2])) + old(a[end..])
  {
    ghost var under := a[dst..dst + 2];
    ghost var s0 := a[..];
    ghost var body := JoinsRun(s, 0, |s|, join, lw, rw, lu, ru, ncap, lib);
    var mid := WriteJoins(a, dst, s, 0, |s|, join, lw, rw, lu, ru, ncap, lib);
    ghost var s1 := a[..];
    var v0 := a[dst];
    var v1 := a[dst + 1];
    assert |body| >= 2 ==> v0 == body[0] && v1 == body[1];
    assert |body| < 2 ==> v0 == under[0] && v1 == under[1];
    var close := [Vertex(v0.x, v0.y, lu, 1.0), Vertex(v1.x, v1.y, ru, 1.0)];
    assert close == ClosingPair(body, under, lu, ru);
    end := WriteRun(a, mid, close);
    Sequenced(s0, s1, a[..], dst, mid, end, body, close);
  }

  /** The open case of `WriteStroke`: start cap, then inner joins and end cap. */
  method WriteOpenStroke(a: array<Vertex>, dst: nat, s: seq<VPoint>, d0: Point, d1: Point,
                         join: LineJoin, e0: CapEmitter, e1: CapEmitter,
                         w: real, aa: real, u0: real, u1: real, ncap: Divs, lib: Libm) returns (end: nat)
    requires |s| >= 2
    requires dst + |OpenStrokeRun(s, d0, d1, join, e0, e1, w, aa, u0, u1, ncap, lib)| <= a.Length
    modifies a
    ensures end == dst + |OpenStrokeRun(s, d0, d1, join, e0, e1, w, aa, u0, u1, ncap, lib)|
    ensures a[..] == old(a[..dst]) + OpenStrokeRun(s, d0, d1, join, e0, e1, w, aa, u0, u1, ncap, lib) + old(a[end..])
  {
    ghost var s0 := a[..];
    ghost var first := CapRun(e0, true, s[0], d0.x, d0.y, w, aa, u0, u1, ncap, lib);
    ghost var rest := OpenTailRun(s, d1, join, e1, w, aa, u0, u1, ncap, lib);
    var mid := WriteCap(a, dst, e0, true, s[0], d0.x, d0.y, w, aa, u0, u1, ncap, lib);
    ghost var s1 := a[..];
    end := WriteOpenTail(a, mid, s, d1, join, e1, w, aa, u0, u1, ncap, lib);
    Sequenced(s0, s1, a[..], dst, mid, end, first, rest);
  }

  /** The inner joins and the end cap of an open stroke, written at `dst`. */
  method WriteOpenTail(a: array<Vertex>, dst: nat, s: seq<VPoint>, d1: Point, join: LineJoin, e1: CapEmitter,
                       w: real, aa: real, u0: real, u1: real, ncap: Divs, lib: Libm) returns (end: nat)
    requires |s| >= 2
    requires dst + |OpenTailRun(s, d1, join, e1, w, aa, u0, u1, ncap, lib)| <= a.Length
    modifies a
    ensures end == dst + |OpenTailRun(s, d1, join, e1, w, aa, u0, u1, ncap, lib)|
    ensures a[..] == old(a[..dst]) + OpenTailRun(s, d1, join, e1, w, aa, u0, u1, ncap, lib) + old(a[end..])
  {
    var n := |s|;
    ghost var s0 := a[..];
    ghost var body := JoinsRun(s, 1, n - 1, join, w, w, u0, u1, ncap, lib);
    ghost var last := CapRun(e1, false, s[n - 1], d1.x, d1.y, w, aa, u0, u1, ncap, lib);
    var mid := WriteJoins(a, dst, s, 1, n - 1, join, w, w, u0, u1, ncap, lib);
    ghost var s1 := a[..];
    end := WriteCap(a, mid, e1, false, s[n - 1], d1.x, d1.y, w, aa, u0, u1, ncap, lib);
    Sequenced(s0, s1, a[..], dst, mid, end, body, last);
  }

  /** A cap, written at `dst` by the emitter `e` stands for. */
  method WriteCap(a: array<Vertex>, dst: nat, e: CapEmitter, start: bool, p: VPoint, dx: real, dy: real,
                  w: real, aa: real, u0: real, u1: real, ncap: Divs, lib: Libm) returns (end: nat)
    requires dst + CapWrites(e, ncap) <= a.Length
    modifies a
    ensures end == dst + CapWrites(e, ncap)
    ensures a[..] == old(a[..dst]) + CapRun(e, start, p, dx, dy, w, aa, u0, u1, ncap, lib) + old(a[end..])
  {
    match e
    case ButtCapAt(d) =>
      if start {
        end := ButtCapStart(a, dst, p, dx, dy, w, d, aa, u0, u1);
      } else {
        end := ButtCapEnd(a, dst, p, dx, dy, w, d, aa, u0, u1);
      }
    case RoundCapAt =>
      if start {
        end := RoundCapStart(a, dst, p, dx, dy, w, ncap, u0, u1, lib);
      } else {
        end := RoundCapEnd(a, dst, p, dx, dy, w, ncap, u0, u1, lib);
      }
  }
}
