// The vertex arena `expand_stroke` and `expand_fill` write
// (nona/src/cache.rs:103-109, 319-690): how it is resized, how much of it a
// pass reserves, and where the run of each subpath lies in it afterwards.
module Arena {
  import opened Numerics
  import opened Geometry
  import opened CanvasTypes
  import opened CacheSpec
  import opened Expand
  import opened Fill
  import opened Flatten
  import opened JoinPass

  /** `Vec::resize` with the default vertex: the first n vertices of v, padded
      with zero vertices. */
  function Resized(v: seq<Vertex>, n: nat): (r: seq<Vertex>)
    ensures |r| == n
    ensures forall k :: 0 <= k < n && k < |v| ==> r[k] == v[k]
    ensures forall k :: |v| <= k < n ==> r[k] == ZeroVertex
  {
    if n <= |v| then v[..n] else v + seq(n - |v|, _ => ZeroVertex)
  }

  // ---------------------------------------------------------------------
  // What the expansion passes rely on
  // ---------------------------------------------------------------------

  /** Every subpath is closed or has at least two points: what
      `flatten_paths` leaves, and what the stroke of an open subpath needs
      to find its two end segments. */
  predicate Outlined(ps: seq<Path>)
  {
    forall i :: 0 <= i < |ps| ==> ps[i].closed || ps[i].count >= 2
  }

  /** Flattening outlines every subpath. */
  lemma FlattenedOutlined(k: Sketch, b: Bounds, tol: real, sqrt: real -> real)
    requires Sound(k) && tol != 0.0
    ensures Outlined(FinishUpTo(k, b, |k.paths|, tol, sqrt).0.paths)
  {
    var r := FinishUpTo(k, b, |k.paths|, tol, sqrt);
    forall i | 0 <= i < |r.0.paths|
      ensures r.0.paths[i].closed || r.0.paths[i].count >= 2
    {
      assert Finished(r.0, r.1, i);
    }
  }

  /** Subpath p lies in the buffer, is closed or has two points, and counts
      its bevelled points in `num_bevel`. */
  predicate ReadyPath(pts: seq<VPoint>, p: Path)
  {
    && Within(p, |pts|)
    && (p.closed || p.count >= 2)
    && p.numBevel == CountBevelled(Slice(pts, p))
  }

  /** What the expansion passes rely on after `calculate_joins`: every
      subpath is ready. */
  predicate Ready(k: Sketch)
  {
    forall i :: 0 <= i < |k.paths| ==> ReadyPath(k.points, k.paths[i])
  }

  /** `calculate_joins` over every subpath of an outlined sketch leaves it
      ready: each subpath's bevel count is the number of its points the
      pass bevelled. */
  lemma JoinedReady(k: Sketch, r: Sketch, iw: real, join: LineJoin, miterLimit: real)
    requires Outlined(k.paths) && |r.paths| == |k.paths|
    requires JoinedFrom(k, r, |k.paths|, iw, join, miterLimit)
    ensures Ready(r)
  {
    forall i | 0 <= i < |r.paths|
      ensures ReadyPath(r.points, r.paths[i])
    {
      assert JoinedPath(k, r, i, iw, join, miterLimit);
    }
  }

  // ---------------------------------------------------------------------
  // Reservations
  // ---------------------------------------------------------------------

  /** The reservation of the first i + 1 subpaths is that of the first i and
      subpath i's own, and no more than the reservation of them all. */
  lemma StrokeBudgetPrefix(ps: seq<Path>, i: nat, join: LineJoin, cap: LineCap, ncap: Divs)
    requires i < |ps|
    ensures StrokeBudget(ps[..i + 1], join, cap, ncap)
            == StrokeBudget(ps[..i], join, cap, ncap) + StrokeAllowance(ps[i], join, cap, ncap)
    ensures StrokeBudget(ps[..i + 1], join, cap, ncap) <= StrokeBudget(ps, join, cap, ncap)
  {
    assert ps[..i + 1][..i] == ps[..i];
    StrokeBudgetGrows(ps, i + 1, join, cap, ncap);
  }

  lemma {:induction false} StrokeBudgetGrows(ps: seq<Path>, i: nat, join: LineJoin, cap: LineCap, ncap: Divs)
    requires i <= |ps|
    ensures StrokeBudget(ps[..i], join, cap, ncap) <= StrokeBudget(ps, join, cap, ncap)
    decreases |ps|
  {
    if i < |ps| {
      var init := ps[..|ps| - 1];
      assert init[..i] == ps[..i];
      StrokeBudgetGrows(init, i, join, cap, ncap);
    } else {
      assert ps[..i] == ps;
    }
  }

  /** The same for the reservation of `expand_fill`. */
  lemma FillBudgetPrefix(ps: seq<Path>, i: nat, fringe: bool)
    requires i < |ps|
    ensures FillBudget(ps[..i + 1], fringe) == FillBudget(ps[..i], fringe) + FillAllowance(ps[i], fringe)
    ensures FillBudget(ps[..i + 1], fringe) <= FillBudget(ps, fringe)
  {
    assert ps[..i + 1][..i] == ps[..i];
    FillBudgetGrows(ps, i + 1, fringe);
  }

  lemma {:induction false} FillBudgetGrows(ps: seq<Path>, i: nat, fringe: bool)
    requires i <= |ps|
    ensures FillBudget(ps[..i], fringe) <= FillBudget(ps, fringe)
    decreases |ps|
  {
    if i < |ps| {
      var init := ps[..|ps| - 1];
      assert init[..i] == ps[..i];
      FillBudgetGrows(init, i, fringe);
    } else {
      assert ps[..i] == ps;
    }
  }

  // ---------------------------------------------------------------------
  // Layout of the stroke
  // ---------------------------------------------------------------------

  /** What is written for a subpath, given the subpath and the two vertices
      the arena held where its run starts. */
  type Runner = (Path, seq<Vertex>) -> seq<Vertex>

  /** The run of subpath q of the points pts under a stroke style: the
      `StrokeRun` of its points. */
  function StrokeOf(pts: seq<VPoint>, q: Path, under: seq<Vertex>, join: LineJoin, cap: LineCap,
                    w: real, aa: real, u0: real, u1: real, ncap: Divs, lib: Libm): (r: seq<Vertex>)
    ensures Within(q, |pts|) && (q.closed || q.count >= 2) && |under| == 2 ==>
      r == StrokeRun(Slice(pts, q), q.closed, join, cap, w, aa, u0, u1, ncap, lib, under)
  {
    if Within(q, |pts|) && (q.closed || q.count >= 2) && |under| == 2
    then StrokeRun(Slice(pts, q), q.closed, join, cap, w, aa, u0, u1, ncap, lib, under)
    else []
  }

  /** The runs of a stroke style over the points pts. */
  function Stroker(pts: seq<VPoint>, join: LineJoin, cap: LineCap,
                   w: real, aa: real, u0: real, u1: real, ncap: Divs, lib: Libm): Runner
  {
    (q: Path, under: seq<Vertex>) => StrokeOf(pts, q, under, join, cap, w, aa, u0, u1, ncap, lib)
  }

  /** Subpath q after a stroke pass, recorded as r, in the arena v that held
      `init` before the pass: its fill is cleared, and its stroke is q's run
      at the place r records.  The closing pair of a subpath of no points
      repeats what `init` held there. */
  predicate StrokedAt(v: seq<Vertex>, init: seq<Vertex>, pts: seq<VPoint>, q: Path, r: Path, run: Runner)
  {
    && Within(q, |pts|) && (q.closed || q.count >= 2)
    && r == q.(fill := 0, numFill := 0, stroke := r.stroke, numStroke := r.numStroke)
    && r.stroke + r.numStroke <= |v| && r.stroke + 2 <= |init|
    && v[r.stroke..r.stroke + r.numStroke] == run(q, init[r.stroke..r.stroke + 2])
  }

  /** Where the stroke of subpath j starts: right after that of subpath j - 1. */
  function StrokeStart(ps: seq<Path>, j: nat): nat
    requires j <= |ps|
  {
    if j == 0 then 0 else ps[j - 1].stroke + ps[j - 1].numStroke
  }

  /** The strokes of the first n subpaths follow one another from the start
      of the arena. */
  predicate StrokesPacked(ps: seq<Path>, n: nat)
    requires n <= |ps|
  {
    forall j :: 0 <= j < n ==> ps[j].stroke == StrokeStart(ps, j)
  }

  /** Subpath j of ps0, recorded as ps[j], stroked as `StrokedAt` says. */
  predicate StrokedPath(v: seq<Vertex>, init: seq<Vertex>, pts: seq<VPoint>, ps0: seq<Path>, ps: seq<Path>, j: nat,
                        run: Runner)
  {
    j < |ps0| && j < |ps| && StrokedAt(v, init, pts, ps0[j], ps[j], run)
  }

  /** A stroke that ends below dst is not touched by writes from dst on. */
  lemma StrokedFrame(v: seq<Vertex>, v': seq<Vertex>, dst: nat, init: seq<Vertex>, pts: seq<VPoint>,
                     ps0: seq<Path>, ps: seq<Path>, ps': seq<Path>, j: nat, run: Runner)
    requires StrokedPath(v, init, pts, ps0, ps, j, run)
    requires j < |ps'| && ps'[j] == ps[j] && ps[j].stroke + ps[j].numStroke <= dst
    requires dst <= |v| == |v'| && v'[..dst] == v[..dst]
    ensures StrokedPath(v', init, pts, ps0, ps', j, run)
  {
    SliceBelow(v, v', dst, ps[j].stroke, ps[j].stroke + ps[j].numStroke);
  }

  /** Strokes that end below dst are not touched by writes from dst on. */
  lemma StrokedFrameAll(v: seq<Vertex>, v': seq<Vertex>, dst: nat, init: seq<Vertex>, pts: seq<VPoint>,
                        ps0: seq<Path>, ps: seq<Path>, ps': seq<Path>, n: nat, run: Runner)
    requires n <= |ps| && n <= |ps'| && forall j :: 0 <= j < n ==> ps'[j] == ps[j]
    requires forall j :: 0 <= j < n ==> StrokedPath(v, init, pts, ps0, ps, j, run)
    requires forall j :: 0 <= j < n ==> ps[j].stroke + ps[j].numStroke <= dst
    requires dst <= |v| == |v'| && v'[..dst] == v[..dst]
    ensures forall j :: 0 <= j < n ==> StrokedPath(v', init, pts, ps0, ps', j, run)
  {
    forall j | 0 <= j < n
      ensures StrokedPath(v', init, pts, ps0, ps', j, run)
    {
      StrokedFrame(v, v', dst, init, pts, ps0, ps, ps', j, run);
    }
  }

  /** The stroke just written at dst..end over an arena that still held
      `init` from dst on is subpath j's. */
  lemma StrokedNew(v: seq<Vertex>, before: seq<Vertex>, init: seq<Vertex>, pts: seq<VPoint>,
                   ps0: seq<Path>, ps: seq<Path>, j: nat, dst: nat, end: nat, run: Runner)
    requires j < |ps0| && j < |ps| && Within(ps0[j], |pts|) && (ps0[j].closed || ps0[j].count >= 2)
    requires dst <= end <= |v| && dst + 2 <= |init| && dst + 2 <= |before|
    requires ps[j] == ps0[j].(fill := 0, numFill := 0, stroke := dst, numStroke := end - dst)
    requires before[dst..dst + 2] == init[dst..dst + 2]
    requires v[dst..end] == run(ps0[j], before[dst..dst + 2])
    ensures StrokedPath(v, init, pts, ps0, ps, j, run)
  {
  }

  /** The stroke pass after its first i subpaths, writing next at dst: the
      arena v (of the size of the reservation for ps0) holds their strokes,
      one after the other from the start, and still holds `init` from dst on;
      the subpaths from i on are as they were. */
  predicate StrokeLoop(v: seq<Vertex>, init: seq<Vertex>, pts: seq<VPoint>, ps0: seq<Path>, ps: seq<Path>,
                       i: nat, dst: nat, join: LineJoin, cap: LineCap, ncap: Divs, run: Runner)
  {
    && i <= |ps| == |ps0| && |v| == |init|
    && Ready(Sketch(pts, ps0))
    && dst == StrokeStart(ps, i) && dst <= StrokeBudget(ps0[..i], join, cap, ncap)
    && dst <= |v| == StrokeBudget(ps0, join, cap, ncap)
    && ps[i..] == ps0[i..]
    && (forall j :: 0 <= j < i ==> ps[j].stroke + ps[j].numStroke <= dst)
    && (forall j :: 0 <= j < i ==> StrokedPath(v, init, pts, ps0, ps, j, run))
    && StrokesPacked(ps, i)
    && v[dst..] == init[dst..]
  }

  /** Nothing is stroked yet. */
  lemma StrokeLoopStart(v: seq<Vertex>, pts: seq<VPoint>, ps: seq<Path>, join: LineJoin, cap: LineCap, ncap: Divs,
                        run: Runner)
    requires Ready(Sketch(pts, ps)) && |v| == StrokeBudget(ps, join, cap, ncap)
    ensures StrokeLoop(v, v, pts, ps, ps, 0, 0, join, cap, ncap, run)
  {
    assert ps[..0] == [];
  }

  /** The next subpath to stroke is untouched, ready, and its run fits in
      the reservation from dst on. */
  lemma StrokeLoopNext(v: seq<Vertex>, init: seq<Vertex>, pts: seq<VPoint>, ps0: seq<Path>, ps: seq<Path>,
                       i: nat, dst: nat, join: LineJoin, cap: LineCap, ncap: Divs, run: Runner)
    requires StrokeLoop(v, init, pts, ps0, ps, i, dst, join, cap, ncap, run) && i < |ps|
    ensures ps[i] == ps0[i] && ReadyPath(pts, ps[i])
    ensures dst + StrokeAllowance(ps[i], join, cap, ncap) <= |v|
  {
    assert ps[i] == ps[i..][0];
    StrokeBudgetPrefix(ps0, i, join, cap, ncap);
    StrokeBudgetGrows(ps0, i + 1, join, cap, ncap);
  }

  /** Stroking subpath i at dst, with the arena kept outside its run,
      advances the pass by one subpath. */
  lemma StrokeLoopStep(v: seq<Vertex>, v': seq<Vertex>, init: seq<Vertex>, pts: seq<VPoint>,
                       ps0: seq<Path>, ps: seq<Path>, ps': seq<Path>, i: nat, dst: nat, end: nat,
                       join: LineJoin, cap: LineCap, ncap: Divs, run: Runner)
    requires StrokeLoop(v, init, pts, ps0, ps, i, dst, join, cap, ncap, run) && i < |ps|
    requires |v'| == |v| && dst <= end <= dst + StrokeAllowance(ps[i], join, cap, ncap) && end <= |v| && dst + 2 <= |v|
    requires ps' == ps[i := ps[i].(fill := 0, numFill := 0, stroke := dst, numStroke := end - dst)]
    requires v'[dst..end] == run(ps[i], v[dst..dst + 2])
    requires v'[..dst] == v[..dst] && v'[end..] == v[end..]
    ensures StrokeLoop(v', init, pts, ps0, ps', i + 1, end, join, cap, ncap, run)
  {
    assert ps[i] == ps[i..][0];
    StrokeBudgetPrefix(ps0, i, join, cap, ncap);
    StrokeBudgetGrows(ps0, i + 1, join, cap, ncap);
    TailStep(init, v, v', dst, end);
    assert ps[i] == ps0[i] && ReadyPath(pts, ps0[i]);
    StrokedNew(v', v, init, pts, ps0, ps', i, dst, end, run);
    StrokedFrameAll(v, v', dst, init, pts, ps0, ps, ps', i, run);
    assert ps'[i + 1..] == ps0[i + 1..] by { assert ps[i + 1..] == ps[i..][1..]; }
  }

  /** At the end of the pass every subpath is stroked, and the arena holds
      `init` past the last stroke. */
  lemma StrokeLoopDone(v: seq<Vertex>, init: seq<Vertex>, pts: seq<VPoint>, ps0: seq<Path>, ps: seq<Path>,
                       dst: nat, join: LineJoin, cap: LineCap, ncap: Divs, run: Runner)
    requires StrokeLoop(v, init, pts, ps0, ps, |ps|, dst, join, cap, ncap, run)
    ensures |ps| == |ps0| && StrokesPacked(ps, |ps|)
    ensures forall j :: 0 <= j < |ps| ==> StrokedPath(v, init, pts, ps0, ps, j, run)
    ensures dst == StrokeStart(ps, |ps|) <= |v| == |init| && v[dst..] == init[dst..]
  {
  }

  /** A run written at dst over `before` sits at dst..end, with what lay
      outside kept. */
  lemma Placed(before: seq<Vertex>, after: seq<Vertex>, dst: nat, run: seq<Vertex>, end: nat)
    requires end == dst + |run| <= |before|
    requires after == before[..dst] + run + before[end..]
    ensures |after| == |before| && after[dst..end] == run
    ensures after[..dst] == before[..dst] && after[end..] == before[end..]
  {
  }

  /** The arena from dst on still holds what it held before the pass; a run
      written from dst to end keeps that so from end on, and read the
      pass's own vertices at dst. */
  lemma TailStep(v0: seq<Vertex>, before: seq<Vertex>, after: seq<Vertex>, dst: nat, end: nat)
    requires dst <= end <= |before| == |after| == |v0| && dst + 2 <= |v0|
    requires before[dst..] == v0[dst..] && after[end..] == before[end..]
    ensures after[end..] == v0[end..] && before[dst..dst + 2] == v0[dst..dst + 2]
  {
    assert before[dst..dst + 2] == before[dst..][..2];
    assert v0[dst..dst + 2] == v0[dst..][..2];
    assert before[end..] == before[dst..][end - dst..];
    assert v0[end..] == v0[dst..][end - dst..];
  }

  /** The arena from dst on still holds what it held before the pass; a run
      written from dst to end keeps that so from end on. */
  lemma TailKeep(v0: seq<Vertex>, before: seq<Vertex>, after: seq<Vertex>, dst: nat, end: nat)
    requires dst <= end <= |before| == |after| == |v0|
    requires before[dst..] == v0[dst..] && after[end..] == before[end..]
    ensures after[end..] == v0[end..]
  {
    assert before[end..] == before[dst..][end - dst..];
    assert v0[end..] == v0[dst..][end - dst..];
  }

  /** What lies below dst is the same in two arenas that agree below dst. */
  lemma SliceBelow(v: seq<Vertex>, v': seq<Vertex>, dst: nat, lo: nat, hi: nat)
    requires lo <= hi <= dst <= |v| == |v'| && v'[..dst] == v[..dst]
    ensures v'[lo..hi] == v[lo..hi]
  {
    forall k | 0 <= k < hi - lo
      ensures v'[lo..hi][k] == v[lo..hi][k]
    {
      assert v'[lo + k] == v'[..dst][lo + k];
    }
  }

  // ---------------------------------------------------------------------
  // Layout of the fill
  // ---------------------------------------------------------------------

  /** What is written for the interior of a subpath. */
  type Inner = Path -> seq<Vertex>

  /** The interior of subpath q of the points pts: the `FillRun` of its points. */
  function InteriorOf(pts: seq<VPoint>, q: Path, fringe: bool, woff: real): (r: seq<Vertex>)
    ensures Within(q, |pts|) ==> r == FillRun(Slice(pts, q), fringe, woff)
  {
    if Within(q, |pts|) then FillRun(Slice(pts, q), fringe, woff) else []
  }

  /** The anti-aliasing ring of subpath q of the points pts: the `FringeRun`
      of its points. */
  function FringeOf(pts: seq<VPoint>, q: Path, under: seq<Vertex>, w: real, woff: real, convex: bool): (r: seq<Vertex>)
    ensures Within(q, |pts|) && |under| == 2 ==> r == FringeRun(Slice(pts, q), w, woff, convex, under)
  {
    if Within(q, |pts|) && |under| == 2 then FringeRun(Slice(pts, q), w, woff, convex, under) else []
  }

  /** The interiors of a fill over the points pts. */
  function Filler(pts: seq<VPoint>, fringe: bool, woff: real): Inner
  {
    (q: Path) => InteriorOf(pts, q, fringe, woff)
  }

  /** The anti-aliasing rings of a fill over the points pts. */
  function Fringer(pts: seq<VPoint>, w: real, woff: real, convex: bool): Runner
  {
    (q: Path, under: seq<Vertex>) => FringeOf(pts, q, under, w, woff, convex)
  }

  /** Subpath q after a fill pass, recorded as r, in the arena v that held
      `init` before the pass: q's interior at the place r records as its
      fill and, with a fringe, q's ring right after it as its stroke; without
      a fringe it has no stroke. */
  predicate FilledAt(v: seq<Vertex>, init: seq<Vertex>, pts: seq<VPoint>, q: Path, r: Path,
                     fringe: bool, inner: Inner, ring: Runner)
  {
    && Within(q, |pts|)
    && r == q.(fill := r.fill, numFill := r.numFill, stroke := r.stroke, numStroke := r.numStroke)
    && r.fill + r.numFill <= |v|
    && v[r.fill..r.fill + r.numFill] == inner(q)
    && (fringe ==>
          && r.stroke == r.fill + r.numFill
          && r.stroke + r.numStroke <= |v| && r.stroke + 2 <= |init|
          && v[r.stroke..r.stroke + r.numStroke] == ring(q, init[r.stroke..r.stroke + 2]))
    && (!fringe ==> r.stroke == 0 && r.numStroke == 0)
  }

  /** Where the vertices of a filled subpath end: with its ring when there
      is a fringe and with its interior otherwise. */
  function FillEnd(r: Path, fringe: bool): nat
  {
    if fringe then r.stroke + r.numStroke else r.fill + r.numFill
  }

  /** Where the vertices of subpath j start: right after those of subpath
      j - 1. */
  function FillStart(ps: seq<Path>, j: nat, fringe: bool): nat
    requires j <= |ps|
  {
    if j == 0 then 0 else FillEnd(ps[j - 1], fringe)
  }

  /** The vertices of the first n subpaths follow one another from the start
      of the arena. */
  predicate FillsPacked(ps: seq<Path>, n: nat, fringe: bool)
    requires n <= |ps|
  {
    forall j :: 0 <= j < n ==> ps[j].fill == FillStart(ps, j, fringe)
  }

  /** Subpath j of ps0, recorded as ps[j], filled as `FilledAt` says. */
  predicate FilledPath(v: seq<Vertex>, init: seq<Vertex>, pts: seq<VPoint>, ps0: seq<Path>, ps: seq<Path>, j: nat,
                       fringe: bool, inner: Inner, ring: Runner)
  {
    j < |ps0| && j < |ps| && FilledAt(v, init, pts, ps0[j], ps[j], fringe, inner, ring)
  }

  /** A filled subpath whose vertices end below dst is not touched by writes
      from dst on. */
  lemma FilledFrame(v: seq<Vertex>, v': seq<Vertex>, dst: nat, init: seq<Vertex>, pts: seq<VPoint>,
                    ps0: seq<Path>, ps: seq<Path>, ps': seq<Path>, j: nat, fringe: bool, inner: Inner, ring: Runner)
    requires FilledPath(v, init, pts, ps0, ps, j, fringe, inner, ring)
    requires j < |ps'| && ps'[j] == ps[j] && FillEnd(ps[j], fringe) <= dst
    requires dst <= |v| == |v'| && v'[..dst] == v[..dst]
    ensures FilledPath(v', init, pts, ps0, ps', j, fringe, inner, ring)
  {
    var r := ps[j];
    SliceBelow(v, v', dst, r.fill, r.fill + r.numFill);
    if fringe {
      SliceBelow(v, v', dst, r.stroke, r.stroke + r.numStroke);
    }
  }

  /** Filled subpaths that end below dst are not touched by writes from dst on. */
  lemma FilledFrameAll(v: seq<Vertex>, v': seq<Vertex>, dst: nat, init: seq<Vertex>, pts: seq<VPoint>,
                       ps0: seq<Path>, ps: seq<Path>, ps': seq<Path>, n: nat, fringe: bool, inner: Inner, ring: Runner)
    requires n <= |ps| && n <= |ps'| && forall j :: 0 <= j < n ==> ps'[j] == ps[j]
    requires forall j :: 0 <= j < n ==> FilledPath(v, init, pts, ps0, ps, j, fringe, inner, ring)
    requires forall j :: 0 <= j < n ==> FillEnd(ps[j], fringe) <= dst
    requires dst <= |v| == |v'| && v'[..dst] == v[..dst]
    ensures forall j :: 0 <= j < n ==> FilledPath(v', init, pts, ps0, ps', j, fringe, inner, ring)
  {
    forall j | 0 <= j < n
      ensures FilledPath(v', init, pts, ps0, ps', j, fringe, inner, ring)
    {
      FilledFrame(v, v', dst, init, pts, ps0, ps, ps', j, fringe, inner, ring);
    }
  }

  /** The interior of p written at dst..mid and, with a fringe, its ring
      at mid..end over what the arena then held there: p is filled as q
      records, over the arena v0 from before both writes. */
  lemma FilledPlaced(v0: seq<Vertex>, v1: seq<Vertex>, v2: seq<Vertex>, pts: seq<VPoint>, p: Path, q: Path,
                     dst: nat, mid: nat, end: nat, fringe: bool, inner: Inner, ring: Runner)
    requires Within(p, |pts|) && dst <= mid <= end <= |v0|
    requires |inner(p)| == mid - dst && v1 == v0[..dst] + inner(p) + v0[mid..]
    requires fringe ==> mid + 2 <= |v1| && |ring(p, v1[mid..mid + 2])| == end - mid
                        && v2 == v1[..mid] + ring(p, v1[mid..mid + 2]) + v1[end..]
    requires !fringe ==> v2 == v1 && end == mid
    requires q == p.(fill := dst, numFill := mid - dst,
                     stroke := if fringe then mid else 0, numStroke := if fringe then end - mid else 0)
    ensures FilledAt(v2, v0, pts, p, q, fringe, inner, ring)
    ensures |v2| == |v0| && v2[..dst] == v0[..dst] && v2[end..] == v0[end..]
  {
    assert v1[mid..] == v0[mid..];
    if fringe {
      assert v1[mid..mid + 2] == v0[mid..mid + 2] by {
        assert v1[mid..mid + 2] == v1[mid..][..2];
        assert v0[mid..mid + 2] == v0[mid..][..2];
      }
      assert v2[dst..mid] == v1[dst..mid];
      assert v2[..dst] == v1[..dst];
      assert v2[end..] == v1[end..] == v0[end..] by {
        assert v1[end..] == v1[mid..][end - mid..];
        assert v0[end..] == v0[mid..][end - mid..];
      }
    }
  }

  /** A subpath filled from dst on over an arena that still held `init`
      from dst on is filled over `init` as well. */
  lemma FilledNew(v: seq<Vertex>, before: seq<Vertex>, init: seq<Vertex>, pts: seq<VPoint>, q: Path, r: Path,
                  dst: nat, fringe: bool, inner: Inner, ring: Runner)
    requires FilledAt(v, before, pts, q, r, fringe, inner, ring)
    requires dst <= r.fill && dst <= |before| == |init| && before[dst..] == init[dst..]
    ensures FilledAt(v, init, pts, q, r, fringe, inner, ring)
  {
    if fringe {
      assert before[r.stroke..r.stroke + 2] == before[dst..][r.stroke - dst..r.stroke - dst + 2];
      assert init[r.stroke..r.stroke + 2] == init[dst..][r.stroke - dst..r.stroke - dst + 2];
    }
  }

  /** Subpath i filled from dst on joins the subpaths filled before it. */
  lemma FilledNext(v: seq<Vertex>, v': seq<Vertex>, init: seq<Vertex>, pts: seq<VPoint>,
                   ps0: seq<Path>, ps: seq<Path>, r: Path, ps': seq<Path>, i: nat, dst: nat,
                   fringe: bool, inner: Inner, ring: Runner)
    requires i < |ps| == |ps0| && ps[i] == ps0[i] && ps' == ps[i := r]
    requires forall j :: 0 <= j < i ==> FilledPath(v, init, pts, ps0, ps, j, fringe, inner, ring)
    requires forall j :: 0 <= j < i ==> FillEnd(ps[j], fringe) <= dst
    requires FilledAt(v', v, pts, ps[i], r, fringe, inner, ring) && dst <= r.fill
    requires dst <= |v| == |v'| == |init| && v[dst..] == init[dst..] && v'[..dst] == v[..dst]
    ensures forall j :: 0 <= j < i + 1 ==> FilledPath(v', init, pts, ps0, ps', j, fringe, inner, ring)
  {
    FilledNew(v', v, init, pts, ps[i], r, dst, fringe, inner, ring);
    FilledFrameAll(v, v', dst, init, pts, ps0, ps, ps', i, fringe, inner, ring);
  }

  /** Subpath i recorded from dst, where the vertices of those before it
      end, keeps the subpaths packed. */
  lemma FillsPackedNext(ps: seq<Path>, r: Path, ps': seq<Path>, i: nat, dst: nat, end: nat, fringe: bool)
    requires i < |ps| && FillsPacked(ps, i, fringe) && dst == FillStart(ps, i, fringe) && ps' == ps[i := r]
    requires forall j :: 0 <= j < i ==> FillEnd(ps[j], fringe) <= dst
    requires r.fill == dst <= end == FillEnd(r, fringe)
    ensures FillsPacked(ps', i + 1, fringe) && end == FillStart(ps', i + 1, fringe)
    ensures forall j :: 0 <= j < i + 1 ==> FillEnd(ps'[j], fringe) <= end
  {
    forall j | 0 <= j < i + 1
      ensures ps'[j].fill == FillStart(ps', j, fringe)
    {
      if j < i {
        assert ps'[j] == ps[j];
        if j > 0 {
          assert ps'[j - 1] == ps[j - 1];
        }
      } else if j > 0 {
        assert ps'[j - 1] == ps[j - 1];
      }
    }
  }

  /** The fill pass after its first i subpaths, writing next at dst: the
      arena v (of the size of the reservation for ps0) holds their vertices,
      one subpath after the other from the start, and still holds `init`
      from dst on; the subpaths from i on are as they were. */
  predicate FillLoop(v: seq<Vertex>, init: seq<Vertex>, pts: seq<VPoint>, ps0: seq<Path>, ps: seq<Path>,
                     i: nat, dst: nat, fringe: bool, inner: Inner, ring: Runner)
  {
    && i <= |ps| == |ps0| && |v| == |init|
    && Ready(Sketch(pts, ps0))
    && dst == FillStart(ps, i, fringe) && dst <= FillBudget(ps0[..i], fringe)
    && dst <= |v| == FillBudget(ps0, fringe)
    && ps[i..] == ps0[i..]
    && (forall j :: 0 <= j < i ==> FillEnd(ps[j], fringe) <= dst)
    && (forall j :: 0 <= j < i ==> FilledPath(v, init, pts, ps0, ps, j, fringe, inner, ring))
    && FillsPacked(ps, i, fringe)
    && v[dst..] == init[dst..]
  }

  /** Nothing is filled yet. */
  lemma FillLoopStart(v: seq<Vertex>, pts: seq<VPoint>, ps: seq<Path>, fringe: bool, inner: Inner, ring: Runner)
    requires Ready(Sketch(pts, ps)) && |v| == FillBudget(ps, fringe)
    ensures FillLoop(v, v, pts, ps, ps, 0, 0, fringe, inner, ring)
  {
    assert ps[..0] == [];
  }

  /** The next subpath to fill is untouched, ready, and its vertices fit in
      the reservation from dst on. */
  lemma FillLoopNext(v: seq<Vertex>, init: seq<Vertex>, pts: seq<VPoint>, ps0: seq<Path>, ps: seq<Path>,
                     i: nat, dst: nat, fringe: bool, inner: Inner, ring: Runner)
    requires FillLoop(v, init, pts, ps0, ps, i, dst, fringe, inner, ring) && i < |ps|
    ensures ps[i] == ps0[i] && ReadyPath(pts, ps[i])
    ensures dst + FillAllowance(ps[i], fringe) <= |v|
  {
    assert ps[i] == ps[i..][0];
    FillBudgetPrefix(ps0, i, fringe);
    FillBudgetGrows(ps0, i + 1, fringe);
  }

  /** Filling subpath i from dst, with the arena kept outside its vertices,
      advances the pass by one subpath. */
  lemma FillLoopStep(v: seq<Vertex>, v': seq<Vertex>, init: seq<Vertex>, pts: seq<VPoint>,
                     ps0: seq<Path>, ps: seq<Path>, r: Path, i: nat, dst: nat, end: nat,
                     fringe: bool, inner: Inner, ring: Runner)
    requires FillLoop(v, init, pts, ps0, ps, i, dst, fringe, inner, ring) && i < |ps|
    requires |v'| == |v| && dst <= end <= dst + FillAllowance(ps[i], fringe) && end <= |v|
    requires r.fill == dst && FillEnd(r, fringe) == end
    requires FilledAt(v', v, pts, ps[i], r, fringe, inner, ring)
    requires v'[..dst] == v[..dst] && v'[end..] == v[end..]
    ensures FillLoop(v', init, pts, ps0, ps[i := r], i + 1, end, fringe, inner, ring)
  {
    var ps' := ps[i := r];
    assert ps[i] == ps[i..][0];
    FillBudgetPrefix(ps0, i, fringe);
    FillBudgetGrows(ps0, i + 1, fringe);
    TailKeep(init, v, v', dst, end);
    FilledNext(v, v', init, pts, ps0, ps, r, ps', i, dst, fringe, inner, ring);
    FillsPackedNext(ps, r, ps', i, dst, end, fringe);
    assert ps'[i + 1..] == ps0[i + 1..] by { assert ps[i + 1..] == ps[i..][1..]; }
  }

  /** At the end of the pass every subpath is filled, and the arena holds
      `init` past the last one. */
  lemma FillLoopDone(v: seq<Vertex>, init: seq<Vertex>, pts: seq<VPoint>, ps0: seq<Path>, ps: seq<Path>,
                     dst: nat, fringe: bool, inner: Inner, ring: Runner)
    requires FillLoop(v, init, pts, ps0, ps, |ps|, dst, fringe, inner, ring)
    ensures |ps| == |ps0| && FillsPacked(ps, |ps|, fringe)
    ensures forall j :: 0 <= j < |ps| ==> FilledPath(v, init, pts, ps0, ps, j, fringe, inner, ring)
    ensures dst == FillStart(ps, |ps|, fringe) <= |v| == |init| && v[dst..] == init[dst..]
  {
  }

  // ---------------------------------------------------------------------
  // Whole passes
  // ---------------------------------------------------------------------

  /** Every subpath of ps stroked where it says, from the subpaths ps0. */
  predicate AllStroked(v: seq<Vertex>, init: seq<Vertex>, pts: seq<VPoint>, ps0: seq<Path>, ps: seq<Path>, run: Runner)
  {
    forall j :: 0 <= j < |ps| ==> StrokedPath(v, init, pts, ps0, ps, j, run)
  }

  /** Every subpath of ps filled where it says, from the subpaths ps0. */
  predicate AllFilled(v: seq<Vertex>, init: seq<Vertex>, pts: seq<VPoint>, ps0: seq<Path>, ps: seq<Path>,
                      fringe: bool, inner: Inner, ring: Runner)
  {
    forall j :: 0 <= j < |ps| ==> FilledPath(v, init, pts, ps0, ps, j, fringe, inner, ring)
  }

  /** A reservation is empty exactly when there is no subpath: every
      subpath reserves at least two vertices for its stroke and one for its
      fill.  An empty reservation is what makes `alloc_temp_vertexes`
      return null. */
  lemma {:induction false} BudgetsEmpty(ps: seq<Path>, join: LineJoin, cap: LineCap, ncap: Divs, fringe: bool)
    ensures StrokeBudget(ps, join, cap, ncap) == 0 <==> |ps| == 0
    ensures FillBudget(ps, fringe) == 0 <==> |ps| == 0
  {
    if |ps| > 0 {
      assert StrokeAllowance(ps[|ps| - 1], join, cap, ncap) >= 2;
      assert FillAllowance(ps[|ps| - 1], fringe) >= 1;
    }
  }

  /** Placing the vertices of the subpaths moves none of their points: a
      sound sketch stays sound when only the vertex ranges change. */
  lemma {:induction false} PlacedSound(pts: seq<VPoint>, ps0: seq<Path>, ps: seq<Path>)
    requires Sound(Sketch(pts, ps0)) && |ps| == |ps0|
    requires forall j :: 0 <= j < |ps| ==>
      ps[j].first == ps0[j].first && ps[j].count == ps0[j].count && ps[j].closed == ps0[j].closed
    ensures Sound(Sketch(pts, ps))
  {
    forall i | 0 <= i < |ps|
      ensures Within(ps[i], |pts|)
    {
      assert Within(ps0[i], |pts|);
    }
  }

  /** Stroking keeps a sound sketch sound. */
  lemma StrokedSound(v: seq<Vertex>, init: seq<Vertex>, pts: seq<VPoint>, ps0: seq<Path>, ps: seq<Path>, run: Runner)
    requires Sound(Sketch(pts, ps0)) && |ps| == |ps0| && AllStroked(v, init, pts, ps0, ps, run)
    ensures Sound(Sketch(pts, ps))
  {
    forall j | 0 <= j < |ps|
      ensures ps[j].first == ps0[j].first && ps[j].count == ps0[j].count && ps[j].closed == ps0[j].closed
    {
      assert StrokedPath(v, init, pts, ps0, ps, j, run);
    }
    PlacedSound(pts, ps0, ps);
  }

  /** Filling keeps a sound sketch sound. */
  lemma FilledSound(v: seq<Vertex>, init: seq<Vertex>, pts: seq<VPoint>, ps0: seq<Path>, ps: seq<Path>,
                    fringe: bool, inner: Inner, ring: Runner)
    requires Sound(Sketch(pts, ps0)) && |ps| == |ps0| && AllFilled(v, init, pts, ps0, ps, fringe, inner, ring)
    ensures Sound(Sketch(pts, ps))
  {
    forall j | 0 <= j < |ps|
      ensures ps[j].first == ps0[j].first && ps[j].count == ps0[j].count && ps[j].closed == ps0[j].closed
    {
      assert FilledPath(v, init, pts, ps0, ps, j, fringe, inner, ring);
    }
    PlacedSound(pts, ps0, ps);
  }

  /** A stroke pass leaves every subpath at least two stroke vertices, so
      the strip of each has `num_stroke - 2` triangles. */
  lemma StrokedLong(v: seq<Vertex>, init: seq<Vertex>, pts: seq<VPoint>, ps0: seq<Path>, ps: seq<Path>,
                    join: LineJoin, cap: LineCap, w: real, aa: real, u0: real, u1: real, ncap: Divs, lib: Libm)
    requires |ps| == |ps0| && AllStroked(v, init, pts, ps0, ps, Stroker(pts, join, cap, w, aa, u0, u1, ncap, lib))
    ensures forall j :: 0 <= j < |ps| ==> ps[j].numStroke >= 2
  {
    forall j | 0 <= j < |ps|
      ensures ps[j].numStroke >= 2
    {
      var run := Stroker(pts, join, cap, w, aa, u0, u1, ncap, lib);
      assert StrokedPath(v, init, pts, ps0, ps, j, run);
      var under := init[ps[j].stroke..ps[j].stroke + 2];
      assert run(ps0[j], under) == StrokeOf(pts, ps0[j], under, join, cap, w, aa, u0, u1, ncap, lib);
    }
  }
}
