// The join classification pass (nona/src/cache.rs:246-307): every point of
// every subpath gets its extrusion `dm` and its join flags, and every
// subpath its bevel count and convexity.
module JoinPass {
  import opened CanvasTypes
  import opened CacheSpec
  import opened Expand
  import opened Flatten

  /** The ring s after `calculate_joins`: each point classified against its
      predecessor, whose direction and length the pass never changes. */
  function Joined(s: seq<VPoint>, iw: real, join: LineJoin, miterLimit: real): (r: seq<VPoint>)
    ensures |r| == |s|
  {
    seq(|s|, k requires 0 <= k < |s| => JoinPoint(s[Prev(k, |s|)].d, s[Prev(k, |s|)].len, s[k], iw, join, miterLimit))
  }

  /** The pass only sets `dm` and the flags: the points stay where they
      are, with their directions and lengths. */
  lemma JoinedKeepsPositions(s: seq<VPoint>, iw: real, join: LineJoin, miterLimit: real)
    ensures forall k :: 0 <= k < |s| ==>
      var q := Joined(s, iw, join, miterLimit)[k];
      q.xy == s[k].xy && q.d == s[k].d && q.len == s[k].len
  {
  }

  /** What `calculate_joins` records for a subpath whose joined points are
      js: the number of points needing a bevel, and convexity when every
      point turns left. */
  function Classified(p: Path, js: seq<VPoint>): (q: Path)
    ensures q == p.(numBevel := q.numBevel, convex := q.convex)
    ensures q.numBevel == CountBevelled(js) && (q.convex <==> CountLeft(js) == p.count)
  {
    p.(numBevel := CountBevelled(js), convex := CountLeft(js) == p.count)
  }

  /** Subpath j of k joined. */
  function JoinOne(k: Sketch, j: nat, iw: real, join: LineJoin, miterLimit: real): (r: Sketch)
    requires j < |k.paths| && Within(k.paths[j], |k.points|)
    ensures |r.points| == |k.points| && |r.paths| == |k.paths|
    ensures r.paths == k.paths[j := r.paths[j]]
  {
    var p := k.paths[j];
    var js := Joined(Slice(k.points, p), iw, join, miterLimit);
    Sketch(k.points[..p.first] + js + k.points[p.first + p.count..], k.paths[j := Classified(p, js)])
  }

  /** Joining a subpath only changes its bevel count and its convexity,
      which keeps the sketch sound. */
  lemma JoinOneSound(k: Sketch, j: nat, iw: real, join: LineJoin, miterLimit: real)
    requires Sound(k) && j < |k.paths|
    ensures Sound(JoinOne(k, j, iw, join, miterLimit))
  {
    var r := JoinOne(k, j, iw, join, miterLimit);
    assert forall i :: 0 <= i < |k.paths| ==>
      (r.paths[i].first == k.paths[i].first && r.paths[i].count == k.paths[i].count && r.paths[i].closed == k.paths[i].closed);
  }

  /** Subpath i of r holds the points of subpath i of k classified as
      `Joined`, and records their bevel count and convexity. */
  predicate JoinedPath(k: Sketch, r: Sketch, i: nat, iw: real, join: LineJoin, miterLimit: real)
  {
    && i < |k.paths| && i < |r.paths|
    && Within(k.paths[i], |k.points|) && Within(r.paths[i], |r.points|)
    && var js := Joined(Slice(k.points, k.paths[i]), iw, join, miterLimit);
       Slice(r.points, r.paths[i]) == js && r.paths[i] == Classified(k.paths[i], js)
  }

  /** Subpath i of r is subpath i of k, with the same points. */
  predicate SamePath(k: Sketch, r: Sketch, i: nat)
  {
    && i < |k.paths| && i < |r.paths|
    && Within(k.paths[i], |k.points|) && Within(r.paths[i], |r.points|)
    && r.paths[i] == k.paths[i] && Slice(r.points, r.paths[i]) == Slice(k.points, k.paths[i])
  }

  /** Each of the first j subpaths of r holds the points of the same
      subpath of k classified as `Joined`, and records their bevel count and
      convexity; the later subpaths and their points are as in k. */
  predicate JoinedFrom(k: Sketch, r: Sketch, j: nat, iw: real, join: LineJoin, miterLimit: real)
  {
    && (forall i :: 0 <= i < j ==> JoinedPath(k, r, i, iw, join, miterLimit))
    && (forall i :: j <= i < |k.paths| ==> SamePath(k, r, i))
  }

  lemma NothingJoined(k: Sketch, iw: real, join: LineJoin, miterLimit: real)
    requires Sound(k)
    ensures JoinedFrom(k, k, 0, iw, join, miterLimit)
  {
  }

  /** Joining subpath j of a sketch whose first j subpaths are joined joins
      the first j + 1 and leaves the others. */
  lemma JoinStep(k: Sketch, prev: Sketch, j: nat, iw: real, join: LineJoin, miterLimit: real)
    requires Sound(prev) && j < |k.paths| == |prev.paths| && |prev.points| == |k.points|
    requires JoinedFrom(k, prev, j, iw, join, miterLimit)
    ensures JoinedFrom(k, JoinOne(prev, j, iw, join, miterLimit), j + 1, iw, join, miterLimit)
    ensures Sound(JoinOne(prev, j, iw, join, miterLimit))
  {
    JoinOneSound(prev, j, iw, join, miterLimit);
    var r := JoinOne(prev, j, iw, join, miterLimit);
    JoinOneFrame(prev, j, iw, join, miterLimit);
    assert SamePath(k, prev, j);
    forall i | 0 <= i < j + 1
      ensures JoinedPath(k, r, i, iw, join, miterLimit)
    {
      if i < j {
        assert JoinedPath(k, prev, i, iw, join, miterLimit);
        assert r.paths[i] == prev.paths[i];
      }
    }
    forall i | j + 1 <= i < |k.paths|
      ensures SamePath(k, r, i)
    {
      assert SamePath(k, prev, i);
      assert r.paths[i] == prev.paths[i];
    }
  }

  /** Joining subpath j rewrites its points only: every other subpath keeps
      its points. */
  lemma JoinOneFrame(k: Sketch, j: nat, iw: real, join: LineJoin, miterLimit: real)
    requires Sound(k) && j < |k.paths|
    ensures var r := JoinOne(k, j, iw, join, miterLimit);
      var p := k.paths[j];
      && Slice(r.points, r.paths[j]) == Joined(Slice(k.points, p), iw, join, miterLimit)
      && r.paths[j] == Classified(p, Joined(Slice(k.points, p), iw, join, miterLimit))
      && (forall i :: 0 <= i < |k.paths| && i != j ==> Slice(r.points, k.paths[i]) == Slice(k.points, k.paths[i]))
  {
    var r := JoinOne(k, j, iw, join, miterLimit);
    var p := k.paths[j];
    var js := Joined(Slice(k.points, p), iw, join, miterLimit);
    assert r.points == k.points[..p.first] + js + k.points[p.first + p.count..];
    forall i | 0 <= i < |k.paths| && i != j
      ensures Slice(r.points, k.paths[i]) == Slice(k.points, k.paths[i])
    {
      var q := k.paths[i];
      assert q.first + q.count <= p.first || p.first + p.count <= q.first;
      assert forall m :: q.first <= m < q.first + q.count ==> r.points[m] == k.points[m];
    }
  }
}
