/** What the four crystal-lattice animations (js/sc-lattice.js,
    js/bcc-lattice.js, js/fcc-lattice.js, js/hcp-lattice.js) share: atom
    positions of the unit cube in half-units, bonds as index pairs, the alpha
    clamp and the depth sort of the draw order. */
module LatticeCommon {

  /** A position in half cell edges: the source's coordinate 0, 0.5 and 1 are
      0, 1 and 2 here. */
  datatype Point = Point(x: int, y: int, z: int)

  /** A bond `[a, b]` between two entries of an atom table. */
  datatype Bond = Bond(a: nat, b: nat)

  /** The eight corners in the order all three cubic tables list them. */
  function CubeCorners(): (cs: seq<Point>)
    ensures |cs| == 8
  {
    [Point(0, 0, 0), Point(2, 0, 0), Point(0, 2, 0), Point(0, 0, 2),
     Point(2, 2, 0), Point(2, 0, 2), Point(0, 2, 2), Point(2, 2, 2)]
  }

  predicate IsCornerPoint(p: Point) {
    (p.x == 0 || p.x == 2) && (p.y == 0 || p.y == 2) && (p.z == 0 || p.z == 2)
  }

  /** The corner table lists every corner of the cube exactly once. */
  lemma CornersAreTheCube()
    ensures forall i :: 0 <= i < 8 ==> IsCornerPoint(CubeCorners()[i])
    ensures forall i, j :: 0 <= i < j < 8 ==> CubeCorners()[i] != CubeCorners()[j]
    ensures forall p :: IsCornerPoint(p) ==> p in CubeCorners()
  {
  }

  /** Every bond names two entries of a table of `n` atoms. */
  predicate BondsInRange(bonds: seq<Bond>, n: nat) {
    forall k :: 0 <= k < |bonds| ==> bonds[k].a < n && bonds[k].b < n
  }

  /** Whether a bond touches atom `i`. */
  predicate Touches(b: Bond, i: nat) {
    b.a == i || b.b == i
  }

  /** The two bonds join the same pair of atoms, in either direction. */
  predicate SameSegment(b1: Bond, b2: Bond) {
    (b1.a == b2.a && b1.b == b2.b) || (b1.a == b2.b && b1.b == b2.a)
  }

  /** The number of coordinates in which two points differ. */
  function Differences(p: Point, q: Point): (d: nat)
    ensures d <= 3
    ensures d == 0 <==> p == q
  {
    (if p.x != q.x then 1 else 0) + (if p.y != q.y then 1 else 0) + (if p.z != q.z then 1 else 0)
  }

  /** Corners `i` and `j` are the two ends of an edge of the cube. */
  predicate IsCubeEdge(i: nat, j: nat) {
    i < 8 && j < 8 && Differences(CubeCorners()[i], CubeCorners()[j]) == 1
  }

  /** The bond list is the edge set of the cube: every bond is an edge, no
      edge is listed twice and every edge is listed. */
  predicate ExactlyCubeEdges(bonds: seq<Bond>) {
    && (forall k :: 0 <= k < |bonds| ==> IsCubeEdge(bonds[k].a, bonds[k].b))
    && (forall k1, k2 :: 0 <= k1 < k2 < |bonds| ==> !SameSegment(bonds[k1], bonds[k2]))
    && (forall i, j :: 0 <= i < j < 8 && IsCubeEdge(i, j) ==>
          exists k :: 0 <= k < |bonds| && SameSegment(bonds[k], Bond(i, j)))
  }

  /** `coordinate - 0.5`: the cell moved so that its centre is the origin. */
  function Centred(p: Point): (c: Point)
    ensures c.x - p.x == c.y - p.y == c.z - p.z == -1
  {
    Point(p.x - 1, p.y - 1, p.z - 1)
  }

  /** `Math.max(0.2, Math.min(1, alpha))` */
  function Clamp(alpha: real): (r: real)
    ensures 0.2 <= r <= 1.0
    ensures 0.2 <= alpha <= 1.0 ==> r == alpha
    ensures alpha < 0.2 ==> r == 0.2
    ensures alpha > 1.0 ==> r == 1.0
  {
    var upper := if 1.0 < alpha then 1.0 else alpha;
    if 0.2 > upper then 0.2 else upper
  }

  /** Clamping never reverses the order of two alphas. */
  lemma ClampMonotone(a1: real, a2: real)
    requires a1 <= a2
    ensures Clamp(a1) <= Clamp(a2)
  {
  }

  // ---------------------------------------------------------------------
  // The depth-sorted draw order

  /** The indices `0..n-1` in order. */
  function Indices(n: nat): (r: seq<nat>)
    ensures |r| == n && forall k :: 0 <= k < n ==> r[k] == k
  {
    seq(n, k requires 0 <= k < n => k as nat)
  }

  /** The indices are listed with nondecreasing key. */
  ghost predicate SortedBy(order: seq<nat>, key: seq<real>) {
    && (forall k :: 0 <= k < |order| ==> order[k] < |key|)
    && (forall k1, k2 :: 0 <= k1 < k2 < |order| ==> key[order[k1]] <= key[order[k2]])
  }

  /** Places `x` after every entry whose key is not larger, as a stable sort
      does for an element that comes later. */
  function Insert(x: nat, order: seq<nat>, key: seq<real>): (r: seq<nat>)
    requires x < |key| && SortedBy(order, key)
    ensures SortedBy(r, key)
    ensures multiset(r) == multiset(order) + multiset{x}
    ensures |r| == |order| + 1
    decreases |order|
  {
    if order == [] then [x]
    else
      var last := order[|order| - 1];
      if key[last] <= key[x] then order + [x]
      else
        var init := order[..|order| - 1];
        assert order == init + [last];
        var front := Insert(x, init, key);
        BelowLast(x, init, last, front, key);
        front + [last]
  }

  /** Every entry of `front`, a rearrangement of `init` plus `x`, has a key no
      larger than that of `last`. */
  lemma BelowLast(x: nat, init: seq<nat>, last: nat, front: seq<nat>, key: seq<real>)
    requires x < |key| && last < |key| && key[x] < key[last]
    requires SortedBy(init + [last], key)
    requires multiset(front) == multiset(init) + multiset{x}
    requires forall k :: 0 <= k < |front| ==> front[k] < |key|
    ensures forall k :: 0 <= k < |front| ==> key[front[k]] <= key[last]
  {
    forall k | 0 <= k < |front|
      ensures key[front[k]] <= key[last]
    {
      assert front[k] in multiset(front);
      if front[k] != x {
        assert front[k] in multiset(init);
        var m :| 0 <= m < |init| && init[m] == front[k];
        assert (init + [last])[m] == init[m] && (init + [last])[|init|] == last;
      }
    }
  }

  /** `[...items].sort((a, b) => key(a) - key(b))` over the listed indices:
      JavaScript's sort is stable, and so is this insertion sort. */
  function SortBy(ids: seq<nat>, key: seq<real>): (r: seq<nat>)
    requires forall k :: 0 <= k < |ids| ==> ids[k] < |key|
    ensures SortedBy(r, key)
    ensures multiset(r) == multiset(ids)
    ensures |r| == |ids|
    decreases |ids|
  {
    if ids == [] then []
    else
      var init := ids[..|ids| - 1];
      assert ids == init + [ids[|ids| - 1]];
      Insert(ids[|ids| - 1], SortBy(init, key), key)
  }

  /** The mean depth of the two ends of each bond. */
  function MeanDepths(bonds: seq<Bond>, depth: seq<real>): (r: seq<real>)
    requires BondsInRange(bonds, |depth|)
    ensures |r| == |bonds|
    ensures forall k :: 0 <= k < |r| ==> r[k] == (depth[bonds[k].a] + depth[bonds[k].b]) / 2.0
  {
    seq(|bonds|, k requires 0 <= k < |bonds| => (depth[bonds[k].a] + depth[bonds[k].b]) / 2.0)
  }

  /** A draw order over a table of `n` entries: each index exactly once,
      in nondecreasing order of the given key (smallest key first). */
  lemma {:induction false} DrawOrderIsPermutation(n: nat, depth: seq<real>)
    requires |depth| == n
    ensures SortedBy(SortBy(Indices(n), depth), depth)
    ensures forall i :: 0 <= i < n ==> multiset(SortBy(Indices(n), depth))[i] == 1
    ensures forall k :: 0 <= k < n ==> SortBy(Indices(n), depth)[k] < n
  {
    IndicesOnce(n);
  }

  lemma {:induction false} IndicesOnce(n: nat)
    ensures forall i :: 0 <= i < n ==> multiset(Indices(n))[i] == 1
    ensures forall i :: i >= n ==> multiset(Indices(n))[i] == 0
  {
    if n > 0 {
      IndicesOnce(n - 1);
      assert Indices(n) == Indices(n - 1) + [(n - 1) as nat];
      assert multiset(Indices(n)) == multiset(Indices(n - 1)) + multiset{(n - 1) as nat};
    }
  }
}
