/** The body-centred cubic unit cell of js/bcc-lattice.js: nine atoms, the
    eight centre-to-corner bonds plus the cube frame, the depth-dependent
    alpha, and the fixed tilt with a steadily growing spin angle. */
module BccLattice {

  import opened LatticeCommon

  /** `CONFIG.rotationSpeed`, radians per frame. */
  const RotationSpeed: real := 0.006
  /** `CONFIG.size`, the canvas edge in pixels. */
  const CanvasSize: real := 160.0
  /** Index of the body-centre atom. */
  const BodyCentre: nat := 8

  /** `atomPositions`: the corners, then the body centre (0.5, 0.5, 0.5). */
  function Atoms(): (r: seq<Point>)
    ensures |r| == 9
    ensures r[..8] == CubeCorners() && r[BodyCentre] == Point(1, 1, 1)
  {
    CubeCorners() + [Point(1, 1, 1)]
  }

  /** `bonds`: the centre to each corner, then the frame of the cube; twenty
      bonds, every index naming an atom of the table. */
  function Bonds(): (r: seq<Bond>)
    ensures |r| == 20 && BondsInRange(r, |Atoms()|)
  {
    [Bond(8, 0), Bond(8, 1), Bond(8, 2), Bond(8, 3),
     Bond(8, 4), Bond(8, 5), Bond(8, 6), Bond(8, 7),
     Bond(0, 1), Bond(0, 2), Bond(0, 3),
     Bond(1, 4), Bond(1, 5),
     Bond(2, 4), Bond(2, 6),
     Bond(3, 5), Bond(3, 6),
     Bond(4, 7), Bond(5, 7), Bond(6, 7)]
  }

  /** The first eight bonds join the centre to corner k, in corner order, and
      no later bond touches the centre: each corner is linked to it once. */
  lemma CentreLinks()
    ensures forall k :: 0 <= k < 8 ==> Bonds()[k] == Bond(BodyCentre, k)
    ensures forall k :: 8 <= k < |Bonds()| ==> !Touches(Bonds()[k], BodyCentre)
  {
  }

  /** The other twelve bonds are exactly the edges of the cube. */
  lemma FrameIsCubeEdges()
    ensures ExactlyCubeEdges(Bonds()[8..])
  {
    var frame := Bonds()[8..];
    assert frame == [Bond(0, 1), Bond(0, 2), Bond(0, 3), Bond(1, 4), Bond(1, 5), Bond(2, 4),
                     Bond(2, 6), Bond(3, 5), Bond(3, 6), Bond(4, 7), Bond(5, 7), Bond(6, 7)];
    FrameAreEdges(frame);
    FrameDistinct(frame);
    forall i, j | 0 <= i < j < 8 && IsCubeEdge(i, j)
      ensures exists k :: 0 <= k < |frame| && SameSegment(frame[k], Bond(i, j))
    {
      var k := FrameSlot(i, j);
      assert SameSegment(frame[k], Bond(i, j));
    }
  }

  lemma FrameAreEdges(frame: seq<Bond>)
    requires frame == [Bond(0, 1), Bond(0, 2), Bond(0, 3), Bond(1, 4), Bond(1, 5), Bond(2, 4),
                       Bond(2, 6), Bond(3, 5), Bond(3, 6), Bond(4, 7), Bond(5, 7), Bond(6, 7)]
    ensures forall k :: 0 <= k < |frame| ==> IsCubeEdge(frame[k].a, frame[k].b)
  {
  }

  lemma FrameDistinct(frame: seq<Bond>)
    requires frame == [Bond(0, 1), Bond(0, 2), Bond(0, 3), Bond(1, 4), Bond(1, 5), Bond(2, 4),
                       Bond(2, 6), Bond(3, 5), Bond(3, 6), Bond(4, 7), Bond(5, 7), Bond(6, 7)]
    ensures forall k1, k2 :: 0 <= k1 < k2 < |frame| ==> !SameSegment(frame[k1], frame[k2])
  {
  }

  /** Where edge (i, j) sits among the frame bonds. */
  function FrameSlot(i: nat, j: nat): (k: nat)
    requires 0 <= i < j < 8 && IsCubeEdge(i, j)
    ensures k < 12 && Bonds()[8 + k] == Bond(i, j)
  {
    if i == 0 then j - 1
    else if i == 1 then (if j == 4 then 3 else 4)
    else if i == 2 then (if j == 4 then 5 else 6)
    else if i == 3 then (if j == 5 then 7 else 8)
    else if i == 4 then 9
    else if i == 5 then 10
    else 11
  }

  /** The drawn alpha for an atom at depth `z` (the rotated, unscaled
      coordinate): `0.6 + z / size * 0.4`, clamped into [0.2, 1]. */
  function Alpha(z: real): (a: real)
    ensures 0.2 <= a <= 1.0
  {
    Clamp(0.6 + z / CanvasSize * 0.4)
  }

  /** Nearer atoms are never drawn fainter. */
  lemma AlphaMonotone(z1: real, z2: real)
    requires z1 <= z2
    ensures Alpha(z1) <= Alpha(z2)
  {
    ClampMonotone(0.6 + z1 / CanvasSize * 0.4, 0.6 + z2 / CanvasSize * 0.4);
  }

  /** Rotated coordinates of the centred cell lie within one cell edge of the
      centre, and there the depth term moves alpha by at most 0.0025: the
      clamp never takes effect. */
  lemma AlphaNearlyConstant(z: real)
    requires -1.0 <= z <= 1.0
    ensures 0.5975 <= Alpha(z) <= 0.6025
    ensures Alpha(z) == 0.6 + z / CanvasSize * 0.4
  {
  }

  class BccAnimation {
    var angleY: real
    /** The fixed tilt. */
    const angleX: real

    constructor ()
      ensures angleY == 0.0 && angleX == 0.35
    {
      angleY := 0.0;
      angleX := 0.35;
    }

    /** The end of `draw`: one step of spin. */
    method Frame()
      modifies this`angleY
      ensures angleY == old(angleY) + RotationSpeed
    {
      angleY := angleY + RotationSpeed;
    }
  }
}
