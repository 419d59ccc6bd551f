/** The face-centred cubic unit cell of js/fcc-lattice.js: fourteen atoms,
    the twenty-four face-centre-to-corner bonds, the corner / face-centre
    colouring, centring, and the per-frame spin. */
module FccLattice {

  import opened LatticeCommon

  /** `CONFIG.rotationSpeed`, radians per frame. */
  const RotationSpeed: real := 0.005
  /** `CONFIG.atomColor`: the corner colour. */
  const CornerColor: string := "#FFD700"
  /** The face-centre colour. */
  const FaceColor: string := "#FFFFFF"

  /** `atomPositions`: the corners, then the centres of the faces z=0, y=0,
      x=0, x=1, y=1 and z=1: fourteen atoms, the corners first, then six
      distinct face centres. */
  function Atoms(): (r: seq<Point>)
    ensures |r| == 14
    ensures r[..8] == CubeCorners()
    ensures forall i :: 8 <= i < 14 ==> IsFaceCentre(r[i])
    ensures forall i, j :: 8 <= i < j < 14 ==> r[i] != r[j]
  {
    CubeCorners() +
    [Point(1, 1, 0), Point(1, 0, 1), Point(0, 1, 1),
     Point(2, 1, 1), Point(1, 2, 1), Point(1, 1, 2)]
  }

  /** `bonds`: each face centre to the four corners of its face; twenty-four
      bonds, every index naming an atom of the table. */
  function Bonds(): (r: seq<Bond>)
    ensures |r| == 24 && BondsInRange(r, |Atoms()|)
  {
    [Bond(8, 0), Bond(8, 1), Bond(8, 2), Bond(8, 4),
     Bond(9, 0), Bond(9, 1), Bond(9, 3), Bond(9, 5),
     Bond(10, 0), Bond(10, 2), Bond(10, 3), Bond(10, 6),
     Bond(11, 1), Bond(11, 4), Bond(11, 5), Bond(11, 7),
     Bond(12, 2), Bond(12, 4), Bond(12, 6), Bond(12, 7),
     Bond(13, 3), Bond(13, 5), Bond(13, 6), Bond(13, 7)]
  }

  /** A face centre: one coordinate on a face of the cube (0 or 1), the other
      two at 0.5. */
  predicate IsFaceCentre(p: Point) {
    || (p.x in {0, 2} && p.y == 1 && p.z == 1)
    || (p.y in {0, 2} && p.x == 1 && p.z == 1)
    || (p.z in {0, 2} && p.x == 1 && p.y == 1)
  }

  /** The corner lies on the face whose centre is given: it shares the
      centre's 0-or-1 coordinate. */
  predicate OnFace(centre: Point, corner: Point) {
    || (centre.x != 1 && corner.x == centre.x)
    || (centre.y != 1 && corner.y == centre.y)
    || (centre.z != 1 && corner.z == centre.z)
  }

  /** Every bond runs from a face centre to a corner of that face, no bond is
      listed twice, and every such pair is listed. */
  lemma BondsAreFaceLinks()
    ensures forall k :: 0 <= k < |Bonds()| ==>
              8 <= Bonds()[k].a < 14 && Bonds()[k].b < 8 && OnFace(Atoms()[Bonds()[k].a], Atoms()[Bonds()[k].b])
    ensures forall k1, k2 :: 0 <= k1 < k2 < |Bonds()| ==> Bonds()[k1] != Bonds()[k2]
    ensures forall f, c :: 8 <= f < 14 && 0 <= c < 8 && OnFace(Atoms()[f], Atoms()[c]) ==> Bond(f, c) in Bonds()
  {
    LinksOnFaces();
    LinksDistinct();
    forall f, c | 8 <= f < 14 && 0 <= c < 8 && OnFace(Atoms()[f], Atoms()[c])
      ensures Bond(f, c) in Bonds()
    {
      assert Bonds()[FaceSlot(f, c)] == Bond(f, c);
    }
  }

  lemma LinksOnFaces()
    ensures forall k :: 0 <= k < |Bonds()| ==>
              8 <= Bonds()[k].a < 14 && Bonds()[k].b < 8 && OnFace(Atoms()[Bonds()[k].a], Atoms()[Bonds()[k].b])
  {
  }

  lemma LinksDistinct()
    ensures forall k1, k2 :: 0 <= k1 < k2 < |Bonds()| ==> Bonds()[k1] != Bonds()[k2]
  {
  }

  /** Where the link from face centre f to corner c sits: the four links of
      a face are consecutive, in corner order. */
  function FaceSlot(f: nat, c: nat): (k: nat)
    requires 8 <= f < 14 && c < 8 && OnFace(Atoms()[f], Atoms()[c])
    ensures k < 24 && Bonds()[k] == Bond(f, c)
  {
    4 * (f - 8) +
    if f == 8 then Slot(c, 0, 1, 2)
    else if f == 9 then Slot(c, 0, 1, 3)
    else if f == 10 then Slot(c, 0, 2, 3)
    else if f == 11 then Slot(c, 1, 4, 5)
    else if f == 12 then Slot(c, 2, 4, 6)
    else Slot(c, 3, 5, 6)
  }

  /** The position of `c` among four corners listed in increasing order, of
      which the first three are given. */
  function Slot(c: nat, c0: nat, c1: nat, c2: nat): nat {
    if c == c0 then 0 else if c == c1 then 1 else if c == c2 then 2 else 3
  }

  /** The number of bonds that touch atom `i`. */
  function Degree(bonds: seq<Bond>, i: nat): nat {
    if bonds == [] then 0
    else (if Touches(bonds[0], i) then 1 else 0) + Degree(bonds[1..], i)
  }

  lemma {:induction false} DegreeAppend(left: seq<Bond>, right: seq<Bond>, i: nat)
    ensures Degree(left + right, i) == Degree(left, i) + Degree(right, i)
    decreases |left|
  {
    if left == [] {
      assert left + right == right;
    } else {
      assert (left + right)[0] == left[0] && (left + right)[1..] == left[1..] + right;
      DegreeAppend(left[1..], right, i);
    }
  }

  /** The four links of face centre `f`, to the given corners. */
  function Face(f: nat, c0: nat, c1: nat, c2: nat, c3: nat): seq<Bond> {
    [Bond(f, c0), Bond(f, c1), Bond(f, c2), Bond(f, c3)]
  }

  lemma FaceDegree(f: nat, c0: nat, c1: nat, c2: nat, c3: nat, i: nat)
    requires c0 < c1 < c2 < c3 < f
    ensures Degree(Face(f, c0, c1, c2, c3), i) == if i == f then 4 else if i in {c0, c1, c2, c3} then 1 else 0
  {
    var bs := Face(f, c0, c1, c2, c3);
    var t1, t2, t3 := bs[1..], bs[1..][1..], bs[1..][1..][1..];
    assert t1 == [Bond(f, c1), Bond(f, c2), Bond(f, c3)] && t2 == [Bond(f, c2), Bond(f, c3)] && t3 == [Bond(f, c3)];
    assert t3[1..] == [];
    assert Degree(t3, i) == (if i == f || i == c3 then 1 else 0);
    assert Degree(t2, i) == (if i == f || i == c2 then 1 else 0) + Degree(t3, i);
    assert Degree(t1, i) == (if i == f || i == c1 then 1 else 0) + Degree(t2, i);
    assert Degree(bs, i) == (if i == f || i == c0 then 1 else 0) + Degree(t1, i);
  }

  /** Each face centre has four bonds and each corner three, one for each
      face it lies on. */
  lemma Degrees()
    ensures forall f :: 8 <= f < 14 ==> Degree(Bonds(), f) == 4
    ensures forall c :: 0 <= c < 8 ==> Degree(Bonds(), c) == 3
  {
    forall i: nat | i < 14
      ensures Degree(Bonds(), i) == if i < 8 then 3 else 4
    {
      DegreeByFace(i);
      FaceDegree(8, 0, 1, 2, 4, i);
      FaceDegree(9, 0, 1, 3, 5, i);
      FaceDegree(10, 0, 2, 3, 6, i);
      FaceDegree(11, 1, 4, 5, 7, i);
      FaceDegree(12, 2, 4, 6, 7, i);
      FaceDegree(13, 3, 5, 6, 7, i);
    }
  }

  /** The degree in the whole table is the sum over the six faces' links. */
  lemma DegreeByFace(i: nat)
    ensures Degree(Bonds(), i) ==
              Degree(Face(8, 0, 1, 2, 4), i) + Degree(Face(9, 0, 1, 3, 5), i) + Degree(Face(10, 0, 2, 3, 6), i)
              + Degree(Face(11, 1, 4, 5, 7), i) + Degree(Face(12, 2, 4, 6, 7), i) + Degree(Face(13, 3, 5, 6, 7), i)
  {
    var f8, f9, f10 := Face(8, 0, 1, 2, 4), Face(9, 0, 1, 3, 5), Face(10, 0, 2, 3, 6);
    var f11, f12, f13 := Face(11, 1, 4, 5, 7), Face(12, 2, 4, 6, 7), Face(13, 3, 5, 6, 7);
    assert Bonds() == f8 + f9 + f10 + f11 + f12 + f13;
    DegreeAppend(f8 + f9 + f10 + f11 + f12, f13, i);
    DegreeAppend(f8 + f9 + f10 + f11, f12, i);
    DegreeAppend(f8 + f9 + f10, f11, i);
    DegreeAppend(f8 + f9, f10, i);
    DegreeAppend(f8, f9, i);
  }

  /** `isCorner ? CONFIG.atomColor : '#FFFFFF'` with `isCorner = index < 8`:
      gold marks exactly the corner atoms and white exactly the face centres. */
  function AtomColor(index: nat): (c: string)
    ensures index < |Atoms()| ==> (c == CornerColor <==> IsCornerPoint(Atoms()[index]))
    ensures index < |Atoms()| ==> (c == FaceColor <==> IsFaceCentre(Atoms()[index]))
  {
    if index < 8 then CornerColor else FaceColor
  }

  /** Reflection through the centre of the cell. */
  function Mirror(p: Point): Point {
    Point(2 - p.x, 2 - p.y, 2 - p.z)
  }

  /** Centring puts every coordinate in {-0.5, 0, 0.5}, and the centred cell
      is symmetric about the origin: the mirror image of each atom is an atom. */
  lemma CentredCell()
    ensures forall i :: 0 <= i < |Atoms()| ==>
              var c := Centred(Atoms()[i]);
              c.x in {-1, 0, 1} && c.y in {-1, 0, 1} && c.z in {-1, 0, 1}
    ensures forall i :: 0 <= i < |Atoms()| ==> Mirror(Atoms()[i]) in Atoms()
    ensures forall p :: Centred(Mirror(p)) == Point(-Centred(p).x, -Centred(p).y, -Centred(p).z)
  {
    CentredCoordinates();
    forall i | 0 <= i < |Atoms()|
      ensures Mirror(Atoms()[i]) in Atoms()
    {
      assert Atoms()[MirrorSlot(i)] == Mirror(Atoms()[i]);
    }
  }

  lemma CentredCoordinates()
    ensures forall i :: 0 <= i < |Atoms()| ==>
              var c := Centred(Atoms()[i]);
              c.x in {-1, 0, 1} && c.y in {-1, 0, 1} && c.z in {-1, 0, 1}
  {
  }

  /** The index of the atom opposite atom `i`: corners pair off as 0-7, 1-6,
      2-5, 3-4, and face centres as 8-13, 9-12, 10-11. */
  function MirrorSlot(i: nat): (j: nat)
    requires i < 14
    ensures j < 14 && Atoms()[j] == Mirror(Atoms()[i])
  {
    if i < 8 then 7 - i else 21 - i
  }

  class FccAnimation {
    var angleY: real
    /** The tilt: declared with `let`, but never written after start-up. */
    var angleX: real

    constructor ()
      ensures angleY == 0.0 && angleX == 0.3
    {
      angleY := 0.0;
      angleX := 0.3;
    }

    /** The end of `draw`: one step of spin; the tilt is left alone. */
    method Frame()
      modifies this`angleY
      ensures angleY == old(angleY) + RotationSpeed
      ensures angleX == old(angleX)
    {
      angleY := angleY + RotationSpeed;
    }
  }
}
