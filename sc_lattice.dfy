/** The interactive simple-cubic unit cell of js/sc-lattice.js: its atom and
    bond tables, the depth-sorted draw order, and the drag / settle /
    auto-rotate state machine. Pointer positions and angles are exact reals;
    the projected depth of each atom is an input, since it comes from the
    rotation and perspective arithmetic. */
module ScLattice {

  import opened LatticeCommon

  /** `CONFIG.rotationSpeed`, radians per frame. */
  const RotationSpeed: real := 0.006
  /** Radians of rotation per pixel of pointer movement. */
  const DragFactor: real := 0.01

  /** `atomPositions`: the eight corners, each once. */
  function Atoms(): (r: seq<Point>)
    ensures |r| == 8
    ensures forall i :: 0 <= i < |r| ==> IsCornerPoint(r[i])
    ensures forall i, j :: 0 <= i < j < |r| ==> r[i] != r[j]
  {
    CubeCorners()
  }

  /** `bonds`: bottom face, top face, then the vertical edges; twelve bonds,
      every index naming an atom of the table. */
  function Bonds(): (r: seq<Bond>)
    ensures |r| == 12 && BondsInRange(r, |Atoms()|)
  {
    [Bond(0, 1), Bond(0, 2), Bond(1, 4), Bond(2, 4),
     Bond(3, 5), Bond(3, 6), Bond(5, 7), Bond(6, 7),
     Bond(0, 3), Bond(1, 5), Bond(2, 6), Bond(4, 7)]
  }

  /** The twelve bonds are exactly the edges of the cube. */
  lemma BondsAreCubeEdges()
    ensures ExactlyCubeEdges(Bonds())
  {
    BondsAreEdges();
    BondsDistinct();
    var bs := Bonds();
    forall i, j | 0 <= i < j < 8 && IsCubeEdge(i, j)
      ensures exists k :: 0 <= k < |bs| && SameSegment(bs[k], Bond(i, j))
    {
      var k := EdgeSlot(i, j);
      assert SameSegment(bs[k], Bond(i, j));
    }
  }

  lemma BondsAreEdges()
    ensures forall k :: 0 <= k < |Bonds()| ==> Bonds()[k].a < Bonds()[k].b && IsCubeEdge(Bonds()[k].a, Bonds()[k].b)
  {
  }

  lemma BondsDistinct()
    ensures forall k1, k2 :: 0 <= k1 < k2 < |Bonds()| ==> !SameSegment(Bonds()[k1], Bonds()[k2])
  {
  }

  /** The position of edge (i, j) in the bond table. */
  function EdgeSlot(i: nat, j: nat): (k: nat)
    requires 0 <= i < j < 8 && IsCubeEdge(i, j)
    ensures k < |Bonds()| && Bonds()[k] == Bond(i, j)
  {
    if i == 0 then (if j == 1 then 0 else if j == 2 then 1 else 8)
    else if i == 1 then (if j == 4 then 2 else 9)
    else if i == 2 then (if j == 4 then 3 else 10)
    else if i == 3 then (if j == 5 then 4 else 5)
    else if i == 4 then 11
    else if i == 5 then 6
    else 7
  }

  /** The mean depth of each bond's two ends, the bond sort key. */
  function BondDepths(depth: seq<real>): (r: seq<real>)
    requires |depth| == 8
    ensures |r| == 12
  {
    MeanDepths(Bonds(), depth)
  }

  /** The order atoms are painted in: by the projected `z`, smallest first.
      Since the perspective scale 300 / (300 + z) shrinks as z grows, this
      paints the largest (nearest-looking) atom first. */
  function AtomOrder(depth: seq<real>): seq<nat>
    requires |depth| == 8
  {
    SortBy(Indices(8), depth)
  }

  /** The order bonds are painted in, by mean endpoint depth. */
  function BondOrder(depth: seq<real>): seq<nat>
    requires |depth| == 8
  {
    SortBy(Indices(12), BondDepths(depth))
  }

  /** Each atom is painted exactly once, smallest z first. */
  lemma AtomDrawOrder(depth: seq<real>)
    requires |depth| == 8
    ensures |AtomOrder(depth)| == 8
    ensures forall i :: 0 <= i < 8 ==> multiset(AtomOrder(depth))[i] == 1
    ensures forall k1, k2 :: 0 <= k1 < k2 < 8 ==> depth[AtomOrder(depth)[k1]] <= depth[AtomOrder(depth)[k2]]
  {
    DrawOrderIsPermutation(8, depth);
  }

  /** Each bond is painted exactly once, smallest mean z first. */
  lemma BondDrawOrder(depth: seq<real>)
    requires |depth| == 8
    ensures |BondOrder(depth)| == 12
    ensures forall b :: 0 <= b < 12 ==> multiset(BondOrder(depth))[b] == 1
    ensures forall k1, k2 :: 0 <= k1 < k2 < 12 ==>
              BondDepths(depth)[BondOrder(depth)[k1]] <= BondDepths(depth)[BondOrder(depth)[k2]]
  {
    var key := BondDepths(depth);
    DrawOrderIsPermutation(12, key);
    assert BondOrder(depth) == SortBy(Indices(12), key);
  }

  // ---------------------------------------------------------------------
  // Colours

  datatype Palette = Palette(atomColor: string, bondColor: string)

  const DarkPalette: Palette := Palette("#FFD700", "rgba(255, 255, 255, 0.35)")
  const LightPalette: Palette := Palette("#00008B", "rgba(0, 0, 0, 0.4)")

  /** The `lattice-theme-change` listener's colours for a background. */
  function ThemePalette(isDark: bool): (p: Palette)
    ensures p == DarkPalette <==> isDark
    ensures p == LightPalette <==> !isDark
  {
    if isDark then DarkPalette else LightPalette
  }

  // ---------------------------------------------------------------------
  // Interaction

  class ScAnimation {
    var angleX: real
    var angleY: real
    var isDragging: bool
    var lastMouseX: real
    var lastMouseY: real
    /** `autoRotateTimeout !== null`: the settle timer is armed. */
    var resumePending: bool
    var palette: Palette
    /** Pointer position and angles when the current drag started. */
    ghost var startX: real
    ghost var startY: real
    ghost var startAngleX: real
    ghost var startAngleY: real

    /** No timer is armed during a drag, and the rotation since the drag began
        is 0.01 times the pointer's net displacement: the per-move deltas
        telescope through `lastMouseX`/`lastMouseY`. */
    ghost predicate Valid()
      reads this
    {
      isDragging ==>
        && !resumePending
        && angleY - startAngleY == DragFactor * (lastMouseX - startX)
        && angleX - startAngleX == DragFactor * (lastMouseY - startY)
    }

    /** Start-up: both angles 0, idle, dark palette. */
    constructor ()
      ensures Valid()
      ensures angleX == 0.0 && angleY == 0.0 && !isDragging && !resumePending
      ensures lastMouseX == 0.0 && lastMouseY == 0.0 && palette == DarkPalette
    {
      angleX := 0.0;
      angleY := 0.0;
      isDragging := false;
      lastMouseX := 0.0;
      lastMouseY := 0.0;
      resumePending := false;
      palette := DarkPalette;
    }

    /** `startDrag` (mouse down or touch start at the given client position):
        dragging starts, the pointer is recorded and any armed timer is
        cancelled. */
    method StartDrag(clientX: real, clientY: real)
      modifies this
      ensures Valid()
      ensures isDragging && !resumePending
      ensures lastMouseX == clientX && lastMouseY == clientY
      ensures angleX == old(angleX) && angleY == old(angleY) && palette == old(palette)
    {
      isDragging := true;
      lastMouseX := clientX;
      lastMouseY := clientY;
      resumePending := false;
      startX, startY := clientX, clientY;
      startAngleX, startAngleY := angleX, angleY;
    }

    /** `drag` (pointer moved to the given position): while dragging, turn by
        0.01 rad per pixel moved since the last event; otherwise nothing. */
    method Drag(clientX: real, clientY: real)
      requires Valid()
      modifies this`angleX, this`angleY, this`lastMouseX, this`lastMouseY
      ensures Valid()
      ensures !old(isDragging) ==>
                angleX == old(angleX) && angleY == old(angleY)
                && lastMouseX == old(lastMouseX) && lastMouseY == old(lastMouseY)
      ensures old(isDragging) ==>
                && angleY == old(angleY) + DragFactor * (clientX - old(lastMouseX))
                && angleX == old(angleX) + DragFactor * (clientY - old(lastMouseY))
                && lastMouseX == clientX && lastMouseY == clientY
      ensures isDragging ==> angleY - startAngleY == DragFactor * (clientX - startX)
      ensures isDragging ==> angleX - startAngleX == DragFactor * (clientY - startY)
    {
      if !isDragging {
        return;
      }
      var deltaX := clientX - lastMouseX;
      var deltaY := clientY - lastMouseY;
      angleY := angleY + deltaX * DragFactor;
      angleX := angleX + deltaY * DragFactor;
      lastMouseX := clientX;
      lastMouseY := clientY;
    }

    /** `endDrag`: a drag ends and the two-second settle timer is armed;
        outside a drag nothing happens. */
    method EndDrag()
      requires Valid()
      modifies this`isDragging, this`resumePending
      ensures Valid()
      ensures !old(isDragging) ==> !isDragging && resumePending == old(resumePending)
      ensures old(isDragging) ==> !isDragging && resumePending
    {
      if !isDragging {
        return;
      }
      isDragging := false;
      resumePending := true;
    }

    /** The settle timer fires (it can only fire while armed). */
    method ResumeTimerExpires()
      requires Valid() && resumePending
      modifies this`resumePending
      ensures Valid() && !resumePending
    {
      resumePending := false;
    }

    /** The rotation step at the end of `draw`: automatic rotation runs only
        when the cell is neither dragged nor settling. */
    method Frame()
      requires Valid()
      modifies this`angleY
      ensures Valid()
      ensures !isDragging && !resumePending ==> angleY == old(angleY) + RotationSpeed
      ensures isDragging || resumePending ==> angleY == old(angleY)
    {
      if !isDragging && !resumePending {
        angleY := angleY + RotationSpeed;
      }
    }

    /** The `lattice-theme-change` listener. */
    method OnThemeChange(isDark: bool)
      modifies this`palette
      ensures palette == ThemePalette(isDark)
    {
      palette := if isDark then DarkPalette else LightPalette;
    }
  }

  /** A two-move example gesture (press, move, a frame, move, release): the
      cell turns by 0.01 rad per pixel of net displacement, the frame in
      between does not rotate it, and the settle timer is left armed. */
  method DragGesture(cell: ScAnimation, x0: real, y0: real, x1: real, y1: real, x2: real, y2: real)
    requires cell.Valid()
    modifies cell
    ensures cell.Valid() && !cell.isDragging && cell.resumePending
    ensures cell.angleY == old(cell.angleY) + DragFactor * (x2 - x0)
    ensures cell.angleX == old(cell.angleX) + DragFactor * (y2 - y0)
  {
    cell.StartDrag(x0, y0);
    cell.Drag(x1, y1);
    cell.Frame();
    cell.Drag(x2, y2);
    cell.EndDrag();
  }
}
