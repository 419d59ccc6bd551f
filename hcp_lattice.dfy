/** The hexagonal close-packed cell of js/hcp-lattice.js: the atom and bond
    tables its loops build, the frame-vertex colouring, the light/dark
    palette switch, the alpha clamp and the per-frame spin. Atom positions
    are kept as named sites (which layer, which hexagon vertex), since the
    coordinates themselves are cosines and sines. */
module HcpLattice {

  import opened LatticeCommon

  /** `CONFIG.rotationSpeed`, radians per frame. */
  const RotationSpeed: real := 0.007
  /** `CONFIG.cellSize`, the hexagon edge in pixels. */
  const CellSize: real := 35.0
  /** Number of atoms in the table. */
  const AtomCount: nat := 17

  datatype Layer = Bottom | Top

  /** A site of the cell: a hexagon centre, vertex `k` of a hexagon (at
      `60k` degrees), or mid-layer atom `k` (at `30 + 120k` degrees). */
  datatype Site = Centre(layer: Layer) | Ring(layer: Layer, k: nat) | Mid(m: nat)

  /** The table entry `i` as the loops lay it out: bottom centre, six bottom
      vertices, top centre, six top vertices, three mid-layer atoms. */
  function SiteAt(i: nat): (s: Site)
    requires i < AtomCount
    ensures s.Ring? ==> s.k < 6
    ensures s.Mid? ==> s.m < 3
  {
    if i == 0 then Centre(Bottom)
    else if i <= 6 then Ring(Bottom, i - 1)
    else if i == 7 then Centre(Top)
    else if i <= 13 then Ring(Top, i - 8)
    else Mid(i - 14)
  }

  /** Where a site sits in the table: the inverse of SiteAt. */
  function IndexOf(s: Site): (i: nat)
    requires s.Ring? ==> s.k < 6
    requires s.Mid? ==> s.m < 3
    ensures i < AtomCount && SiteAt(i) == s
  {
    match s
    case Centre(Bottom) => 0
    case Centre(Top) => assert SiteAt(7) == Centre(Top); 7
    case Ring(Bottom, k) => 1 + k
    case Ring(Top, k) => 8 + k
    case Mid(m) => 14 + m
  }

  /** The construction of `atomPositions`: centre and hexagon of the bottom
      layer, the same for the top layer, then the three mid-layer atoms. */
  method BuildSites() returns (sites: seq<Site>)
    ensures |sites| == AtomCount
    ensures forall i :: 0 <= i < AtomCount ==> sites[i] == SiteAt(i)
  {
    sites := [Centre(Bottom)];
    var i := 0;
    while i < 6
      invariant 0 <= i <= 6
      invariant |sites| == 1 + i
      invariant forall j :: 0 <= j < |sites| ==> sites[j] == SiteAt(j)
    {
      sites := sites + [Ring(Bottom, i)];
      i := i + 1;
    }
    sites := sites + [Centre(Top)];
    i := 0;
    while i < 6
      invariant 0 <= i <= 6
      invariant |sites| == 8 + i
      invariant forall j :: 0 <= j < |sites| ==> sites[j] == SiteAt(j)
    {
      sites := sites + [Ring(Top, i)];
      i := i + 1;
    }
    sites := sites + [Mid(0), Mid(1), Mid(2)];
  }

  // ---------------------------------------------------------------------
  // Bonds

  /** The vertex after vertex `j` (1..6) of the hexagon around centre `c`. */
  function RimNext(c: nat, j: nat): nat {
    if j == 6 then c + 1 else c + j + 1
  }

  /** Bond `p` of a hexagon loop around centre `c`: round `j = p/2 + 1` adds
      the spoke `[c, c+j]`, then the rim bond from `c+j` to the next vertex. */
  function SpokeBond(c: nat, p: nat): Bond {
    var j := p / 2 + 1;
    if p % 2 == 0 then Bond(c, c + j) else Bond(c + j, RimNext(c, j))
  }

  /** The first `m` rounds of a hexagon loop around centre `c`. */
  function Spokes(c: nat, m: nat): (r: seq<Bond>)
    ensures |r| == 2 * m
  {
    seq(2 * m, p requires 0 <= p < 2 * m => SpokeBond(c, p))
  }

  /** The first `m` rounds of the vertical-edge loop. */
  function Verticals(m: nat): (r: seq<Bond>)
    ensures |r| == m
  {
    seq(m, p requires 0 <= p < m => Bond(p + 1, p + 8))
  }

  /** `bonds` as the three loops leave it: thirty bonds, all between the
      atoms 0-13 of the two hexagonal layers. */
  function HcpBonds(): (r: seq<Bond>)
    ensures |r| == 30 && BondsInRange(r, 14)
  {
    Spokes(0, 6) + Spokes(7, 6) + Verticals(6)
  }

  /** One more round of a hexagon loop appends its spoke and its rim bond. */
  lemma SpokesStep(c: nat, m: nat)
    ensures Spokes(c, m + 1) == Spokes(c, m) + [Bond(c, c + m + 1), Bond(c + m + 1, RimNext(c, m + 1))]
  {
    assert SpokeBond(c, 2 * m) == Bond(c, c + m + 1);
    assert SpokeBond(c, 2 * m + 1) == Bond(c + m + 1, RimNext(c, m + 1));
  }

  /** The three loops that fill `bonds`. */
  method BuildBonds() returns (bonds: seq<Bond>)
    ensures bonds == HcpBonds()
  {
    bonds := [];
    var i := 1;
    while i <= 6
      invariant 1 <= i <= 7
      invariant bonds == Spokes(0, i - 1)
    {
      SpokesStep(0, i - 1);
      bonds := bonds + [Bond(0, i)];
      bonds := bonds + [Bond(i, if i == 6 then 1 else i + 1)];
      i := i + 1;
    }
    i := 8;
    while i <= 13
      invariant 8 <= i <= 14
      invariant bonds == Spokes(0, 6) + Spokes(7, i - 8)
    {
      SpokesStep(7, i - 8);
      bonds := bonds + [Bond(7, i)];
      bonds := bonds + [Bond(i, if i == 13 then 8 else i + 1)];
      i := i + 1;
    }
    i := 1;
    while i <= 6
      invariant 1 <= i <= 7
      invariant bonds == Spokes(0, 6) + Spokes(7, 6) + Verticals(i - 1)
    {
      assert Verticals(i) == Verticals(i - 1) + [Bond(i, i + 7)];
      bonds := bonds + [Bond(i, i + 7)];
      i := i + 1;
    }
  }

  /** The loops produce thirty bonds: twelve around the bottom hexagon, twelve
      around the top one, six vertical edges. */
  lemma BondTable()
    ensures |HcpBonds()| == 30
    ensures forall k :: 0 <= k < 12 ==> HcpBonds()[k] == SpokeBond(0, k)
    ensures forall k :: 12 <= k < 24 ==> HcpBonds()[k] == SpokeBond(7, k - 12)
    ensures forall k :: 24 <= k < 30 ==> HcpBonds()[k] == Bond(k - 23, k - 16)
  {
  }

  /** Every bond index lies in 0..13, so names an atom of the table, and no
      bond touches the mid-layer atoms 14-16. */
  lemma BondsInTable()
    ensures BondsInRange(HcpBonds(), 14)
    ensures BondsInRange(HcpBonds(), AtomCount)
    ensures forall k, i :: 0 <= k < |HcpBonds()| && 14 <= i < AtomCount ==> !Touches(HcpBonds()[k], i)
  {
    BondTable();
  }

  /** The segments of the drawn frame: a centre to a vertex of its own
      hexagon, neighbouring vertices of one hexagon, and a bottom vertex to
      the top vertex above it. */
  predicate FrameEdge(s: Site, t: Site) {
    || (s.Centre? && t.Ring? && s.layer == t.layer)
    || (s.Ring? && t.Ring? && s.layer == t.layer && t.k == (s.k + 1) % 6)
    || (s.Ring? && t.Ring? && s.layer == Bottom && t.layer == Top && s.k == t.k)
  }

  /** Where the bond for frame segment (i, j) sits in the table. */
  function FrameSlot(i: nat, j: nat): (k: nat)
    requires i < AtomCount && j < AtomCount && FrameEdge(SiteAt(i), SiteAt(j))
    ensures k < |HcpBonds()| && HcpBonds()[k] == Bond(i, j)
  {
    BondTable();
    var s, t := SiteAt(i), SiteAt(j);
    var base := if s.layer == Bottom then 0 else 12;
    if s.Centre? then base + 2 * t.k
    else if s.layer == t.layer then base + 2 * s.k + 1
    else 24 + s.k
  }

  /** Every bond joins the two ends of a frame segment. */
  lemma BondsJoinFrameEdges()
    ensures forall k :: 0 <= k < |HcpBonds()| ==>
              HcpBonds()[k].a < AtomCount && HcpBonds()[k].b < AtomCount
              && FrameEdge(SiteAt(HcpBonds()[k].a), SiteAt(HcpBonds()[k].b))
  {
    BondTable();
    forall k | 0 <= k < 30
      ensures HcpBonds()[k].a < AtomCount && HcpBonds()[k].b < AtomCount
      ensures FrameEdge(SiteAt(HcpBonds()[k].a), SiteAt(HcpBonds()[k].b))
    {
      if k < 12 {
        SpokeBondIsFrameEdge(0, k);
      } else if k < 24 {
        SpokeBondIsFrameEdge(7, k - 12);
      } else {
        assert SiteAt(k - 23) == Ring(Bottom, k - 24) && SiteAt(k - 16) == Ring(Top, k - 24);
      }
    }
  }

  lemma SpokeBondIsFrameEdge(c: nat, p: nat)
    requires (c == 0 || c == 7) && p < 12
    ensures SpokeBond(c, p).a < AtomCount && SpokeBond(c, p).b < AtomCount
    ensures FrameEdge(SiteAt(SpokeBond(c, p).a), SiteAt(SpokeBond(c, p).b))
  {
    var layer := if c == 0 then Bottom else Top;
    var j := p / 2 + 1;
    assert SiteAt(c) == Centre(layer);
    assert SiteAt(c + j) == Ring(layer, j - 1);
    assert SiteAt(RimNext(c, j)) == Ring(layer, j % 6);
  }

  /** Every frame segment is a bond. */
  lemma FrameEdgesAreBonds()
    ensures forall i, j :: 0 <= i < AtomCount && 0 <= j < AtomCount && FrameEdge(SiteAt(i), SiteAt(j)) ==>
              Bond(i, j) in HcpBonds()
  {
    forall i, j | 0 <= i < AtomCount && 0 <= j < AtomCount && FrameEdge(SiteAt(i), SiteAt(j))
      ensures Bond(i, j) in HcpBonds()
    {
      var k := FrameSlot(i, j);
    }
  }

  /** The index above bottom vertex `i` in the top hexagon. */
  function Above(i: nat): nat {
    i + 7
  }

  /** Each centre bonds to all six vertices of its hexagon, each hexagon is
      closed (vertex 6 wraps to 1 and 13 to 8), and vertex `i` of the bottom
      hexagon is joined to vertex `i+7` of the top one. */
  lemma FrameBonds()
    ensures forall j :: 1 <= j <= 6 ==> Bond(0, j) in HcpBonds() && Bond(j, RimNext(0, j)) in HcpBonds()
    ensures forall i :: 1 <= i <= 6 ==>
              Bond(7, Above(i)) in HcpBonds() && Bond(Above(i), RimNext(7, i)) in HcpBonds()
              && Bond(i, Above(i)) in HcpBonds()
    ensures Bond(6, 1) in HcpBonds() && Bond(13, 8) in HcpBonds()
  {
    forall j | 1 <= j <= 6
      ensures Bond(0, j) in HcpBonds() && Bond(j, RimNext(0, j)) in HcpBonds()
    {
      assert SiteAt(0) == Centre(Bottom) && SiteAt(j) == Ring(Bottom, j - 1);
      assert SiteAt(RimNext(0, j)) == Ring(Bottom, j % 6);
      var k1, k2 := FrameSlot(0, j), FrameSlot(j, RimNext(0, j));
    }
    forall i | 1 <= i <= 6
      ensures Bond(7, Above(i)) in HcpBonds() && Bond(Above(i), RimNext(7, i)) in HcpBonds()
      ensures Bond(i, Above(i)) in HcpBonds()
    {
      assert SiteAt(7) == Centre(Top);
      assert SiteAt(i) == Ring(Bottom, i - 1) && SiteAt(Above(i)) == Ring(Top, i - 1);
      assert SiteAt(RimNext(7, i)) == Ring(Top, i % 6);
      var k1, k2, k3 := FrameSlot(7, Above(i)), FrameSlot(Above(i), RimNext(7, i)), FrameSlot(i, Above(i));
    }
    assert RimNext(0, 6) == 1 && RimNext(7, 6) == 8 && Above(6) == 13;
  }

  /** No segment is listed twice, in either direction. */
  lemma BondsDistinct()
    ensures forall k1, k2 :: 0 <= k1 < k2 < |HcpBonds()| ==> !SameSegment(HcpBonds()[k1], HcpBonds()[k2])
  {
    BondTable();
  }

  // ---------------------------------------------------------------------
  // Colours and alpha

  datatype Palette = Palette(atomColor: string, secondaryColor: string, bondColor: string)

  const DarkPalette: Palette := Palette("#FFD700", "#FFFFFF", "rgba(255, 255, 255, 0.35)")
  const LightPalette: Palette := Palette("#00008B", "#333333", "rgba(0, 0, 0, 0.4)")

  /** The `lattice-theme-change` listener: the gold/white palette on a dark
      background, the navy/grey one on a light background. */
  function ThemePalette(isDark: bool): (p: Palette)
    ensures p == DarkPalette <==> isDark
    ensures p == LightPalette <==> !isDark
  {
    if isDark then DarkPalette else LightPalette
  }

  /** `(index >= 1 && index <= 6) || (index >= 8 && index <= 13)`: exactly
      the hexagon vertices of the table. */
  predicate IsFrameVertex(index: nat): (r: bool)
    ensures index < AtomCount ==> (r <==> SiteAt(index).Ring?)
  {
    (1 <= index <= 6) || (8 <= index <= 13)
  }

  /** The palette's theme colour for a hexagon vertex, its secondary colour
      for a centre or a mid-layer atom. */
  function AtomColor(index: nat, palette: Palette): (c: string)
    ensures index < AtomCount && SiteAt(index).Ring? ==> c == palette.atomColor
    ensures index < AtomCount && !SiteAt(index).Ring? ==> c == palette.secondaryColor
  {
    if IsFrameVertex(index) then palette.atomColor else palette.secondaryColor
  }

  /** The theme colour goes exactly to hexagon vertices; centres and
      mid-layer atoms get the secondary colour. */
  lemma FrameVertexColouring(i: nat, isDark: bool)
    requires i < AtomCount
    ensures IsFrameVertex(i) <==> SiteAt(i).Ring?
    ensures AtomColor(i, ThemePalette(isDark)) == (if SiteAt(i).Ring? then ThemePalette(isDark).atomColor
                                                   else ThemePalette(isDark).secondaryColor)
    ensures AtomColor(i, ThemePalette(isDark)) == (if !SiteAt(i).Ring? then (if isDark then "#FFFFFF" else "#333333")
                                                   else if isDark then "#FFD700" else "#00008B")
  {
  }

  /** The drawn alpha for projected depth `z` (pixels):
      `0.7 + z / (3 * cellSize) * 0.3`, clamped into [0.2, 1]. */
  function Alpha(z: real): (a: real)
    ensures 0.2 <= a <= 1.0
  {
    Clamp(0.7 + z / (CellSize * 3.0) * 0.3)
  }

  /** Nearer atoms are never drawn fainter, and within three cell edges of
      the centre the clamp does not act. */
  lemma AlphaProperties(z1: real, z2: real)
    requires z1 <= z2
    ensures Alpha(z1) <= Alpha(z2)
    ensures -CellSize * 3.0 <= z1 <= CellSize * 3.0 ==> Alpha(z1) == 0.7 + z1 / (CellSize * 3.0) * 0.3
  {
    ClampMonotone(0.7 + z1 / (CellSize * 3.0) * 0.3, 0.7 + z2 / (CellSize * 3.0) * 0.3);
  }

  class HcpAnimation {
    const sites: seq<Site>
    const bonds: seq<Bond>
    var angleY: real
    /** The fixed tilt. */
    const angleX: real
    var palette: Palette

    /** Module start-up: the tables are built, the spin is 0, the palette is
        the dark one. */
    constructor ()
      ensures |sites| == AtomCount && forall i :: 0 <= i < AtomCount ==> sites[i] == SiteAt(i)
      ensures bonds == HcpBonds()
      ensures angleY == 0.0 && angleX == 0.25 && palette == DarkPalette
    {
      var s := BuildSites();
      var b := BuildBonds();
      sites := s;
      bonds := b;
      angleY := 0.0;
      angleX := 0.25;
      palette := DarkPalette;
    }

    /** The end of `draw`: one step of spin. */
    method Frame()
      modifies this`angleY
      ensures angleY == old(angleY) + RotationSpeed
    {
      angleY := angleY + RotationSpeed;
    }

    /** The `lattice-theme-change` listener. */
    method OnThemeChange(isDark: bool)
      modifies this`palette
      ensures palette == ThemePalette(isDark)
    {
      if isDark {
        palette := DarkPalette;
      } else {
        palette := LightPalette;
      }
    }
  }
}
