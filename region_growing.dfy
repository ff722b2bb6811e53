/**
 * MRIgrowLabel: a flood fill of mri_filled.  A first scan bounds the voxels
 * of mri labelled in_label (or, with in_label 0, the non-zero voxels, after
 * which everything on or outside that box is marked out_label).  Then sweeps
 * over the box repeat until one fills nothing: each sweep visits the box in
 * raster order and, around every voxel already out_label, sets to out_label
 * each in-volume 26-neighbour labelled in_label in mri.  A sweep works in
 * place, so a voxel it fills can spread the fill later in the same sweep.
 */
module RegionGrowing {
  import opened Volume
  import opened Neighbourhood
  import opened BoundingBox

  // ---------------------------------------------------------------------
  // The first scan.
  // ---------------------------------------------------------------------

  /** The voxels the first scan bounds: in_label ones, or with in_label 0 the non-zero ones. */
  predicate Selected(v: Byte, inLabel: int) {
    if inLabel != 0 then v == inLabel else v != 0
  }

  /** The six `if` statements of the first scan: the box grows to take in (x, y, z). */
  function Include(b: Box, x: int, y: int, z: int): Box {
    Box(Lesser(b.xlo, x), Greater(b.xhi, x), Lesser(b.ylo, y), Greater(b.yhi, y), Lesser(b.zlo, z), Greater(b.zhi, z))
  }

  /** The box the scan starts from: xmin = width, xmax = 0 and so on. */
  function Initial(m: Mri): Box {
    Box(m.Width(), 0, m.Height(), 0, m.Depth(), 0)
  }

  /** The box of the first scan when it reaches (x, y, z), in the raster order of BoundingBox.ScanTo. */
  ghost function LabelScanTo(m: Mri, inLabel: int, x: nat, y: nat, z: nat): Box
    reads m.vox
    decreases z, y, x
  {
    if x > 0 then
      var b := LabelScanTo(m, inLabel, x - 1, y, z);
      if m.In(x - 1, y, z) && Selected(m.vox[x - 1, y, z], inLabel) then Include(b, x - 1, y, z) else b
    else if y > 0 then LabelScanTo(m, inLabel, m.Width(), y - 1, z)
    else if z > 0 then LabelScanTo(m, inLabel, 0, m.Height(), z - 1)
    else Initial(m)
  }

  /** The box the sweeps cover. */
  ghost function LabelBox(m: Mri, inLabel: int): Box
    reads m.vox
  {
    LabelScanTo(m, inLabel, 0, 0, m.Depth())
  }

  /** Every bound of b is a coordinate of the volume. */
  predicate Inside(b: Box, m: Mri) {
    0 <= b.xlo && b.xhi < m.Width() && 0 <= b.ylo && b.yhi < m.Height() && 0 <= b.zlo && b.zhi < m.Depth()
  }

  lemma {:induction false} LabelScanContains(m: Mri, inLabel: int, x: nat, y: nat, z: nat)
    ensures forall i, j, k | m.In(i, j, k) && Selected(m.vox[i, j, k], inLabel) && Before(i, j, k, x, y, z) ::
      InBox(LabelScanTo(m, inLabel, x, y, z), i, j, k)
    decreases z, y, x
  {
    if x > 0 {
      LabelScanContains(m, inLabel, x - 1, y, z);
    } else if y > 0 {
      LabelScanContains(m, inLabel, m.Width(), y - 1, z);
    } else if z > 0 {
      LabelScanContains(m, inLabel, 0, m.Height(), z - 1);
    }
  }

  lemma {:induction false} LabelScanBounded(m: Mri, inLabel: int, x: nat, y: nat, z: nat)
    ensures LabelScanTo(m, inLabel, x, y, z) == Initial(m) || Inside(LabelScanTo(m, inLabel, x, y, z), m)
    decreases z, y, x
  {
    if x > 0 {
      LabelScanBounded(m, inLabel, x - 1, y, z);
    } else if y > 0 {
      LabelScanBounded(m, inLabel, m.Width(), y - 1, z);
    } else if z > 0 {
      LabelScanBounded(m, inLabel, 0, m.Height(), z - 1);
    }
  }

  /** Every voxel the first scan selects lies inside the box. */
  lemma LabelBoxContains(m: Mri, inLabel: int)
    ensures forall i, j, k | m.In(i, j, k) && Selected(m.vox[i, j, k], inLabel) :: InBox(LabelBox(m, inLabel), i, j, k)
  {
    LabelScanContains(m, inLabel, 0, 0, m.Depth());
  }

  /** Unless the volume has no extent at all, every voxel of the box is a voxel of the volume. */
  lemma LabelBoxInVolume(m: Mri, inLabel: int)
    requires m.Width() > 0 || m.Height() > 0 || m.Depth() > 0
    ensures forall i, j, k | InBox(LabelBox(m, inLabel), i, j, k) :: m.In(i, j, k)
  {
    LabelScanBounded(m, inLabel, 0, 0, m.Depth());
  }

  /** The x loop of the first scan over row (y, z). */
  method LabelScanRow(m: Mri, inLabel: int, b: Box, y: nat, z: nat) returns (w: Box)
    requires y < m.Height() && z < m.Depth() && b == LabelScanTo(m, inLabel, 0, y, z)
    ensures w == LabelScanTo(m, inLabel, 0, y + 1, z)
  {
    w := b;
    var x := 0;
    while x < m.Width()
      invariant 0 <= x <= m.Width() && w == LabelScanTo(m, inLabel, x, y, z)
    {
      if Selected(m.vox[x, y, z], inLabel) {
        w := Include(w, x, y, z);
      }
      x := x + 1;
    }
  }

  /** The y loop of the first scan over plane z. */
  method LabelScanPlane(m: Mri, inLabel: int, b: Box, z: nat) returns (w: Box)
    requires z < m.Depth() && b == LabelScanTo(m, inLabel, 0, 0, z)
    ensures w == LabelScanTo(m, inLabel, 0, 0, z + 1)
  {
    w := b;
    var y := 0;
    while y < m.Height()
      invariant 0 <= y <= m.Height() && w == LabelScanTo(m, inLabel, 0, y, z)
    {
      w := LabelScanRow(m, inLabel, w, y, z);
      y := y + 1;
    }
  }

  /**
   * The first scan (either of the two loops, which differ only in the voxels
   * they select): the bounding box of the selected voxels, or the initial
   * box when there are none.
   */
  method LabelScan(m: Mri, inLabel: int) returns (b: Box)
    ensures b == LabelBox(m, inLabel)
    ensures forall i, j, k | m.In(i, j, k) && Selected(m.vox[i, j, k], inLabel) :: InBox(b, i, j, k)
  {
    b := Initial(m);
    var z := 0;
    while z < m.Depth()
      invariant 0 <= z <= m.Depth() && b == LabelScanTo(m, inLabel, 0, 0, z)
    {
      b := LabelScanPlane(m, inLabel, b, z);
      z := z + 1;
    }
    LabelBoxContains(m, inLabel);
  }

  // ---------------------------------------------------------------------
  // Marking the outside, when filling the background.
  // ---------------------------------------------------------------------

  /** The test of the marking loop: on a face of b or outside it. */
  predicate OnOrOutside(b: Box, x: int, y: int, z: int) {
    z <= b.zlo || z >= b.zhi || y <= b.ylo || y >= b.yhi || x <= b.xlo || x >= b.xhi
  }

  /** The x loop of the marking over row (y, z); M0 holds the voxels marked in earlier rows. */
  method MarkRow(filled: Mri, b: Box, outLabel: Byte, y: int, z: int, ghost M0: set<(int, int, int)>)
    returns (count: nat, ghost M: set<(int, int, int)>)
    requires 0 <= y < filled.Height() && 0 <= z < filled.Depth()
    requires forall p | p in M0 :: p.2 != z || p.1 != y
    modifies filled.vox
    ensures forall i, j, k | filled.In(i, j, k) && (j != y || k != z) :: filled.vox[i, j, k] == old(filled.vox[i, j, k])
    ensures forall i | 0 <= i < filled.Width() ::
      filled.vox[i, y, z] == if OnOrOutside(b, i, y, z) then outLabel else old(filled.vox[i, y, z])
    ensures forall p | p in M :: (p in M0 || (p.1 == y && p.2 == z && 0 <= p.0 < filled.Width() && OnOrOutside(b, p.0, y, z)))
    ensures forall i | 0 <= i < filled.Width() && OnOrOutside(b, i, y, z) :: (i, y, z) in M
    ensures M0 <= M && |M| == |M0| + count
  {
    count, M := 0, M0;
    var x := 0;
    while x < filled.Width()
      invariant 0 <= x <= filled.Width()
      invariant forall i, j, k | filled.In(i, j, k) && (j != y || k != z || i >= x) :: filled.vox[i, j, k] == old(filled.vox[i, j, k])
      invariant forall i | 0 <= i < x ::
        filled.vox[i, y, z] == if OnOrOutside(b, i, y, z) then outLabel else old(filled.vox[i, y, z])
      invariant forall p | p in M :: (p in M0 || (p.1 == y && p.2 == z && 0 <= p.0 < x && OnOrOutside(b, p.0, y, z)))
      invariant forall i | 0 <= i < x && OnOrOutside(b, i, y, z) :: (i, y, z) in M
      invariant M0 <= M && |M| == |M0| + count
    {
      if OnOrOutside(b, x, y, z) {
        count := count + 1;
        filled.vox[x, y, z] := outLabel;
        M := M + {(x, y, z)};
      }
      x := x + 1;
    }
  }

  /** The y loop of the marking over plane z. */
  method MarkPlane(filled: Mri, b: Box, outLabel: Byte, z: int, ghost M0: set<(int, int, int)>)
    returns (count: nat, ghost M: set<(int, int, int)>)
    requires 0 <= z < filled.Depth()
    requires forall p | p in M0 :: p.2 != z
    modifies filled.vox
    ensures forall i, j, k | filled.In(i, j, k) && k != z :: filled.vox[i, j, k] == old(filled.vox[i, j, k])
    ensures forall i, j | 0 <= i < filled.Width() && 0 <= j < filled.Height() ::
      filled.vox[i, j, z] == if OnOrOutside(b, i, j, z) then outLabel else old(filled.vox[i, j, z])
    ensures forall p | p in M :: (p in M0 || (p.2 == z && 0 <= p.0 < filled.Width() && 0 <= p.1 < filled.Height() && OnOrOutside(b, p.0, p.1, z)))
    ensures forall i, j | 0 <= i < filled.Width() && 0 <= j < filled.Height() && OnOrOutside(b, i, j, z) :: (i, j, z) in M
    ensures M0 <= M && |M| == |M0| + count
  {
    count, M := 0, M0;
    var y := 0;
    while y < filled.Height()
      invariant 0 <= y <= filled.Height()
      invariant forall i, j, k | filled.In(i, j, k) && (k != z || j >= y) :: filled.vox[i, j, k] == old(filled.vox[i, j, k])
      invariant forall i, j | 0 <= i < filled.Width() && 0 <= j < y ::
        filled.vox[i, j, z] == if OnOrOutside(b, i, j, z) then outLabel else old(filled.vox[i, j, z])
      invariant forall p | p in M :: (p in M0 || (p.2 == z && 0 <= p.0 < filled.Width() && 0 <= p.1 < y && OnOrOutside(b, p.0, p.1, z)))
      invariant forall i, j | 0 <= i < filled.Width() && 0 <= j < y && OnOrOutside(b, i, j, z) :: (i, j, z) in M
      invariant M0 <= M && |M| == |M0| + count
    {
      var n;
      n, M := MarkRow(filled, b, outLabel, y, z, M);
      count := count + n;
      y := y + 1;
    }
  }

  /**
   * The marking loop of the background fill: every voxel on or outside b
   * becomes out_label and is counted, whatever it held.
   */
  method MarkOutside(filled: Mri, b: Box, outLabel: Byte) returns (count: nat, ghost M: set<(int, int, int)>)
    modifies filled.vox
    ensures forall i, j, k | filled.In(i, j, k) ::
      filled.vox[i, j, k] == if OnOrOutside(b, i, j, k) then outLabel else old(filled.vox[i, j, k])
    ensures forall i, j, k :: (i, j, k) in M <==> filled.In(i, j, k) && OnOrOutside(b, i, j, k)
    ensures count == |M|
  {
    count, M := 0, {};
    var z := 0;
    while z < filled.Depth()
      invariant 0 <= z <= filled.Depth()
      invariant forall i, j, k | filled.In(i, j, k) && k >= z :: filled.vox[i, j, k] == old(filled.vox[i, j, k])
      invariant forall i, j, k | filled.In(i, j, k) && k < z ::
        filled.vox[i, j, k] == if OnOrOutside(b, i, j, k) then outLabel else old(filled.vox[i, j, k])
      invariant forall p | p in M :: filled.In(p.0, p.1, p.2) && p.2 < z && OnOrOutside(b, p.0, p.1, p.2)
      invariant forall i, j, k | filled.In(i, j, k) && k < z && OnOrOutside(b, i, j, k) :: (i, j, k) in M
      invariant count == |M|
    {
      var n;
      n, M := MarkPlane(filled, b, outLabel, z, M);
      count := count + n;
      z := z + 1;
    }
  }

  // ---------------------------------------------------------------------
  // One sweep.
  // ---------------------------------------------------------------------

  /**
   * Since the sweep began, when filled held O, exactly the voxels of G have
   * been set to out_label, each a voxel labelled in_label in mri that was
   * not out_label.
   */
  ghost predicate GrownBy(mri: Mri, filled: Mri, O: Grid, G: set<(int, int, int)>, inLabel: int, outLabel: Byte)
    reads mri.vox, filled.vox
  {
    && SameShape(mri, filled) && GridShaped(O, filled)
    && (forall i, j, k | filled.In(i, j, k) :: filled.vox[i, j, k] == if (i, j, k) in G then outLabel else O[i][j][k])
    && (forall q | q in G :: filled.In(q.0, q.1, q.2) && mri.vox[q.0, q.1, q.2] == inLabel && O[q.0][q.1][q.2] != outLabel)
  }

  /** Every in-volume 26-neighbour of (x, y, z) labelled in_label is out_label in filled. */
  ghost predicate Closed(mri: Mri, filled: Mri, inLabel: int, outLabel: Byte, x: int, y: int, z: int)
    reads mri.vox, filled.vox
  {
    SameShape(mri, filled) &&
    forall i, j, k | mri.In(i, j, k) && Near(i, j, k, x, y, z, 1) && mri.vox[i, j, k] == inLabel :: filled.vox[i, j, k] == outLabel
  }

  /** Closed, on the snapshot O. */
  ghost predicate ClosedIn(mri: Mri, O: Grid, inLabel: int, outLabel: Byte, x: int, y: int, z: int)
    reads mri.vox
  {
    GridShaped(O, mri) &&
    forall i, j, k | mri.In(i, j, k) && Near(i, j, k, x, y, z, 1) && mri.vox[i, j, k] == inLabel :: O[i][j][k] == outLabel
  }

  /** Every voxel of box b visited before (x, y, z) that is out_label in O is closed in O. */
  ghost predicate VisitedClosed(mri: Mri, O: Grid, b: Box, inLabel: int, outLabel: Byte, x: int, y: int, z: int)
    reads mri.vox
  {
    GridShaped(O, mri) &&
    forall i, j, k | mri.In(i, j, k) && InBox(b, i, j, k) && Before(i, j, k, x, y, z) && O[i][j][k] == outLabel ::
      ClosedIn(mri, O, inLabel, outLabel, i, j, k)
  }

  /** The body of the xk loop: fill (xi, yi, zi) if it is in_label and not yet out_label. */
  method FillVoxel(mri: Mri, filled: Mri, inLabel: int, outLabel: Byte, xi: int, yi: int, zi: int,
                   ghost O: Grid, ghost G0: set<(int, int, int)>)
    returns (n: nat, ghost G: set<(int, int, int)>)
    requires mri.vox != filled.vox && filled.In(xi, yi, zi)
    requires GrownBy(mri, filled, O, G0, inLabel, outLabel)
    modifies filled.vox
    ensures GrownBy(mri, filled, O, G, inLabel, outLabel) && G0 <= G && |G| == |G0| + n
    ensures forall i, j, k | filled.In(i, j, k) && (i, j, k) != (xi, yi, zi) :: filled.vox[i, j, k] == old(filled.vox[i, j, k])
    ensures filled.vox[xi, yi, zi] == if mri.vox[xi, yi, zi] == inLabel then outLabel else old(filled.vox[xi, yi, zi])
  {
    n, G := 0, G0;
    if mri.vox[xi, yi, zi] == inLabel && filled.vox[xi, yi, zi] != outLabel {
      n := 1;
      filled.vox[xi, yi, zi] := outLabel;
      G := G + {(xi, yi, zi)};
    }
  }

  /** The xk loop around (x, y, z): the neighbours in row (yi, zi). */
  method FillRow(mri: Mri, filled: Mri, inLabel: int, outLabel: Byte, x: int, yi: int, zi: int,
                 ghost O: Grid, ghost G0: set<(int, int, int)>)
    returns (n: nat, ghost G: set<(int, int, int)>)
    requires mri.vox != filled.vox && 0 <= yi < filled.Height() && 0 <= zi < filled.Depth()
    requires GrownBy(mri, filled, O, G0, inLabel, outLabel)
    modifies filled.vox
    ensures GrownBy(mri, filled, O, G, inLabel, outLabel) && G0 <= G && |G| == |G0| + n
    ensures forall i, j, k | filled.In(i, j, k) && old(filled.vox[i, j, k]) == outLabel :: filled.vox[i, j, k] == outLabel
    ensures forall i | 0 <= i < filled.Width() && Dist(i, x) <= 1 && mri.vox[i, yi, zi] == inLabel :: filled.vox[i, yi, zi] == outLabel
  {
    n, G := 0, G0;
    var xk := -1;
    while xk <= 1
      invariant -1 <= xk <= 2
      invariant GrownBy(mri, filled, O, G, inLabel, outLabel) && G0 <= G && |G| == |G0| + n
      invariant forall i, j, k | filled.In(i, j, k) && old(filled.vox[i, j, k]) == outLabel :: filled.vox[i, j, k] == outLabel
      invariant forall i | 0 <= i < filled.Width() && x - 1 <= i < x + xk && mri.vox[i, yi, zi] == inLabel ::
        filled.vox[i, yi, zi] == outLabel
    {
      var xi := x + xk;
      if 0 <= xi < filled.Width() {
        var m;
        m, G := FillVoxel(mri, filled, inLabel, outLabel, xi, yi, zi, O, G);
        n := n + m;
      }
      xk := xk + 1;
    }
  }

  /** The yk loop around (x, y, z): the neighbours in plane zi. */
  method FillPlane(mri: Mri, filled: Mri, inLabel: int, outLabel: Byte, x: int, y: int, zi: int,
                   ghost O: Grid, ghost G0: set<(int, int, int)>)
    returns (n: nat, ghost G: set<(int, int, int)>)
    requires mri.vox != filled.vox && 0 <= zi < filled.Depth()
    requires GrownBy(mri, filled, O, G0, inLabel, outLabel)
    modifies filled.vox
    ensures GrownBy(mri, filled, O, G, inLabel, outLabel) && G0 <= G && |G| == |G0| + n
    ensures forall i, j, k | filled.In(i, j, k) && old(filled.vox[i, j, k]) == outLabel :: filled.vox[i, j, k] == outLabel
    ensures forall i, j | 0 <= i < filled.Width() && 0 <= j < filled.Height() && Dist(i, x) <= 1 && Dist(j, y) <= 1 &&
      mri.vox[i, j, zi] == inLabel :: filled.vox[i, j, zi] == outLabel
  {
    n, G := 0, G0;
    var yk := -1;
    while yk <= 1
      invariant -1 <= yk <= 2
      invariant GrownBy(mri, filled, O, G, inLabel, outLabel) && G0 <= G && |G| == |G0| + n
      invariant forall i, j, k | filled.In(i, j, k) && old(filled.vox[i, j, k]) == outLabel :: filled.vox[i, j, k] == outLabel
      invariant forall i, j | 0 <= i < filled.Width() && 0 <= j < filled.Height() && Dist(i, x) <= 1 && y - 1 <= j < y + yk &&
        mri.vox[i, j, zi] == inLabel :: filled.vox[i, j, zi] == outLabel
    {
      var yi := y + yk;
      if 0 <= yi < filled.Height() {
        var m;
        m, G := FillRow(mri, filled, inLabel, outLabel, x, yi, zi, O, G);
        n := n + m;
      }
      yk := yk + 1;
    }
  }

  /**
   * The zk loop around (x, y, z): afterwards (x, y, z) is closed, every
   * in_label neighbour being out_label.
   */
  method FillAround(mri: Mri, filled: Mri, inLabel: int, outLabel: Byte, x: int, y: int, z: int,
                    ghost O: Grid, ghost G0: set<(int, int, int)>)
    returns (n: nat, ghost G: set<(int, int, int)>)
    requires mri.vox != filled.vox
    requires GrownBy(mri, filled, O, G0, inLabel, outLabel)
    modifies filled.vox
    ensures GrownBy(mri, filled, O, G, inLabel, outLabel) && G0 <= G && |G| == |G0| + n
    ensures forall i, j, k | filled.In(i, j, k) && old(filled.vox[i, j, k]) == outLabel :: filled.vox[i, j, k] == outLabel
    ensures Closed(mri, filled, inLabel, outLabel, x, y, z)
  {
    n, G := 0, G0;
    var zk := -1;
    while zk <= 1
      invariant -1 <= zk <= 2
      invariant GrownBy(mri, filled, O, G, inLabel, outLabel) && G0 <= G && |G| == |G0| + n
      invariant forall i, j, k | filled.In(i, j, k) && old(filled.vox[i, j, k]) == outLabel :: filled.vox[i, j, k] == outLabel
      invariant forall i, j, k | filled.In(i, j, k) && Dist(i, x) <= 1 && Dist(j, y) <= 1 && z - 1 <= k < z + zk &&
        mri.vox[i, j, k] == inLabel :: filled.vox[i, j, k] == outLabel
    {
      var zi := z + zk;
      if 0 <= zi < filled.Depth() {
        var m;
        m, G := FillPlane(mri, filled, inLabel, outLabel, x, y, zi, O, G);
        n := n + m;
      }
      zk := zk + 1;
    }
  }

  /** The x loop of a sweep over row (y, z) of box b. */
  method SweepRow(mri: Mri, filled: Mri, inLabel: int, outLabel: Byte, b: Box, y: int, z: int,
                  ghost O: Grid, ghost G0: set<(int, int, int)>)
    returns (n: nat, ghost G: set<(int, int, int)>)
    requires mri.vox != filled.vox && forall i, j, k | InBox(b, i, j, k) :: filled.In(i, j, k)
    requires b.ylo <= y <= b.yhi && b.zlo <= z <= b.zhi
    requires GrownBy(mri, filled, O, G0, inLabel, outLabel)
    requires G0 == {} ==> VisitedClosed(mri, O, b, inLabel, outLabel, b.xlo, y, z)
    modifies filled.vox
    ensures GrownBy(mri, filled, O, G, inLabel, outLabel) && G0 <= G && |G| == |G0| + n
    ensures G == {} ==> VisitedClosed(mri, O, b, inLabel, outLabel, b.xlo, y + 1, z)
  {
    n, G := 0, G0;
    var x := b.xlo;
    while x <= b.xhi
      invariant b.xlo <= x && (x <= b.xhi + 1 || x == b.xlo)
      invariant GrownBy(mri, filled, O, G, inLabel, outLabel) && G0 <= G && |G| == |G0| + n
      invariant G == {} ==> VisitedClosed(mri, O, b, inLabel, outLabel, x, y, z)
    {
      assert InBox(b, x, y, z);
      if filled.vox[x, y, z] == outLabel {
        var m;
        m, G := FillAround(mri, filled, inLabel, outLabel, x, y, z, O, G);
        n := n + m;
      }
      x := x + 1;
    }
  }

  /** The y loop of a sweep over plane z of box b. */
  method SweepPlane(mri: Mri, filled: Mri, inLabel: int, outLabel: Byte, b: Box, z: int,
                    ghost O: Grid, ghost G0: set<(int, int, int)>)
    returns (n: nat, ghost G: set<(int, int, int)>)
    requires mri.vox != filled.vox && forall i, j, k | InBox(b, i, j, k) :: filled.In(i, j, k)
    requires b.zlo <= z <= b.zhi
    requires GrownBy(mri, filled, O, G0, inLabel, outLabel)
    requires G0 == {} ==> VisitedClosed(mri, O, b, inLabel, outLabel, b.xlo, b.ylo, z)
    modifies filled.vox
    ensures GrownBy(mri, filled, O, G, inLabel, outLabel) && G0 <= G && |G| == |G0| + n
    ensures G == {} ==> VisitedClosed(mri, O, b, inLabel, outLabel, b.xlo, b.ylo, z + 1)
  {
    n, G := 0, G0;
    var y := b.ylo;
    while y <= b.yhi
      invariant b.ylo <= y && (y <= b.yhi + 1 || y == b.ylo)
      invariant GrownBy(mri, filled, O, G, inLabel, outLabel) && G0 <= G && |G| == |G0| + n
      invariant G == {} ==> VisitedClosed(mri, O, b, inLabel, outLabel, b.xlo, y, z)
    {
      var m;
      m, G := SweepRow(mri, filled, inLabel, outLabel, b, y, z, O, G);
      n := n + m;
      y := y + 1;
    }
  }

  /**
   * One pass of the do-while loop: nfilled is the number of voxels it set
   * to out_label, G the set of them; when it fills nothing, every
   * out_label voxel of the box is closed.
   */
  method Sweep(mri: Mri, filled: Mri, inLabel: int, outLabel: Byte, b: Box) returns (nfilled: nat, ghost G: set<(int, int, int)>)
    requires SameShape(mri, filled) && mri.vox != filled.vox
    requires forall i, j, k | InBox(b, i, j, k) :: filled.In(i, j, k)
    modifies filled.vox
    ensures forall i, j, k | filled.In(i, j, k) :: filled.vox[i, j, k] == if (i, j, k) in G then outLabel else old(filled.vox[i, j, k])
    ensures forall q | q in G :: filled.In(q.0, q.1, q.2) && mri.vox[q.0, q.1, q.2] == inLabel && old(filled.vox[q.0, q.1, q.2]) != outLabel
    ensures nfilled == |G|
    ensures nfilled == 0 ==> forall i, j, k | filled.In(i, j, k) && InBox(b, i, j, k) && filled.vox[i, j, k] == outLabel :: Closed(mri, filled, inLabel, outLabel, i, j, k)
  {
    ghost var O := Snapshot(filled);
    nfilled, G := 0, {};
    var z := b.zlo;
    while z <= b.zhi
      invariant b.zlo <= z && (z <= b.zhi + 1 || z == b.zlo)
      invariant GrownBy(mri, filled, O, G, inLabel, outLabel) && |G| == nfilled
      invariant G == {} ==> VisitedClosed(mri, O, b, inLabel, outLabel, b.xlo, b.ylo, z)
    {
      var m;
      m, G := SweepPlane(mri, filled, inLabel, outLabel, b, z, O, G);
      nfilled := nfilled + m;
      z := z + 1;
    }
  }

  // ---------------------------------------------------------------------
  // MRIgrowLabel.
  // ---------------------------------------------------------------------

  /** The voxels of g not equal to value: the measure the sweeps decrease. */
  ghost function Unfilled(g: Grid, value: Byte): set<(int, int, int)> {
    set i, j, k | 0 <= i < |g| && 0 <= j < |g[i]| && 0 <= k < |g[i][j]| && g[i][j][k] != value :: (i, j, k)
  }

  /** Setting the voxels of G, none of them value, to value removes exactly G from Unfilled. */
  lemma UnfilledShrinks(g: Grid, g': Grid, m: Mri, value: Byte, G: set<(int, int, int)>)
    requires GridShaped(g, m) && GridShaped(g', m)
    requires forall q | q in G :: m.In(q.0, q.1, q.2) && g[q.0][q.1][q.2] != value
    requires forall i, j, k | m.In(i, j, k) :: g'[i][j][k] == if (i, j, k) in G then value else g[i][j][k]
    ensures |Unfilled(g', value)| == |Unfilled(g, value)| - |G|
  {
    var U, U' := Unfilled(g, value), Unfilled(g', value);
    forall q | q in U'
      ensures q in U - G
    {
    }
    forall q | q in U - G
      ensures q in U'
    {
    }
    assert U' == U - G;
    assert G <= U;
  }

  /**
   * One more sweep of MRIgrowLabel's outer loop: the voxels it fills join
   * those grown since the store was O, and leave the unfilled voxels.
   */
  method Resweep(mri: Mri, filled: Mri, inLabel: int, outLabel: Byte, b: Box, ghost O: Grid, ghost grown: set<(int, int, int)>)
    returns (nfilled: nat, ghost grown': set<(int, int, int)>)
    requires SameShape(mri, filled) && mri.vox != filled.vox
    requires forall i, j, k | InBox(b, i, j, k) :: filled.In(i, j, k)
    requires GrownBy(mri, filled, O, grown, inLabel, outLabel)
    modifies filled.vox
    ensures GrownBy(mri, filled, O, grown', inLabel, outLabel) && |grown'| == |grown| + nfilled
    ensures |Unfilled(Snapshot(filled), outLabel)| == |Unfilled(old(Snapshot(filled)), outLabel)| - nfilled
    ensures nfilled == 0 ==> forall i, j, k | filled.In(i, j, k) && InBox(b, i, j, k) && filled.vox[i, j, k] == outLabel ::
      Closed(mri, filled, inLabel, outLabel, i, j, k)
  {
    ghost var before := Snapshot(filled);
    ghost var G;
    nfilled, G := Sweep(mri, filled, inLabel, outLabel, b);
    UnfilledShrinks(before, Snapshot(filled), filled, outLabel, G);
    assert grown * G == {};
    grown' := grown + G;
  }

  /**
   * MRIgrowLabel.  marked is the set of voxels the background fill marks
   * (empty unless in_label is 0), grown the set the sweeps fill; total is
   * total_filled.  On return every out_label voxel of the box is closed.
   */
  method GrowLabel(mri: Mri, filled: Mri, inLabel: int, outLabel: int)
    returns (total: nat, ghost marked: set<(int, int, int)>, ghost grown: set<(int, int, int)>)
    requires SameShape(mri, filled) && mri.vox != filled.vox && 0 <= outLabel <= 255
    requires mri.Width() > 0 || mri.Height() > 0 || mri.Depth() > 0
    modifies filled.vox
    ensures forall i, j, k :: (i, j, k) in marked <==>
      filled.In(i, j, k) && inLabel == 0 && OnOrOutside(LabelBox(mri, inLabel), i, j, k)
    ensures forall q | q in grown ::
      filled.In(q.0, q.1, q.2) && mri.vox[q.0, q.1, q.2] == inLabel && q !in marked && old(filled.vox[q.0, q.1, q.2]) != outLabel
    ensures forall i, j, k | filled.In(i, j, k) ::
      filled.vox[i, j, k] == if (i, j, k) in marked || (i, j, k) in grown then outLabel else old(filled.vox[i, j, k])
    ensures total == |marked| + |grown|
    ensures forall i, j, k | filled.In(i, j, k) && InBox(LabelBox(mri, inLabel), i, j, k) && filled.vox[i, j, k] == outLabel ::
      Closed(mri, filled, inLabel, outLabel, i, j, k)
  {
    var b := LabelScan(mri, inLabel);
    LabelBoxInVolume(mri, inLabel);
    total, marked := 0, {};
    if inLabel == 0 {
      total, marked := MarkOutside(filled, b, outLabel);
    }
    ghost var S := Snapshot(filled);
    var nfilled;
    nfilled, grown := Resweep(mri, filled, inLabel, outLabel, b, S, {});
    total := total + nfilled;
    while nfilled > 0
      invariant GrownBy(mri, filled, S, grown, inLabel, outLabel)
      invariant total == |marked| + |grown|
      invariant nfilled == 0 ==> forall i, j, k | filled.In(i, j, k) && InBox(b, i, j, k) && filled.vox[i, j, k] == outLabel ::
        Closed(mri, filled, inLabel, outLabel, i, j, k)
      decreases |Unfilled(Snapshot(filled), outLabel)|, nfilled
    {
      nfilled, grown := Resweep(mri, filled, inLabel, outLabel, b, S, grown);
      total := total + nfilled;
    }
  }
}
