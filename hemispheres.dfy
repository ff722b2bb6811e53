/**
 * MRIturnOnFG, MRIturnOffBG and findLabel: merging a foreground volume into
 * a labelled one, and re-labelling the background by a vote between the two
 * hemisphere labels.  The hemisphere label values (MRI_LEFT_HEMISPHERE and
 * MRI_RIGHT_HEMISPHERE) are defined outside utils/mriset.c; here they are
 * the parameters left and right.
 */
module Hemispheres {
  import opened Volume
  import opened Neighbourhood
  import SetAlgebra

  // ---------------------------------------------------------------------
  // MRIturnOnFG.
  // ---------------------------------------------------------------------

  /** The first pass of MRIturnOnFG: a foreground voxel overwrites mri. */
  function ForegroundRule(m: Byte, fg: Byte): Byte {
    if fg > 0 then fg else m
  }

  /** The second pass ("remove islands"): a voxel off in the foreground is turned off. */
  function IslandRule(m: Byte, fg: Byte): Byte {
    if fg == 0 && m > 0 then 0 else m
  }

  /** The two passes together take every voxel to its foreground value. */
  lemma TurnOnComposition(m: Byte, fg: Byte)
    ensures IslandRule(ForegroundRule(m, fg), fg) == fg
  {
  }

  /** MRIturnOnFG: afterwards mri equals the foreground volume voxel for voxel. */
  method TurnOnFG(mri: Mri, fg: Mri)
    requires SameShape(mri, fg)
    modifies mri.vox
    ensures forall x, y, z | mri.In(x, y, z) :: mri.vox[x, y, z] == old(fg.vox[x, y, z])
    ensures forall x, y, z | fg.In(x, y, z) :: fg.vox[x, y, z] == old(fg.vox[x, y, z])
  {
    SetAlgebra.MapVoxels(mri, fg, mri, ForegroundRule);
    SetAlgebra.MapVoxels(mri, fg, mri, IslandRule);
  }

  // ---------------------------------------------------------------------
  // findLabel.
  // ---------------------------------------------------------------------

  /** The two counters of findLabel. */
  datatype Side = LeftCount | RightCount

  /**
   * What one voxel adds to a counter: a voxel labelled left counts for the
   * left, else one labelled right for the right.
   */
  function Counts(v: Byte, left: Byte, right: Byte, side: Side): int {
    match side
    case LeftCount => if v == left then 1 else 0
    case RightCount => if v != left && v == right then 1 else 0
  }

  /** left_count and right_count. */
  datatype Tally = Tally(left: int, right: int)

  /** findLabel's result: left on a strict majority, right otherwise (ties included). */
  function Vote(t: Tally, left: Byte, right: Byte): (r: Byte)
    ensures r == left || r == right
    ensures r == left <==> t.left > t.right || left == right
  {
    if t.left > t.right then left else right
  }

  /** g holds the voxels of m as they are now. */
  ghost predicate Mirrors(g: Grid, m: Mri)
    reads m.vox
  {
    GridShaped(g, m) && forall i, j, k | m.In(i, j, k) :: g[i][j][k] == m.vox[i, j, k]
  }

  /**
   * The value the vote reads at (i, j, k) while it works on (x, y, z): the
   * current store C where the scan has already been, the store I it started
   * from elsewhere.  With C == I it is simply the store.
   */
  ghost function Seen(m: Mri, C: Grid, I: Grid, x: int, y: int, z: int, i: int, j: int, k: int): Byte
    requires GridShaped(C, m) && GridShaped(I, m) && m.In(i, j, k)
  {
    if Before(i, j, k, x, y, z) then C[i][j][k] else I[i][j][k]
  }

  /** What (i, j, k) adds to a counter: its count when it is a voxel of the volume, else nothing. */
  ghost function Cell(m: Mri, C: Grid, I: Grid, left: Byte, right: Byte, side: Side, x: int, y: int, z: int, i: int, j: int, k: int): int
    requires GridShaped(C, m) && GridShaped(I, m)
  {
    if m.In(i, j, k) then Counts(Seen(m, C, I, x, y, z, i, j, k), left, right, side) else 0
  }

  /** A counter over the voxels (i, j, k) with lo <= i < hi, for findLabel at (x, y, z). */
  ghost function RowSum(m: Mri, C: Grid, I: Grid, left: Byte, right: Byte, side: Side,
                        x: int, y: int, z: int, j: int, k: int, lo: int, hi: int): int
    requires GridShaped(C, m) && GridShaped(I, m)
    decreases hi - lo
  {
    if hi <= lo then 0
    else RowSum(m, C, I, left, right, side, x, y, z, j, k, lo, hi - 1) + Cell(m, C, I, left, right, side, x, y, z, hi - 1, j, k)
  }

  /** A counter over rows lo <= j < hi of plane k, each row from x - 1 to x + 1. */
  ghost function PlaneSum(m: Mri, C: Grid, I: Grid, left: Byte, right: Byte, side: Side,
                          x: int, y: int, z: int, k: int, lo: int, hi: int): int
    requires GridShaped(C, m) && GridShaped(I, m)
    decreases hi - lo
  {
    if hi <= lo then 0
    else PlaneSum(m, C, I, left, right, side, x, y, z, k, lo, hi - 1) + RowSum(m, C, I, left, right, side, x, y, z, hi - 1, k, x - 1, x + 2)
  }

  /** A counter over planes lo <= k < hi, each plane from y - 1 to y + 1. */
  ghost function CubeSum(m: Mri, C: Grid, I: Grid, left: Byte, right: Byte, side: Side,
                         x: int, y: int, z: int, lo: int, hi: int): int
    requires GridShaped(C, m) && GridShaped(I, m)
    decreases hi - lo
  {
    if hi <= lo then 0
    else CubeSum(m, C, I, left, right, side, x, y, z, lo, hi - 1) + PlaneSum(m, C, I, left, right, side, x, y, z, hi - 1, y - 1, y + 2)
  }

  /** left_count and right_count of findLabel at (x, y, z): the in-volume 3x3x3 block, centre included. */
  ghost function Tallied(m: Mri, C: Grid, I: Grid, left: Byte, right: Byte, x: int, y: int, z: int): Tally
    requires GridShaped(C, m) && GridShaped(I, m)
  {
    Tally(CubeSum(m, C, I, left, right, LeftCount, x, y, z, z - 1, z + 2),
          CubeSum(m, C, I, left, right, RightCount, x, y, z, z - 1, z + 2))
  }

  /** A row outside the volume counts nothing. */
  lemma {:induction false} RowOutside(m: Mri, C: Grid, I: Grid, left: Byte, right: Byte, side: Side,
                                      x: int, y: int, z: int, j: int, k: int, lo: int, hi: int)
    requires GridShaped(C, m) && GridShaped(I, m) && !(0 <= j < m.Height() && 0 <= k < m.Depth())
    ensures RowSum(m, C, I, left, right, side, x, y, z, j, k, lo, hi) == 0
    decreases hi - lo
  {
    if lo < hi {
      RowOutside(m, C, I, left, right, side, x, y, z, j, k, lo, hi - 1);
    }
  }

  /** A plane outside the volume counts nothing. */
  lemma {:induction false} PlaneOutside(m: Mri, C: Grid, I: Grid, left: Byte, right: Byte, side: Side,
                                        x: int, y: int, z: int, k: int, lo: int, hi: int)
    requires GridShaped(C, m) && GridShaped(I, m) && !(0 <= k < m.Depth())
    ensures PlaneSum(m, C, I, left, right, side, x, y, z, k, lo, hi) == 0
    decreases hi - lo
  {
    if lo < hi {
      PlaneOutside(m, C, I, left, right, side, x, y, z, k, lo, hi - 1);
      RowOutside(m, C, I, left, right, side, x, y, z, hi - 1, k, x - 1, x + 2);
    }
  }

  /** The two views agree on every in-volume voxel of the 3x3x3 block around (x, y, z). */
  ghost predicate ViewsAgree(m: Mri, C1: Grid, I1: Grid, C2: Grid, I2: Grid, x: int, y: int, z: int)
  {
    && GridShaped(C1, m) && GridShaped(I1, m) && GridShaped(C2, m) && GridShaped(I2, m)
    && forall i, j, k | m.In(i, j, k) && Near(i, j, k, x, y, z, 1) ::
         Seen(m, C1, I1, x, y, z, i, j, k) == Seen(m, C2, I2, x, y, z, i, j, k)
  }

  lemma {:induction false} RowAgree(m: Mri, C1: Grid, I1: Grid, C2: Grid, I2: Grid, left: Byte, right: Byte, side: Side,
                                    x: int, y: int, z: int, j: int, k: int, lo: int, hi: int)
    requires ViewsAgree(m, C1, I1, C2, I2, x, y, z) && Dist(j, y) <= 1 && Dist(k, z) <= 1 && x - 1 <= lo && hi <= x + 2
    ensures RowSum(m, C1, I1, left, right, side, x, y, z, j, k, lo, hi) == RowSum(m, C2, I2, left, right, side, x, y, z, j, k, lo, hi)
    decreases hi - lo
  {
    if lo < hi {
      RowAgree(m, C1, I1, C2, I2, left, right, side, x, y, z, j, k, lo, hi - 1);
      if m.In(hi - 1, j, k) {
        assert Near(hi - 1, j, k, x, y, z, 1);
      }
    }
  }

  lemma {:induction false} PlaneAgree(m: Mri, C1: Grid, I1: Grid, C2: Grid, I2: Grid, left: Byte, right: Byte, side: Side,
                                      x: int, y: int, z: int, k: int, lo: int, hi: int)
    requires ViewsAgree(m, C1, I1, C2, I2, x, y, z) && Dist(k, z) <= 1 && y - 1 <= lo && hi <= y + 2
    ensures PlaneSum(m, C1, I1, left, right, side, x, y, z, k, lo, hi) == PlaneSum(m, C2, I2, left, right, side, x, y, z, k, lo, hi)
    decreases hi - lo
  {
    if lo < hi {
      PlaneAgree(m, C1, I1, C2, I2, left, right, side, x, y, z, k, lo, hi - 1);
      RowAgree(m, C1, I1, C2, I2, left, right, side, x, y, z, hi - 1, k, x - 1, x + 2);
    }
  }

  lemma {:induction false} CubeAgree(m: Mri, C1: Grid, I1: Grid, C2: Grid, I2: Grid, left: Byte, right: Byte, side: Side,
                                     x: int, y: int, z: int, lo: int, hi: int)
    requires ViewsAgree(m, C1, I1, C2, I2, x, y, z) && z - 1 <= lo && hi <= z + 2
    ensures CubeSum(m, C1, I1, left, right, side, x, y, z, lo, hi) == CubeSum(m, C2, I2, left, right, side, x, y, z, lo, hi)
    decreases hi - lo
  {
    if lo < hi {
      CubeAgree(m, C1, I1, C2, I2, left, right, side, x, y, z, lo, hi - 1);
      PlaneAgree(m, C1, I1, C2, I2, left, right, side, x, y, z, hi - 1, y - 1, y + 2);
    }
  }

  /** findLabel depends on nothing but the 3x3x3 block around its voxel. */
  lemma TallyAgree(m: Mri, C1: Grid, I1: Grid, C2: Grid, I2: Grid, left: Byte, right: Byte, x: int, y: int, z: int)
    requires ViewsAgree(m, C1, I1, C2, I2, x, y, z)
    ensures Tallied(m, C1, I1, left, right, x, y, z) == Tallied(m, C2, I2, left, right, x, y, z)
  {
    CubeAgree(m, C1, I1, C2, I2, left, right, LeftCount, x, y, z, z - 1, z + 2);
    CubeAgree(m, C1, I1, C2, I2, left, right, RightCount, x, y, z, z - 1, z + 2);
  }

  /** Every in-volume voxel of the block around (x, y, z) reads as v. */
  ghost predicate Uniform(m: Mri, C: Grid, I: Grid, v: Byte, x: int, y: int, z: int)
  {
    && GridShaped(C, m) && GridShaped(I, m)
    && forall i, j, k | m.In(i, j, k) && Near(i, j, k, x, y, z, 1) :: Seen(m, C, I, x, y, z, i, j, k) == v
  }

  /** The counter v's voxels feed. */
  function SideOf(v: Byte, left: Byte): Side {
    if v == left then LeftCount else RightCount
  }

  /**
   * A counter over a uniform block of v: nothing on the other side, and at
   * least one on v's side when the centre is among the voxels counted.
   */
  ghost predicate OneSided(s: int, v: Byte, left: Byte, side: Side, centred: bool) {
    if side == SideOf(v, left) then s >= 0 && (centred ==> s > 0) else s == 0
  }

  lemma {:induction false} UniformRow(m: Mri, C: Grid, I: Grid, v: Byte, left: Byte, right: Byte, side: Side,
                                      x: int, y: int, z: int, j: int, k: int, lo: int, hi: int)
    requires Uniform(m, C, I, v, x, y, z) && (v == left || v == right)
    requires Dist(j, y) <= 1 && Dist(k, z) <= 1 && x - 1 <= lo && hi <= x + 2
    ensures OneSided(RowSum(m, C, I, left, right, side, x, y, z, j, k, lo, hi), v, left, side, lo <= x < hi && m.In(x, j, k))
    decreases hi - lo
  {
    if lo < hi {
      UniformRow(m, C, I, v, left, right, side, x, y, z, j, k, lo, hi - 1);
      if m.In(hi - 1, j, k) {
        assert Near(hi - 1, j, k, x, y, z, 1);
      }
    }
  }

  lemma {:induction false} UniformPlane(m: Mri, C: Grid, I: Grid, v: Byte, left: Byte, right: Byte, side: Side,
                                        x: int, y: int, z: int, k: int, lo: int, hi: int)
    requires Uniform(m, C, I, v, x, y, z) && (v == left || v == right)
    requires Dist(k, z) <= 1 && y - 1 <= lo && hi <= y + 2
    ensures OneSided(PlaneSum(m, C, I, left, right, side, x, y, z, k, lo, hi), v, left, side, lo <= y < hi && m.In(x, y, k))
    decreases hi - lo
  {
    if lo < hi {
      UniformPlane(m, C, I, v, left, right, side, x, y, z, k, lo, hi - 1);
      UniformRow(m, C, I, v, left, right, side, x, y, z, hi - 1, k, x - 1, x + 2);
    }
  }

  lemma {:induction false} UniformCube(m: Mri, C: Grid, I: Grid, v: Byte, left: Byte, right: Byte, side: Side,
                                       x: int, y: int, z: int, lo: int, hi: int)
    requires Uniform(m, C, I, v, x, y, z) && (v == left || v == right) && z - 1 <= lo && hi <= z + 2
    ensures OneSided(CubeSum(m, C, I, left, right, side, x, y, z, lo, hi), v, left, side, lo <= z < hi && m.In(x, y, z))
    decreases hi - lo
  {
    if lo < hi {
      UniformCube(m, C, I, v, left, right, side, x, y, z, lo, hi - 1);
      UniformPlane(m, C, I, v, left, right, side, x, y, z, hi - 1, y - 1, y + 2);
    }
  }

  /** A voxel whose whole block holds one hemisphere label is voted that label. */
  lemma UnanimousVote(m: Mri, C: Grid, I: Grid, v: Byte, left: Byte, right: Byte, x: int, y: int, z: int)
    requires Uniform(m, C, I, v, x, y, z) && (v == left || v == right) && m.In(x, y, z)
    ensures Vote(Tallied(m, C, I, left, right, x, y, z), left, right) == v
  {
    UniformCube(m, C, I, v, left, right, LeftCount, x, y, z, z - 1, z + 2);
    UniformCube(m, C, I, v, left, right, RightCount, x, y, z, z - 1, z + 2);
  }

  /** The xk loop of findLabel over row (yi, zi), adding to the counters lc0 and rc0. */
  method FindRow(mri: Mri, left: Byte, right: Byte, x: int, y: int, z: int, yi: int, zi: int, lc0: int, rc0: int, ghost C: Grid)
    returns (lc: int, rc: int)
    requires 0 <= yi < mri.Height() && 0 <= zi < mri.Depth() && Mirrors(C, mri)
    ensures lc == lc0 + RowSum(mri, C, C, left, right, LeftCount, x, y, z, yi, zi, x - 1, x + 2)
    ensures rc == rc0 + RowSum(mri, C, C, left, right, RightCount, x, y, z, yi, zi, x - 1, x + 2)
  {
    lc, rc := lc0, rc0;
    var xk := -1;
    while xk <= 1
      invariant -1 <= xk <= 2
      invariant lc == lc0 + RowSum(mri, C, C, left, right, LeftCount, x, y, z, yi, zi, x - 1, x + xk)
      invariant rc == rc0 + RowSum(mri, C, C, left, right, RightCount, x, y, z, yi, zi, x - 1, x + xk)
    {
      var xi := x + xk;
      if 0 <= xi < mri.Width() {
        var v := mri.vox[xi, yi, zi];
        if v == left {
          lc := lc + 1;
        } else if v == right {
          rc := rc + 1;
        }
      }
      xk := xk + 1;
    }
  }

  /** The yk loop of findLabel over plane zi. */
  method FindPlane(mri: Mri, left: Byte, right: Byte, x: int, y: int, z: int, zi: int, lc0: int, rc0: int, ghost C: Grid)
    returns (lc: int, rc: int)
    requires 0 <= zi < mri.Depth() && Mirrors(C, mri)
    ensures lc == lc0 + PlaneSum(mri, C, C, left, right, LeftCount, x, y, z, zi, y - 1, y + 2)
    ensures rc == rc0 + PlaneSum(mri, C, C, left, right, RightCount, x, y, z, zi, y - 1, y + 2)
  {
    lc, rc := lc0, rc0;
    var yk := -1;
    while yk <= 1
      invariant -1 <= yk <= 2
      invariant lc == lc0 + PlaneSum(mri, C, C, left, right, LeftCount, x, y, z, zi, y - 1, y + yk)
      invariant rc == rc0 + PlaneSum(mri, C, C, left, right, RightCount, x, y, z, zi, y - 1, y + yk)
    {
      var yi := y + yk;
      if 0 <= yi < mri.Height() {
        lc, rc := FindRow(mri, left, right, x, y, z, yi, zi, lc, rc, C);
      } else {
        RowOutside(mri, C, C, left, right, LeftCount, x, y, z, yi, zi, x - 1, x + 2);
        RowOutside(mri, C, C, left, right, RightCount, x, y, z, yi, zi, x - 1, x + 2);
      }
      yk := yk + 1;
    }
  }

  /**
   * findLabel: the hemisphere label in the majority among the in-volume
   * voxels of the 3x3x3 block around (x, y, z), right on a tie.
   */
  method FindLabel(mri: Mri, left: Byte, right: Byte, x: int, y: int, z: int) returns (voted: Byte)
    ensures voted == Vote(Tallied(mri, Snapshot(mri), Snapshot(mri), left, right, x, y, z), left, right)
  {
    ghost var C := Snapshot(mri);
    var lc, rc := 0, 0;
    var zk := -1;
    while zk <= 1
      invariant -1 <= zk <= 2
      invariant lc == CubeSum(mri, C, C, left, right, LeftCount, x, y, z, z - 1, z + zk)
      invariant rc == CubeSum(mri, C, C, left, right, RightCount, x, y, z, z - 1, z + zk)
    {
      var zi := z + zk;
      if 0 <= zi < mri.Depth() {
        lc, rc := FindPlane(mri, left, right, x, y, z, zi, lc, rc, C);
      } else {
        PlaneOutside(mri, C, C, left, right, LeftCount, x, y, z, zi, y - 1, y + 2);
        PlaneOutside(mri, C, C, left, right, RightCount, x, y, z, zi, y - 1, y + 2);
      }
      zk := zk + 1;
    }
    voted := if lc > rc then left else right;
  }

  // ---------------------------------------------------------------------
  // MRIturnOffBG.
  // ---------------------------------------------------------------------

  /** The first pass of MRIturnOffBG: a background voxel is turned off. */
  function BackgroundRule(m: Byte, bg: Byte): Byte {
    if bg > 0 then 0 else m
  }

  /** The store after the first pass, from the store O and the background B. */
  ghost function Cleared(m: Mri, O: Grid, B: Grid): (g: Grid)
    requires GridShaped(O, m) && GridShaped(B, m)
    ensures GridShaped(g, m)
    ensures forall i, j, k | m.In(i, j, k) :: g[i][j][k] == BackgroundRule(O[i][j][k], B[i][j][k])
  {
    seq(m.Width(), i requires 0 <= i < m.Width() =>
      seq(m.Height(), j requires 0 <= j < m.Height() =>
        seq(m.Depth(), k requires 0 <= k < m.Depth() => BackgroundRule(O[i][j][k], B[i][j][k]))))
  }

  /**
   * The second pass has settled (i, j, k): a voxel off in both mri (after the
   * first pass, I) and the background holds the vote over what the scan
   * read, every other voxel keeps its first-pass value.
   */
  ghost predicate Resolved(mri: Mri, bg: Mri, I: Grid, left: Byte, right: Byte, i: int, j: int, k: int)
    reads mri.vox, bg.vox
  {
    && SameShape(mri, bg) && GridShaped(I, mri) && mri.In(i, j, k)
    && mri.vox[i, j, k] ==
         if bg.vox[i, j, k] == 0 && I[i][j][k] == 0 then Vote(Tallied(mri, Snapshot(mri), I, left, right, i, j, k), left, right)
         else I[i][j][k]
  }

  /** The state of the second pass at (x, y, z): voxels before it settled, the rest as the first pass left them. */
  ghost predicate VotedUpTo(mri: Mri, bg: Mri, I: Grid, left: Byte, right: Byte, x: int, y: int, z: int)
    reads mri.vox, bg.vox
  {
    && SameShape(mri, bg) && GridShaped(I, mri)
    && (forall i, j, k | mri.In(i, j, k) && !Before(i, j, k, x, y, z) :: mri.vox[i, j, k] == I[i][j][k])
    && (forall i, j, k | mri.In(i, j, k) && Before(i, j, k, x, y, z) :: Resolved(mri, bg, I, left, right, i, j, k))
  }

  /** C' is C with at most the voxel (x, y, z) changed. */
  ghost predicate OnlyAt(m: Mri, C: Grid, C': Grid, x: int, y: int, z: int) {
    && GridShaped(C, m) && GridShaped(C', m)
    && forall i, j, k | m.In(i, j, k) && (i != x || j != y || k != z) :: C'[i][j][k] == C[i][j][k]
  }

  /**
   * What findLabel reads at (x, y, z) from the current store C, which still
   * holds the first-pass values I from (x, y, z) on, is the view of the
   * store C' after the write: C' before (x, y, z), I from there on.
   */
  lemma CurrentView(m: Mri, C: Grid, C': Grid, I: Grid, left: Byte, right: Byte, x: int, y: int, z: int)
    requires OnlyAt(m, C, C', x, y, z) && GridShaped(I, m)
    requires forall i, j, k | m.In(i, j, k) && !Before(i, j, k, x, y, z) :: C[i][j][k] == I[i][j][k]
    ensures Tallied(m, C, C, left, right, x, y, z) == Tallied(m, C', I, left, right, x, y, z)
  {
    assert ViewsAgree(m, C, C, C', I, x, y, z);
    TallyAgree(m, C, C, C', I, left, right, x, y, z);
  }

  /** Writing (x, y, z) leaves the vote at every voxel settled before it as it was. */
  lemma SettledView(m: Mri, C: Grid, C': Grid, I: Grid, left: Byte, right: Byte, x: int, y: int, z: int)
    requires OnlyAt(m, C, C', x, y, z) && GridShaped(I, m)
    ensures forall i, j, k | m.In(i, j, k) && Before(i, j, k, x, y, z) ::
      Tallied(m, C', I, left, right, i, j, k) == Tallied(m, C, I, left, right, i, j, k)
  {
    forall i, j, k | m.In(i, j, k) && Before(i, j, k, x, y, z)
      ensures Tallied(m, C', I, left, right, i, j, k) == Tallied(m, C, I, left, right, i, j, k)
    {
      assert ViewsAgree(m, C, I, C', I, i, j, k);
      TallyAgree(m, C, I, C', I, left, right, i, j, k);
    }
  }

  /** The body of the second pass at (x, y, z). */
  method VoteVoxel(mri: Mri, bg: Mri, left: Byte, right: Byte, x: int, y: int, z: int, ghost I: Grid)
    requires mri.vox != bg.vox && mri.In(x, y, z)
    requires VotedUpTo(mri, bg, I, left, right, x, y, z)
    modifies mri.vox
    ensures VotedUpTo(mri, bg, I, left, right, x + 1, y, z)
  {
    ghost var C := Snapshot(mri);
    if bg.vox[x, y, z] == 0 && mri.vox[x, y, z] == 0 {
      var v := FindLabel(mri, left, right, x, y, z);
      mri.vox[x, y, z] := v;
    }
    ghost var C' := Snapshot(mri);
    CurrentView(mri, C, C', I, left, right, x, y, z);
    SettledView(mri, C, C', I, left, right, x, y, z);
    forall i, j, k | mri.In(i, j, k) && Before(i, j, k, x + 1, y, z)
      ensures Resolved(mri, bg, I, left, right, i, j, k)
    {
      if !Before(i, j, k, x, y, z) {
        assert i == x && j == y && k == z;
      }
    }
  }

  /** The x loop of the second pass over row (y, z). */
  method VoteRow(mri: Mri, bg: Mri, left: Byte, right: Byte, y: int, z: int, ghost I: Grid)
    requires mri.vox != bg.vox && 0 <= y < mri.Height() && 0 <= z < mri.Depth()
    requires VotedUpTo(mri, bg, I, left, right, 0, y, z)
    modifies mri.vox
    ensures VotedUpTo(mri, bg, I, left, right, 0, y + 1, z)
  {
    var x := 0;
    while x < mri.Width()
      invariant 0 <= x <= mri.Width() && VotedUpTo(mri, bg, I, left, right, x, y, z)
    {
      VoteVoxel(mri, bg, left, right, x, y, z, I);
      x := x + 1;
    }
  }

  /** The y loop of the second pass over plane z. */
  method VotePlane(mri: Mri, bg: Mri, left: Byte, right: Byte, z: int, ghost I: Grid)
    requires mri.vox != bg.vox && 0 <= z < mri.Depth()
    requires VotedUpTo(mri, bg, I, left, right, 0, 0, z)
    modifies mri.vox
    ensures VotedUpTo(mri, bg, I, left, right, 0, 0, z + 1)
  {
    var y := 0;
    while y < mri.Height()
      invariant 0 <= y <= mri.Height() && VotedUpTo(mri, bg, I, left, right, 0, y, z)
    {
      VoteRow(mri, bg, left, right, y, z, I);
      y := y + 1;
    }
  }

  /**
   * MRIturnOffBG: a voxel on in the background is turned off; a voxel off in
   * both keeps a non-zero value and otherwise takes the hemisphere vote over
   * its block, as the in-place scan sees it (the final value where it has
   * already been, the first-pass value elsewhere).
   */
  method TurnOffBG(mri: Mri, bg: Mri, left: Byte, right: Byte)
    requires SameShape(mri, bg) && mri.vox != bg.vox
    modifies mri.vox
    ensures forall i, j, k | mri.In(i, j, k) ::
              mri.vox[i, j, k] ==
                if bg.vox[i, j, k] > 0 then 0
                else if old(mri.vox[i, j, k]) != 0 then old(mri.vox[i, j, k])
                else Vote(Tallied(mri, Snapshot(mri), Cleared(mri, old(Snapshot(mri)), Snapshot(bg)), left, right, i, j, k), left, right)
    ensures forall i, j, k | mri.In(i, j, k) && bg.vox[i, j, k] == 0 && old(mri.vox[i, j, k]) == 0 ::
      mri.vox[i, j, k] == left || mri.vox[i, j, k] == right
  {
    ghost var I := Cleared(mri, old(Snapshot(mri)), Snapshot(bg));
    SetAlgebra.MapVoxels(mri, bg, mri, BackgroundRule);
    var z := 0;
    while z < mri.Depth()
      invariant 0 <= z <= mri.Depth() && VotedUpTo(mri, bg, I, left, right, 0, 0, z)
    {
      VotePlane(mri, bg, left, right, z, I);
      z := z + 1;
    }
    assert forall i, j, k | mri.In(i, j, k) :: Resolved(mri, bg, I, left, right, i, j, k);
  }
}
