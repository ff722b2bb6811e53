/**
 * The bounding box MRIdilate computes before it filters: a raster scan that
 * widens a box by one voxel around every non-zero voxel, then clips the
 * box to the volume.  Only voxels inside the clipped box are written.
 *
 * The scan starts from the inverted box (lo = extent - 1, hi = 0) and not
 * from an empty one, so the clipped box it yields is described per axis:
 * a coordinate c is inside when (c is the last index or some non-zero voxel
 * has coordinate at most c + 1) and (c is 0 or some non-zero voxel has
 * coordinate at least c - 1).
 */
module BoundingBox {
  import opened Volume
  import opened Neighbourhood

  /** The box (xmin .. xmax, ymin .. ymax, zmin .. zmax) of MRIdilate, bounds included. */
  datatype Box = Box(xlo: int, xhi: int, ylo: int, yhi: int, zlo: int, zhi: int)

  function Coord(axis: Axis, i: int, j: int, k: int): int {
    match axis
    case X => i
    case Y => j
    case Z => k
  }

  function Lo(b: Box, axis: Axis): int {
    match axis
    case X => b.xlo
    case Y => b.ylo
    case Z => b.zlo
  }

  function Hi(b: Box, axis: Axis): int {
    match axis
    case X => b.xhi
    case Y => b.yhi
    case Z => b.zhi
  }

  /** The length of the field's store along an axis. */
  function Extent(f: Field, axis: Axis): nat {
    var a := Store(f);
    match axis
    case X => a.Length0
    case Y => a.Length1
    case Z => a.Length2
  }

  predicate InBox(b: Box, x: int, y: int, z: int) {
    b.xlo <= x <= b.xhi && b.ylo <= y <= b.yhi && b.zlo <= z <= b.zhi
  }

  /** The voxel (i, j, k) of f is non-zero: `*psrc > 0`. */
  ghost predicate Occupied(f: Field, i: int, j: int, k: int)
    reads Store(f)
  {
    InField(f, i, j, k) && Sample(f, i, j, k) > 0
  }

  /** Along one axis, c is at or above the clipped lower bound of the scan of f. */
  ghost predicate AboveLow(f: Field, axis: Axis, c: int)
    reads Store(f)
  {
    c == Extent(f, axis) - 1 || exists i, j, k | Occupied(f, i, j, k) :: Coord(axis, i, j, k) - 1 <= c
  }

  /** Along one axis, c is at or below the clipped upper bound of the scan of f. */
  ghost predicate BelowHigh(f: Field, axis: Axis, c: int)
    reads Store(f)
  {
    c == 0 || exists i, j, k | Occupied(f, i, j, k) :: c <= Coord(axis, i, j, k) + 1
  }

  /** Along one axis, c lies within the clipped box of the scan of f. */
  ghost predicate AxisInBox(f: Field, axis: Axis, c: int)
    reads Store(f)
  {
    AboveLow(f, axis, c) && BelowHigh(f, axis, c)
  }

  /** (x, y, z) is a voxel of f inside the clipped box MRIdilate computes for f. */
  ghost predicate InBoundingBox(f: Field, x: int, y: int, z: int)
    reads Store(f)
  {
    InField(f, x, y, z) && AxisInBox(f, X, x) && AxisInBox(f, Y, y) && AxisInBox(f, Z, z)
  }

  /**
   * The lower bound lo along axis is what the scan holds once every voxel
   * before (x, y, z) has been seen: at most each seen occupied coordinate
   * minus one, and either still the initial extent - 1 or equal to one of them.
   */
  ghost predicate LowTracks(f: Field, axis: Axis, lo: int, x: int, y: int, z: int)
    reads Store(f)
  {
    && (forall i, j, k | Occupied(f, i, j, k) && Before(i, j, k, x, y, z) :: lo <= Coord(axis, i, j, k) - 1)
    && lo <= Extent(f, axis) - 1
    && (lo == Extent(f, axis) - 1 ||
        exists i, j, k | Occupied(f, i, j, k) && Before(i, j, k, x, y, z) :: Coord(axis, i, j, k) - 1 == lo)
  }

  /** The upper bound hi along axis, as LowTracks with the roles reversed and 0 as initial value. */
  ghost predicate HighTracks(f: Field, axis: Axis, hi: int, x: int, y: int, z: int)
    reads Store(f)
  {
    && (forall i, j, k | Occupied(f, i, j, k) && Before(i, j, k, x, y, z) :: Coord(axis, i, j, k) + 1 <= hi)
    && 0 <= hi
    && (hi == 0 || exists i, j, k | Occupied(f, i, j, k) && Before(i, j, k, x, y, z) :: Coord(axis, i, j, k) + 1 == hi)
  }

  /** All six bounds of b are those of a scan of f that has reached (x, y, z). */
  ghost predicate Tracks(f: Field, b: Box, x: int, y: int, z: int)
    reads Store(f)
  {
    AxisTracks(f, X, b.xlo, b.xhi, x, y, z) && AxisTracks(f, Y, b.ylo, b.yhi, x, y, z) && AxisTracks(f, Z, b.zlo, b.zhi, x, y, z)
  }

  ghost predicate AxisTracks(f: Field, axis: Axis, lo: int, hi: int, x: int, y: int, z: int)
    reads Store(f)
  {
    LowTracks(f, axis, lo, x, y, z) && HighTracks(f, axis, hi, x, y, z)
  }

  /**
   * The six `if` statements run for a non-zero voxel (x, y, z): each bound
   * moves out to the voxel's coordinate minus (plus) one when that is further out.
   */
  function Widen(b: Box, x: int, y: int, z: int): Box {
    Box(Lesser(b.xlo, x - 1), Greater(b.xhi, x + 1),
        Lesser(b.ylo, y - 1), Greater(b.yhi, y + 1),
        Lesser(b.zlo, z - 1), Greater(b.zhi, z + 1))
  }

  function Lesser(a: int, b: int): int { if a < b then a else b }
  function Greater(a: int, b: int): int { if a > b then a else b }

  /** The clip to the volume: `xmin = MAX(0, xmin); xmax = MIN(width-1, xmax)` and so on. */
  function Clip(b: Box, f: Field): Box {
    Box(Greater(0, b.xlo), Lesser(Extent(f, X) - 1, b.xhi),
        Greater(0, b.ylo), Lesser(Extent(f, Y) - 1, b.yhi),
        Greater(0, b.zlo), Lesser(Extent(f, Z) - 1, b.zhi))
  }

  // ---------------------------------------------------------------------
  // The scan.
  // ---------------------------------------------------------------------

  /** A voxel the scan passes over without widening the bound keeps the lower bound tracking. */
  lemma LowStepKeeps(f: Field, axis: Axis, lo: int, x: int, y: int, z: int)
    requires InField(f, x, y, z) && LowTracks(f, axis, lo, x, y, z)
    requires Occupied(f, x, y, z) ==> lo <= Coord(axis, x, y, z) - 1
    ensures LowTracks(f, axis, lo, x + 1, y, z)
  {
    forall i, j, k | Occupied(f, i, j, k) && Before(i, j, k, x + 1, y, z)
      ensures lo <= Coord(axis, i, j, k) - 1
    {
      if !Before(i, j, k, x, y, z) {
        assert i == x && j == y && k == z;
      }
    }
    if lo != Extent(f, axis) - 1 {
      var i, j, k :| Occupied(f, i, j, k) && Before(i, j, k, x, y, z) && Coord(axis, i, j, k) - 1 == lo;
      assert Before(i, j, k, x + 1, y, z);
    }
  }

  /** An occupied voxel below the lower bound moves the bound to it. */
  lemma LowStepMoves(f: Field, axis: Axis, lo: int, x: int, y: int, z: int)
    requires InField(f, x, y, z) && LowTracks(f, axis, lo, x, y, z)
    requires Occupied(f, x, y, z) && Coord(axis, x, y, z) - 1 < lo
    ensures LowTracks(f, axis, Coord(axis, x, y, z) - 1, x + 1, y, z)
  {
    var c := Coord(axis, x, y, z) - 1;
    forall i, j, k | Occupied(f, i, j, k) && Before(i, j, k, x + 1, y, z)
      ensures c <= Coord(axis, i, j, k) - 1
    {
      if !Before(i, j, k, x, y, z) {
        assert i == x && j == y && k == z;
      }
    }
    assert Before(x, y, z, x + 1, y, z);
  }

  lemma LowStep(f: Field, axis: Axis, lo: int, x: int, y: int, z: int)
    requires InField(f, x, y, z) && LowTracks(f, axis, lo, x, y, z)
    ensures LowTracks(f, axis, if Occupied(f, x, y, z) then Lesser(lo, Coord(axis, x, y, z) - 1) else lo, x + 1, y, z)
  {
    if Occupied(f, x, y, z) && Coord(axis, x, y, z) - 1 < lo {
      LowStepMoves(f, axis, lo, x, y, z);
    } else {
      LowStepKeeps(f, axis, lo, x, y, z);
    }
  }

  /** A voxel the scan passes over without widening the bound keeps the upper bound tracking. */
  lemma HighStepKeeps(f: Field, axis: Axis, hi: int, x: int, y: int, z: int)
    requires InField(f, x, y, z) && HighTracks(f, axis, hi, x, y, z)
    requires Occupied(f, x, y, z) ==> Coord(axis, x, y, z) + 1 <= hi
    ensures HighTracks(f, axis, hi, x + 1, y, z)
  {
    forall i, j, k | Occupied(f, i, j, k) && Before(i, j, k, x + 1, y, z)
      ensures Coord(axis, i, j, k) + 1 <= hi
    {
      if !Before(i, j, k, x, y, z) {
        assert i == x && j == y && k == z;
      }
    }
    if hi != 0 {
      var i, j, k :| Occupied(f, i, j, k) && Before(i, j, k, x, y, z) && Coord(axis, i, j, k) + 1 == hi;
      assert Before(i, j, k, x + 1, y, z);
    }
  }

  /** An occupied voxel above the upper bound moves the bound to it. */
  lemma HighStepMoves(f: Field, axis: Axis, hi: int, x: int, y: int, z: int)
    requires InField(f, x, y, z) && HighTracks(f, axis, hi, x, y, z)
    requires Occupied(f, x, y, z) && Coord(axis, x, y, z) + 1 > hi
    ensures HighTracks(f, axis, Coord(axis, x, y, z) + 1, x + 1, y, z)
  {
    var c := Coord(axis, x, y, z) + 1;
    forall i, j, k | Occupied(f, i, j, k) && Before(i, j, k, x + 1, y, z)
      ensures Coord(axis, i, j, k) + 1 <= c
    {
      if !Before(i, j, k, x, y, z) {
        assert i == x && j == y && k == z;
      }
    }
    assert Before(x, y, z, x + 1, y, z);
  }

  lemma HighStep(f: Field, axis: Axis, hi: int, x: int, y: int, z: int)
    requires InField(f, x, y, z) && HighTracks(f, axis, hi, x, y, z)
    ensures HighTracks(f, axis, if Occupied(f, x, y, z) then Greater(hi, Coord(axis, x, y, z) + 1) else hi, x + 1, y, z)
  {
    if Occupied(f, x, y, z) && Coord(axis, x, y, z) + 1 > hi {
      HighStepMoves(f, axis, hi, x, y, z);
    } else {
      HighStepKeeps(f, axis, hi, x, y, z);
    }
  }

  /** Looking at voxel (x, y, z) keeps the box tracking the scan, one voxel further on. */
  lemma TracksStep(f: Field, b: Box, x: int, y: int, z: int)
    requires InField(f, x, y, z) && Tracks(f, b, x, y, z)
    ensures Tracks(f, if Occupied(f, x, y, z) then Widen(b, x, y, z) else b, x + 1, y, z)
  {
    AxisStep(f, X, b.xlo, b.xhi, x, y, z);
    AxisStep(f, Y, b.ylo, b.yhi, x, y, z);
    AxisStep(f, Z, b.zlo, b.zhi, x, y, z);
  }

  lemma AxisStep(f: Field, axis: Axis, lo: int, hi: int, x: int, y: int, z: int)
    requires InField(f, x, y, z) && AxisTracks(f, axis, lo, hi, x, y, z)
    ensures var c := Coord(axis, x, y, z);
      if Occupied(f, x, y, z) then AxisTracks(f, axis, Lesser(lo, c - 1), Greater(hi, c + 1), x + 1, y, z)
      else AxisTracks(f, axis, lo, hi, x + 1, y, z)
  {
    LowStep(f, axis, lo, x, y, z);
    HighStep(f, axis, hi, x, y, z);
  }

  /** Two scan positions that have seen the same voxels of f. */
  ghost predicate SameSeen(f: Field, x: int, y: int, z: int, x': int, y': int, z': int)
    reads Store(f)
  {
    forall i, j, k | InField(f, i, j, k) :: Before(i, j, k, x, y, z) == Before(i, j, k, x', y', z')
  }

  lemma TracksMove(f: Field, b: Box, x: int, y: int, z: int, x': int, y': int, z': int)
    requires Tracks(f, b, x, y, z) && SameSeen(f, x, y, z, x', y', z')
    ensures Tracks(f, b, x', y', z')
  {
  }

  /**
   * The box the scan holds when it reaches (x, y, z): the inverted initial
   * box, widened around every occupied voxel before (x, y, z) in raster
   * order.  Position (0, y, z) is reached from the end (width, y - 1, z) of
   * the previous row, and (0, 0, z) from the end (0, height, z - 1) of the
   * previous plane.
   */
  ghost function ScanTo(f: Field, x: nat, y: nat, z: nat): Box
    reads Store(f)
    decreases z, y, x
  {
    if x > 0 then
      var b := ScanTo(f, x - 1, y, z);
      if Occupied(f, x - 1, y, z) then Widen(b, x - 1, y, z) else b
    else if y > 0 then ScanTo(f, Extent(f, X), y - 1, z)
    else if z > 0 then ScanTo(f, 0, Extent(f, Y), z - 1)
    else Box(Extent(f, X) - 1, 0, Extent(f, Y) - 1, 0, Extent(f, Z) - 1, 0)
  }

  /** The end of row y - 1 and the start of row y have seen the same voxels. */
  lemma RowWrapSeen(f: Field, y: int, z: int)
    ensures SameSeen(f, Extent(f, X), y - 1, z, 0, y, z)
  {
  }

  /** The end of plane z - 1 and the start of plane z have seen the same voxels. */
  lemma PlaneWrapSeen(f: Field, z: int)
    ensures SameSeen(f, 0, Extent(f, Y), z - 1, 0, 0, z)
  {
  }

  /** The box the scan holds has the bounds Tracks describes. */
  lemma {:induction false} ScanTracks(f: Field, x: nat, y: nat, z: nat)
    ensures Tracks(f, ScanTo(f, x, y, z), x, y, z)
    decreases z, y, x
  {
    if x > 0 {
      ScanTracks(f, x - 1, y, z);
      ScanVoxel(f, x, y, z);
    } else if y > 0 {
      ScanTracks(f, Extent(f, X), y - 1, z);
      ScanRowWrap(f, y, z);
    } else if z > 0 {
      ScanTracks(f, 0, Extent(f, Y), z - 1);
      ScanPlaneWrap(f, z);
    } else {
      ScanStart(f);
    }
  }

  /** Scanning voxel (x - 1, y, z) keeps the box tracking. */
  lemma ScanVoxel(f: Field, x: nat, y: nat, z: nat)
    requires x > 0 && Tracks(f, ScanTo(f, x - 1, y, z), x - 1, y, z)
    ensures Tracks(f, ScanTo(f, x, y, z), x, y, z)
  {
    PassVoxel(f, ScanTo(f, x - 1, y, z), x - 1, y, z);
  }

  /** The scan starts row y with the box it ended row y - 1 with. */
  lemma ScanToRowStart(f: Field, y: nat, z: nat)
    requires y > 0
    ensures ScanTo(f, 0, y, z) == ScanTo(f, Extent(f, X), y - 1, z)
  {
  }

  /** The scan starts plane z with the box it ended plane z - 1 with. */
  lemma ScanToPlaneStart(f: Field, z: nat)
    requires z > 0
    ensures ScanTo(f, 0, 0, z) == ScanTo(f, 0, Extent(f, Y), z - 1)
  {
  }

  /** A box that tracks the scan at the end of row y - 1 tracks it at the start of row y. */
  lemma RowWrapTracks(f: Field, b: Box, y: int, z: int)
    requires Tracks(f, b, Extent(f, X), y - 1, z)
    ensures Tracks(f, b, 0, y, z)
  {
    RowWrapSeen(f, y, z);
    TracksMove(f, b, Extent(f, X), y - 1, z, 0, y, z);
  }

  /** A box that tracks the scan at the end of plane z - 1 tracks it at the start of plane z. */
  lemma PlaneWrapTracks(f: Field, b: Box, z: int)
    requires Tracks(f, b, 0, Extent(f, Y), z - 1)
    ensures Tracks(f, b, 0, 0, z)
  {
    PlaneWrapSeen(f, z);
    TracksMove(f, b, 0, Extent(f, Y), z - 1, 0, 0, z);
  }

  /** Moving from the end of row y - 1 to the start of row y keeps the box tracking. */
  lemma ScanRowWrap(f: Field, y: nat, z: nat)
    requires y > 0 && Tracks(f, ScanTo(f, Extent(f, X), y - 1, z), Extent(f, X), y - 1, z)
    ensures Tracks(f, ScanTo(f, 0, y, z), 0, y, z)
  {
    ScanToRowStart(f, y, z);
    RowWrapTracks(f, ScanTo(f, Extent(f, X), y - 1, z), y, z);
  }

  /** Moving from the end of plane z - 1 to the start of plane z keeps the box tracking. */
  lemma ScanPlaneWrap(f: Field, z: nat)
    requires z > 0 && Tracks(f, ScanTo(f, 0, Extent(f, Y), z - 1), 0, Extent(f, Y), z - 1)
    ensures Tracks(f, ScanTo(f, 0, 0, z), 0, 0, z)
  {
    ScanToPlaneStart(f, z);
    PlaneWrapTracks(f, ScanTo(f, 0, Extent(f, Y), z - 1), z);
  }

  /** The initial, inverted box tracks a scan that has seen nothing. */
  lemma ScanStart(f: Field)
    ensures Tracks(f, ScanTo(f, 0, 0, 0), 0, 0, 0)
  {
    TracksMove(f, ScanTo(f, 0, 0, 0), -1, -1, -1, 0, 0, 0);
  }

  lemma PassVoxel(f: Field, b: Box, x: nat, y: nat, z: nat)
    requires Tracks(f, b, x, y, z)
    ensures Tracks(f, if Occupied(f, x, y, z) then Widen(b, x, y, z) else b, x + 1, y, z)
  {
    if InField(f, x, y, z) {
      TracksStep(f, b, x, y, z);
    } else {
      TracksMove(f, b, x, y, z, x + 1, y, z);
    }
  }

  /**
   * After the whole volume is scanned, the clipped box holds exactly the
   * voxels InBoundingBox describes.
   */
  lemma ScanBox(f: Field)
    ensures var b := Clip(ScanTo(f, 0, 0, Extent(f, Z)), f);
      forall x, y, z | InField(f, x, y, z) :: InBox(b, x, y, z) <==> InBoundingBox(f, x, y, z)
  {
    var w := ScanTo(f, 0, 0, Extent(f, Z));
    ScanTracks(f, 0, 0, Extent(f, Z));
    TracksMove(f, w, 0, 0, Extent(f, Z), -1, -1, Extent(f, Z));
    forall x, y, z | InField(f, x, y, z)
      ensures InBox(Clip(w, f), x, y, z) <==> InBoundingBox(f, x, y, z)
    {
      ClipPoint(f, w, x, y, z);
    }
  }

  lemma ClipPoint(f: Field, w: Box, x: int, y: int, z: int)
    requires Tracks(f, w, -1, -1, Extent(f, Z)) && InField(f, x, y, z)
    ensures InBox(Clip(w, f), x, y, z) <==> InBoundingBox(f, x, y, z)
  {
    ClipAxis(f, X, w.xlo, w.xhi, x, y, z, x);
    ClipAxis(f, Y, w.ylo, w.yhi, x, y, z, y);
    ClipAxis(f, Z, w.zlo, w.zhi, x, y, z, z);
  }

  /** The x loop of the scan over row (y, z). */
  method ScanRow(m: Mri, b: Box, y: nat, z: nat) returns (w: Box)
    requires y < m.Height() && z < m.Depth() && b == ScanTo(Raw(m.vox), 0, y, z)
    ensures w == ScanTo(Raw(m.vox), 0, y + 1, z)
  {
    w := b;
    var x := 0;
    while x < m.Width()
      invariant 0 <= x <= m.Width() && w == ScanTo(Raw(m.vox), x, y, z)
    {
      if m.vox[x, y, z] > 0 {
        w := Widen(w, x, y, z);
      }
      x := x + 1;
    }
  }

  /** The y loop of the scan over plane z. */
  method ScanPlane(m: Mri, b: Box, z: nat) returns (w: Box)
    requires z < m.Depth() && b == ScanTo(Raw(m.vox), 0, 0, z)
    ensures w == ScanTo(Raw(m.vox), 0, 0, z + 1)
  {
    w := b;
    var y := 0;
    while y < m.Height()
      invariant 0 <= y <= m.Height() && w == ScanTo(Raw(m.vox), 0, y, z)
    {
      w := ScanRow(m, w, y, z);
      y := y + 1;
    }
  }

  /**
   * The first scan of MRIdilate and the clip that follows it: the box of
   * the voxels within one step of a non-zero voxel, as InBoundingBox states.
   */
  method Scan(m: Mri) returns (b: Box)
    ensures 0 <= b.xlo && b.xhi < m.Width() && 0 <= b.ylo && b.yhi < m.Height() && 0 <= b.zlo && b.zhi < m.Depth()
    ensures forall x, y, z | m.In(x, y, z) :: InBox(b, x, y, z) <==> InBoundingBox(Raw(m.vox), x, y, z)
  {
    var w := Box(m.Width() - 1, 0, m.Height() - 1, 0, m.Depth() - 1, 0);
    var z := 0;
    while z < m.Depth()
      invariant 0 <= z <= m.Depth() && w == ScanTo(Raw(m.vox), 0, 0, z)
    {
      w := ScanPlane(m, w, z);
      z := z + 1;
    }
    b := Box(Greater(0, w.xlo), Lesser(m.Width() - 1, w.xhi),
             Greater(0, w.ylo), Lesser(m.Height() - 1, w.yhi),
             Greater(0, w.zlo), Lesser(m.Depth() - 1, w.zhi));
    ScanBox(Raw(m.vox));
  }

  /** Once the whole volume is seen, the clipped lower bound of an axis is the first half of AxisInBox. */
  lemma ClipLow(f: Field, axis: Axis, lo: int, c: int)
    requires LowTracks(f, axis, lo, -1, -1, Extent(f, Z)) && 0 <= c < Extent(f, axis)
    ensures Greater(0, lo) <= c <==> AboveLow(f, axis, c)
  {
    if c >= Greater(0, lo) && lo != Extent(f, axis) - 1 {
      var i, j, k :| Occupied(f, i, j, k) && Before(i, j, k, -1, -1, Extent(f, Z)) && Coord(axis, i, j, k) - 1 == lo;
    }
    if c != Extent(f, axis) - 1 && exists i, j, k | Occupied(f, i, j, k) :: Coord(axis, i, j, k) - 1 <= c {
      var i, j, k :| Occupied(f, i, j, k) && Coord(axis, i, j, k) - 1 <= c;
      assert Before(i, j, k, -1, -1, Extent(f, Z));
    }
  }

  /** Once the whole volume is seen, the clipped upper bound of an axis is the second half of AxisInBox. */
  lemma ClipHigh(f: Field, axis: Axis, hi: int, c: int)
    requires HighTracks(f, axis, hi, -1, -1, Extent(f, Z)) && 0 <= c < Extent(f, axis)
    ensures c <= Lesser(Extent(f, axis) - 1, hi) <==> BelowHigh(f, axis, c)
  {
    if c <= Lesser(Extent(f, axis) - 1, hi) && hi != 0 {
      var i, j, k :| Occupied(f, i, j, k) && Before(i, j, k, -1, -1, Extent(f, Z)) && Coord(axis, i, j, k) + 1 == hi;
    }
    if c != 0 && exists i, j, k | Occupied(f, i, j, k) :: c <= Coord(axis, i, j, k) + 1 {
      var i, j, k :| Occupied(f, i, j, k) && c <= Coord(axis, i, j, k) + 1;
      assert Before(i, j, k, -1, -1, Extent(f, Z));
    }
  }

  /** Once the whole volume is seen, the clipped bounds of an axis are those AxisInBox describes. */
  lemma ClipAxis(f: Field, axis: Axis, lo: int, hi: int, x: int, y: int, z: int, c: int)
    requires LowTracks(f, axis, lo, -1, -1, Extent(f, Z)) && HighTracks(f, axis, hi, -1, -1, Extent(f, Z))
    requires InField(f, x, y, z) && c == Coord(axis, x, y, z)
    ensures Greater(0, lo) <= c <= Lesser(Extent(f, axis) - 1, hi) <==> AxisInBox(f, axis, c)
  {
    ClipLow(f, axis, lo, c);
    ClipHigh(f, axis, hi, c);
  }

  // ---------------------------------------------------------------------
  // Why the box is enough.
  // ---------------------------------------------------------------------

  /**
   * Outside the box the dilation of f is 0: every voxel within one step of
   * a non-zero voxel is inside, so the window of any other voxel holds
   * only zeros.
   */
  lemma DilationVanishesOutside(f: Field, x: int, y: int, z: int)
    requires InField(f, x, y, z) && !InBoundingBox(f, x, y, z)
    ensures Sample(Reduced(Max, Cube(1), f), x, y, z) == 0
  {
    forall i, j, k | InField(f, i, j, k) && Near(i, j, k, x, y, z, 1)
      ensures AtLeastAsExtreme(Max, 0, Sample(f, i, j, k))
    {
      if Sample(f, i, j, k) > 0 {
        assert Occupied(f, i, j, k);
        assert AxisInBox(f, X, x) && AxisInBox(f, Y, y) && AxisInBox(f, Z, z);
      }
    }
    WindowGreatest(Max, f, 1, x, y, z, 0);
  }

  /** Fields that agree voxel for voxel have the same box. */
  lemma BoxAgree(f: Field, g: Field, x: int, y: int, z: int)
    requires SameDims(f, g) && Agree(f, g)
    ensures InBoundingBox(f, x, y, z) <==> InBoundingBox(g, x, y, z)
  {
    AxisInBoxAgree(f, g, X, x);
    AxisInBoxAgree(f, g, Y, y);
    AxisInBoxAgree(f, g, Z, z);
  }

  lemma AxisInBoxAgree(f: Field, g: Field, axis: Axis, c: int)
    requires SameDims(f, g) && Agree(f, g)
    ensures AxisInBox(f, axis, c) <==> AxisInBox(g, axis, c)
  {
    OccupiedAgree(f, g);
    assert AboveLow(f, axis, c) <==> AboveLow(g, axis, c);
    assert BelowHigh(f, axis, c) <==> BelowHigh(g, axis, c);
  }

  lemma OccupiedAgree(f: Field, g: Field)
    requires SameDims(f, g) && Agree(f, g)
    ensures forall i, j, k :: Occupied(f, i, j, k) <==> Occupied(g, i, j, k)
  {
  }
}
