/**
 * The voxel-wise set algebra of utils/mriset.c: every operation writes each
 * destination voxel from the voxels at the same coordinate of its sources,
 * scanning z, then y, then x.  A destination may be one of the sources
 * (each voxel is read before it is written); a missing destination is a
 * fresh clone of the first source.
 */
module SetAlgebra {
  import opened Volume
  import opened Neighbourhood

  // ---------------------------------------------------------------------
  // Voxel rules
  // ---------------------------------------------------------------------

  /** MAX(v1, v2): the least value no smaller than either. */
  function Larger(v1: Byte, v2: Byte): (r: Byte)
    ensures r >= v1 && r >= v2
    ensures r == v1 || r == v2
  {
    if v1 > v2 then v1 else v2
  }

  /** MIN(v1, v2): the greatest value no larger than either. */
  function Smaller(v1: Byte, v2: Byte): (r: Byte)
    ensures r <= v1 && r <= v2
    ensures r == v1 || r == v2
  {
    if v1 < v2 then v1 else v2
  }

  /** The band test `(v >= t1) && (v <= t2)` of MRIxor and MRIcomputeResidual. */
  predicate InBand(v: Byte, t1: int, t2: int) {
    t1 <= v <= t2
  }

  /** MRIxor's voxel: the exclusive or of the two band tests, as 0 or 1. */
  function XorRule(v1: Byte, v2: Byte, t1: int, t2: int): (r: Byte)
    ensures r == 0 || r == 1
    ensures r == 1 <==> InBand(v1, t1, t2) != InBand(v2, t1, t2)
  {
    (if InBand(v1, t1, t2) then 1 else 0) + (if InBand(v2, t1, t2) then 1 else 0)
      - 2 * (if InBand(v1, t1, t2) && InBand(v2, t1, t2) then 1 else 0)
  }

  /**
   * MRIcomputeResidual's voxel: 255 where only the first is in band, 0
   * where only the second is, 128 where they agree.
   */
  function ResidualRule(v1: Byte, v2: Byte, t1: int, t2: int): (r: Byte)
    ensures r == 255 <==> InBand(v1, t1, t2) && !InBand(v2, t1, t2)
    ensures r == 0 <==> !InBand(v1, t1, t2) && InBand(v2, t1, t2)
    ensures r == 128 <==> InBand(v1, t1, t2) == InBand(v2, t1, t2)
  {
    var on1, on2 := InBand(v1, t1, t2), InBand(v2, t1, t2);
    if on1 && !on2 then 255
    else if !on1 && on2 then 0
    else 128
  }

  /** MRIreplaceValues' voxel. */
  function ReplaceRule(v: Byte, inVal: Byte, outVal: Byte): Byte {
    if v == inVal then outVal else v
  }

  /** MRImask's voxel. */
  function MaskRule(v: Byte, maskVal: Byte, mask: Byte, outVal: Byte): Byte {
    if maskVal == mask then outVal else v
  }

  /** Storing an int into a BUFTYPE keeps its low 8 bits. */
  function ToByte(n: int): (b: Byte)
    ensures 0 <= n <= 255 ==> b == n
    ensures (n - b) % 256 == 0
  {
    n % 256
  }

  /**
   * MRImaskThreshold's voxel: a mask value below 100 - threshold turns the
   * voxel off, one above threshold turns it on (to out_label stored as a
   * byte), anything between keeps the source value.
   */
  function ThresholdRule(maskVal: Byte, v: Byte, threshold: real, outLabel: int): Byte {
    if (maskVal as real) < 100.0 - threshold then 0
    else if (maskVal as real) > threshold then ToByte(outLabel)
    else v
  }

  /**
   * Where the two bands of MRImaskThreshold do not overlap (threshold of at
   * least 50), a mask value decides the voxel on its own unless it lies in
   * the uncertain middle, and only there the source shows through.
   */
  lemma ThresholdBands(maskVal: Byte, v: Byte, threshold: real, outLabel: int)
    requires threshold >= 50.0
    ensures ThresholdRule(maskVal, v, threshold, outLabel) == v <==>
      ((100.0 - threshold <= maskVal as real <= threshold) || (maskVal as real < 100.0 - threshold && v == 0) ||
       (maskVal as real > threshold && v == ToByte(outLabel)))
  {
  }

  /** The three thresholded rules are symmetric or antisymmetric in their operands. */
  lemma ThresholdedSymmetry(v1: Byte, v2: Byte, t1: int, t2: int)
    ensures XorRule(v1, v2, t1, t2) == XorRule(v2, v1, t1, t2)
    ensures ResidualRule(v1, v2, t1, t2) == 128 <==> ResidualRule(v2, v1, t1, t2) == 128
    ensures ResidualRule(v1, v2, t1, t2) == 255 <==> ResidualRule(v2, v1, t1, t2) == 0
    ensures XorRule(v1, v2, t1, t2) == 0 <==> ResidualRule(v1, v2, t1, t2) == 128
  {
  }

  // ---------------------------------------------------------------------
  // The scan shared by the voxel-wise operations
  // ---------------------------------------------------------------------

  /**
   * The z/y/x scan of the voxel-wise operations: every voxel of r becomes
   * rule applied to the voxels of a and b at the same place, as they were
   * before the scan.  r may share its store with a or b, because each
   * voxel is read before it is written and never read again.
   */
  method MapVoxels(a: Mri, b: Mri, r: Mri, rule: (Byte, Byte) -> Byte)
    requires SameShape(a, b) && SameShape(a, r)
    modifies r.vox
    ensures forall x, y, z | r.In(x, y, z) :: r.vox[x, y, z] == rule(old(a.vox[x, y, z]), old(b.vox[x, y, z]))
  {
    var width, height, depth := a.Width(), a.Height(), a.Depth();
    var z := 0;
    while z < depth
      invariant 0 <= z <= depth
      invariant Untouched(a, 0, 0, z) && Untouched(b, 0, 0, z)
      invariant forall i, j, k | r.In(i, j, k) && Before(i, j, k, 0, 0, z) ::
        r.vox[i, j, k] == rule(old(a.vox[i, j, k]), old(b.vox[i, j, k]))
    {
      var y := 0;
      while y < height
        invariant 0 <= y <= height
        invariant Untouched(a, 0, y, z) && Untouched(b, 0, y, z)
        invariant forall i, j, k | r.In(i, j, k) && Before(i, j, k, 0, y, z) ::
          r.vox[i, j, k] == rule(old(a.vox[i, j, k]), old(b.vox[i, j, k]))
      {
        var x := 0;
        while x < width
          invariant 0 <= x <= width
          invariant Untouched(a, x, y, z) && Untouched(b, x, y, z)
          invariant forall i, j, k | r.In(i, j, k) && Before(i, j, k, x, y, z) ::
            r.vox[i, j, k] == rule(old(a.vox[i, j, k]), old(b.vox[i, j, k]))
        {
          var v1, v2 := a.vox[x, y, z], b.vox[x, y, z];
          r.vox[x, y, z] := rule(v1, v2);
          x := x + 1;
        }
        y := y + 1;
      }
      z := z + 1;
    }
  }

  // ---------------------------------------------------------------------
  // The operations
  // ---------------------------------------------------------------------

  /** MRIunion: each voxel is the larger of the two sources'. */
  method Union(mri1: Mri, mri2: Mri, dst: Mri?) returns (r: Mri)
    requires SameShape(mri1, mri2) && (dst != null ==> SameShape(mri1, dst))
    modifies Writable(dst)
    ensures Delivered(mri1, dst, r)
    ensures forall x, y, z | r.In(x, y, z) :: r.vox[x, y, z] == Larger(old(mri1.vox[x, y, z]), old(mri2.vox[x, y, z]))
  {
    r := Destination(mri1, dst);
    MapVoxels(mri1, mri2, r, Larger);
  }

  /** MRIintersect: each voxel is the smaller of the two sources'. */
  method Intersect(mri1: Mri, mri2: Mri, dst: Mri?) returns (r: Mri)
    requires SameShape(mri1, mri2) && (dst != null ==> SameShape(mri1, dst))
    modifies Writable(dst)
    ensures Delivered(mri1, dst, r)
    ensures forall x, y, z | r.In(x, y, z) :: r.vox[x, y, z] == Smaller(old(mri1.vox[x, y, z]), old(mri2.vox[x, y, z]))
  {
    r := Destination(mri1, dst);
    MapVoxels(mri1, mri2, r, Smaller);
  }

  /**
   * MRIcomplement: each voxel is the logical not of the source's, so 1
   * exactly where the source is 0 and 0 everywhere else.
   */
  method Complement(src: Mri, dst: Mri?) returns (r: Mri)
    requires dst != null ==> SameShape(src, dst)
    modifies Writable(dst)
    ensures Delivered(src, dst, r)
    ensures forall x, y, z | r.In(x, y, z) :: r.vox[x, y, z] == Not(old(src.vox[x, y, z]))
  {
    r := Destination(src, dst);
    MapVoxels(src, src, r, (v: Byte, w: Byte) => Not(v));
  }

  /**
   * MRIxor: 1 where exactly one of the two sources lies in [t1, t2], else
   * 0.  Non-UCHAR sources, or a non-UCHAR destination, give NULL and leave
   * everything untouched.
   */
  method Xor(mri1: Mri, mri2: Mri, dst: Mri?, t1: int, t2: int) returns (r: Mri?)
    requires SameShape(mri1, mri2) && (dst != null ==> SameShape(mri1, dst))
    modifies Writable(dst)
    ensures r == null <==> mri1.kind != UChar || mri2.kind != UChar || (dst != null && dst.kind != UChar)
    ensures r == null && dst != null ==> unchanged(dst.vox)
    ensures r != null ==> Delivered(mri1, dst, r)
    ensures r != null ==> forall x, y, z | r.In(x, y, z) ::
      r.vox[x, y, z] == XorRule(old(mri1.vox[x, y, z]), old(mri2.vox[x, y, z]), t1, t2)
  {
    if mri1.kind != UChar || mri2.kind != UChar {
      return null;
    }
    if dst != null && dst.kind != UChar {
      return null;
    }
    var out := Destination(mri1, dst);
    MapVoxels(mri1, mri2, out, (v1: Byte, v2: Byte) => XorRule(v1, v2, t1, t2));
    r := out;
  }

  /**
   * MRIcomputeResidual: 255 where only the first source lies in [t1, t2],
   * 0 where only the second does, 128 where they agree; the same UCHAR
   * guards as MRIxor.
   */
  method ComputeResidual(mri1: Mri, mri2: Mri, dst: Mri?, t1: int, t2: int) returns (r: Mri?)
    requires SameShape(mri1, mri2) && (dst != null ==> SameShape(mri1, dst))
    modifies Writable(dst)
    ensures r == null <==> mri1.kind != UChar || mri2.kind != UChar || (dst != null && dst.kind != UChar)
    ensures r == null && dst != null ==> unchanged(dst.vox)
    ensures r != null ==> Delivered(mri1, dst, r)
    ensures r != null ==> forall x, y, z | r.In(x, y, z) ::
      r.vox[x, y, z] == ResidualRule(old(mri1.vox[x, y, z]), old(mri2.vox[x, y, z]), t1, t2)
  {
    if mri1.kind != UChar || mri2.kind != UChar {
      return null;
    }
    if dst != null && dst.kind != UChar {
      return null;
    }
    var out := Destination(mri1, dst);
    MapVoxels(mri1, mri2, out, (v1: Byte, v2: Byte) => ResidualRule(v1, v2, t1, t2));
    r := out;
  }

  /** MRIreplaceValues: every in_val becomes out_val, every other value stays. */
  method ReplaceValues(src: Mri, dst: Mri?, inVal: Byte, outVal: Byte) returns (r: Mri)
    requires dst != null ==> SameShape(src, dst)
    modifies Writable(dst)
    ensures Delivered(src, dst, r)
    ensures forall x, y, z | r.In(x, y, z) ::
      && (old(src.vox[x, y, z]) == inVal ==> r.vox[x, y, z] == outVal)
      && (old(src.vox[x, y, z]) != inVal ==> r.vox[x, y, z] == old(src.vox[x, y, z]))
  {
    r := Destination(src, dst);
    MapVoxels(src, src, r, (v: Byte, w: Byte) => ReplaceRule(v, inVal, outVal));
  }

  /**
   * MRImask: out_val wherever the mask voxel equals mask, the source value
   * everywhere else.
   */
  method Mask(src: Mri, mask: Mri, dst: Mri?, maskVal: Byte, outVal: Byte) returns (r: Mri)
    requires SameShape(src, mask) && (dst != null ==> SameShape(src, dst))
    modifies Writable(dst)
    ensures Delivered(src, dst, r)
    ensures forall x, y, z | r.In(x, y, z) ::
      && (old(mask.vox[x, y, z]) == maskVal ==> r.vox[x, y, z] == outVal)
      && (old(mask.vox[x, y, z]) != maskVal ==> r.vox[x, y, z] == old(src.vox[x, y, z]))
  {
    r := Destination(src, dst);
    MapVoxels(src, mask, r, (v: Byte, m: Byte) => MaskRule(v, m, maskVal, outVal));
  }

  /**
   * A voxel MRImaskThreshold changes from v to t, and t is 0 exactly when
   * toZero holds: with toZero false the voxel is turned on, with toZero
   * true it is turned off.
   */
  predicate Changes(t: Byte, v: Byte, toZero: bool) {
    t != v && (t == 0 <==> toZero)
  }

  /** What MRImaskThreshold writes into each voxel, given mask M and source S. */
  ghost function Thresholded(m: Mri, M: Grid, S: Grid, threshold: real, outLabel: int): (T: Grid)
    requires GridShaped(M, m) && GridShaped(S, m)
    ensures GridShaped(T, m)
    ensures forall i, j, k | m.In(i, j, k) :: T[i][j][k] == ThresholdRule(M[i][j][k], S[i][j][k], threshold, outLabel)
  {
    seq(m.Width(), i requires 0 <= i < m.Width() =>
      seq(m.Height(), j requires 0 <= j < m.Height() =>
        seq(m.Depth(), k requires 0 <= k < m.Depth() => ThresholdRule(M[i][j][k], S[i][j][k], threshold, outLabel))))
  }

  /** The voxels of row (y, z) before x that change from S to T (turned off when toZero holds, on otherwise). */
  ghost function RowTurned(m: Mri, T: Grid, S: Grid, toZero: bool, x: int, y: int, z: int): set<(int, int, int)>
    requires GridShaped(T, m) && GridShaped(S, m) && 0 <= x <= m.Width() && 0 <= y < m.Height() && 0 <= z < m.Depth()
  {
    set i | 0 <= i < x && Changes(T[i][y][z], S[i][y][z], toZero) :: (i, y, z)
  }

  /** The voxels of plane z in rows before y that change from S to T. */
  ghost function PlaneTurned(m: Mri, T: Grid, S: Grid, toZero: bool, y: int, z: int): set<(int, int, int)>
    requires GridShaped(T, m) && GridShaped(S, m) && 0 <= y <= m.Height() && 0 <= z < m.Depth()
  {
    set i, j | 0 <= i < m.Width() && 0 <= j < y && Changes(T[i][j][z], S[i][j][z], toZero) :: (i, j, z)
  }

  /** The voxels of m in planes before z that change from S to T. */
  ghost function VolumeTurned(m: Mri, T: Grid, S: Grid, toZero: bool, z: int): set<(int, int, int)>
    requires GridShaped(T, m) && GridShaped(S, m) && 0 <= z <= m.Depth()
  {
    set i, j, k | 0 <= i < m.Width() && 0 <= j < m.Height() && 0 <= k < z && Changes(T[i][j][k], S[i][j][k], toZero) :: (i, j, k)
  }

  /** The counter of MRImaskThreshold over the first x voxels of row (y, z). */
  ghost function RowCount(m: Mri, T: Grid, S: Grid, toZero: bool, x: int, y: int, z: int): nat
    requires GridShaped(T, m) && GridShaped(S, m) && 0 <= x <= m.Width() && 0 <= y < m.Height() && 0 <= z < m.Depth()
    decreases x
  {
    if x == 0 then 0
    else RowCount(m, T, S, toZero, x - 1, y, z) + (if Changes(T[x - 1][y][z], S[x - 1][y][z], toZero) then 1 else 0)
  }

  /** The counter of MRImaskThreshold over the first y rows of plane z. */
  ghost function PlaneCount(m: Mri, T: Grid, S: Grid, toZero: bool, y: int, z: int): nat
    requires GridShaped(T, m) && GridShaped(S, m) && 0 <= y <= m.Height() && 0 <= z < m.Depth()
    decreases y
  {
    if y == 0 then 0
    else PlaneCount(m, T, S, toZero, y - 1, z) + RowCount(m, T, S, toZero, m.Width(), y - 1, z)
  }

  /** The counter of MRImaskThreshold over the first z planes. */
  ghost function VolumeCount(m: Mri, T: Grid, S: Grid, toZero: bool, z: int): nat
    requires GridShaped(T, m) && GridShaped(S, m) && 0 <= z <= m.Depth()
    decreases z
  {
    if z == 0 then 0
    else VolumeCount(m, T, S, toZero, z - 1) + PlaneCount(m, T, S, toZero, m.Height(), z - 1)
  }

  /** Row (y, z) up to x holds exactly its changed voxels before x. */
  lemma RowTurnedMembers(m: Mri, T: Grid, S: Grid, toZero: bool, x: int, y: int, z: int)
    requires GridShaped(T, m) && GridShaped(S, m) && 0 <= x <= m.Width() && 0 <= y < m.Height() && 0 <= z < m.Depth()
    ensures forall p :: p in RowTurned(m, T, S, toZero, x, y, z) <==>
      0 <= p.0 < x && p.1 == y && p.2 == z && Changes(T[p.0][y][z], S[p.0][y][z], toZero)
  {
  }

  /** Plane z up to y holds exactly its changed voxels in rows before y. */
  lemma PlaneTurnedMembers(m: Mri, T: Grid, S: Grid, toZero: bool, y: int, z: int)
    requires GridShaped(T, m) && GridShaped(S, m) && 0 <= y <= m.Height() && 0 <= z < m.Depth()
    ensures forall p :: p in PlaneTurned(m, T, S, toZero, y, z) <==>
      0 <= p.0 < m.Width() && 0 <= p.1 < y && p.2 == z && Changes(T[p.0][p.1][z], S[p.0][p.1][z], toZero)
  {
  }

  /** The volume up to z holds exactly its changed voxels in planes before z. */
  lemma VolumeTurnedMembers(m: Mri, T: Grid, S: Grid, toZero: bool, z: int)
    requires GridShaped(T, m) && GridShaped(S, m) && 0 <= z <= m.Depth()
    ensures forall p :: p in VolumeTurned(m, T, S, toZero, z) <==>
      0 <= p.0 < m.Width() && 0 <= p.1 < m.Height() && 0 <= p.2 < z &&
      Changes(T[p.0][p.1][p.2], S[p.0][p.1][p.2], toZero)
  {
  }

  /** Two disjoint sets: the size of their union is the sum of their sizes. */
  lemma DisjointUnionSize<T>(a: set<T>, b: set<T>)
    requires forall p | p in a :: p !in b
    ensures |a + b| == |a| + |b|
  {
    assert a * b == {};
  }

  /** Voxel x - 1 of row (y, z) joins the voxels before it when it changes; it is not among them. */
  lemma RowTurnedSplit(m: Mri, T: Grid, S: Grid, toZero: bool, x: int, y: int, z: int)
    requires GridShaped(T, m) && GridShaped(S, m) && 0 < x <= m.Width() && 0 <= y < m.Height() && 0 <= z < m.Depth()
    ensures RowTurned(m, T, S, toZero, x, y, z) ==
      RowTurned(m, T, S, toZero, x - 1, y, z) + (if Changes(T[x - 1][y][z], S[x - 1][y][z], toZero) then {(x - 1, y, z)} else {})
    ensures (x - 1, y, z) !in RowTurned(m, T, S, toZero, x - 1, y, z)
  {
    RowTurnedMembers(m, T, S, toZero, x, y, z);
    RowTurnedMembers(m, T, S, toZero, x - 1, y, z);
  }

  /** Passing voxel x - 1 adds it to row (y, z) exactly when it changes. */
  lemma RowTurnedStep(m: Mri, T: Grid, S: Grid, toZero: bool, x: int, y: int, z: int)
    requires GridShaped(T, m) && GridShaped(S, m) && 0 < x <= m.Width() && 0 <= y < m.Height() && 0 <= z < m.Depth()
    ensures |RowTurned(m, T, S, toZero, x, y, z)| ==
      |RowTurned(m, T, S, toZero, x - 1, y, z)| + (if Changes(T[x - 1][y][z], S[x - 1][y][z], toZero) then 1 else 0)
  {
    RowTurnedSplit(m, T, S, toZero, x, y, z);
    var last: set<(int, int, int)> := if Changes(T[x - 1][y][z], S[x - 1][y][z], toZero) then {(x - 1, y, z)} else {};
    DisjointUnionSize(RowTurned(m, T, S, toZero, x - 1, y, z), last);
  }

  /** Plane z up to row y is the plane before row y - 1 together with that row. */
  lemma PlaneTurnedSplit(m: Mri, T: Grid, S: Grid, toZero: bool, y: int, z: int)
    requires GridShaped(T, m) && GridShaped(S, m) && 0 < y <= m.Height() && 0 <= z < m.Depth()
    ensures PlaneTurned(m, T, S, toZero, y, z) == PlaneTurned(m, T, S, toZero, y - 1, z) + RowTurned(m, T, S, toZero, m.Width(), y - 1, z)
  {
    var all, before, row := PlaneTurned(m, T, S, toZero, y, z), PlaneTurned(m, T, S, toZero, y - 1, z),
      RowTurned(m, T, S, toZero, m.Width(), y - 1, z);
    PlaneTurnedMembers(m, T, S, toZero, y, z);
    PlaneTurnedMembers(m, T, S, toZero, y - 1, z);
    RowTurnedMembers(m, T, S, toZero, m.Width(), y - 1, z);
    forall p | p in all ensures p in before + row {
      if p.1 != y - 1 {
        assert p in before;
      }
    }
  }

  /** Passing row y - 1 adds its changed voxels to plane z, none of them there yet. */
  lemma PlaneTurnedStep(m: Mri, T: Grid, S: Grid, toZero: bool, y: int, z: int)
    requires GridShaped(T, m) && GridShaped(S, m) && 0 < y <= m.Height() && 0 <= z < m.Depth()
    ensures |PlaneTurned(m, T, S, toZero, y, z)| ==
      |PlaneTurned(m, T, S, toZero, y - 1, z)| + |RowTurned(m, T, S, toZero, m.Width(), y - 1, z)|
  {
    PlaneTurnedSplit(m, T, S, toZero, y, z);
    PlaneTurnedMembers(m, T, S, toZero, y - 1, z);
    RowTurnedMembers(m, T, S, toZero, m.Width(), y - 1, z);
    DisjointUnionSize(PlaneTurned(m, T, S, toZero, y - 1, z), RowTurned(m, T, S, toZero, m.Width(), y - 1, z));
  }

  /** The volume up to plane z is the volume before plane z - 1 together with that plane. */
  lemma VolumeTurnedSplit(m: Mri, T: Grid, S: Grid, toZero: bool, z: int)
    requires GridShaped(T, m) && GridShaped(S, m) && 0 < z <= m.Depth()
    ensures VolumeTurned(m, T, S, toZero, z) == VolumeTurned(m, T, S, toZero, z - 1) + PlaneTurned(m, T, S, toZero, m.Height(), z - 1)
  {
    var all, before, plane := VolumeTurned(m, T, S, toZero, z), VolumeTurned(m, T, S, toZero, z - 1),
      PlaneTurned(m, T, S, toZero, m.Height(), z - 1);
    VolumeTurnedMembers(m, T, S, toZero, z);
    VolumeTurnedMembers(m, T, S, toZero, z - 1);
    PlaneTurnedMembers(m, T, S, toZero, m.Height(), z - 1);
    forall p | p in all ensures p in before + plane {
      if p.2 != z - 1 {
        assert p in before;
      }
    }
  }

  /** Passing plane z - 1 adds its changed voxels to the volume, none of them there yet. */
  lemma VolumeTurnedStep(m: Mri, T: Grid, S: Grid, toZero: bool, z: int)
    requires GridShaped(T, m) && GridShaped(S, m) && 0 < z <= m.Depth()
    ensures |VolumeTurned(m, T, S, toZero, z)| ==
      |VolumeTurned(m, T, S, toZero, z - 1)| + |PlaneTurned(m, T, S, toZero, m.Height(), z - 1)|
  {
    VolumeTurnedSplit(m, T, S, toZero, z);
    VolumeTurnedMembers(m, T, S, toZero, z - 1);
    PlaneTurnedMembers(m, T, S, toZero, m.Height(), z - 1);
    DisjointUnionSize(VolumeTurned(m, T, S, toZero, z - 1), PlaneTurned(m, T, S, toZero, m.Height(), z - 1));
  }

  /** The row counter counts the row's changed voxels. */
  lemma {:induction false} RowCounted(m: Mri, T: Grid, S: Grid, toZero: bool, x: int, y: int, z: int)
    requires GridShaped(T, m) && GridShaped(S, m) && 0 <= x <= m.Width() && 0 <= y < m.Height() && 0 <= z < m.Depth()
    ensures RowCount(m, T, S, toZero, x, y, z) == |RowTurned(m, T, S, toZero, x, y, z)|
    decreases x
  {
    if x == 0 {
      RowTurnedMembers(m, T, S, toZero, x, y, z);
      assert RowTurned(m, T, S, toZero, x, y, z) == {};
    } else {
      RowCounted(m, T, S, toZero, x - 1, y, z);
      RowTurnedStep(m, T, S, toZero, x, y, z);
    }
  }

  /** The plane counter counts the changed voxels of the rows it has passed. */
  lemma {:induction false} PlaneCounted(m: Mri, T: Grid, S: Grid, toZero: bool, y: int, z: int)
    requires GridShaped(T, m) && GridShaped(S, m) && 0 <= y <= m.Height() && 0 <= z < m.Depth()
    ensures PlaneCount(m, T, S, toZero, y, z) == |PlaneTurned(m, T, S, toZero, y, z)|
    decreases y
  {
    if y == 0 {
      PlaneTurnedMembers(m, T, S, toZero, y, z);
      assert PlaneTurned(m, T, S, toZero, y, z) == {};
    } else {
      PlaneCounted(m, T, S, toZero, y - 1, z);
      RowCounted(m, T, S, toZero, m.Width(), y - 1, z);
      PlaneTurnedStep(m, T, S, toZero, y, z);
    }
  }

  /** The volume counter counts the changed voxels of the planes it has passed. */
  lemma {:induction false} VolumeCounted(m: Mri, T: Grid, S: Grid, toZero: bool, z: int)
    requires GridShaped(T, m) && GridShaped(S, m) && 0 <= z <= m.Depth()
    ensures VolumeCount(m, T, S, toZero, z) == |VolumeTurned(m, T, S, toZero, z)|
    decreases z
  {
    if z == 0 {
      VolumeTurnedMembers(m, T, S, toZero, z);
      assert VolumeTurned(m, T, S, toZero, z) == {};
    } else {
      VolumeCounted(m, T, S, toZero, z - 1);
      PlaneCounted(m, T, S, toZero, m.Height(), z - 1);
      VolumeTurnedStep(m, T, S, toZero, z);
    }
  }

  /**
   * One voxel of MRImaskThreshold: (x, y, z) still holds the mask M and the
   * source S of the start, and takes its value T.  The counter of the
   * voxels turned on, or that of the voxels turned off, goes up by one
   * when the voxel changes.
   */
  method ThresholdVoxel(src: Mri, mask: Mri, out: Mri, x: int, y: int, z: int, threshold: real, outLabel: int,
                        ghost M: Grid, ghost S: Grid, ghost T: Grid, non0: nat, noff0: nat)
    returns (non: nat, noff: nat)
    requires SameShape(src, mask) && SameShape(src, out) && src.In(x, y, z)
    requires GridShaped(M, src) && GridShaped(S, src) && GridShaped(T, src)
    requires T[x][y][z] == ThresholdRule(M[x][y][z], S[x][y][z], threshold, outLabel)
    requires mask.vox[x, y, z] == M[x][y][z] && src.vox[x, y, z] == S[x][y][z]
    modifies out.vox
    ensures forall i, j, k | out.In(i, j, k) ::
      out.vox[i, j, k] == if i == x && j == y && k == z then T[i][j][k] else old(out.vox[i, j, k])
    ensures forall i | x < i < src.Width() :: mask.vox[i, y, z] == old(mask.vox[i, y, z]) && src.vox[i, y, z] == old(src.vox[i, y, z])
    ensures non == non0 + (if Changes(T[x][y][z], S[x][y][z], false) then 1 else 0)
    ensures noff == noff0 + (if Changes(T[x][y][z], S[x][y][z], true) then 1 else 0)
  {
    non, noff := non0, noff0;
    var maskVal := mask.vox[x, y, z];
    var inVal := src.vox[x, y, z];
    var outVal := ThresholdRule(maskVal, inVal, threshold, outLabel);
    if outVal != inVal {
      if outVal != 0 {
        non := non + 1;
      } else {
        noff := noff + 1;
      }
    }
    out.vox[x, y, z] := outVal;
  }

  /**
   * The x loop of MRImaskThreshold over row (y, z).  M and S are the mask
   * and the source as they were when the operation began, and T what the
   * operation writes; the row of each of mask and src still holds M and S.
   * The loop writes the row of out from T, leaves every other voxel of out
   * alone, and adds the row's changed voxels to the counters.
   */
  method ThresholdRow(src: Mri, mask: Mri, out: Mri, y: int, z: int, threshold: real, outLabel: int,
                      ghost M: Grid, ghost S: Grid, ghost T: Grid, non0: nat, noff0: nat)
    returns (non: nat, noff: nat)
    requires SameShape(src, mask) && SameShape(src, out) && 0 <= y < src.Height() && 0 <= z < src.Depth()
    requires GridShaped(M, src) && GridShaped(S, src) && GridShaped(T, src)
    requires forall i | 0 <= i < src.Width() :: T[i][y][z] == ThresholdRule(M[i][y][z], S[i][y][z], threshold, outLabel)
    requires forall i | 0 <= i < src.Width() :: mask.vox[i, y, z] == M[i][y][z] && src.vox[i, y, z] == S[i][y][z]
    modifies out.vox
    ensures forall i, j, k | out.In(i, j, k) :: out.vox[i, j, k] == if j == y && k == z then T[i][j][k] else old(out.vox[i, j, k])
    ensures forall i, j | 0 <= i < src.Width() && y < j < src.Height() ::
      mask.vox[i, j, z] == old(mask.vox[i, j, z]) && src.vox[i, j, z] == old(src.vox[i, j, z])
    ensures non == non0 + RowCount(src, T, S, false, src.Width(), y, z)
    ensures noff == noff0 + RowCount(src, T, S, true, src.Width(), y, z)
  {
    non, noff := non0, noff0;
    var x := 0;
    while x < src.Width()
      invariant 0 <= x <= src.Width()
      invariant forall i | x <= i < src.Width() :: mask.vox[i, y, z] == M[i][y][z] && src.vox[i, y, z] == S[i][y][z]
      invariant forall i, j, k | out.In(i, j, k) ::
        out.vox[i, j, k] == if j == y && k == z && i < x then T[i][j][k] else old(out.vox[i, j, k])
      invariant non == non0 + RowCount(src, T, S, false, x, y, z) && noff == noff0 + RowCount(src, T, S, true, x, y, z)
    {
      non, noff := ThresholdVoxel(src, mask, out, x, y, z, threshold, outLabel, M, S, T, non, noff);
      x := x + 1;
    }
  }

  /**
   * The y loop of MRImaskThreshold over plane z: as ThresholdRow, for every
   * row of the plane in turn.
   */
  method ThresholdPlane(src: Mri, mask: Mri, out: Mri, z: int, threshold: real, outLabel: int,
                        ghost M: Grid, ghost S: Grid, ghost T: Grid, non0: nat, noff0: nat)
    returns (non: nat, noff: nat)
    requires SameShape(src, mask) && SameShape(src, out) && 0 <= z < src.Depth()
    requires GridShaped(M, src) && GridShaped(S, src) && GridShaped(T, src)
    requires forall i, j | 0 <= i < src.Width() && 0 <= j < src.Height() ::
      T[i][j][z] == ThresholdRule(M[i][j][z], S[i][j][z], threshold, outLabel)
    requires forall i, j | 0 <= i < src.Width() && 0 <= j < src.Height() ::
      mask.vox[i, j, z] == M[i][j][z] && src.vox[i, j, z] == S[i][j][z]
    modifies out.vox
    ensures forall i, j, k | out.In(i, j, k) :: out.vox[i, j, k] == if k == z then T[i][j][k] else old(out.vox[i, j, k])
    ensures forall i, j, k | src.In(i, j, k) && z < k ::
      mask.vox[i, j, k] == old(mask.vox[i, j, k]) && src.vox[i, j, k] == old(src.vox[i, j, k])
    ensures non == non0 + PlaneCount(src, T, S, false, src.Height(), z)
    ensures noff == noff0 + PlaneCount(src, T, S, true, src.Height(), z)
  {
    non, noff := non0, noff0;
    var y := 0;
    while y < src.Height()
      invariant 0 <= y <= src.Height()
      invariant forall i, j | 0 <= i < src.Width() && y <= j < src.Height() ::
        mask.vox[i, j, z] == M[i][j][z] && src.vox[i, j, z] == S[i][j][z]
      invariant forall i, j, k | out.In(i, j, k) ::
        out.vox[i, j, k] == if k == z && j < y then T[i][j][k] else old(out.vox[i, j, k])
      invariant non == non0 + PlaneCount(src, T, S, false, y, z) && noff == noff0 + PlaneCount(src, T, S, true, y, z)
    {
      non, noff := ThresholdRow(src, mask, out, y, z, threshold, outLabel, M, S, T, non, noff);
      y := y + 1;
    }
  }

  /**
   * The z loop of MRImaskThreshold: as ThresholdPlane, for every plane in
   * turn, starting from counters at 0.
   */
  method ThresholdVolume(src: Mri, mask: Mri, out: Mri, threshold: real, outLabel: int,
                         ghost M: Grid, ghost S: Grid, ghost T: Grid)
    returns (non: nat, noff: nat)
    requires SameShape(src, mask) && SameShape(src, out) && GridShaped(M, src) && GridShaped(S, src) && GridShaped(T, src)
    requires forall i, j, k | src.In(i, j, k) :: T[i][j][k] == ThresholdRule(M[i][j][k], S[i][j][k], threshold, outLabel)
    requires forall i, j, k | src.In(i, j, k) :: mask.vox[i, j, k] == M[i][j][k] && src.vox[i, j, k] == S[i][j][k]
    modifies out.vox
    ensures forall i, j, k | src.In(i, j, k) :: out.vox[i, j, k] == T[i][j][k]
    ensures non == VolumeCount(src, T, S, false, src.Depth()) && noff == VolumeCount(src, T, S, true, src.Depth())
  {
    non, noff := 0, 0;
    var z := 0;
    while z < src.Depth()
      invariant 0 <= z <= src.Depth()
      invariant forall i, j, k | src.In(i, j, k) && z <= k :: mask.vox[i, j, k] == M[i][j][k] && src.vox[i, j, k] == S[i][j][k]
      invariant forall i, j, k | src.In(i, j, k) && k < z :: out.vox[i, j, k] == T[i][j][k]
      invariant non == VolumeCount(src, T, S, false, z) && noff == VolumeCount(src, T, S, true, z)
    {
      non, noff := ThresholdPlane(src, mask, out, z, threshold, outLabel, M, S, T, non, noff);
      z := z + 1;
    }
  }

  /**
   * The counters of MRImaskThreshold over the whole volume count exactly
   * the voxels that ThresholdRule changes, to 0 when toZero holds and to a
   * nonzero value otherwise.
   */
  lemma ThresholdCounted(m: Mri, M: Grid, S: Grid, threshold: real, outLabel: int, toZero: bool)
    requires GridShaped(M, m) && GridShaped(S, m)
    ensures var T := Thresholded(m, M, S, threshold, outLabel);
      && VolumeCount(m, T, S, toZero, m.Depth()) == |VolumeTurned(m, T, S, toZero, m.Depth())|
      && forall x, y, z :: (x, y, z) in VolumeTurned(m, T, S, toZero, m.Depth()) <==>
           m.In(x, y, z) && Changes(ThresholdRule(M[x][y][z], S[x][y][z], threshold, outLabel), S[x][y][z], toZero)
  {
    var T := Thresholded(m, M, S, threshold, outLabel);
    VolumeCounted(m, T, S, toZero, m.Depth());
    VolumeTurnedMembers(m, T, S, toZero, m.Depth());
  }

  /**
   * MRImaskThreshold: each voxel follows ThresholdRule on the mask and the
   * source.  A non-UCHAR mask gives NULL and changes nothing.  The counters
   * report the changed voxels: non those turned to a nonzero value, noff
   * those turned to 0, and nchanged all of them.
   */
  method MaskThreshold(src: Mri, mask: Mri, dst: Mri?, threshold: real, outLabel: int)
    returns (r: Mri?, nchanged: nat, non: nat, noff: nat,
             ghost turnedOn: set<(int, int, int)>, ghost turnedOff: set<(int, int, int)>)
    requires SameShape(src, mask) && (dst != null ==> SameShape(src, dst))
    modifies Writable(dst)
    ensures r == null <==> mask.kind != UChar
    ensures r == null && dst != null ==> unchanged(dst.vox)
    ensures r != null ==> Delivered(src, dst, r)
    ensures r != null ==> forall x, y, z | r.In(x, y, z) ::
      r.vox[x, y, z] == ThresholdRule(old(mask.vox[x, y, z]), old(src.vox[x, y, z]), threshold, outLabel)
    ensures forall x, y, z :: (x, y, z) in turnedOn <==>
      r != null && src.In(x, y, z) &&
      Changes(ThresholdRule(old(mask.vox[x, y, z]), old(src.vox[x, y, z]), threshold, outLabel), old(src.vox[x, y, z]), false)
    ensures forall x, y, z :: (x, y, z) in turnedOff <==>
      r != null && src.In(x, y, z) &&
      Changes(ThresholdRule(old(mask.vox[x, y, z]), old(src.vox[x, y, z]), threshold, outLabel), old(src.vox[x, y, z]), true)
    ensures non == |turnedOn| && noff == |turnedOff| && nchanged == non + noff
  {
    if mask.kind != UChar {
      return null, 0, 0, 0, {}, {};
    }
    ghost var M, S := Snapshot(mask), Snapshot(src);
    ghost var T := Thresholded(src, M, S, threshold, outLabel);
    var out := Destination(src, dst);
    non, noff := ThresholdVolume(src, mask, out, threshold, outLabel, M, S, T);
    turnedOn, turnedOff := VolumeTurned(src, T, S, false, src.Depth()), VolumeTurned(src, T, S, true, src.Depth());
    ThresholdCounted(src, M, S, threshold, outLabel, false);
    ThresholdCounted(src, M, S, threshold, outLabel, true);
    nchanged := non + noff;
    r := out;
  }
}
