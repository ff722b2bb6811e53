/**
 * The volume grid of utils/mriset.c: a dense width x height x depth store of
 * 8-bit voxels together with the header fields the operations copy, and the
 * clamp-to-edge index tables (xi, yi, zi) that every neighbourhood read goes
 * through.
 *
 * The C code addresses a voxel as MRIvox(mri, x, y, z), i.e.
 * slices[z][y][x]; here it is vox[x, y, z].  Every scan in the file walks
 * z outermost, then y, then x, and `Before` is that raster order.
 */
module Volume {

  /** BUFTYPE: an unsigned 8-bit voxel value. */
  type Byte = v: int | 0 <= v <= 255

  /** The element kinds a volume may have; only UChar matters to this core. */
  datatype VoxelType = UChar | Short | Int | Long | Float

  /** The spatial header fields (start, end and voxel size per axis). */
  datatype Calibration = Calibration(
    xstart: real, ystart: real, zstart: real,
    xend: real, yend: real, zend: real,
    xsize: real, ysize: real, zsize: real)

  /**
   * One volume.  Its dimensions are those of its voxel store; the store is
   * the only thing the operations change.
   */
  class Mri {
    const kind: VoxelType
    const calibration: Calibration
    const vox: array3<Byte>

    /** MRIalloc followed by a header copy: a zero-filled store. */
    constructor (width: nat, height: nat, depth: nat, kind: VoxelType, calibration: Calibration)
      ensures this.kind == kind && this.calibration == calibration
      ensures fresh(vox)
      ensures vox.Length0 == width && vox.Length1 == height && vox.Length2 == depth
      ensures forall x, y, z | 0 <= x < width && 0 <= y < height && 0 <= z < depth :: vox[x, y, z] == 0
    {
      this.kind := kind;
      this.calibration := calibration;
      vox := new Byte[width, height, depth]((x, y, z) => 0);
    }

    function Width(): nat { vox.Length0 }
    function Height(): nat { vox.Length1 }
    function Depth(): nat { vox.Length2 }

    /** (x, y, z) addresses a voxel of this volume. */
    predicate In(x: int, y: int, z: int) {
      0 <= x < vox.Length0 && 0 <= y < vox.Length1 && 0 <= z < vox.Length2
    }
  }

  /** A snapshot of a voxel store as a value, indexed [x][y][z]. */
  type Grid = seq<seq<seq<Byte>>>

  /** g has the dimensions of m. */
  ghost predicate GridShaped(g: Grid, m: Mri) {
    && |g| == m.Width()
    && (forall i | 0 <= i < |g| :: |g[i]| == m.Height())
    && (forall i, j | 0 <= i < |g| && 0 <= j < |g[i]| :: |g[i][j]| == m.Depth())
  }

  /** The voxels of m as they are now. */
  ghost function Snapshot(m: Mri): (g: Grid)
    reads m.vox
    ensures GridShaped(g, m)
    ensures forall i, j, k | m.In(i, j, k) :: g[i][j][k] == m.vox[i, j, k]
  {
    seq(m.Width(), i requires 0 <= i < m.Width() reads m.vox =>
      seq(m.Height(), j requires 0 <= j < m.Height() reads m.vox =>
        seq(m.Depth(), k requires 0 <= k < m.Depth() reads m.vox => m.vox[i, j, k])))
  }

  /** The two volumes have the same dimensions. */
  predicate SameShape(a: Mri, b: Mri) {
    a.vox.Length0 == b.vox.Length0 && a.vox.Length1 == b.vox.Length1 && a.vox.Length2 == b.vox.Length2
  }

  /**
   * Two volume handles either are the same volume or own distinct stores:
   * no two volumes share one voxel store.
   */
  predicate Separate(a: Mri, b: Mri) {
    a == b || a.vox != b.vox
  }

  /** MRIclone: a fresh zero-filled volume with the geometry and header of src. */
  method Clone(src: Mri) returns (r: Mri)
    ensures fresh(r) && fresh(r.vox)
    ensures SameShape(r, src) && r.kind == src.kind && r.calibration == src.calibration
    ensures forall x, y, z | r.In(x, y, z) :: r.vox[x, y, z] == 0
  {
    r := new Mri(src.Width(), src.Height(), src.Depth(), src.kind, src.calibration);
  }

  /**
   * The store an operation may write: that of the destination it was given,
   * or nothing existing when it allocates its own.
   */
  function Writable(dst: Mri?): set<object> {
    if dst == null then {} else {dst.vox}
  }

  /**
   * `if (!mri_dst) mri_dst = MRIclone(src, NULL)`: the given destination,
   * or a fresh zero-filled clone of src.
   */
  method Destination(src: Mri, dst: Mri?) returns (r: Mri)
    ensures dst != null ==> r == dst
    ensures dst == null ==> fresh(r) && fresh(r.vox) && SameShape(r, src)
    ensures dst == null ==> r.kind == src.kind && r.calibration == src.calibration
    ensures dst == null ==> forall x, y, z | r.In(x, y, z) :: r.vox[x, y, z] == 0
  {
    if dst == null {
      r := Clone(src);
    } else {
      r := dst;
    }
  }

  /**
   * What an operation hands back as its result r: the destination it was
   * given, or a fresh volume with the geometry and header of src.
   */
  twostate predicate Delivered(src: Mri, dst: Mri?, new r: Mri) {
    && (dst != null ==> r == dst)
    && (dst == null ==> fresh(r) && fresh(r.vox) && r.kind == src.kind && r.calibration == src.calibration)
    && SameShape(r, src)
  }

  /** The voxel part of MRIcopy(from, to). */
  method CopyVoxels(from: Mri, to: Mri)
    requires SameShape(from, to) && from.vox != to.vox
    modifies to.vox
    ensures forall x, y, z | to.In(x, y, z) :: to.vox[x, y, z] == from.vox[x, y, z]
  {
    forall x, y, z | 0 <= x < to.vox.Length0 && 0 <= y < to.vox.Length1 && 0 <= z < to.vox.Length2 {
      to.vox[x, y, z] := from.vox[x, y, z];
    }
  }

  /**
   * The clamp-to-edge index table of an axis of length n: xi[x + dx] is the
   * in-range coordinate nearest to x + dx.
   */
  function Clamp(i: int, n: int): (c: int)
    requires n > 0
    ensures 0 <= c < n
    ensures 0 <= i < n ==> c == i
  {
    if i < 0 then 0 else if i >= n then n - 1 else i
  }

  /** A clamped index is the in-range index nearest to the one asked for. */
  lemma ClampNearest(i: int, n: int, j: int)
    requires n > 0 && 0 <= j < n
    ensures Dist(Clamp(i, n), i) <= Dist(j, i)
  {
  }

  function Dist(a: int, b: int): nat {
    if a < b then b - a else a - b
  }

  /**
   * Raster order of the scans: (i, j, k) is visited before (x, y, z) when
   * the z loop is outermost and the x loop innermost.
   */
  predicate Before(i: int, j: int, k: int, x: int, y: int, z: int) {
    k < z || (k == z && (j < y || (j == y && i < x)))
  }

  /**
   * No voxel of m at or after (x, y, z) in raster order has changed since
   * the operation began: the part of a source a scan has yet to read.
   */
  twostate predicate Untouched(m: Mri, x: int, y: int, z: int)
    reads m.vox
  {
    forall i, j, k | m.In(i, j, k) && !Before(i, j, k, x, y, z) :: m.vox[i, j, k] == old(m.vox[i, j, k])
  }

  /** C integer division by 2, which truncates toward zero. */
  function HalfTowardZero(n: int): (h: int)
    ensures n >= 0 ==> h + h == n || h + h == n - 1
    ensures n < 0 ==> h + h == n || h + h == n + 1
  {
    if n >= 0 then n / 2 else -((-n) / 2)
  }
}
