/**
 * What the neighbourhood filters of utils/mriset.c compute, stated as
 * functions over a volume's voxel store.
 *
 * A Field is a volume seen through zero or more filters: the raw store, a
 * min- or max-reduction of another field over a kernel, or the logical
 * complement of another field.  Sampling a reduced field runs the same
 * accumulation the C loops run: start from 255 (min) or 0 (max) and fold
 * in every clamped neighbour in scan order.  Because the fields nest,
 * the composed filters (open, close) are stated on the source volume.
 */
module Neighbourhood {
  import opened Volume

  datatype Reduction = Min | Max

  /**
   * Cube(half): the (2 half + 1)^3 clamped window of MRIerode, MRIdilate,
   * MRIerodeRegion and MRIminmax.  Cross: the centre and the 6 face
   * neighbours of MRIerode6 and MRIdilate6.
   */
  datatype Kernel = Cube(half: int) | Cross

  datatype Field =
    | Raw(store: array3<Byte>)
    | Reduced(op: Reduction, kernel: Kernel, inner: Field)
    | Complemented(inner: Field)

  datatype Axis = X | Y | Z

  function Store(f: Field): array3<Byte> {
    match f
    case Raw(a) => a
    case Reduced(_, _, g) => Store(g)
    case Complemented(g) => Store(g)
  }

  predicate InField(f: Field, x: int, y: int, z: int) {
    var a := Store(f);
    0 <= x < a.Length0 && 0 <= y < a.Length1 && 0 <= z < a.Length2
  }

  /** The value a reduction starts from: min_val = 255, max_val = 0. */
  function Identity(op: Reduction): Byte {
    match op
    case Min => 255
    case Max => 0
  }

  /** The opposite reduction. */
  function Dual(op: Reduction): Reduction {
    match op
    case Min => Max
    case Max => Min
  }

  /** r is at least as far toward op's extreme as v (r <= v for Min, r >= v for Max). */
  predicate AtLeastAsExtreme(op: Reduction, r: int, v: int) {
    match op
    case Min => r <= v
    case Max => r >= v
  }

  /** One step of the accumulation: `if (val < min_val) min_val = val` and its max twin. */
  function Combine(op: Reduction, acc: Byte, v: Byte): (r: Byte)
    ensures AtLeastAsExtreme(op, r, acc) && AtLeastAsExtreme(op, r, v)
    ensures r == acc || r == v
  {
    match op
    case Min => if v < acc then v else acc
    case Max => if v > acc then v else acc
  }

  /** Folding a value into an accumulator in two steps is folding their combination in one. */
  lemma CombineAssociates(op: Reduction, a: Byte, b: Byte, c: Byte)
    ensures Combine(op, Combine(op, a, b), c) == Combine(op, a, Combine(op, b, c))
  {
  }

  /** C's logical negation `!b` on a voxel value. */
  function Not(v: Byte): (r: Byte)
    ensures r == 0 || r == 1
    ensures r == 1 <==> v == 0
  {
    if v == 0 then 1 else 0
  }

  /** The value of field f at voxel (x, y, z). */
  function Sample(f: Field, x: int, y: int, z: int): Byte
    requires InField(f, x, y, z)
    reads Store(f)
    decreases f, 0, 0
  {
    match f
    case Raw(a) => a[x, y, z]
    case Complemented(g) => Not(Sample(g, x, y, z))
    case Reduced(op, Cube(h), g) => CubeUpTo(op, g, h, x, y, z, h + 1)
    case Reduced(op, Cross, g) => CrossOf(op, g, x, y, z)
  }

  /** The accumulator after the x offsets -h .. n-1 of row (yc, zc). */
  function RowUpTo(op: Reduction, g: Field, h: int, x: int, yc: int, zc: int, n: int): Byte
    requires InField(g, x, yc, zc)
    reads Store(g)
    decreases g, 1, n + h
  {
    if n <= -h then Identity(op)
    else Combine(op, RowUpTo(op, g, h, x, yc, zc, n - 1),
                 Sample(g, Clamp(x + n - 1, Store(g).Length0), yc, zc))
  }

  /** The accumulator after the y offsets -h .. n-1 of plane zc, each a full row. */
  function PlaneUpTo(op: Reduction, g: Field, h: int, x: int, y: int, zc: int, n: int): Byte
    requires InField(g, x, y, zc)
    reads Store(g)
    decreases g, 2, n + h
  {
    if n <= -h then Identity(op)
    else Combine(op, PlaneUpTo(op, g, h, x, y, zc, n - 1),
                 RowUpTo(op, g, h, x, Clamp(y + n - 1, Store(g).Length1), zc, h + 1))
  }

  /** One more y offset folds one more full row into the plane's accumulator. */
  lemma PlaneUpToNext(op: Reduction, g: Field, h: int, x: int, y: int, zc: int, n: int)
    requires InField(g, x, y, zc) && n >= -h
    ensures PlaneUpTo(op, g, h, x, y, zc, n + 1) ==
      Combine(op, PlaneUpTo(op, g, h, x, y, zc, n), RowUpTo(op, g, h, x, Clamp(y + n, Store(g).Length1), zc, h + 1))
  {
  }

  /** The accumulator after the z offsets -h .. n-1, each a full plane. */
  function CubeUpTo(op: Reduction, g: Field, h: int, x: int, y: int, z: int, n: int): Byte
    requires InField(g, x, y, z)
    reads Store(g)
    decreases g, 3, n + h
  {
    if n <= -h then Identity(op)
    else Combine(op, CubeUpTo(op, g, h, x, y, z, n - 1),
                 PlaneUpTo(op, g, h, x, y, Clamp(z + n - 1, Store(g).Length2), h + 1))
  }

  /** One more z offset folds one more full plane into the window's accumulator. */
  lemma CubeUpToNext(op: Reduction, g: Field, h: int, x: int, y: int, z: int, n: int)
    requires InField(g, x, y, z) && n >= -h
    ensures CubeUpTo(op, g, h, x, y, z, n + 1) ==
      Combine(op, CubeUpTo(op, g, h, x, y, z, n), PlaneUpTo(op, g, h, x, y, Clamp(z + n, Store(g).Length2), h + 1))
  {
  }

  /** The voxel one step d along an axis from (x, y, z), clamped to the volume. */
  function Step(g: Field, axis: Axis, x: int, y: int, z: int, d: int): (q: (int, int, int))
    requires InField(g, x, y, z)
    ensures InField(g, q.0, q.1, q.2)
  {
    var a := Store(g);
    match axis
    case X => (Clamp(x + d, a.Length0), y, z)
    case Y => (x, Clamp(y + d, a.Length1), z)
    case Z => (x, y, Clamp(z + d, a.Length2))
  }

  /**
   * The accumulation of the offsets -1 .. n-1 along one axis, as one of the
   * three small loops of MRIerode6; with skipCentre the offset 0 is left out
   * (the `if (!y1) continue` of the y loop).
   */
  function AxisUpTo(op: Reduction, g: Field, axis: Axis, x: int, y: int, z: int, n: int, skipCentre: bool): Byte
    requires InField(g, x, y, z)
    reads Store(g)
    decreases g, 1, n + 1
  {
    if n <= -1 then Identity(op)
    else
      var acc := AxisUpTo(op, g, axis, x, y, z, n - 1, skipCentre);
      if skipCentre && n - 1 == 0 then acc
      else
        var q := Step(g, axis, x, y, z, n - 1);
        Combine(op, acc, Sample(g, q.0, q.1, q.2))
  }

  /**
   * The 6-neighbour reduction as MRIerode6 runs it: the z column, then the
   * two y neighbours, then the x row (whose `!y1` test never fires, so the
   * centre is read a second time).
   */
  function CrossOf(op: Reduction, g: Field, x: int, y: int, z: int): Byte
    requires InField(g, x, y, z)
    reads Store(g)
    decreases g, 2, 0
  {
    Combine(op, Combine(op, AxisUpTo(op, g, Z, x, y, z, 2, false),
                            AxisUpTo(op, g, Y, x, y, z, 2, true)),
                AxisUpTo(op, g, X, x, y, z, 2, false))
  }

  /** (i, j, k) lies within h voxels of (x, y, z) along every axis. */
  predicate Near(i: int, j: int, k: int, x: int, y: int, z: int, h: int) {
    Dist(i, x) <= h && Dist(j, y) <= h && Dist(k, z) <= h
  }

  /** (i, j, k) is (x, y, z) or one of its 6 face neighbours. */
  predicate FaceNear(i: int, j: int, k: int, x: int, y: int, z: int) {
    Dist(i, x) + Dist(j, y) + Dist(k, z) <= 1
  }

  /** The two fields are views of stores of the same dimensions. */
  predicate SameDims(f: Field, g: Field) {
    var a, b := Store(f), Store(g);
    a.Length0 == b.Length0 && a.Length1 == b.Length1 && a.Length2 == b.Length2
  }

  // ---------------------------------------------------------------------
  // The cube window is the extreme of the in-volume voxels within `half`
  // of the centre: clamping only repeats voxels already in that set.
  // ---------------------------------------------------------------------

  lemma {:induction false} RowBound(op: Reduction, g: Field, h: int, x: int, yc: int, zc: int, n: int, i: int)
    requires InField(g, x, yc, zc) && InField(g, i, yc, zc)
    requires Dist(i, x) <= h && i - x < n
    ensures AtLeastAsExtreme(op, RowUpTo(op, g, h, x, yc, zc, n), Sample(g, i, yc, zc))
    decreases n + h
  {
    if i - x < n - 1 {
      RowBound(op, g, h, x, yc, zc, n - 1, i);
    }
  }

  lemma {:induction false} PlaneBound(op: Reduction, g: Field, h: int, x: int, y: int, zc: int, n: int, i: int, j: int)
    requires InField(g, x, y, zc) && InField(g, i, j, zc)
    requires Dist(i, x) <= h && Dist(j, y) <= h && j - y < n
    ensures AtLeastAsExtreme(op, PlaneUpTo(op, g, h, x, y, zc, n), Sample(g, i, j, zc))
    decreases n + h
  {
    if j - y < n - 1 {
      PlaneBound(op, g, h, x, y, zc, n - 1, i, j);
    } else {
      RowBound(op, g, h, x, j, zc, h + 1, i);
    }
  }

  lemma {:induction false} CubeBound(op: Reduction, g: Field, h: int, x: int, y: int, z: int, n: int, i: int, j: int, k: int)
    requires InField(g, x, y, z) && InField(g, i, j, k)
    requires Near(i, j, k, x, y, z, h) && k - z < n
    ensures AtLeastAsExtreme(op, CubeUpTo(op, g, h, x, y, z, n), Sample(g, i, j, k))
    decreases n + h
  {
    if k - z < n - 1 {
      CubeBound(op, g, h, x, y, z, n - 1, i, j, k);
    } else {
      PlaneBound(op, g, h, x, y, k, h + 1, i, j);
    }
  }

  /** The window's value is at least as extreme as every voxel within `half` of the centre. */
  lemma WindowBound(op: Reduction, g: Field, h: int, x: int, y: int, z: int, i: int, j: int, k: int)
    requires InField(g, x, y, z) && InField(g, i, j, k) && Near(i, j, k, x, y, z, h)
    ensures AtLeastAsExtreme(op, Sample(Reduced(op, Cube(h), g), x, y, z), Sample(g, i, j, k))
  {
    CubeBound(op, g, h, x, y, z, h + 1, i, j, k);
  }

  lemma {:induction false} RowWithin(op: Reduction, g: Field, h: int, x: int, yc: int, zc: int, n: int, c: Byte)
    requires InField(g, x, yc, zc) && n <= h + 1
    requires forall i | 0 <= i < Store(g).Length0 && Dist(i, x) <= h :: AtLeastAsExtreme(op, c, Sample(g, i, yc, zc))
    ensures AtLeastAsExtreme(op, c, RowUpTo(op, g, h, x, yc, zc, n))
    decreases n + h
  {
    if n > -h {
      RowWithin(op, g, h, x, yc, zc, n - 1, c);
    }
  }

  lemma {:induction false} PlaneWithin(op: Reduction, g: Field, h: int, x: int, y: int, zc: int, n: int, c: Byte)
    requires InField(g, x, y, zc) && n <= h + 1
    requires forall i, j | 0 <= i < Store(g).Length0 && 0 <= j < Store(g).Length1 && Dist(i, x) <= h && Dist(j, y) <= h ::
      AtLeastAsExtreme(op, c, Sample(g, i, j, zc))
    ensures AtLeastAsExtreme(op, c, PlaneUpTo(op, g, h, x, y, zc, n))
    decreases n + h
  {
    if n > -h {
      PlaneWithin(op, g, h, x, y, zc, n - 1, c);
      RowWithin(op, g, h, x, Clamp(y + n - 1, Store(g).Length1), zc, h + 1, c);
    }
  }

  lemma CubeWithinStep(op: Reduction, g: Field, h: int, x: int, y: int, z: int, n: int, c: Byte)
    requires InField(g, x, y, z) && n > -h
    requires AtLeastAsExtreme(op, c, CubeUpTo(op, g, h, x, y, z, n - 1))
    requires AtLeastAsExtreme(op, c, PlaneUpTo(op, g, h, x, y, Clamp(z + n - 1, Store(g).Length2), h + 1))
    ensures AtLeastAsExtreme(op, c, CubeUpTo(op, g, h, x, y, z, n))
  {
  }

  lemma {:induction false} CubeWithin(op: Reduction, g: Field, h: int, x: int, y: int, z: int, n: int, c: Byte)
    requires InField(g, x, y, z) && n <= h + 1
    requires forall i, j, k | InField(g, i, j, k) && Near(i, j, k, x, y, z, h) :: AtLeastAsExtreme(op, c, Sample(g, i, j, k))
    ensures AtLeastAsExtreme(op, c, CubeUpTo(op, g, h, x, y, z, n))
    decreases n + h
  {
    if n > -h {
      CubeWithin(op, g, h, x, y, z, n - 1, c);
      PlaneWithin(op, g, h, x, y, Clamp(z + n - 1, Store(g).Length2), h + 1, c);
      CubeWithinStep(op, g, h, x, y, z, n, c);
    }
  }

  /**
   * Any value at least as extreme as the window's value bounds it: the
   * window is the minimum (maximum) of the voxels within `half`, and 255
   * (0) when the window is empty.
   */
  lemma WindowGreatest(op: Reduction, g: Field, h: int, x: int, y: int, z: int, c: Byte)
    requires InField(g, x, y, z)
    requires forall i, j, k | InField(g, i, j, k) && Near(i, j, k, x, y, z, h) :: AtLeastAsExtreme(op, c, Sample(g, i, j, k))
    ensures AtLeastAsExtreme(op, c, Sample(Reduced(op, Cube(h), g), x, y, z))
  {
    CubeWithin(op, g, h, x, y, z, h + 1, c);
  }

  // ---------------------------------------------------------------------
  // The 6-neighbour reduction is the extreme of the centre and its face
  // neighbours.
  // ---------------------------------------------------------------------

  lemma {:induction false} AxisBound(op: Reduction, g: Field, axis: Axis, x: int, y: int, z: int, n: int, skipCentre: bool, d: int)
    requires InField(g, x, y, z) && -1 <= d < n && !(skipCentre && d == 0)
    ensures var q := Step(g, axis, x, y, z, d);
      AtLeastAsExtreme(op, AxisUpTo(op, g, axis, x, y, z, n, skipCentre), Sample(g, q.0, q.1, q.2))
    decreases n
  {
    if d < n - 1 {
      AxisBound(op, g, axis, x, y, z, n - 1, skipCentre, d);
    }
  }

  lemma {:induction false} AxisWithin(op: Reduction, g: Field, axis: Axis, x: int, y: int, z: int, n: int, skipCentre: bool, c: Byte)
    requires InField(g, x, y, z) && n <= 2
    requires forall i, j, k | InField(g, i, j, k) && FaceNear(i, j, k, x, y, z) :: AtLeastAsExtreme(op, c, Sample(g, i, j, k))
    ensures AtLeastAsExtreme(op, c, AxisUpTo(op, g, axis, x, y, z, n, skipCentre))
    decreases n + 1
  {
    if n > -1 {
      AxisWithin(op, g, axis, x, y, z, n - 1, skipCentre, c);
      var q := Step(g, axis, x, y, z, n - 1);
      assert InField(g, q.0, q.1, q.2) && FaceNear(q.0, q.1, q.2, x, y, z);
    }
  }

  /** The 6-neighbour value is at least as extreme as the centre and each face neighbour. */
  lemma CrossBound(op: Reduction, g: Field, x: int, y: int, z: int, i: int, j: int, k: int)
    requires InField(g, x, y, z) && InField(g, i, j, k) && FaceNear(i, j, k, x, y, z)
    ensures AtLeastAsExtreme(op, Sample(Reduced(op, Cross, g), x, y, z), Sample(g, i, j, k))
  {
    if i != x {
      AxisBound(op, g, X, x, y, z, 2, false, i - x);
    } else if j != y {
      AxisBound(op, g, Y, x, y, z, 2, true, j - y);
    } else {
      AxisBound(op, g, Z, x, y, z, 2, false, k - z);
    }
  }

  /** Any value at least as extreme as the centre and all face neighbours bounds the 6-neighbour value. */
  lemma CrossGreatest(op: Reduction, g: Field, x: int, y: int, z: int, c: Byte)
    requires InField(g, x, y, z)
    requires forall i, j, k | InField(g, i, j, k) && FaceNear(i, j, k, x, y, z) :: AtLeastAsExtreme(op, c, Sample(g, i, j, k))
    ensures AtLeastAsExtreme(op, c, Sample(Reduced(op, Cross, g), x, y, z))
  {
    AxisWithin(op, g, Z, x, y, z, 2, false, c);
    AxisWithin(op, g, Y, x, y, z, 2, true, c);
    AxisWithin(op, g, X, x, y, z, 2, false, c);
  }

  // ---------------------------------------------------------------------
  // Reductions only depend on the values of the field they reduce.
  // ---------------------------------------------------------------------

  /** f and g hold the same value at every voxel. */
  ghost predicate Agree(f: Field, g: Field)
    requires SameDims(f, g)
    reads Store(f), Store(g)
  {
    forall i, j, k | InField(f, i, j, k) :: Sample(f, i, j, k) == Sample(g, i, j, k)
  }

  lemma {:induction false} RowAgree(op: Reduction, f: Field, g: Field, h: int, x: int, yc: int, zc: int, n: int)
    requires SameDims(f, g) && Agree(f, g) && InField(f, x, yc, zc)
    ensures RowUpTo(op, f, h, x, yc, zc, n) == RowUpTo(op, g, h, x, yc, zc, n)
    decreases n + h
  {
    if n > -h {
      RowAgree(op, f, g, h, x, yc, zc, n - 1);
    }
  }

  lemma {:induction false} PlaneAgree(op: Reduction, f: Field, g: Field, h: int, x: int, y: int, zc: int, n: int)
    requires SameDims(f, g) && Agree(f, g) && InField(f, x, y, zc)
    ensures PlaneUpTo(op, f, h, x, y, zc, n) == PlaneUpTo(op, g, h, x, y, zc, n)
    decreases n + h
  {
    if n > -h {
      PlaneAgree(op, f, g, h, x, y, zc, n - 1);
      RowAgree(op, f, g, h, x, Clamp(y + n - 1, Store(f).Length1), zc, h + 1);
    }
  }

  lemma CubeAgreeStep(op: Reduction, f: Field, g: Field, h: int, x: int, y: int, z: int, n: int)
    requires SameDims(f, g) && InField(f, x, y, z) && n > -h
    requires CubeUpTo(op, f, h, x, y, z, n - 1) == CubeUpTo(op, g, h, x, y, z, n - 1)
    requires var zi := Clamp(z + n - 1, Store(f).Length2);
      PlaneUpTo(op, f, h, x, y, zi, h + 1) == PlaneUpTo(op, g, h, x, y, zi, h + 1)
    ensures CubeUpTo(op, f, h, x, y, z, n) == CubeUpTo(op, g, h, x, y, z, n)
  {
  }

  lemma {:induction false} CubeAgree(op: Reduction, f: Field, g: Field, h: int, x: int, y: int, z: int, n: int)
    requires SameDims(f, g) && Agree(f, g) && InField(f, x, y, z)
    ensures CubeUpTo(op, f, h, x, y, z, n) == CubeUpTo(op, g, h, x, y, z, n)
    decreases n + h
  {
    if n > -h {
      CubeAgree(op, f, g, h, x, y, z, n - 1);
      PlaneAgree(op, f, g, h, x, y, Clamp(z + n - 1, Store(f).Length2), h + 1);
      CubeAgreeStep(op, f, g, h, x, y, z, n);
    }
  }

  lemma {:induction false} AxisAgree(op: Reduction, f: Field, g: Field, axis: Axis, x: int, y: int, z: int, n: int, skipCentre: bool)
    requires SameDims(f, g) && Agree(f, g) && InField(f, x, y, z)
    ensures AxisUpTo(op, f, axis, x, y, z, n, skipCentre) == AxisUpTo(op, g, axis, x, y, z, n, skipCentre)
    decreases n + 1
  {
    if n > -1 {
      AxisAgree(op, f, g, axis, x, y, z, n - 1, skipCentre);
    }
  }

  /** Reducing two fields that agree everywhere gives fields that agree everywhere. */
  lemma ReducedAgree(op: Reduction, kernel: Kernel, f: Field, g: Field)
    requires SameDims(f, g) && Agree(f, g)
    ensures SameDims(Reduced(op, kernel, f), Reduced(op, kernel, g))
    ensures Agree(Reduced(op, kernel, f), Reduced(op, kernel, g))
  {
    forall i, j, k | InField(f, i, j, k)
      ensures Sample(Reduced(op, kernel, f), i, j, k) == Sample(Reduced(op, kernel, g), i, j, k)
    {
      match kernel
      case Cube(h) => CubeAgree(op, f, g, h, i, j, k, h + 1);
      case Cross =>
        AxisAgree(op, f, g, Z, i, j, k, 2, false);
        AxisAgree(op, f, g, Y, i, j, k, 2, true);
        AxisAgree(op, f, g, X, i, j, k, 2, false);
    }
  }

  // ---------------------------------------------------------------------
  // Properties of the filters as a whole.
  // ---------------------------------------------------------------------

  lemma {:induction false} RowDual(f: Field, h: int, x: int, yc: int, zc: int, n: int)
    requires InField(f, x, yc, zc) && n > -h
    ensures Not(RowUpTo(Max, f, h, x, yc, zc, n)) == RowUpTo(Min, Complemented(f), h, x, yc, zc, n)
    decreases n + h
  {
    if n - 1 > -h {
      RowDual(f, h, x, yc, zc, n - 1);
    }
  }

  lemma {:induction false} PlaneDual(f: Field, h: int, x: int, y: int, zc: int, n: int)
    requires InField(f, x, y, zc) && n > -h && h >= 0
    ensures Not(PlaneUpTo(Max, f, h, x, y, zc, n)) == PlaneUpTo(Min, Complemented(f), h, x, y, zc, n)
    decreases n + h
  {
    RowDual(f, h, x, Clamp(y + n - 1, Store(f).Length1), zc, h + 1);
    if n - 1 > -h {
      PlaneDual(f, h, x, y, zc, n - 1);
    }
  }

  lemma {:induction false} CubeDual(f: Field, h: int, x: int, y: int, z: int, n: int)
    requires InField(f, x, y, z) && n > -h && h >= 0
    ensures Not(CubeUpTo(Max, f, h, x, y, z, n)) == CubeUpTo(Min, Complemented(f), h, x, y, z, n)
    decreases n + h
  {
    PlaneDual(f, h, x, y, Clamp(z + n - 1, Store(f).Length2), h + 1);
    if n - 1 > -h {
      CubeDual(f, h, x, y, z, n - 1);
    }
  }

  lemma {:induction false} AxisDual(f: Field, axis: Axis, x: int, y: int, z: int, n: int, skipCentre: bool)
    requires InField(f, x, y, z) && n >= 0
    ensures Not(AxisUpTo(Max, f, axis, x, y, z, n, skipCentre)) == AxisUpTo(Min, Complemented(f), axis, x, y, z, n, skipCentre)
    decreases n
  {
    if n - 1 >= 0 {
      AxisDual(f, axis, x, y, z, n - 1, skipCentre);
    }
  }

  /**
   * Duality of the filters under MRIcomplement: the complement of a
   * dilation is the erosion of the complement, for both kernels, whenever
   * the window is not empty.
   */
  lemma ComplementDuality(kernel: Kernel, f: Field, x: int, y: int, z: int)
    requires InField(f, x, y, z) && (kernel.Cube? ==> kernel.half >= 0)
    ensures Not(Sample(Reduced(Max, kernel, f), x, y, z)) == Sample(Reduced(Min, kernel, Complemented(f)), x, y, z)
  {
    match kernel
    case Cube(h) => CubeDual(f, h, x, y, z, h + 1);
    case Cross =>
      AxisDual(f, Z, x, y, z, 2, false);
      AxisDual(f, Y, x, y, z, 2, true);
      AxisDual(f, X, x, y, z, 2, false);
  }

  /**
   * Opening never raises a voxel and closing never lowers one, for either
   * kernel: for op = Min the field is eroded then dilated (MRIopen,
   * MRIopen6), for op = Max dilated then eroded (MRIclose, MRIclose6).  The
   * proof uses that both neighbourhoods are symmetric: the centre lies in
   * the window of each of its neighbours.
   */
  lemma OpeningClosingBracket(op: Reduction, kernel: Kernel, f: Field, x: int, y: int, z: int)
    requires InField(f, x, y, z) && (kernel.Cube? ==> kernel.half >= 0)
    ensures AtLeastAsExtreme(op, Sample(Reduced(Dual(op), kernel, Reduced(op, kernel, f)), x, y, z), Sample(f, x, y, z))
  {
    var e := Reduced(op, kernel, f);
    var c := Sample(f, x, y, z);
    match kernel
    case Cube(h) =>
      forall i, j, k | InField(e, i, j, k) && Near(i, j, k, x, y, z, h)
        ensures AtLeastAsExtreme(Dual(op), c, Sample(e, i, j, k))
      {
        WindowBound(op, f, h, i, j, k, x, y, z);
      }
      WindowGreatest(Dual(op), e, h, x, y, z, c);
    case Cross =>
      forall i, j, k | InField(e, i, j, k) && FaceNear(i, j, k, x, y, z)
        ensures AtLeastAsExtreme(Dual(op), c, Sample(e, i, j, k))
      {
        CrossBound(op, f, i, j, k, x, y, z);
      }
      CrossGreatest(Dual(op), e, x, y, z, c);
  }

  /**
   * A field that holds one value everywhere is left unchanged by every
   * non-empty reduction: clamping at the faces introduces no edge values.
   */
  lemma UniformFieldFixed(op: Reduction, kernel: Kernel, f: Field, c: Byte, x: int, y: int, z: int)
    requires InField(f, x, y, z) && (kernel.Cube? ==> kernel.half >= 0)
    requires forall i, j, k | InField(f, i, j, k) :: Sample(f, i, j, k) == c
    ensures Sample(Reduced(op, kernel, f), x, y, z) == c
  {
    match kernel
    case Cube(h) =>
      WindowBound(op, f, h, x, y, z, x, y, z);
      WindowGreatest(op, f, h, x, y, z, c);
    case Cross =>
      CrossBound(op, f, x, y, z, x, y, z);
      CrossGreatest(op, f, x, y, z, c);
  }
}
