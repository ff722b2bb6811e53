/**
 * The neighbourhood filters of utils/mriset.c: erosion and dilation over
 * the 27-voxel cube and over the 6-face cross, their compositions opening
 * and closing, erosion over a clipped region, and the direction-driven
 * min/max filter.  Every neighbour index goes through the clamp-to-edge
 * tables, so a window at the border repeats edge voxels.
 */
module Morphology {
  import opened Volume
  import opened Neighbourhood
  import opened BoundingBox

  /** The fields the filters compute, as views of the source. */
  function Eroded(f: Field): (e: Field)
    ensures Store(e) == Store(f)
  {
    Reduced(Min, Cube(1), f)
  }

  function Dilated(f: Field): (d: Field)
    ensures Store(d) == Store(f)
  {
    Reduced(Max, Cube(1), f)
  }

  function Eroded6(f: Field): (e: Field)
    ensures Store(e) == Store(f)
  {
    Reduced(Min, Cross, f)
  }

  function Dilated6(f: Field): (d: Field)
    ensures Store(d) == Store(f)
  {
    Reduced(Max, Cross, f)
  }

  /**
   * The x loop of a window: fold the clamped voxels x-h .. x+h of row
   * (yi, zi) into acc.
   */
  method RowReduce(op: Reduction, src: Mri, h: int, x: int, yi: int, zi: int, acc: Byte) returns (v: Byte)
    requires src.In(x, yi, zi)
    ensures v == Combine(op, acc, RowUpTo(op, Raw(src.vox), h, x, yi, zi, h + 1))
  {
    v := acc;
    var dx := -h;
    while dx <= h
      invariant if h >= 0 then -h <= dx <= h + 1 else dx == -h
      invariant v == Combine(op, acc, RowUpTo(op, Raw(src.vox), h, x, yi, zi, dx))
    {
      var xi := Clamp(x + dx, src.Width());
      CombineAssociates(op, acc, RowUpTo(op, Raw(src.vox), h, x, yi, zi, dx), src.vox[xi, yi, zi]);
      v := Combine(op, v, src.vox[xi, yi, zi]);
      dx := dx + 1;
    }
    if h < 0 {
      assert RowUpTo(op, Raw(src.vox), h, x, yi, zi, h + 1) == Identity(op);
    }
  }

  /** The y loop of a window: fold rows y-h .. y+h of plane zi into acc. */
  method PlaneReduce(op: Reduction, src: Mri, h: int, x: int, y: int, zi: int, acc: Byte) returns (v: Byte)
    requires src.In(x, y, zi)
    ensures v == Combine(op, acc, PlaneUpTo(op, Raw(src.vox), h, x, y, zi, h + 1))
  {
    v := acc;
    var dy := -h;
    while dy <= h
      invariant if h >= 0 then -h <= dy <= h + 1 else dy == -h
      invariant v == Combine(op, acc, PlaneUpTo(op, Raw(src.vox), h, x, y, zi, dy))
    {
      v := PlaneRow(op, src, h, x, y, zi, dy, acc, v);
      dy := dy + 1;
    }
    if h < 0 {
      assert PlaneUpTo(op, Raw(src.vox), h, x, y, zi, h + 1) == Identity(op);
    }
  }

  /** One pass of the y loop of a window: fold row y + dy (clamped) of plane zi into v. */
  method PlaneRow(op: Reduction, src: Mri, h: int, x: int, y: int, zi: int, dy: int, acc: Byte, v0: Byte) returns (v: Byte)
    requires src.In(x, y, zi) && dy >= -h
    requires v0 == Combine(op, acc, PlaneUpTo(op, Raw(src.vox), h, x, y, zi, dy))
    ensures v == Combine(op, acc, PlaneUpTo(op, Raw(src.vox), h, x, y, zi, dy + 1))
  {
    ghost var g := Raw(src.vox);
    var yi := Clamp(y + dy, src.Height());
    ghost var before := PlaneUpTo(op, g, h, x, y, zi, dy);
    ghost var row := RowUpTo(op, g, h, x, yi, zi, h + 1);
    v := RowReduce(op, src, h, x, yi, zi, v0);
    PlaneUpToNext(op, g, h, x, y, zi, dy);
    CombineAssociates(op, acc, before, row);
  }

  /**
   * The window loops of MRIerode, MRIdilate, MRIerodeRegion and MRIminmax:
   * starting from the reduction's identity (255 for a min, 0 for a max),
   * fold in every clamped voxel within h of (x, y, z), z offsets outermost.
   */
  method WindowReduce(op: Reduction, src: Mri, h: int, x: int, y: int, z: int) returns (v: Byte)
    requires src.In(x, y, z)
    ensures v == Sample(Reduced(op, Cube(h), Raw(src.vox)), x, y, z)
  {
    v := Identity(op);
    var dz := -h;
    while dz <= h
      invariant if h >= 0 then -h <= dz <= h + 1 else dz == -h
      invariant v == CubeUpTo(op, Raw(src.vox), h, x, y, z, dz)
    {
      v := CubePlane(op, src, h, x, y, z, dz, v);
      dz := dz + 1;
    }
    if h < 0 {
      assert CubeUpTo(op, Raw(src.vox), h, x, y, z, h + 1) == Identity(op);
    }
  }

  /** One pass of the z loop of a window: fold plane z + dz (clamped) into v. */
  method CubePlane(op: Reduction, src: Mri, h: int, x: int, y: int, z: int, dz: int, v0: Byte) returns (v: Byte)
    requires src.In(x, y, z) && dz >= -h
    requires v0 == CubeUpTo(op, Raw(src.vox), h, x, y, z, dz)
    ensures v == CubeUpTo(op, Raw(src.vox), h, x, y, z, dz + 1)
  {
    var zi := Clamp(z + dz, src.Depth());
    v := PlaneReduce(op, src, h, x, y, zi, v0);
    CubeUpToNext(op, Raw(src.vox), h, x, y, z, dz);
  }

  /**
   * The three small loops of MRIerode6 and MRIdilate6: the z column
   * (offsets -1, 0, 1), the two y neighbours (offset 0 skipped by
   * `if (!y1) continue`), then the x row, whose copy of that test reads y1
   * after the y loop has left it at 2, so it never skips and the centre is
   * folded in a second time.
   */
  method CrossReduce(op: Reduction, src: Mri, x: int, y: int, z: int) returns (v: Byte)
    requires src.In(x, y, z)
    ensures v == Sample(Reduced(op, Cross, Raw(src.vox)), x, y, z)
  {
    v := AxisReduce(op, src, Z, x, y, z, false, Identity(op));
    v := AxisReduce(op, src, Y, x, y, z, true, v);
    v := AxisReduce(op, src, X, x, y, z, false, v);
  }

  /**
   * One of those small loops: fold the clamped voxels at offsets -1, 0, 1
   * along axis into acc, skipping offset 0 when skipCentre.
   */
  method AxisReduce(op: Reduction, src: Mri, axis: Axis, x: int, y: int, z: int, skipCentre: bool, acc: Byte)
    returns (v: Byte)
    requires src.In(x, y, z)
    ensures v == Combine(op, acc, AxisUpTo(op, Raw(src.vox), axis, x, y, z, 2, skipCentre))
  {
    v := acc;
    var d := -1;
    while d <= 1
      invariant -1 <= d <= 2
      invariant v == Combine(op, acc, AxisUpTo(op, Raw(src.vox), axis, x, y, z, d, skipCentre))
    {
      v := AxisStep(op, src, axis, x, y, z, skipCentre, d, acc, v);
      d := d + 1;
    }
  }

  /** One pass of that loop's body: fold in the neighbour at offset d unless it is skipped. */
  method AxisStep(op: Reduction, src: Mri, axis: Axis, x: int, y: int, z: int, skipCentre: bool, d: int,
                  ghost acc: Byte, v: Byte) returns (w: Byte)
    requires src.In(x, y, z) && -1 <= d
    requires v == Combine(op, acc, AxisUpTo(op, Raw(src.vox), axis, x, y, z, d, skipCentre))
    ensures w == Combine(op, acc, AxisUpTo(op, Raw(src.vox), axis, x, y, z, d + 1, skipCentre))
  {
    if skipCentre && d == 0 {
      w := v;
    } else {
      var q := Step(Raw(src.vox), axis, x, y, z, d);
      w := Combine(op, v, src.vox[q.0, q.1, q.2]);
    }
  }

  /**
   * The voxel value of a reduction over kernel k, by the loops the source
   * runs for it.
   */
  method KernelReduce(op: Reduction, k: Kernel, src: Mri, x: int, y: int, z: int) returns (v: Byte)
    requires src.In(x, y, z)
    ensures v == Sample(Reduced(op, k, Raw(src.vox)), x, y, z)
  {
    match k
    case Cube(h) =>
      v := WindowReduce(op, src, h, x, y, z);
    case Cross =>
      v := CrossReduce(op, src, x, y, z);
  }

  /**
   * The z/y/x scan of MRIerode, MRIerode6 and MRIdilate6: every voxel of out
   * becomes the reduction of src over the kernel.  out is another volume.
   */
  method ReduceAll(op: Reduction, k: Kernel, src: Mri, out: Mri)
    requires SameShape(src, out) && src.vox != out.vox
    modifies out.vox
    ensures forall x, y, z | out.In(x, y, z) :: out.vox[x, y, z] == Sample(Reduced(op, k, Raw(src.vox)), x, y, z)
  {
    ghost var f := Reduced(op, k, Raw(src.vox));
    assert Store(f) == src.vox;
    var z := 0;
    while z < src.Depth()
      invariant 0 <= z <= src.Depth()
      invariant forall i, j, k' | out.In(i, j, k') && k' < z :: out.vox[i, j, k'] == Sample(f, i, j, k')
    {
      var y := 0;
      while y < src.Height()
        invariant 0 <= y <= src.Height()
        invariant forall i, j, k' | out.In(i, j, k') && (k' < z || (k' == z && j < y)) :: out.vox[i, j, k'] == Sample(f, i, j, k')
      {
        var x := 0;
        while x < src.Width()
          invariant 0 <= x <= src.Width()
          invariant forall i, j, k' | out.In(i, j, k') && Before(i, j, k', x, y, z) :: out.vox[i, j, k'] == Sample(f, i, j, k')
        {
          var v := KernelReduce(op, k, src, x, y, z);
          out.vox[x, y, z] := v;
          x := x + 1;
        }
        y := y + 1;
      }
      z := z + 1;
    }
  }

  /**
   * MRIerode: each voxel becomes the minimum of its 27 clamped neighbours in
   * the source as it was.  With dst == src the result goes to a clone that
   * is copied back, so the answer is the same as with any other dst.
   */
  method Erode(src: Mri, dst: Mri?) returns (r: Mri)
    requires dst != null ==> SameShape(src, dst) && Separate(src, dst)
    modifies Writable(dst)
    ensures Delivered(src, dst, r)
    ensures forall x, y, z | r.In(x, y, z) :: r.vox[x, y, z] == old(Sample(Eroded(Raw(src.vox)), x, y, z))
  {
    r := Destination(src, dst);
    if r == src {
      var tmp := Clone(src);
      ReduceAll(Min, Cube(1), src, tmp);
      CopyVoxels(tmp, src);
    } else {
      ReduceAll(Min, Cube(1), src, r);
    }
  }

  /**
   * The second scan of MRIdilate: every voxel of out inside box b becomes
   * the maximum of its 27 clamped neighbours in src; the rest of out is
   * left as it was.
   */
  method DilateBox(src: Mri, out: Mri, b: Box)
    requires SameShape(src, out) && src.vox != out.vox
    requires 0 <= b.xlo && b.xhi < src.Width() && 0 <= b.ylo && b.yhi < src.Height() && 0 <= b.zlo && b.zhi < src.Depth()
    modifies out.vox
    ensures forall x, y, z | out.In(x, y, z) ::
      out.vox[x, y, z] == if InBox(b, x, y, z) then Sample(Dilated(Raw(src.vox)), x, y, z) else old(out.vox[x, y, z])
  {
    var z := b.zlo;
    while z <= b.zhi
      invariant b.zlo <= z && (z <= b.zhi + 1 || z == b.zlo)
      invariant forall i, j, k | out.In(i, j, k) ::
        out.vox[i, j, k] == if InBox(b, i, j, k) && k < z then Sample(Dilated(Raw(src.vox)), i, j, k) else old(out.vox[i, j, k])
    {
      DilatePlane(src, out, b, z);
      z := z + 1;
    }
  }

  /** The y loop of the second scan of MRIdilate over plane z of box b. */
  method DilatePlane(src: Mri, out: Mri, b: Box, z: int)
    requires SameShape(src, out) && src.vox != out.vox
    requires 0 <= b.xlo && b.xhi < src.Width() && 0 <= b.ylo && b.yhi < src.Height() && 0 <= z < src.Depth()
    modifies out.vox
    ensures forall i, j, k | out.In(i, j, k) ::
      out.vox[i, j, k] == if k == z && b.xlo <= i <= b.xhi && b.ylo <= j <= b.yhi then Sample(Dilated(Raw(src.vox)), i, j, k)
                          else old(out.vox[i, j, k])
  {
    var y := b.ylo;
    while y <= b.yhi
      invariant b.ylo <= y && (y <= b.yhi + 1 || y == b.ylo)
      invariant forall i, j, k | out.In(i, j, k) ::
        out.vox[i, j, k] == if k == z && b.xlo <= i <= b.xhi && b.ylo <= j < y then Sample(Dilated(Raw(src.vox)), i, j, k)
                            else old(out.vox[i, j, k])
    {
      DilateRow(src, out, b, y, z);
      y := y + 1;
    }
  }

  /** The x loop of the second scan of MRIdilate over row (y, z) of box b. */
  method DilateRow(src: Mri, out: Mri, b: Box, y: int, z: int)
    requires SameShape(src, out) && src.vox != out.vox
    requires 0 <= b.xlo && b.xhi < src.Width() && 0 <= y < src.Height() && 0 <= z < src.Depth()
    modifies out.vox
    ensures forall i, j, k | out.In(i, j, k) ::
      out.vox[i, j, k] == if k == z && j == y && b.xlo <= i <= b.xhi then Sample(Dilated(Raw(src.vox)), i, j, k)
                          else old(out.vox[i, j, k])
  {
    var x := b.xlo;
    while x <= b.xhi
      invariant b.xlo <= x && (x <= b.xhi + 1 || x == b.xlo)
      invariant forall i, j, k | out.In(i, j, k) ::
        out.vox[i, j, k] == if k == z && j == y && b.xlo <= i < x then Sample(Dilated(Raw(src.vox)), i, j, k)
                            else old(out.vox[i, j, k])
    {
      var v := WindowReduce(Max, src, 1, x, y, z);
      out.vox[x, y, z] := v;
      x := x + 1;
    }
  }

  /**
   * MRIdilate: the maximum of each voxel's 27 clamped neighbours, computed
   * only inside the bounding box of the non-zero voxels widened by one.
   * Outside the box the dilation is 0; the result holds 0 there when the
   * destination was allocated or was src itself (the clone copied back),
   * and keeps the destination's previous values otherwise.
   */
  method Dilate(src: Mri, dst: Mri?) returns (r: Mri)
    requires dst != null ==> SameShape(src, dst) && Separate(src, dst)
    modifies Writable(dst)
    ensures Delivered(src, dst, r)
    ensures forall x, y, z | r.In(x, y, z) ::
      r.vox[x, y, z] == if old(InBoundingBox(Raw(src.vox), x, y, z)) then old(Sample(Dilated(Raw(src.vox)), x, y, z))
                        else if dst == null || dst == src then 0 else old(dst.vox[x, y, z])
    ensures dst == null || dst == src ==>
      forall x, y, z | r.In(x, y, z) :: r.vox[x, y, z] == old(Sample(Dilated(Raw(src.vox)), x, y, z))
  {
    forall x, y, z | src.In(x, y, z) && !InBoundingBox(Raw(src.vox), x, y, z)
      ensures Sample(Dilated(Raw(src.vox)), x, y, z) == 0
    {
      DilationVanishesOutside(Raw(src.vox), x, y, z);
    }
    r := Destination(src, dst);
    var b := Scan(src);
    if r == src {
      var tmp := Clone(src);
      DilateBox(src, tmp, b);
      CopyVoxels(tmp, src);
    } else {
      DilateBox(src, r, b);
    }
  }

  /**
   * MRIopen: MRIdilate of MRIerode of src.  The erosion goes to a fresh
   * temporary, so the dilation writes dst only inside the box of the
   * erosion; outside it dst keeps its previous values, which for dst == src
   * are the source's own.
   */
  method Open(src: Mri, dst: Mri?) returns (r: Mri)
    requires dst != null ==> SameShape(src, dst)
    modifies Writable(dst)
    ensures Delivered(src, dst, r)
    ensures forall x, y, z | r.In(x, y, z) ::
      r.vox[x, y, z] == if old(InBoundingBox(Eroded(Raw(src.vox)), x, y, z)) then old(Sample(Dilated(Eroded(Raw(src.vox))), x, y, z))
                        else if dst == null then 0 else old(dst.vox[x, y, z])
    ensures dst == null ==>
      forall x, y, z | r.In(x, y, z) :: r.vox[x, y, z] == old(Sample(Dilated(Eroded(Raw(src.vox))), x, y, z))
  {
    var tmp := Erode(src, null);
    ghost var e := Eroded(Raw(src.vox));
    assert SameDims(Raw(tmp.vox), e) && Agree(Raw(tmp.vox), e);
    ReducedAgree(Max, Cube(1), Raw(tmp.vox), e);
    forall x, y, z ensures InBoundingBox(Raw(tmp.vox), x, y, z) <==> InBoundingBox(e, x, y, z) {
      BoxAgree(Raw(tmp.vox), e, x, y, z);
    }
    r := Dilate(tmp, dst);
  }

  /**
   * A lone non-zero voxel at the centre of a 3x3x3 volume erodes away
   * entirely, so its opening is 0 there, and the box of the erosion is
   * empty: MRIdilate computes no voxel at all.
   */
  lemma IsolatedVoxelOpensAway(a: array3<Byte>)
    requires a.Length0 == 3 && a.Length1 == 3 && a.Length2 == 3
    requires forall i, j, k | 0 <= i < 3 && 0 <= j < 3 && 0 <= k < 3 && (i, j, k) != (1, 1, 1) :: a[i, j, k] == 0
    ensures forall i, j, k | InField(Raw(a), i, j, k) :: Sample(Dilated(Eroded(Raw(a))), i, j, k) == 0
    ensures forall i, j, k :: !InBoundingBox(Eroded(Raw(a)), i, j, k)
  {
    var e := Eroded(Raw(a));
    forall i, j, k | InField(e, i, j, k) ensures Sample(e, i, j, k) == 0 {
      var i0 := if i == 1 then 0 else i;
      WindowBound(Min, Raw(a), 1, i, j, k, i0, j, k);
    }
    assert forall i, j, k :: !Occupied(e, i, j, k);
    assert !AboveLow(e, X, 0) && !AboveLow(e, X, 1) && !BelowHigh(e, X, 1) && !BelowHigh(e, X, 2);
    forall i, j, k | InField(e, i, j, k) ensures Sample(Dilated(e), i, j, k) == 0 {
      WindowGreatest(Max, e, 1, i, j, k, 0);
    }
  }

  /**
   * MRIopen(mri, mri) on a 3x3x3 volume whose only non-zero voxel is the
   * centre, at 255: the opening of that volume is 0 everywhere, but the
   * dilation writes only inside the (empty) box of the erosion, so the
   * centre keeps 255.
   */
  method InPlaceOpenKeepsIsolatedVoxel() returns (r: Mri)
    ensures r.In(1, 1, 1) && r.vox[1, 1, 1] == 255
  {
    var m := new Mri(3, 3, 3, UChar, Calibration(0.0, 0.0, 0.0, 3.0, 3.0, 3.0, 1.0, 1.0, 1.0));
    m.vox[1, 1, 1] := 255;
    IsolatedVoxelOpensAway(m.vox);
    r := Open(m, m);
  }

  /**
   * The opening MRIopen is meant to compute: every voxel of the result is
   * the dilation of the erosion of the source, whatever the destination
   * held.  The complete opening is computed into a fresh volume and then
   * copied into a given destination.
   */
  method OpenComplete(src: Mri, dst: Mri?) returns (r: Mri)
    requires dst != null ==> SameShape(src, dst)
    modifies Writable(dst)
    ensures Delivered(src, dst, r)
    ensures forall x, y, z | r.In(x, y, z) :: r.vox[x, y, z] == old(Sample(Dilated(Eroded(Raw(src.vox))), x, y, z))
    ensures forall x, y, z | r.In(x, y, z) :: r.vox[x, y, z] <= old(src.vox[x, y, z])
  {
    forall x, y, z | src.In(x, y, z)
      ensures Sample(Dilated(Eroded(Raw(src.vox))), x, y, z) <= src.vox[x, y, z]
    {
      OpeningClosingBracket(Min, Cube(1), Raw(src.vox), x, y, z);
    }
    var tmp := Open(src, null);
    if dst == null {
      r := tmp;
    } else {
      CopyVoxels(tmp, dst);
      r := dst;
    }
  }

  /**
   * MRIclose: MRIerode of MRIdilate of src.  The dilation goes to a fresh
   * volume and so is complete; the answer is the erosion of the dilation
   * of the source as it was, whatever dst is.
   */
  method Close(src: Mri, dst: Mri?) returns (r: Mri)
    requires dst != null ==> SameShape(src, dst)
    modifies Writable(dst)
    ensures Delivered(src, dst, r)
    ensures forall x, y, z | r.In(x, y, z) :: r.vox[x, y, z] == old(Sample(Eroded(Dilated(Raw(src.vox))), x, y, z))
  {
    var tmp := Dilate(src, null);
    ghost var d := Dilated(Raw(src.vox));
    assert SameDims(Raw(tmp.vox), d) && Agree(Raw(tmp.vox), d);
    ReducedAgree(Min, Cube(1), Raw(tmp.vox), d);
    r := Erode(tmp, dst);
  }

  /**
   * MRIerode6: each voxel becomes the minimum of itself and its 6 face
   * neighbours.  The source does not guard against dst == src, so the
   * model asks for distinct stores.
   */
  method Erode6(src: Mri, dst: Mri?) returns (r: Mri)
    requires dst != null ==> SameShape(src, dst) && src.vox != dst.vox
    modifies Writable(dst)
    ensures Delivered(src, dst, r)
    ensures forall x, y, z | r.In(x, y, z) :: r.vox[x, y, z] == old(Sample(Eroded6(Raw(src.vox)), x, y, z))
  {
    r := Destination(src, dst);
    ReduceAll(Min, Cross, src, r);
  }

  /** MRIdilate6: the maximum of each voxel and its 6 face neighbours. */
  method Dilate6(src: Mri, dst: Mri?) returns (r: Mri)
    requires dst != null ==> SameShape(src, dst) && src.vox != dst.vox
    modifies Writable(dst)
    ensures Delivered(src, dst, r)
    ensures forall x, y, z | r.In(x, y, z) :: r.vox[x, y, z] == old(Sample(Dilated6(Raw(src.vox)), x, y, z))
  {
    r := Destination(src, dst);
    ReduceAll(Max, Cross, src, r);
  }

  /**
   * MRIopen6: MRIdilate6 of MRIerode6 of src, through a temporary; the
   * answer is the 6-neighbour dilation of the 6-neighbour erosion of the
   * source as it was.  Because the erosion goes to a fresh temporary, dst
   * may be src.
   */
  method Open6(src: Mri, dst: Mri?) returns (r: Mri)
    requires dst != null ==> SameShape(src, dst)
    modifies Writable(dst)
    ensures Delivered(src, dst, r)
    ensures forall x, y, z | r.In(x, y, z) :: r.vox[x, y, z] == old(Sample(Dilated6(Eroded6(Raw(src.vox))), x, y, z))
  {
    var tmp := Erode6(src, null);
    ghost var e := Eroded6(Raw(src.vox));
    assert SameDims(Raw(tmp.vox), e) && Agree(Raw(tmp.vox), e);
    ReducedAgree(Max, Cross, Raw(tmp.vox), e);
    r := Dilate6(tmp, dst);
  }

  /** MRIclose6: MRIerode6 of MRIdilate6 of src, through a temporary. */
  method Close6(src: Mri, dst: Mri?) returns (r: Mri)
    requires dst != null ==> SameShape(src, dst)
    modifies Writable(dst)
    ensures Delivered(src, dst, r)
    ensures forall x, y, z | r.In(x, y, z) :: r.vox[x, y, z] == old(Sample(Eroded6(Dilated6(Raw(src.vox))), x, y, z))
  {
    var tmp := Dilate6(src, null);
    ghost var d := Dilated6(Raw(src.vox));
    assert SameDims(Raw(tmp.vox), d) && Agree(Raw(tmp.vox), d);
    ReducedAgree(Min, Cross, Raw(tmp.vox), d);
    r := Erode6(tmp, dst);
  }

  /**
   * Erosion never raises a voxel and dilation never lowers one, over the
   * 27-voxel cube and over the 6-face cross: both windows hold the centre.
   */
  lemma ErodeDilateBracket(f: Field, x: int, y: int, z: int)
    requires InField(f, x, y, z)
    ensures Sample(Eroded(f), x, y, z) <= Sample(f, x, y, z) <= Sample(Dilated(f), x, y, z)
    ensures Sample(Eroded6(f), x, y, z) <= Sample(f, x, y, z) <= Sample(Dilated6(f), x, y, z)
  {
    WindowBound(Min, f, 1, x, y, z, x, y, z);
    WindowBound(Max, f, 1, x, y, z, x, y, z);
    CrossBound(Min, f, x, y, z, x, y, z);
    CrossBound(Max, f, x, y, z, x, y, z);
  }

  // ---------------------------------------------------------------------
  // MRIerodeRegion
  // ---------------------------------------------------------------------

  /** MRI_REGION: a corner and an extent per axis. */
  datatype Region = Region(x: int, y: int, z: int, dx: int, dy: int, dz: int)

  /** The end of a region's scan along an axis: x + dx, cut back to the volume's extent. */
  function RegionEnd(start: int, extent: int, n: nat): (e: int)
    ensures e <= n && (e == n || e == start + extent)
  {
    if start + extent > n then n else start + extent
  }

  /** The first index scanned along an axis: the region's corner, raised to 0. */
  function RegionStart(start: int): (s: nat)
    ensures s >= start && (s == 0 || s == start)
  {
    if start < 0 then 0 else start
  }

  /**
   * The header MRIerodeRegion gives the volume it allocates: that of src,
   * with the start moved to the region's corner and the end set from the
   * source's start and the new extent.
   */
  function RegionCalibration(c: Calibration, region: Region, w: int, h: int, d: int): Calibration {
    c.(xstart := c.xstart + region.x as real * c.xsize,
       ystart := c.ystart + region.y as real * c.ysize,
       zstart := c.zstart + region.z as real * c.zsize,
       xend := c.xstart + w as real * c.xsize,
       yend := c.ystart + h as real * c.ysize,
       zend := c.zstart + d as real * c.zsize)
  }

  /**
   * The header arithmetic as written measures the end from the source's
   * start, not from the region's: along x the new header spans
   * (w - region.x) voxels, so whenever the clipped width w is less than the
   * region's corner the end lies before the start (a region at x = 10 of
   * width 5 on a unit grid starting at 0 gets start 10 and end 5).
   */
  lemma RegionEndPrecedesStart(c: Calibration, region: Region, w: int, h: int, d: int)
    ensures var r := RegionCalibration(c, region, w, h, d);
      r.xend - r.xstart == (w - region.x) as real * c.xsize &&
      (c.xsize > 0.0 && w < region.x ==> r.xend < r.xstart)
    ensures var r := RegionCalibration(Calibration(0.0, 0.0, 0.0, 0.0, 0.0, 0.0, 1.0, 1.0, 1.0), Region(10, 0, 0, 5, 1, 1), 5, 1, 1);
      r.xstart == 10.0 && r.xend == 5.0
  {
  }

  /**
   * The loops of MRIerodeRegion: for x in [x0, x1), y in [y0, y1) and z in
   * [z0, z1), out at (x - x0, y - y0, z - z0) becomes the minimum of the
   * clamped (2h + 1)^3 window of src around (x, y, z).  Nothing else of out
   * changes.
   */
  method ErodeBox(src: Mri, out: Mri, h: int, x0: nat, x1: int, y0: nat, y1: int, z0: nat, z1: int)
    requires src.vox != out.vox
    requires x1 <= src.Width() && y1 <= src.Height() && z1 <= src.Depth()
    requires x0 < x1 ==> x1 - x0 <= out.Width()
    requires y0 < y1 ==> y1 - y0 <= out.Height()
    requires z0 < z1 ==> z1 - z0 <= out.Depth()
    modifies out.vox
    ensures forall i, j, k | out.In(i, j, k) ::
      out.vox[i, j, k] == if i < x1 - x0 && j < y1 - y0 && k < z1 - z0
                          then Sample(Reduced(Min, Cube(h), Raw(src.vox)), i + x0, j + y0, k + z0)
                          else old(out.vox[i, j, k])
  {
    var z := z0;
    while z < z1
      invariant z0 <= z && (z <= z1 || z == z0)
      invariant forall i, j, k | out.In(i, j, k) ::
        out.vox[i, j, k] == if i < x1 - x0 && j < y1 - y0 && k < z - z0
                            then Sample(Reduced(Min, Cube(h), Raw(src.vox)), i + x0, j + y0, k + z0)
                            else old(out.vox[i, j, k])
    {
      ErodePlane(src, out, h, x0, x1, y0, y1, z, z - z0);
      z := z + 1;
    }
  }

  /** The y loop of MRIerodeRegion: plane z of src goes to plane k of out. */
  method ErodePlane(src: Mri, out: Mri, h: int, x0: nat, x1: int, y0: nat, y1: int, z: int, k: int)
    requires src.vox != out.vox
    requires x1 <= src.Width() && y1 <= src.Height() && 0 <= z < src.Depth() && 0 <= k < out.Depth()
    requires x0 < x1 ==> x1 - x0 <= out.Width()
    requires y0 < y1 ==> y1 - y0 <= out.Height()
    modifies out.vox
    ensures forall i, j, k' | out.In(i, j, k') ::
      out.vox[i, j, k'] == if i < x1 - x0 && j < y1 - y0 && k' == k
                           then Sample(Reduced(Min, Cube(h), Raw(src.vox)), i + x0, j + y0, z)
                           else old(out.vox[i, j, k'])
  {
    var y := y0;
    while y < y1
      invariant y0 <= y && (y <= y1 || y == y0)
      invariant forall i, j, k' | out.In(i, j, k') ::
        out.vox[i, j, k'] == if i < x1 - x0 && j < y - y0 && k' == k
                             then Sample(Reduced(Min, Cube(h), Raw(src.vox)), i + x0, j + y0, z)
                             else old(out.vox[i, j, k'])
    {
      ErodeRow(src, out, h, x0, x1, y, z, y - y0, k);
      y := y + 1;
    }
  }

  /** The x loop of MRIerodeRegion: row (y, z) of src goes to row (j, k) of out. */
  method ErodeRow(src: Mri, out: Mri, h: int, x0: nat, x1: int, y: int, z: int, j: int, k: int)
    requires src.vox != out.vox
    requires x1 <= src.Width() && 0 <= y < src.Height() && 0 <= z < src.Depth()
    requires 0 <= j < out.Height() && 0 <= k < out.Depth()
    requires x0 < x1 ==> x1 - x0 <= out.Width()
    modifies out.vox
    ensures forall i, j', k' | out.In(i, j', k') ::
      out.vox[i, j', k'] == if i < x1 - x0 && j' == j && k' == k
                            then Sample(Reduced(Min, Cube(h), Raw(src.vox)), i + x0, y, z)
                            else old(out.vox[i, j', k'])
  {
    var x := x0;
    while x < x1
      invariant x0 <= x && (x <= x1 || x == x0)
      invariant forall i, j', k' | out.In(i, j', k') ::
        out.vox[i, j', k'] == if i < x - x0 && j' == j && k' == k
                              then Sample(Reduced(Min, Cube(h), Raw(src.vox)), i + x0, y, z)
                              else old(out.vox[i, j', k'])
    {
      var v := WindowReduce(Min, src, h, x, y, z);
      out.vox[x - x0, j, k] := v;
      x := x + 1;
    }
  }

  /**
   * MRIerodeRegion: the erosion of src with a wsize-wide window (half-width
   * wsize / 2, truncated as C does), over the part of region that lies in
   * the volume, written to dst from its origin.  Without a dst, a
   * zero-filled UChar volume the size of the clipped region (measured from
   * the region's own corner) is allocated, with the header of RegionCalibration.
   */
  method ErodeRegion(src: Mri, dst: Mri?, wsize: int, region: Region) returns (r: Mri)
    requires dst != null ==> src.vox != dst.vox
    requires dst != null ==>
      && (RegionStart(region.x) < RegionEnd(region.x, region.dx, src.Width()) ==>
            RegionEnd(region.x, region.dx, src.Width()) - RegionStart(region.x) <= dst.Width())
      && (RegionStart(region.y) < RegionEnd(region.y, region.dy, src.Height()) ==>
            RegionEnd(region.y, region.dy, src.Height()) - RegionStart(region.y) <= dst.Height())
      && (RegionStart(region.z) < RegionEnd(region.z, region.dz, src.Depth()) ==>
            RegionEnd(region.z, region.dz, src.Depth()) - RegionStart(region.z) <= dst.Depth())
    requires dst == null ==>
      && RegionEnd(region.x, region.dx, src.Width()) >= region.x
      && RegionEnd(region.y, region.dy, src.Height()) >= region.y
      && RegionEnd(region.z, region.dz, src.Depth()) >= region.z
    modifies Writable(dst)
    ensures dst != null ==> r == dst
    ensures dst == null ==> fresh(r) && fresh(r.vox) && r.kind == UChar
    ensures dst == null ==>
      var w, h, d := RegionEnd(region.x, region.dx, src.Width()) - region.x,
                     RegionEnd(region.y, region.dy, src.Height()) - region.y,
                     RegionEnd(region.z, region.dz, src.Depth()) - region.z;
      r.Width() == w && r.Height() == h && r.Depth() == d && r.calibration == RegionCalibration(src.calibration, region, w, h, d)
    ensures forall i, j, k | r.In(i, j, k) ::
      var x0, y0, z0 := RegionStart(region.x), RegionStart(region.y), RegionStart(region.z);
      r.vox[i, j, k] ==
        if i < RegionEnd(region.x, region.dx, src.Width()) - x0 && j < RegionEnd(region.y, region.dy, src.Height()) - y0
           && k < RegionEnd(region.z, region.dz, src.Depth()) - z0
        then old(Sample(Reduced(Min, Cube(HalfTowardZero(wsize)), Raw(src.vox)), i + x0, j + y0, k + z0))
        else if dst == null then 0 else old(dst.vox[i, j, k])
  {
    var h := HalfTowardZero(wsize);
    var width := RegionEnd(region.x, region.dx, src.Width());
    var height := RegionEnd(region.y, region.dy, src.Height());
    var depth := RegionEnd(region.z, region.dz, src.Depth());
    var x0, y0, z0 := RegionStart(region.x), RegionStart(region.y), RegionStart(region.z);
    if dst == null {
      var w, hh, d := width - region.x, height - region.y, depth - region.z;
      r := new Mri(w, hh, d, UChar, RegionCalibration(src.calibration, region, w, hh, d));
    } else {
      r := dst;
    }
    assert Store(Reduced(Min, Cube(h), Raw(src.vox))) == src.vox;
    ErodeBox(src, r, h, x0, width, y0, height, z0, depth);
  }

  // ---------------------------------------------------------------------
  // MRIminmax
  // ---------------------------------------------------------------------

  /**
   * The byte values of OFFSET_ZERO, OFFSET_GRADIENT_DIRECTION and
   * OFFSET_NEGATIVE_GRADIENT_DIRECTION, which are defined outside this file;
   * as labels of one switch they are distinct.
   */
  datatype DirectionCodes = DirectionCodes(zero: Byte, gradient: Byte, negGradient: Byte)

  predicate Distinct(codes: DirectionCodes) {
    codes.zero != codes.gradient && codes.zero != codes.negGradient && codes.gradient != codes.negGradient
  }

  /** What a direction voxel asks for. */
  datatype Direction = Zero | Gradient | NegativeGradient | Other

  function Classify(codes: DirectionCodes, offset: Byte): (d: Direction)
    requires Distinct(codes)
    ensures d == Zero <==> offset == codes.zero
    ensures d == Gradient <==> offset == codes.gradient
    ensures d == NegativeGradient <==> offset == codes.negGradient
  {
    if offset == codes.zero then Zero
    else if offset == codes.gradient then Gradient
    else if offset == codes.negGradient then NegativeGradient
    else Other
  }

  /**
   * The switch of MRIminmax: the window maximum in the gradient direction,
   * the window minimum against it, and the voxel itself otherwise
   * (`default` falls through to the OFFSET_ZERO case).
   */
  function MinMaxRule(d: Direction, centre: Byte, maxVal: Byte, minVal: Byte): (v: Byte)
    ensures d == Gradient ==> v == maxVal
    ensures d == NegativeGradient ==> v == minVal
    ensures d == Zero || d == Other ==> v == centre
  {
    match d
    case Gradient => maxVal
    case NegativeGradient => minVal
    case _ => centre
  }

  /** The value MRIminmax writes at (x, y, z) when the direction voxel there is offset. */
  ghost function MinMaxValue(src: Mri, codes: DirectionCodes, offset: Byte, h: int, x: int, y: int, z: int): Byte
    requires Distinct(codes) && src.In(x, y, z)
    reads src.vox
  {
    MinMaxRule(Classify(codes, offset), src.vox[x, y, z],
               Sample(Reduced(Max, Cube(h), Raw(src.vox)), x, y, z),
               Sample(Reduced(Min, Cube(h), Raw(src.vox)), x, y, z))
  }

  /**
   * MRIminmax never leaves the range of its window: with a non-empty window
   * its value lies between the window's minimum and maximum.
   */
  lemma MinMaxWithinWindow(src: Mri, codes: DirectionCodes, offset: Byte, h: int, x: int, y: int, z: int)
    requires Distinct(codes) && src.In(x, y, z) && h >= 0
    ensures Sample(Reduced(Min, Cube(h), Raw(src.vox)), x, y, z) <= MinMaxValue(src, codes, offset, h, x, y, z)
    ensures MinMaxValue(src, codes, offset, h, x, y, z) <= Sample(Reduced(Max, Cube(h), Raw(src.vox)), x, y, z)
  {
    var f := Raw(src.vox);
    WindowBound(Min, f, h, x, y, z, x, y, z);
    WindowBound(Max, f, h, x, y, z, x, y, z);
  }

  /** The x loop of MRIminmax over row (y, z); dir's row is D's as the row starts. */
  method MinMaxRow(src: Mri, dir: Mri, out: Mri, codes: DirectionCodes, h: int, y: int, z: int, ghost D: Grid)
    requires Distinct(codes) && SameShape(src, dir) && SameShape(src, out) && src.vox != out.vox
    requires 0 <= y < src.Height() && 0 <= z < src.Depth() && GridShaped(D, src)
    requires forall i | 0 <= i < src.Width() :: dir.vox[i, y, z] == D[i][y][z]
    modifies out.vox
    ensures forall i, j, k | out.In(i, j, k) && (j != y || k != z) :: out.vox[i, j, k] == old(out.vox[i, j, k])
    ensures forall i | 0 <= i < src.Width() :: out.vox[i, y, z] == MinMaxValue(src, codes, D[i][y][z], h, i, y, z)
  {
    var x := 0;
    while x < src.Width()
      invariant 0 <= x <= src.Width()
      invariant forall i | x <= i < src.Width() :: dir.vox[i, y, z] == D[i][y][z]
      invariant forall i, j, k | out.In(i, j, k) && (j != y || k != z) :: out.vox[i, j, k] == old(out.vox[i, j, k])
      invariant forall i | 0 <= i < x :: out.vox[i, y, z] == MinMaxValue(src, codes, D[i][y][z], h, i, y, z)
    {
      var offset := dir.vox[x, y, z];
      var maxVal, minVal := 0, 255;
      if offset != codes.zero {
        maxVal := WindowReduce(Max, src, h, x, y, z);
        minVal := WindowReduce(Min, src, h, x, y, z);
      }
      out.vox[x, y, z] := MinMaxRule(Classify(codes, offset), src.vox[x, y, z], maxVal, minVal);
      x := x + 1;
    }
  }

  /** The y loop of MRIminmax over plane z. */
  method MinMaxPlane(src: Mri, dir: Mri, out: Mri, codes: DirectionCodes, h: int, z: int, ghost D: Grid)
    requires Distinct(codes) && SameShape(src, dir) && SameShape(src, out) && src.vox != out.vox
    requires 0 <= z < src.Depth() && GridShaped(D, src)
    requires forall i, j | 0 <= i < src.Width() && 0 <= j < src.Height() :: dir.vox[i, j, z] == D[i][j][z]
    modifies out.vox
    ensures forall i, j, k | out.In(i, j, k) && k != z :: out.vox[i, j, k] == old(out.vox[i, j, k])
    ensures forall i, j | 0 <= i < src.Width() && 0 <= j < src.Height() ::
      out.vox[i, j, z] == MinMaxValue(src, codes, D[i][j][z], h, i, j, z)
  {
    var y := 0;
    while y < src.Height()
      invariant 0 <= y <= src.Height()
      invariant forall i, j | 0 <= i < src.Width() && y <= j < src.Height() :: dir.vox[i, j, z] == D[i][j][z]
      invariant forall i, j, k | out.In(i, j, k) && k != z :: out.vox[i, j, k] == old(out.vox[i, j, k])
      invariant forall i, j | 0 <= i < src.Width() && 0 <= j < y ::
        out.vox[i, j, z] == MinMaxValue(src, codes, D[i][j][z], h, i, j, z)
    {
      MinMaxRow(src, dir, out, codes, h, y, z, D);
      y := y + 1;
    }
  }

  /** The z loop of MRIminmax. */
  method MinMaxVolume(src: Mri, dir: Mri, out: Mri, codes: DirectionCodes, h: int, ghost D: Grid)
    requires Distinct(codes) && SameShape(src, dir) && SameShape(src, out) && src.vox != out.vox
    requires GridShaped(D, src) && forall i, j, k | src.In(i, j, k) :: dir.vox[i, j, k] == D[i][j][k]
    modifies out.vox
    ensures forall i, j, k | src.In(i, j, k) :: out.vox[i, j, k] == MinMaxValue(src, codes, D[i][j][k], h, i, j, k)
  {
    var z := 0;
    while z < src.Depth()
      invariant 0 <= z <= src.Depth()
      invariant forall i, j, k | src.In(i, j, k) && z <= k :: dir.vox[i, j, k] == D[i][j][k]
      invariant forall i, j, k | src.In(i, j, k) && k < z :: out.vox[i, j, k] == MinMaxValue(src, codes, D[i][j][k], h, i, j, k)
    {
      MinMaxPlane(src, dir, out, codes, h, z, D);
      z := z + 1;
    }
  }

  /**
   * MRIminmax: each voxel becomes the maximum or the minimum of its clamped
   * window of half-width (wsize - 1) / 2, or keeps its value, as the
   * direction volume's voxel there asks.  dir may be dst: each direction
   * voxel is read before the voxel at the same place is written.
   */
  method MinMax(src: Mri, dst: Mri?, dir: Mri, wsize: int, codes: DirectionCodes) returns (r: Mri)
    requires Distinct(codes) && SameShape(src, dir)
    requires dst != null ==> SameShape(src, dst) && src.vox != dst.vox
    modifies Writable(dst)
    ensures Delivered(src, dst, r)
    ensures forall x, y, z | r.In(x, y, z) ::
      r.vox[x, y, z] == old(MinMaxValue(src, codes, dir.vox[x, y, z], HalfTowardZero(wsize - 1), x, y, z))
  {
    var h := HalfTowardZero(wsize - 1);
    ghost var D := Snapshot(dir);
    r := Destination(src, dst);
    MinMaxVolume(src, dir, r, codes, h, D);
  }
}
