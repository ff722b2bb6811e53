# Voxel set algebra and morphology of utils/mriset.c

This project is a Dafny model of `utils/mriset.c` from FreeSurfer. That file
holds the operations that treat an 8-bit (`MRI_UCHAR`) volume as a set of
labelled voxels:

- **Voxel-wise algebra:** union, intersection, complement, xor, residual,
  value replacement, masking and mask thresholding.
- **Neighbourhood filters:** 3x3x3 and 6-neighbour erosion and dilation, the
  openings and closings built from them, region erosion, and the
  direction-driven min/max filter.
- **Flood fill:** `MRIgrowLabel`.
- **Hemisphere labels:** `MRIturnOnFG` and `MRIturnOffBG`, with its
  `findLabel` vote.

The model follows the C code file by file.

- `volume.dfy`: the volume is a class `Mri` whose voxel store is an
  `array3<Byte>`, indexed `vox[x, y, z]` (`MRIvox(mri, x, y, z)` in C). A
  missing destination (`NULL`) is `dst == null`, and the operation then
  allocates a fresh zero-filled clone. The clamp-to-edge index tables `xi`,
  `yi` and `zi` are the function `Clamp`.
- `set_algebra.dfy`: every voxel-wise operation is one shared z/y/x scan
  (`MapVoxels`), proved to give each destination voxel the rule applied to
  the sources' original voxels. This holds even when the destination is one
  of the sources. `MRImaskThreshold` keeps its own scan, because it also
  counts. Its counters `non`, `noff` and `nchanged` are results, proved equal
  to the sizes of the sets of voxels it turns on and off.
- `neighbourhood.dfy`: the value a filter computes at a voxel is a function
  over a `Field`, meaning a store seen through nested min/max reductions and
  complements. It folds the clamped neighbours in the same order as the C
  loops. Its lemmas prove what that fold means:
  - the result is the minimum (maximum) of the in-volume voxels of the window
    (`WindowBound` and `WindowGreatest`; `CrossBound` and `CrossGreatest` for
    the 6-neighbourhood);
  - it depends only on the voxel values (`ReducedAgree`);
  - complement turns dilation into erosion (`ComplementDuality`);
  - an opening never raises a voxel and a closing never lowers one, over
    the 27-voxel cube and over the 6-face cross (`OpeningClosingBracket`).
- `morphology.dfy`: the filter methods, each proved to give every voxel it
  writes the `Field` value, and to say which voxels it writes.
  - `MRIerode`, `MRIclose` and the 6-neighbour filters write every voxel.
  - `MRIdilate` and `MRIopen` write only inside the bounding box (of the
    source, or of its erosion). Outside it a fresh destination holds 0, which
    is the filter value there. A given destination keeps its previous values,
    so an in-place `MRIopen` does not clear an isolated voxel (see
    "Findings"); `OpenComplete` is the opening as intended.
  - `MRIerodeRegion` writes the box of the clipped region; a given
    destination keeps its other voxels.

  The header arithmetic of `MRIerodeRegion` is
  kept as written. Its end coordinate is measured from the source's start
  rather than from the region's, so it falls `region.x` voxels short.
  `RegionEndPrecedesStart` shows that the end lies before the start exactly
  when the clipped width is less than the region's corner (for a positive
  voxel size).
- `bounding_box.dfy`: the bounding-box scan of `MRIdilate`. The box starts
  inverted and grows one voxel past every non-zero voxel. It is proved to
  select exactly the voxels characterised by `InBoundingBox`. Dilation is
  proved to be 0 outside that box, so skipping those voxels changes nothing
  when the destination starts at 0.
- `region_growing.dfy`: `MRIgrowLabel`.
  - Its first scan is proved to bound every selected voxel.
  - The background fill marks exactly the voxels on or outside that box.
  - Every sweep fills only `in_label` voxels that were not yet `out_label`.
  - The do/while loop terminates, because each sweep that fills something
    removes that many voxels from the set not yet `out_label`.
  - On exit, every `out_label` voxel in the box has all its in-volume
    26-neighbours labelled `in_label` filled.
- `hemispheres.dfy`: `MRIturnOnFG` leaves the volume equal to the foreground
  volume, voxel for voxel. `MRIturnOffBG` zeroes every voxel set in the
  background and keeps every other non-zero voxel. It labels each remaining
  zero voxel with the `findLabel` vote over its 3x3x3 block, exactly as the
  in-place scan sees that block: voxels already relabelled before it in
  raster order, first-pass values from it on.

## Model

| member | source | states |
|---|---|---|
| Volume.Mri.constructor | utils/mriset.c:138-142 | allocation with a header copy gives a store of the requested dimensions, the given kind and header, every voxel 0 |
| Volume.Clone | utils/mriset.c:64-65 | MRIclone gives a fresh volume of the source's dimensions, kind and header, every voxel 0 |
| Volume.Destination | utils/mriset.c:64-65 | a given destination is used as is; without one, the result is a fresh zero-filled clone of the source |
| Volume.CopyVoxels | utils/mriset.c:293-298 | after the copy back every voxel of the target equals the corresponding voxel of the temporary |
| Volume.Clamp | utils/mriset.c:274-283 | an index-table lookup always lands inside the axis and leaves an in-range index unchanged |
| Volume.ClampNearest | utils/mriset.c:274-283 | the clamped index is the in-range index nearest to the requested one |
| Volume.HalfTowardZero | utils/mriset.c:603 | C's `wsize/2` truncates toward zero: twice the result is n, or n moved one toward zero |
| SetAlgebra.Larger | utils/mriset.c:78 | MAX is an upper bound of both operands and is one of them |
| SetAlgebra.Smaller | utils/mriset.c:115 | MIN is a lower bound of both operands and is one of them |
| SetAlgebra.XorRule | utils/mriset.c:198-200 | the xor voxel is 0 or 1, and 1 exactly when one operand lies in [t1, t2] and the other does not |
| SetAlgebra.ResidualRule | utils/mriset.c:709-716 | 255 exactly when only the first operand is in band, 0 exactly when only the second is, 128 exactly when both agree |
| SetAlgebra.ToByte | utils/mriset.c:912 | storing the int out_label in a byte keeps values 0..255 and otherwise keeps the value modulo 256 |
| SetAlgebra.ThresholdBands | utils/mriset.c:909-914 | with a threshold of at least 50, a voxel keeps its source value exactly when the mask is in the uncertain band or the decided value already equals the source |
| SetAlgebra.ThresholdedSymmetry | utils/mriset.c:709-716 | xor is symmetric; residual 128 is symmetric and 255 and 0 swap when the operands swap; xor is 0 exactly where the residual is 128 |
| SetAlgebra.MapVoxels | utils/mriset.c:67-81 | every destination voxel becomes the rule applied to the two sources' original voxels at the same place, even when the destination is a source |
| SetAlgebra.Union | utils/mriset.c:54-83 | each result voxel is the larger of the two sources' original voxels; result is the given or a fresh destination |
| SetAlgebra.Intersect | utils/mriset.c:91-120 | each result voxel is the smaller of the two sources' original voxels |
| SetAlgebra.Complement | utils/mriset.c:128-158 | each result voxel is 1 where the source was 0 and 0 elsewhere |
| SetAlgebra.Xor | utils/mriset.c:166-205 | NULL exactly when a source or the given destination is not UCHAR, and then nothing changes; otherwise each voxel is the xor of the two band tests |
| SetAlgebra.ComputeResidual | utils/mriset.c:676-722 | the same UCHAR guards as xor; otherwise each voxel is 255, 0 or 128 as only the first, only the second, or both or neither source lies in band |
| SetAlgebra.ReplaceValues | utils/mriset.c:798-827 | every voxel equal to in_val becomes out_val and every other voxel keeps its value |
| SetAlgebra.Mask | utils/mriset.c:835-867 | out_val where the mask voxel equals mask, the source voxel everywhere else |
| SetAlgebra.RowCounted | utils/mriset.c:915-922 | the running count of a row equals the number of voxels of that row the rule changes (on or off) |
| SetAlgebra.PlaneCounted | utils/mriset.c:915-922 | the running count of a plane equals the number of its voxels the rule changes |
| SetAlgebra.VolumeCounted | utils/mriset.c:915-922 | the running count over the planes scanned equals the number of their voxels the rule changes |
| SetAlgebra.ThresholdCounted | utils/mriset.c:915-922 | the final counter is the size of the set of in-volume voxels whose thresholded value differs from the source and is zero (off) or nonzero (on) |
| SetAlgebra.ThresholdVoxel | utils/mriset.c:906-923 | one voxel is written with the threshold rule, nothing else changes, and non or noff goes up by one exactly when the voxel is turned on or off |
| SetAlgebra.ThresholdRow | utils/mriset.c:902-924 | the row is written with the threshold rule, every other voxel is unchanged, the counters grow by the row's changes |
| SetAlgebra.ThresholdPlane | utils/mriset.c:897-925 | the plane is written with the threshold rule, every other voxel is unchanged, the counters grow by the plane's changes |
| SetAlgebra.ThresholdVolume | utils/mriset.c:895-926 | every voxel is written with the threshold rule and the counters are the volume's totals |
| SetAlgebra.MaskThreshold | utils/mriset.c:873-936 | NULL exactly for a non-UCHAR mask; otherwise each voxel is 0 below 100-threshold, out_label above threshold, the source between; non and noff are the sizes of the sets of voxels turned on and off, nchanged their sum |
| Neighbourhood.Combine | utils/mriset.c:284-285 | one accumulation step keeps whichever of accumulator and value is more extreme |
| Neighbourhood.CombineAssociates | utils/mriset.c:284-285 | accumulation steps may be regrouped without changing the result |
| Neighbourhood.Not | utils/mriset.c:153 | `!b` is 1 exactly for 0 and 0 otherwise |
| Neighbourhood.RowBound | utils/mriset.c:280-286 | the x loop folds in every in-volume voxel of the row within the window |
| Neighbourhood.PlaneBound | utils/mriset.c:277-287 | the y loop folds in every in-volume voxel of the plane within the window |
| Neighbourhood.CubeBound | utils/mriset.c:274-288 | the z loop folds in every in-volume voxel of the window |
| Neighbourhood.WindowBound | utils/mriset.c:273-289 | the eroded (dilated) value is at most (at least) every in-volume voxel of the window |
| Neighbourhood.RowWithin | utils/mriset.c:280-286 | a bound on every in-volume voxel of the row window bounds the x loop's result |
| Neighbourhood.PlaneWithin | utils/mriset.c:277-287 | a bound on every in-volume voxel of the plane window bounds the y loop's result |
| Neighbourhood.CubeWithinStep | utils/mriset.c:274-288 | one more plane keeps a bound on the z loop's accumulator |
| Neighbourhood.CubeWithin | utils/mriset.c:274-288 | a bound on every in-volume voxel of the window bounds the z loop's result |
| Neighbourhood.WindowGreatest | utils/mriset.c:273-289 | with WindowBound: the eroded (dilated) value is exactly the minimum (maximum) of the in-volume window |
| Neighbourhood.AxisBound | utils/mriset.c:459-485 | each of the three small loops of MRIerode6 folds in each voxel it steps to |
| Neighbourhood.AxisWithin | utils/mriset.c:459-485 | a bound on the 6-neighbourhood bounds each small loop's result |
| Neighbourhood.CrossBound | utils/mriset.c:449-491 | the 6-neighbour erosion (dilation) is at most (at least) the centre and each in-volume face neighbour |
| Neighbourhood.CrossGreatest | utils/mriset.c:449-491 | with CrossBound: the 6-neighbour erosion (dilation) is exactly the minimum (maximum) of centre and in-volume face neighbours |
| Neighbourhood.RowAgree | utils/mriset.c:280-286 | the x loop reads only voxel values: two stores that agree give the same result |
| Neighbourhood.PlaneAgree | utils/mriset.c:277-287 | the y loop reads only voxel values |
| Neighbourhood.CubeAgreeStep | utils/mriset.c:274-288 | one more plane keeps the z loops over two agreeing stores equal |
| Neighbourhood.CubeAgree | utils/mriset.c:274-288 | the z loop reads only voxel values |
| Neighbourhood.AxisAgree | utils/mriset.c:459-485 | the small loops of MRIerode6 read only voxel values |
| Neighbourhood.ReducedAgree | utils/mriset.c:407-408 | filtering two agreeing volumes gives agreeing volumes, so a filter applied to a temporary copy gives the same values |
| Neighbourhood.RowDual | utils/mriset.c:280-286 | the complement of the x loop's maximum is the x loop's minimum over the complement |
| Neighbourhood.PlaneDual | utils/mriset.c:277-287 | the same duality for the y loop |
| Neighbourhood.CubeDual | utils/mriset.c:274-288 | the same duality for the z loop |
| Neighbourhood.AxisDual | utils/mriset.c:459-485 | the same duality for the small loops of the 6-neighbour filters |
| Neighbourhood.ComplementDuality | utils/mriset.c:128-158 | complementing a dilation gives the erosion of the complement, for the cube and the 6-neighbour kernels |
| Neighbourhood.OpeningClosingBracket | utils/mriset.c:402-428 | an opening never raises a voxel and a closing never lowers one, for the 27-voxel cube and the 6-face cross |
| Neighbourhood.UniformFieldFixed | utils/mriset.c:273-289 | every filter leaves a uniform volume unchanged |
| Morphology.RowReduce | utils/mriset.c:280-286 | the innermost window loop computes the row accumulation from the given accumulator |
| Morphology.PlaneReduce | utils/mriset.c:277-287 | the middle window loop computes the plane accumulation |
| Morphology.PlaneRow | utils/mriset.c:277-287 | one iteration of the middle loop folds in one more row |
| Morphology.WindowReduce | utils/mriset.c:273-288 | the three window loops compute the reduced value at the voxel |
| Morphology.CubePlane | utils/mriset.c:274-288 | one iteration of the outer window loop folds in one more plane |
| Morphology.CrossReduce | utils/mriset.c:456-485 | the three small loops compute the 6-neighbour reduced value |
| Morphology.AxisReduce | utils/mriset.c:459-465 | one small loop computes its axis accumulation |
| Morphology.AxisStep | utils/mriset.c:459-465 | one iteration of a small loop folds in one more voxel |
| Morphology.KernelReduce | utils/mriset.c:273-289 | the window loops of the chosen kernel compute the reduced value |
| Morphology.ReduceAll | utils/mriset.c:266-292 | every voxel of the output is the reduced value of the source there |
| Morphology.Erode | utils/mriset.c:245-300 | every result voxel is the 3x3x3 clamped minimum of the original source, also when the destination is the source |
| Morphology.DilateRow | utils/mriset.c:365-384 | the row's voxels within the box get the dilated value, every other voxel is unchanged |
| Morphology.DilatePlane | utils/mriset.c:363-385 | the plane's voxels within the box get the dilated value, every other voxel is unchanged |
| Morphology.DilateBox | utils/mriset.c:361-386 | exactly the voxels of the box get the dilated value |
| Morphology.Dilate | utils/mriset.c:308-394 | voxels inside the bounding box get the 3x3x3 maximum, others keep the destination's value (0 for a fresh or same destination, so then the whole result is the dilation) |
| Morphology.Open | utils/mriset.c:402-411 | inside the eroded volume's bounding box, the dilation of the erosion of the source; outside it, 0 for a fresh destination (so then the whole result is the opening) and the destination's previous values otherwise, also when the destination is the source, and the result is the given destination or a fresh volume with the source's shape, kind and header |
| Morphology.IsolatedVoxelOpensAway | utils/mriset.c:245-411 | a lone non-zero voxel at the centre of a 3x3x3 volume erodes away: its opening is 0 everywhere and the eroded volume's bounding box is empty |
| Morphology.InPlaceOpenKeepsIsolatedVoxel | utils/mriset.c:402-411 | as written, opening such a volume in place leaves the centre at 255 |
| Morphology.OpenComplete | utils/mriset.c:402-411 | the intended opening: every voxel of the result is the dilation of the erosion of the source, whatever the destination held, and no voxel is raised, and the result is the given destination or a fresh volume with the source's shape, kind and header |
| Morphology.Close | utils/mriset.c:419-428 | the result is the erosion of the dilation of the source, and the result is the given destination or a fresh volume with the source's shape, kind and header |
| Morphology.Erode6 | utils/mriset.c:436-491 | every result voxel is the 6-neighbour clamped minimum of the source |
| Morphology.Dilate6 | utils/mriset.c:499-554 | every result voxel is the 6-neighbour clamped maximum of the source |
| Morphology.Open6 | utils/mriset.c:562-571 | the result is the 6-neighbour dilation of the 6-neighbour erosion, and the result is the given destination or a fresh volume with the source's shape, kind and header |
| Morphology.Close6 | utils/mriset.c:579-588 | the result is the 6-neighbour erosion of the 6-neighbour dilation, and the result is the given destination or a fresh volume with the source's shape, kind and header |
| Morphology.ErodeDilateBracket | utils/mriset.c:273-289 | erosion never raises and dilation never lowers a voxel, for the 27-voxel cube and the 6-face cross |
| Morphology.RegionEnd | utils/mriset.c:604-612 | the region's end is its start plus extent, cut back to the volume's dimension |
| Morphology.RegionStart | utils/mriset.c:613-621 | the region's start is raised to 0 when negative |
| Morphology.RegionEndPrecedesStart | utils/mriset.c:632-637 | as written, the header spans (w - region.x) voxels along x, so its end lies before its start whenever the voxel size is positive and the clipped width is less than the region's corner (a region at x = 10 of width 5 on a unit grid at 0 gets xstart 10 and xend 5) |
| Morphology.ErodeRow | utils/mriset.c:645-664 | one output row gets the region minima of its source row, everything else unchanged |
| Morphology.ErodePlane | utils/mriset.c:642-665 | one output plane gets the region minima of its source plane |
| Morphology.ErodeBox | utils/mriset.c:640-666 | the output box starting at 0 gets the minima of the clipped source region |
| Morphology.ErodeRegion | utils/mriset.c:596-668 | a fresh destination is UCHAR, sized and placed as the source computes it; each voxel of the clipped region gets the window minimum with whalf = wsize/2 truncated; the other voxels are 0 in a fresh destination and keep their values in a given one |
| Morphology.Classify | utils/mriset.c:772-784 | a direction voxel selects a case exactly when it equals that case's code |
| Morphology.MinMaxRule | utils/mriset.c:772-784 | the window maximum for the gradient direction, the minimum against it, the voxel itself otherwise |
| Morphology.MinMaxWithinWindow | utils/mriset.c:752-785 | the value MRIminmax writes always lies between the window's minimum and maximum |
| Morphology.MinMaxRow | utils/mriset.c:750-786 | the row gets the min/max value for each direction voxel, every other row is unchanged |
| Morphology.MinMaxPlane | utils/mriset.c:746-787 | the plane gets the min/max value, every other plane is unchanged |
| Morphology.MinMaxVolume | utils/mriset.c:744-788 | every voxel gets the min/max value for its direction voxel |
| Morphology.MinMax | utils/mriset.c:730-790 | every result voxel is the min/max value with whalf = (wsize-1)/2 truncated |
| BoundingBox.LowStep | utils/mriset.c:340-351 | a scan step keeps the lower bound equal to the least seen non-zero coordinate minus one, or the initial extent - 1 |
| BoundingBox.HighStep | utils/mriset.c:340-353 | a scan step keeps the upper bound equal to the greatest seen non-zero coordinate plus one, or 0 |
| BoundingBox.AxisStep | utils/mriset.c:340-354 | a scan step keeps both bounds of an axis tracking |
| BoundingBox.TracksStep | utils/mriset.c:340-354 | a scan step keeps all six bounds tracking |
| BoundingBox.ScanTracks | utils/mriset.c:330-357 | at every point of the scan, the box holds the bounds of the voxels seen so far |
| BoundingBox.ClipLow | utils/mriset.c:358-360 | after the clip, a coordinate is at or above the lower bound exactly when it is the last index or within one of some non-zero voxel from below |
| BoundingBox.ClipHigh | utils/mriset.c:358-360 | after the clip, a coordinate is at or below the upper bound exactly when it is 0 or within one of some non-zero voxel from above |
| BoundingBox.ClipAxis | utils/mriset.c:358-360 | the clipped bounds of one axis admit exactly the coordinates of the bounding box |
| BoundingBox.ClipPoint | utils/mriset.c:358-360 | a voxel is in the clipped box exactly when it is in the bounding box |
| BoundingBox.ScanBox | utils/mriset.c:330-360 | the clipped result of the whole scan contains exactly the voxels of the bounding box |
| BoundingBox.ScanRow | utils/mriset.c:335-356 | the x loop advances the box by one row of the scan |
| BoundingBox.ScanPlane | utils/mriset.c:333-357 | the y loop advances the box by one plane of the scan |
| BoundingBox.Scan | utils/mriset.c:330-360 | the computed box lies within the volume and contains exactly the voxels of the bounding box |
| BoundingBox.DilationVanishesOutside | utils/mriset.c:361-386 | outside the bounding box the 3x3x3 dilation is 0, so the voxels the loop skips need no value |
| BoundingBox.BoxAgree | utils/mriset.c:330-357 | two volumes with the same voxel values have the same bounding box |
| RegionGrowing.LabelScanContains | utils/mriset.c:951-1003 | every selected voxel the first scan has passed lies in its box |
| RegionGrowing.LabelScanBounded | utils/mriset.c:951-1003 | the first scan's box is the initial one or lies within the volume |
| RegionGrowing.LabelBoxContains | utils/mriset.c:951-1003 | the final box contains every in_label voxel (every non-zero voxel when in_label is 0) |
| RegionGrowing.LabelBoxInVolume | utils/mriset.c:951-1003 | every voxel of the final box is in the volume |
| RegionGrowing.LabelScanRow | utils/mriset.c:957-974 | the x loop advances the box by one row |
| RegionGrowing.LabelScanPlane | utils/mriset.c:955-975 | the y loop advances the box by one plane |
| RegionGrowing.LabelScan | utils/mriset.c:951-1003 | the scan's result contains every selected voxel |
| RegionGrowing.MarkRow | utils/mriset.c:1010-1019 | exactly the row's voxels on or outside the box become out_label and are counted |
| RegionGrowing.MarkPlane | utils/mriset.c:1008-1020 | exactly the plane's voxels on or outside the box become out_label and are counted |
| RegionGrowing.MarkOutside | utils/mriset.c:1005-1021 | exactly the voxels on or outside the box become out_label and total_filled counts them |
| RegionGrowing.FillVoxel | utils/mriset.c:1055-1060 | a neighbour labelled in_label becomes out_label and is counted when it was not already |
| RegionGrowing.FillRow | utils/mriset.c:1050-1061 | after the xk loop every in_label neighbour in the row is out_label and only in_label voxels were filled |
| RegionGrowing.FillPlane | utils/mriset.c:1045-1062 | after the yk loop every in_label neighbour in the plane is out_label |
| RegionGrowing.FillAround | utils/mriset.c:1040-1063 | after the neighbour loops every in-volume in_label 26-neighbour is out_label |
| RegionGrowing.SweepRow | utils/mriset.c:1036-1065 | a row of a sweep fills only in_label voxels, counts them, and when nothing is filled every out_label voxel visited is closed |
| RegionGrowing.SweepPlane | utils/mriset.c:1034-1066 | the same for a plane of a sweep |
| RegionGrowing.Sweep | utils/mriset.c:1031-1067 | a sweep fills exactly the counted set of in_label voxels that were not out_label; a sweep filling nothing leaves every out_label voxel of the box closed |
| RegionGrowing.UnfilledShrinks | utils/mriset.c:1055-1059 | filling n voxels that were not out_label removes exactly n voxels from those not out_label |
| RegionGrowing.Resweep | utils/mriset.c:1029-1070 | one pass of the do/while adds its fills to those of earlier passes and shrinks the unfilled set by as many |
| RegionGrowing.GrowLabel | utils/mriset.c:942-1072 | terminates; filled changes only at the marked voxels (exactly those on or outside the box, when in_label is 0) and at grown in_label voxels; total_filled counts both; afterwards every out_label voxel in the box is closed |
| Hemispheres.TurnOnComposition | utils/mriset.c:1085-1108 | the two passes together turn any voxel into its foreground value |
| Hemispheres.TurnOnFG | utils/mriset.c:1078-1110 | afterwards mri equals mri_fg voxel for voxel, and mri_fg is unchanged |
| Hemispheres.Vote | utils/mriset.c:1182-1184 | the label is left exactly on a strict left majority (or when the labels coincide), right otherwise |
| Hemispheres.RowOutside | utils/mriset.c:1166-1168 | a row outside the volume adds nothing to either count |
| Hemispheres.PlaneOutside | utils/mriset.c:1161-1163 | a plane outside the volume adds nothing to either count |
| Hemispheres.RowAgree | utils/mriset.c:1169-1179 | the row count depends only on the values the vote can see |
| Hemispheres.PlaneAgree | utils/mriset.c:1164-1180 | the plane count depends only on the values the vote can see |
| Hemispheres.CubeAgree | utils/mriset.c:1159-1181 | the block count depends only on the values the vote can see |
| Hemispheres.TallyAgree | utils/mriset.c:1159-1181 | both counters depend only on the 3x3x3 block the vote can see |
| Hemispheres.UniformRow | utils/mriset.c:1169-1179 | a row of a uniform block counts only for its label, and at least once when it holds the centre |
| Hemispheres.UniformPlane | utils/mriset.c:1164-1180 | a plane of a uniform block counts only for its label |
| Hemispheres.UniformCube | utils/mriset.c:1159-1181 | a uniform block counts only for its label, at least once |
| Hemispheres.UnanimousVote | utils/mriset.c:1151-1185 | a block uniformly labelled with one hemisphere votes for that hemisphere |
| Hemispheres.FindRow | utils/mriset.c:1169-1179 | the xk loop adds the row's counts for both labels |
| Hemispheres.FindPlane | utils/mriset.c:1164-1180 | the yk loop adds the plane's counts |
| Hemispheres.FindLabel | utils/mriset.c:1151-1185 | the result is the vote over the in-volume 3x3x3 block as the volume is now |
| Hemispheres.CurrentView | utils/mriset.c:1143-1145 | the vote read from the store being rewritten equals the vote over the relabelled voxels before and the first-pass values after |
| Hemispheres.SettledView | utils/mriset.c:1143-1145 | writing a voxel does not change the view of any voxel already passed |
| Hemispheres.VoteVoxel | utils/mriset.c:1141-1146 | one voxel of the second pass keeps the invariant that every passed voxel is resolved |
| Hemispheres.VoteRow | utils/mriset.c:1139-1147 | a row of the second pass keeps that invariant |
| Hemispheres.VotePlane | utils/mriset.c:1137-1148 | a plane of the second pass keeps that invariant |
| Hemispheres.TurnOffBG | utils/mriset.c:1118-1150 | background voxels become 0; other non-zero voxels keep their value; other zero voxels become the in-place vote, hence always left or right |

## Left out

- `MRImorph`: it is not part of the set algebra and filter core.
- The `orient_mri` sources: they are outside `utils/mriset.c`.
- `MRIalloc`, `MRIcopyHeader`, `MRIcopy`, `MRIfree` and the building of the `xi`, `yi` and `zi` tables are defined outside this file. Allocation is a zero-filled `Mri` (`Volume.Clone`, `Volume.Destination`). The voxel copy is `Volume.CopyVoxels`. The tables are `Volume.Clamp`, which assumes they clamp every offset used to the nearest edge. Freeing has no counterpart.
- `fprintf`, `ErrorReturn` messages and `DiagBreak`: diagnostics only. An error return is the `null` result.
- `MRImaskThreshold`'s percentages: they are printed, not returned. The "on" line prints `nchanged` where its percentage uses `non`; the model returns all three counters.
- `MRIgrowLabel`'s per-pass messages: printed. Its total is returned as `total`.
- Float arithmetic: `threshold` is a C `float`, compared here as an exact `real`. Rounding in `100-threshold` and in the header arithmetic of `MRIerodeRegion` is not modelled.
- Hemisphere label values: `MRI_LEFT_HEMISPHERE` and `MRI_RIGHT_HEMISPHERE` come from another header. They are the parameters `left` and `right`.
- `MRIminmax` direction codes: the `OFFSET_*` values come from another header. They are the parameter `codes`, assumed distinct, as case labels of one switch must be.
- Non-`MRI_UCHAR` volumes: the store is always 8-bit. Only the type tests in `MRIxor`, `MRIcomputeResidual` and `MRImaskThreshold`, and the `MRI_UCHAR` allocation of `MRIerodeRegion`, are modelled (`kind`). The other functions read every volume as bytes, as the C macros do.
- Morphology.MinMax: computes the window maximum and minimum in two passes where the C uses one fused loop; the values are the same. It also requires a destination whose store is not the source's, because the C reads neighbours the scan may already have overwritten when they are the same.
- Morphology.Erode6: requires a destination whose store differs from the source's, because the C has no temporary for that case. Morphology.Dilate6 likewise.
- Morphology.ErodeRegion: requires a given destination to have a store distinct from the source and large enough for the clipped region, because the C writes it unchecked. With a fresh destination it requires the clipped end not to lie before the region's start, so that the allocated size is not negative.
- Morphology.Erode, Morphology.Dilate: require a destination that is either the source itself or has a store of its own. Two distinct volume handles sharing one store cannot arise from the allocation functions.
- Hemispheres.TurnOffBG: requires `mri` and `mri_bg` to be distinct stores. With one store the first pass would zero every non-zero voxel before the second reads it.
- RegionGrowing.GrowLabel: requires distinct stores for `mri` and `mri_filled`, and `out_label` in 0..255, because a byte store compared with an int would otherwise never equal it. It also requires some dimension to be non-zero: for a volume of size 0x0x0 the initial box (0..0) would make the sweep read voxel (0, 0, 0), which does not exist.
- Source and destination shapes: every operation requires the volumes it combines to have the same dimensions, because the C indexes all of them with the first source's dimensions.
- Integer widths: voxel counters are unbounded `nat`s where the C uses `int`; no volume the C could allocate overflows them.

## Findings

| source | as written | input that shows it | evidently intended | confidence | as-written member | corrected member |
|---|---|---|---|---|---|---|
| utils/mriset.c:358-386 | `MRIdilate` writes a given destination only inside the bounding box, and `MRIopen` (lines 402-411) dilates its erosion into the caller's destination | a 3x3x3 volume whose only non-zero voxel is the centre, at 255, passed to `MRIopen(mri, mri)` | the opening is 0 at every voxel, so the centre becomes 0; as written it stays 255 | not executed; medium, since callers that pass a zero-filled destination are unaffected | Morphology.InPlaceOpenKeepsIsolatedVoxel | Morphology.OpenComplete |
