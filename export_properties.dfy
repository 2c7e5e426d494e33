/** What an export guarantees about the series it writes. */
module ExportProperties {
  import opened Results
  import opened NdArrays
  import opened Naming
  import opened Dicom
  import opened Volumes
  import opened Export

  /**
   * When `toDicom` runs to the end: the volume is not empty, `size[2]` is
   * readable, and if there is any slice to write the frame has a start and a
   * spacing with three components and the data has at least `size[2]` slices.
   */
  predicate Exportable(vol: Volume) {
    && |vol.data.flat| > 0
    && vol.frame.size.Some? && |vol.frame.size.value| >= 3
    && (vol.frame.size.value[2] > 0 ==>
          && vol.frame.spacing.Some? && |vol.frame.spacing.value| >= 3
          && vol.frame.start.Some? && |vol.frame.start.value| >= 3
          && |vol.data.shape| >= 3 && vol.frame.size.value[2] <= vol.data.shape[0])
  }

  /** File `k` of an export is slice `k`'s file, built from the shared values. */
  lemma WrittenAt(vol: Volume, prefix: string, clock: nat -> Stamp, supply: nat, k: nat)
    requires k < |ExportSpec(vol, prefix, clock, supply).written|
    ensures |vol.data.flat| > 0 && vol.frame.size.Some? && |vol.frame.size.value| >= 3
    ensures k < vol.frame.size.value[2]
    ensures SliceReady(vol, k)
    ensures ExportSpec(vol, prefix, clock, supply).written[k] ==
              SliceFile(vol, prefix, clock(k), SharedFor(vol, supply), supply + 3 + 2 * k, k)
    ensures supply + 3 + 2 * (k + 1) <= ExportSpec(vol, prefix, clock, supply).supply
  {}

  /** The attributes of file `k` of an export. */
  lemma WrittenFields(vol: Volume, prefix: string, clock: nat -> Stamp, supply: nat, k: nat)
    requires k < |ExportSpec(vol, prefix, clock, supply).written|
    ensures SliceReady(vol, k) && |vol.data.flat| > 0
    ensures var f := ExportSpec(vol, prefix, clock, supply).written[k];
            var ds := f.dataset;
            && f.name == FileName(prefix, k)
            && KeepsConstants(ds)
            && ds.header.contentDate == clock(k).date && ds.header.contentTime == clock(k).time
            && ds.header.seriesInstanceUid == Generated(supply)
            && ds.header.studyInstanceUid == Generated(supply + 1)
            && ds.header.frameOfReferenceUid == Generated(supply + 2)
            && ds.header.sopInstanceUid == Generated(supply + 3 + 2 * k + 1)
            && ds.fileMeta.mediaStorageSopInstanceUid == Generated(supply + 3 + 2 * k)
            && ds.image == SliceImage(vol, Min(vol.data.flat), k)
  {
    WrittenAt(vol, prefix, clock, supply, k);
    SliceFileFields(vol, prefix, clock(k), SharedFor(vol, supply), supply + 3 + 2 * k, k);
  }

  /**
   * An export finishes without an exception exactly when the volume is
   * exportable, and it then writes exactly `size[2]` files; an export that
   * stops early writes fewer.
   */
  lemma ExportCompletesIff(vol: Volume, prefix: string, clock: nat -> Stamp, supply: nat)
    ensures var r := ExportSpec(vol, prefix, clock, supply);
            (r.error.None? <==> Exportable(vol)) &&
            (r.error.None? ==> |r.written| == vol.frame.size.value[2]) &&
            (r.error.Some? && vol.frame.size.Some? && |vol.frame.size.value| >= 3 ==>
               |r.written| < vol.frame.size.value[2] || |vol.data.flat| == 0)
  {
    var r := ExportSpec(vol, prefix, clock, supply);
    if |vol.data.flat| > 0 && vol.frame.size.Some? && |vol.frame.size.value| >= 3 {
      var n := vol.frame.size.value[2];
      if n > 0 && IterationError(vol, 0).None? {
        assert IterationError(vol, n - 1).None? <==> n <= vol.data.shape[0];
      }
    }
  }

  /** File `k` is named `prefix + '{:04d}'.format(k) + '.dcm'`, and no two files share a name. */
  lemma ExportNames(vol: Volume, prefix: string, clock: nat -> Stamp, supply: nat)
    ensures var w := ExportSpec(vol, prefix, clock, supply).written;
            (forall k :: 0 <= k < |w| ==> w[k].name == prefix + Pad4(k) + ".dcm") &&
            (forall j, k :: 0 <= j < k < |w| ==> w[j].name != w[k].name)
  {
    var w := ExportSpec(vol, prefix, clock, supply).written;
    forall k | 0 <= k < |w| ensures w[k].name == prefix + Pad4(k) + ".dcm" {
      WrittenFields(vol, prefix, clock, supply, k);
    }
    forall j, k | 0 <= j < k < |w| ensures w[j].name != w[k].name {
      WrittenFields(vol, prefix, clock, supply, j);
      WrittenFields(vol, prefix, clock, supply, k);
      if w[j].name == w[k].name {
        FileNameInjective(prefix, j, k);
      }
    }
  }

  /** The geometry of slice `k` comes from the frame and the index alone. */
  lemma ExportGeometry(vol: Volume, prefix: string, clock: nat -> Stamp, supply: nat, k: nat)
    requires k < |ExportSpec(vol, prefix, clock, supply).written|
    ensures vol.frame.start.Some? && |vol.frame.start.value| >= 3
    ensures vol.frame.spacing.Some? && |vol.frame.spacing.value| >= 3
    ensures vol.frame.size.Some? && |vol.frame.size.value| >= 3
    ensures var start, spacing, size := vol.frame.start.value, vol.frame.spacing.value, vol.frame.size.value;
            var ds := ExportSpec(vol, prefix, clock, supply).written[k].dataset;
            && ds.image.sliceLocation == start[2] + k as real * spacing[2]
            && ds.image.imagePositionPatient == [start[0], start[1], ds.image.sliceLocation]
            && ds.image.columns == size[0] && ds.image.rows == size[1]
            && ds.image.sliceThickness == spacing[2]
            && ds.image.pixelSpacing == [spacing[0], spacing[1]]
            && ds.image.acquisitionNumber == k + 1
  {
    WrittenFields(vol, prefix, clock, supply, k);
    SliceGeometry(vol, Min(vol.data.flat), k);
  }

  /**
   * Study, series and frame-of-reference UIDs are the three drawn first and
   * the same on every slice; each slice's SOP instance UID and media-storage
   * instance UID are drawn by that slice, so none of them repeats or equals
   * a shared UID, and all lie in the part of the supply this export used.
   */
  lemma ExportUids(vol: Volume, prefix: string, clock: nat -> Stamp, supply: nat)
    ensures var r := ExportSpec(vol, prefix, clock, supply);
            var w := r.written;
            && (forall k :: 0 <= k < |w| ==>
                  && w[k].dataset.header.seriesInstanceUid == Generated(supply)
                  && w[k].dataset.header.studyInstanceUid == Generated(supply + 1)
                  && w[k].dataset.header.frameOfReferenceUid == Generated(supply + 2)
                  && DrawnIn(w[k].dataset.header.sopInstanceUid, supply + 3, r.supply)
                  && DrawnIn(w[k].dataset.fileMeta.mediaStorageSopInstanceUid, supply + 3, r.supply))
            && (forall j, k :: 0 <= j < |w| && 0 <= k < |w| ==>
                  w[j].dataset.header.sopInstanceUid != w[k].dataset.fileMeta.mediaStorageSopInstanceUid)
            && (forall j, k :: 0 <= j < k < |w| ==>
                  && w[j].dataset.header.sopInstanceUid != w[k].dataset.header.sopInstanceUid
                  && w[j].dataset.fileMeta.mediaStorageSopInstanceUid
                       != w[k].dataset.fileMeta.mediaStorageSopInstanceUid)
  {
    var r := ExportSpec(vol, prefix, clock, supply);
    var w := r.written;
    forall k | 0 <= k < |w|
      ensures w[k].dataset.header.sopInstanceUid == Generated(supply + 3 + 2 * k + 1)
      ensures w[k].dataset.fileMeta.mediaStorageSopInstanceUid == Generated(supply + 3 + 2 * k)
      ensures w[k].dataset.header.seriesInstanceUid == Generated(supply)
      ensures w[k].dataset.header.studyInstanceUid == Generated(supply + 1)
      ensures w[k].dataset.header.frameOfReferenceUid == Generated(supply + 2)
      ensures supply + 3 + 2 * (k + 1) <= r.supply
    {
      WrittenAt(vol, prefix, clock, supply, k);
      WrittenFields(vol, prefix, clock, supply, k);
    }
  }

  /** Two exports in a row, the second drawing from where the first stopped, share no instance UID. */
  lemma ConsecutiveExportsDisjoint(v1: Volume, v2: Volume, p1: string, p2: string,
                                   c1: nat -> Stamp, c2: nat -> Stamp, supply: nat, j: nat, k: nat)
    requires j < |ExportSpec(v1, p1, c1, supply).written|
    requires k < |ExportSpec(v2, p2, c2, ExportSpec(v1, p1, c1, supply).supply).written|
    ensures ExportSpec(v1, p1, c1, supply).written[j].dataset.header.sopInstanceUid !=
            ExportSpec(v2, p2, c2, ExportSpec(v1, p1, c1, supply).supply).written[k].dataset.header.sopInstanceUid
  {
    var r1 := ExportSpec(v1, p1, c1, supply);
    ExportUids(v1, p1, c1, supply);
    ExportUids(v2, p2, c2, r1.supply);
    assert DrawnIn(r1.written[j].dataset.header.sopInstanceUid, supply + 3, r1.supply);
  }

  /** Slice `i`'s file does not depend on the UID stored on the frame of reference. */
  lemma SliceFileIgnoresUid(vol: Volume, uid: Option<string>, prefix: string, stamp: Stamp,
                            shared: Shared, supply: nat, i: nat)
    requires SliceReady(vol, i)
    ensures SliceReady(vol.(frame := vol.frame.(uid := uid)), i)
    ensures SliceFile(vol.(frame := vol.frame.(uid := uid)), prefix, stamp, shared, supply, i)
            == SliceFile(vol, prefix, stamp, shared, supply, i)
  {
    var other := vol.(frame := vol.frame.(uid := uid));
    assert IterationError(other, i) == IterationError(vol, i);
    assert SliceImage(other, shared.minVal, i) == SliceImage(vol, shared.minVal, i);
  }

  /** The UID stored on the frame of reference is never read by an export. */
  lemma FrameUidNotRead(vol: Volume, prefix: string, clock: nat -> Stamp, supply: nat, uid: Option<string>)
    ensures ExportSpec(vol.(frame := vol.frame.(uid := uid)), prefix, clock, supply)
            == ExportSpec(vol, prefix, clock, supply)
  {
    var other := vol.(frame := vol.frame.(uid := uid));
    assert forall i :: IterationError(other, i) == IterationError(vol, i);
    if |vol.data.flat| > 0 && vol.frame.size.Some? && |vol.frame.size.value| >= 3 {
      var n := vol.frame.size.value[2];
      assert Completed(other, n) == Completed(vol, n);
      var a, b := ExportSpec(other, prefix, clock, supply).written, ExportSpec(vol, prefix, clock, supply).written;
      forall k | 0 <= k < Completed(vol, n) ensures k < |a| && k < |b| && a[k] == b[k] {
        SpecWrittenAt(other, prefix, clock, supply, k);
        SpecWrittenAt(vol, prefix, clock, supply, k);
        SliceFileIgnoresUid(vol, uid, prefix, clock(k), SharedFor(vol, supply), supply + 3 + 2 * k, k);
      }
      assert |a| == |b| == Completed(vol, n);
    }
  }

  /**
   * Slice `k`'s pixel buffer holds one value per element of `data[k, :, :]`,
   * each `(v - min) mod 2^16` for the minimum `min` of the whole volume, with
   * slope 1 and intercept `min`; `stored + intercept` gives back `v` exactly
   * when `v - min` fits in 16 bits.
   */
  lemma ExportPixels(vol: Volume, prefix: string, clock: nat -> Stamp, supply: nat, k: nat, j: nat)
    requires k < |ExportSpec(vol, prefix, clock, supply).written|
    ensures |vol.data.shape| >= 3 && k < vol.data.shape[0]
    ensures var ds := ExportSpec(vol, prefix, clock, supply).written[k].dataset;
            && ds.image.pixelData.Some?
            && |ds.image.pixelData.value| == Product(vol.data.shape[1..])
            && ds.image.rescaleSlope == 1.0
            && ds.image.rescaleIntercept == Min(vol.data.flat)
            && ds.image.pixelRepresentation == 0
    ensures var ds := ExportSpec(vol, prefix, clock, supply).written[k].dataset;
            var values := SliceAt(vol.data, k);
            j < |values| ==>
              && ds.image.pixelData.value[j] as int == (values[j] - ds.image.rescaleIntercept) % 0x1_0000
              && ds.image.rescaleIntercept <= values[j]
              && ((ds.image.pixelData.value[j] as int + ds.image.rescaleIntercept == values[j])
                    <==> (values[j] - ds.image.rescaleIntercept < 0x1_0000))
  {
    WrittenFields(vol, prefix, clock, supply, k);
    SlicePixels(vol, Min(vol.data.flat), k, j);
  }

  /**
   * For a three-axis volume whose rows and columns agree with the frame's
   * size (as `fromArray` makes them), slice `k`'s buffer is `Rows * Columns`
   * values in row-major order: value `y * Columns + x` encodes voxel `[k][y][x]`.
   * The index is stated through the shape, which `Rows` and `Columns` equal.
   */
  lemma ExportPixelLayout(vol: Volume, prefix: string, clock: nat -> Stamp, supply: nat, k: nat, y: nat, x: nat)
    requires k < |ExportSpec(vol, prefix, clock, supply).written|
    requires |vol.data.shape| == 3
    requires vol.frame.size.Some? && |vol.frame.size.value| >= 3
    requires vol.data.shape[1] == vol.frame.size.value[1] && vol.data.shape[2] == vol.frame.size.value[0]
    requires y < vol.data.shape[1] && x < vol.data.shape[2]
    ensures InBounds(vol.data.shape, [k, y, x])
    ensures var ds := ExportSpec(vol, prefix, clock, supply).written[k].dataset;
            var s := vol.data.shape;
            var j := y * s[2] + x;
            && ds.image.rows == s[1] && ds.image.columns == s[2]
            && ds.image.pixelData.Some?
            && |ds.image.pixelData.value| == s[1] * s[2]
            && j < |ds.image.pixelData.value|
            && ds.image.pixelData.value[j] == Wrap16(At(vol.data, [k, y, x]) - ds.image.rescaleIntercept)
  {
    WrittenFields(vol, prefix, clock, supply, k);
    SliceLayout(vol, Min(vol.data.flat), k, y, x);
  }

  /** A volume of all ones stores every pixel as 0 with intercept 1. */
  lemma AllOnesVolume(vol: Volume, prefix: string, clock: nat -> Stamp, supply: nat, k: nat, j: nat)
    requires forall m :: 0 <= m < |vol.data.flat| ==> vol.data.flat[m] == 1
    requires k < |ExportSpec(vol, prefix, clock, supply).written|
    ensures var ds := ExportSpec(vol, prefix, clock, supply).written[k].dataset;
            ds.image.pixelData.Some? && ds.image.rescaleIntercept == 1 &&
            (j < |ds.image.pixelData.value| ==> ds.image.pixelData.value[j] == 0)
  {
    WrittenFields(vol, prefix, clock, supply, k);
    MinOfConstant(vol.data.flat, 1);
    SliceOfConstant(vol, 1, k, j);
  }

  /**
   * Every written dataset keeps the boilerplate constants the loop does not
   * touch, carries the clock reading of its own slice, and copies the
   * volume's modality and feature label (empty when unset).
   */
  lemma ExportKeepsBoilerplate(vol: Volume, prefix: string, clock: nat -> Stamp, supply: nat, k: nat)
    requires k < |ExportSpec(vol, prefix, clock, supply).written|
    ensures var ds := ExportSpec(vol, prefix, clock, supply).written[k].dataset;
            && KeepsConstants(ds)
            && ds.header.contentDate == clock(k).date && ds.header.contentTime == clock(k).time
            && ds.image.modality == (if vol.modality.Some? then vol.modality.value else "")
            && ds.image.derivationDescription ==
                 Some(if vol.featureLabel.Some? then vol.featureLabel.value else "")
  {
    WrittenFields(vol, prefix, clock, supply, k);
  }

  // ---------------------------------------------------------------------------
  // Construction followed by export.

  /**
   * A 2-D `(R, C)` array without a frame exports `R` slices (one per row),
   * although `nslices` reports 1.
   */
  lemma TwoDimensionalExport(input: NdArray, prefix: string, clock: nat -> Stamp, supply: nat)
    requires |input.shape| == 2 && |input.flat| > 0
    ensures FromArray(input, None).Ok?
    ensures var v := FromArray(input, None).value;
            var r := ExportSpec(v, prefix, clock, supply);
            NSlices(v.frame) == Ok(1) && r.error.None? && |r.written| == input.shape[0]
  {
    TwoDimensionalWithoutFrame(input);
    FromArrayWithoutFrame(input);
    var v := FromArray(input, None).value;
    ExportCompletesIff(v, prefix, clock, supply);
  }

  /**
   * A 3-D `(Z, Y, X)` array without a frame exports `Z` slices, while
   * `nslices` of its frame is 1.
   */
  lemma ThreeDimensionalExport(input: NdArray, prefix: string, clock: nat -> Stamp, supply: nat)
    requires |input.shape| == 3 && |input.flat| > 0
    ensures FromArray(input, None).Ok?
    ensures var v := FromArray(input, None).value;
            var r := ExportSpec(v, prefix, clock, supply);
            NSlices(v.frame) == Ok(1) && r.error.None? && |r.written| == input.shape[0]
  {
    ThreeDimensionalWithoutFrame(input);
    FromArrayWithoutFrame(input);
    var v := FromArray(input, None).value;
    ExportCompletesIff(v, prefix, clock, supply);
  }

  /**
   * A non-empty array reshaped onto a frame with a three-component start,
   * spacing and size exports `size[2]` slices; with size `(2, 3, 4)` and no
   * prefix they are `0000.dcm` to `0003.dcm`.
   */
  lemma FramedExport(input: NdArray, f: FrameOfReference, clock: nat -> Stamp, supply: nat)
    requires f.start.Some? && |f.start.value| == 3
    requires f.spacing.Some? && |f.spacing.value| == 3
    requires f.size.Some? && |f.size.value| == 3
    requires Product(f.size.value) == |input.flat| > 0
    ensures FromArray(input, Some(f)).Ok?
    ensures var r := ExportSpec(FromArray(input, Some(f)).value, "", clock, supply);
            && r.error.None? && |r.written| == f.size.value[2]
            && (f.size.value == [2, 3, 4] ==>
                  && r.written[0].name == "0000.dcm" && r.written[1].name == "0001.dcm"
                  && r.written[2].name == "0002.dcm" && r.written[3].name == "0003.dcm")
  {
    FromArrayWithFrame(input, f);
    VolumeShapeInvariant(input, Some(f));
    var v := FromArray(input, Some(f)).value;
    ExportCompletesIff(v, "", clock, supply);
    ExportNames(v, "", clock, supply);
    ExampleNames();
  }
}
