/**
 * `BaseVolume.toDicom(dname, fprefix)`: one CT-image dataset per axial slice.
 * Writing a file is appending `(name, dataset)` to the output; the directory
 * itself is not modelled.
 */
module Export {
  import opened Results
  import opened NdArrays
  import opened Naming
  import opened Dicom
  import opened Volumes

  datatype File = File(name: string, dataset: Dataset)

  /**
   * What an export leaves behind: the files written, in order, the exception
   * that stopped it (if any), and the UID supply after the UIDs it drew.
   */
  datatype ExportResult = ExportResult(written: seq<File>, error: Option<PyError>, supply: nat)

  /** The values computed once per export and shared by every slice. */
  datatype Shared = Shared(series: Uid, study: Uid, frameOfReference: Uid, minVal: int)

  /** The shared UIDs, in the order `toDicom` draws them, and the global minimum. */
  function SharedFor(vol: Volume, supply: nat): Shared
    requires |vol.data.flat| > 0
  {
    Shared(Generated(supply), Generated(supply + 1), Generated(supply + 2), Min(vol.data.flat))
  }

  /** `astype(np.uint16)` on an integer: wrap-around modulo 2^16. */
  function Wrap16(x: int): (r: Uint16)
    ensures (x - r as int) % 0x1_0000 == 0
    ensures 0 <= x < 0x1_0000 ==> r as int == x
  {
    (x % 0x1_0000) as Uint16
  }

  /** `(values - min_val).astype(np.uint16)` */
  function Encode(values: seq<int>, minVal: int): (r: seq<Uint16>)
    ensures |r| == |values|
    ensures forall k :: 0 <= k < |values| ==> (values[k] - minVal - r[k] as int) % 0x1_0000 == 0
    ensures forall k :: 0 <= k < |values| && minVal <= values[k] < minVal + 0x1_0000 ==>
              r[k] as int + minVal == values[k]
  {
    seq(|values|, k requires 0 <= k < |values| => Wrap16(values[k] - minVal))
  }

  /**
   * The exception raised inside the loop body for slice `i`, checked in the
   * order the body evaluates: `spacing[2]`, `start[2]`, then `data[i, :, :]`.
   */
  function IterationError(vol: Volume, i: nat): (r: Option<PyError>)
    ensures r.None? <==>
              && vol.frame.spacing.Some? && |vol.frame.spacing.value| >= 3
              && vol.frame.start.Some? && |vol.frame.start.value| >= 3
              && |vol.data.shape| >= 3 && i < vol.data.shape[0]
    ensures r.Some? && IterationError(vol, 0).None? ==> r == Some(IndexOutOfRange("data", i))
  {
    var f := vol.frame;
    if f.spacing.None? then Some(NoneSubscript("spacing"))
    else if |f.spacing.value| < 3 then Some(IndexOutOfRange("spacing", 2))
    else if f.start.None? then Some(NoneSubscript("start"))
    else if |f.start.value| < 3 then Some(IndexOutOfRange("start", 2))
    else if |vol.data.shape| < 3 then Some(TooManyIndices(|vol.data.shape|))
    else if i >= vol.data.shape[0] then Some(IndexOutOfRange("data", i))
    else None
  }

  /** Slice `i` can be produced: the size was readable and the loop body raises nothing. */
  predicate SliceReady(vol: Volume, i: nat) {
    vol.frame.size.Some? && |vol.frame.size.value| >= 3 && IterationError(vol, i).None?
  }

  /** How many of the first `n` slices the loop body gets through. */
  function Completed(vol: Volume, n: nat): (r: nat)
    ensures r <= n
    ensures forall j :: 0 <= j < r ==> IterationError(vol, j).None?
    ensures r < n ==> IterationError(vol, r).Some?
  {
    if IterationError(vol, 0).Some? then 0
    else if n <= vol.data.shape[0] then n
    else vol.data.shape[0]
  }

  /**
   * The attributes the loop body sets on slice `i`: the geometry from the
   * frame and the index, the volume's labels (empty when unset), and the
   * slice's pixels offset by the global minimum with the matching rescale.
   */
  function SliceImage(vol: Volume, minVal: int, i: nat): (img: Image)
    requires SliceReady(vol, i)
    ensures img.columns == vol.frame.size.value[0] && img.rows == vol.frame.size.value[1]
    ensures img.acquisitionNumber == i + 1
    ensures img.modality == vol.modality.GetOr("")
    ensures img.derivationDescription == Some(vol.featureLabel.GetOr(""))
    ensures img.rescaleSlope == 1.0 && img.rescaleIntercept == minVal && img.pixelRepresentation == 0
  {
    var start, spacing, size := vol.frame.start.value, vol.frame.spacing.value, vol.frame.size.value;
    var location := start[2] + i as real * spacing[2];
    Image(
      sliceThickness := spacing[2],
      pixelSpacing := [spacing[0], spacing[1]],
      sliceLocation := location,
      imagePositionPatient := [start[0], start[1], location],
      columns := size[0],
      rows := size[1],
      acquisitionNumber := i + 1,
      modality := vol.modality.GetOr(""),
      derivationDescription := Some(vol.featureLabel.GetOr("")),
      pixelData := Some(Encode(SliceAt(vol.data, i), minVal)),
      rescaleSlope := 1.0,
      rescaleIntercept := minVal,
      pixelRepresentation := 0)
  }

  /**
   * The file written for slice `i`: the boilerplate for the shared UIDs
   * (drawing its own two UIDs from `supply`) with the slice's attributes.
   */
  function SliceFile(vol: Volume, prefix: string, stamp: Stamp, shared: Shared, supply: nat, i: nat): File
    requires SliceReady(vol, i)
  {
    var base := Boilerplate(Some(shared.series), Some(shared.study), Some(shared.frameOfReference),
                            stamp, supply).0;
    File(FileName(prefix, i), base.(image := SliceImage(vol, shared.minVal, i)))
  }

  /**
   * Slice `i`'s file is named after the prefix and the index, shares the
   * series, study and frame-of-reference UIDs, draws its two own UIDs from the
   * supply (media storage first), keeps the boilerplate constants and the
   * clock reading it was given, and carries slice `i`'s image.
   */
  lemma SliceFileFields(vol: Volume, prefix: string, stamp: Stamp, shared: Shared, supply: nat, i: nat)
    requires SliceReady(vol, i)
    ensures var f := SliceFile(vol, prefix, stamp, shared, supply, i);
            var h := f.dataset.header;
            && f.name == FileName(prefix, i)
            && h.seriesInstanceUid == shared.series
            && h.studyInstanceUid == shared.study
            && h.frameOfReferenceUid == shared.frameOfReference
            && f.dataset.fileMeta.mediaStorageSopInstanceUid == Generated(supply)
            && h.sopInstanceUid == Generated(supply + 1)
            && f.dataset.image == SliceImage(vol, shared.minVal, i)
            && KeepsConstants(f.dataset)
            && h.contentDate == stamp.date && h.contentTime == stamp.time
            && h.studyDate == stamp.date && h.studyTime == stamp.time
  {
    BoilerplateConstants(Some(shared.series), Some(shared.study), Some(shared.frameOfReference), stamp, supply);
  }

  /** The position and spacing of slice `i` come from the frame and the index alone. */
  lemma SliceGeometry(vol: Volume, minVal: int, i: nat)
    requires SliceReady(vol, i)
    ensures var start, spacing := vol.frame.start.value, vol.frame.spacing.value;
            var img := SliceImage(vol, minVal, i);
            && img.sliceLocation == start[2] + i as real * spacing[2]
            && img.imagePositionPatient == [start[0], start[1], img.sliceLocation]
            && img.sliceThickness == spacing[2]
            && img.pixelSpacing == [spacing[0], spacing[1]]
  {}

  /**
   * Pixel `j` of slice `i` is element `j` of `data[i]` less `minVal`, modulo
   * 2^16; with slope 1 and intercept `minVal`, adding the intercept back gives
   * the element exactly when the difference is below 2^16.
   */
  lemma SlicePixels(vol: Volume, minVal: int, i: nat, j: nat)
    requires SliceReady(vol, i)
    requires forall m :: 0 <= m < |vol.data.flat| ==> minVal <= vol.data.flat[m]
    ensures |vol.data.shape| >= 3 && i < vol.data.shape[0]
    ensures var img := SliceImage(vol, minVal, i);
            && img.pixelData.Some?
            && |img.pixelData.value| == Product(vol.data.shape[1..])
            && img.rescaleSlope == 1.0 && img.rescaleIntercept == minVal
            && img.pixelRepresentation == 0
    ensures var img := SliceImage(vol, minVal, i);
            var values := SliceAt(vol.data, i);
            j < |values| ==>
              && img.pixelData.value[j] as int == (values[j] - minVal) % 0x1_0000
              && minVal <= values[j]
              && ((img.pixelData.value[j] as int + minVal == values[j])
                    <==> (values[j] - minVal < 0x1_0000))
  {
    var values := SliceAt(vol.data, i);
    if j < |values| {
      SliceAtIndex(vol.data, i, j);
    }
  }

  /** When every element is `minVal`, every stored pixel is 0. */
  lemma SliceOfConstant(vol: Volume, minVal: int, i: nat, j: nat)
    requires SliceReady(vol, i)
    requires forall m :: 0 <= m < |vol.data.flat| ==> vol.data.flat[m] == minVal
    ensures var p := SliceImage(vol, minVal, i).pixelData;
            p.Some? && (j < |p.value| ==> p.value[j] == 0)
  {
    if j < Product(vol.data.shape[1..]) {
      SliceAtIndex(vol.data, i, j);
    }
  }

  /** For three axes, pixel `y * X + x` of slice `i` encodes voxel `[i][y][x]`. */
  lemma SliceLayout(vol: Volume, minVal: int, i: nat, y: nat, x: nat)
    requires SliceReady(vol, i) && |vol.data.shape| == 3
    requires y < vol.data.shape[1] && x < vol.data.shape[2]
    ensures var p := SliceImage(vol, minVal, i).pixelData;
            var s := vol.data.shape;
            && p.Some? && |p.value| == s[1] * s[2]
            && y * s[2] + x < |p.value|
            && InBounds(s, [i, y, x])
            && p.value[y * s[2] + x] == Wrap16(At(vol.data, [i, y, x]) - minVal)
  {
    SliceAt3(vol.data, i, y, x);
  }

  /**
   * The outcome of `toDicom`. Three UIDs are drawn first (series, study,
   * frame of reference); then `np.min` fails on an empty volume, and reading
   * `size[2]` fails when the size is missing or short. Each loop iteration
   * draws two UIDs in the boilerplate before its body can raise.
   */
  function ExportSpec(vol: Volume, prefix: string, clock: nat -> Stamp, supply: nat): ExportResult
  {
    if |vol.data.flat| == 0 then ExportResult([], Some(EmptyMinimum), supply + 3)
    else if vol.frame.size.None? then ExportResult([], Some(NoneSubscript("size")), supply + 3)
    else if |vol.frame.size.value| < 3 then ExportResult([], Some(IndexOutOfRange("size", 2)), supply + 3)
    else
      var n := vol.frame.size.value[2];
      var shared := SharedFor(vol, supply);
      var done := Completed(vol, n);
      ExportResult(
        seq(done, k requires 0 <= k < done =>
              SliceFile(vol, prefix, clock(k), shared, supply + 3 + 2 * k, k)),
        if done < n then IterationError(vol, done) else None,
        supply + 3 + 2 * (if done < n then done + 1 else n))
  }

  /** `np.min` and `size[2]` succeed, so the loop starts. */
  predicate Started(vol: Volume) {
    |vol.data.flat| > 0 && vol.frame.size.Some? && |vol.frame.size.value| >= 3
  }

  /**
   * An export draws three UIDs, then two per written file, and two more when
   * an iteration raises, since its boilerplate draws before the body fails.
   * It succeeds only after writing all `size[2]` slices; once the loop has
   * started, it can only stop on the error of the iteration that follows the
   * last file written.
   */
  lemma ExportOutcome(vol: Volume, prefix: string, clock: nat -> Stamp, supply: nat)
    ensures var r := ExportSpec(vol, prefix, clock, supply);
            && r.supply == supply + 3 + 2 * |r.written| + (if r.error.Some? && Started(vol) then 2 else 0)
            && (r.error.None? ==> Started(vol) && |r.written| == vol.frame.size.value[2])
            && (r.error.Some? && Started(vol) ==> r.error == IterationError(vol, |r.written|))
  {}

  /** The files an export writes before it stops, as the loop produces them one by one. */
  ghost predicate WrittenPrefix(vol: Volume, prefix: string, clock: nat -> Stamp, supply: nat, written: seq<File>)
    requires |vol.data.flat| > 0 && vol.frame.size.Some? && |vol.frame.size.value| >= 3
  {
    var shared := SharedFor(vol, supply);
    forall k :: 0 <= k < |written| ==>
      SliceReady(vol, k) && written[k] == SliceFile(vol, prefix, clock(k), shared, supply + 3 + 2 * k, k)
  }

  lemma WrittenPrefixExtend(vol: Volume, prefix: string, clock: nat -> Stamp, supply: nat,
                            written: seq<File>, f: File)
    requires |vol.data.flat| > 0 && vol.frame.size.Some? && |vol.frame.size.value| >= 3
    requires WrittenPrefix(vol, prefix, clock, supply, written)
    requires SliceReady(vol, |written|)
    requires f == SliceFile(vol, prefix, clock(|written|),
                            SharedFor(vol, supply),
                            supply + 3 + 2 * |written|, |written|)
    ensures WrittenPrefix(vol, prefix, clock, supply, written + [f])
  {
    var shared := SharedFor(vol, supply);
    var w := written + [f];
    forall k | 0 <= k < |w|
      ensures SliceReady(vol, k) && w[k] == SliceFile(vol, prefix, clock(k), shared, supply + 3 + 2 * k, k)
    {
      if k < |written| {
        assert w[k] == written[k];
      }
    }
  }

  /** On a volume whose minimum and size exist, the output lists slice files. */
  lemma SpecWrittenSeq(vol: Volume, prefix: string, clock: nat -> Stamp, supply: nat)
    requires |vol.data.flat| > 0 && vol.frame.size.Some? && |vol.frame.size.value| >= 3
    ensures var done := Completed(vol, vol.frame.size.value[2]);
            ExportSpec(vol, prefix, clock, supply).written ==
              seq(done, j requires 0 <= j < done =>
                    SliceFile(vol, prefix, clock(j), SharedFor(vol, supply), supply + 3 + 2 * j, j))
  {}

  /** Entry `k` of the specified output is slice `k`'s file. */
  lemma SpecWrittenAt(vol: Volume, prefix: string, clock: nat -> Stamp, supply: nat, k: nat)
    requires |vol.data.flat| > 0 && vol.frame.size.Some? && |vol.frame.size.value| >= 3
    requires k < Completed(vol, vol.frame.size.value[2])
    ensures |ExportSpec(vol, prefix, clock, supply).written| == Completed(vol, vol.frame.size.value[2])
    ensures SliceReady(vol, k)
    ensures ExportSpec(vol, prefix, clock, supply).written[k]
              == SliceFile(vol, prefix, clock(k), SharedFor(vol, supply), supply + 3 + 2 * k, k)
  {
    SpecWrittenSeq(vol, prefix, clock, supply);
    var w := ExportSpec(vol, prefix, clock, supply).written;
    var f := SliceFile(vol, prefix, clock(k), SharedFor(vol, supply), supply + 3 + 2 * k, k);
    assert w[k] == f;
  }

  lemma SpecWritten(vol: Volume, prefix: string, clock: nat -> Stamp, supply: nat, written: seq<File>)
    requires |vol.data.flat| > 0 && vol.frame.size.Some? && |vol.frame.size.value| >= 3
    requires |written| == Completed(vol, vol.frame.size.value[2])
    requires WrittenPrefix(vol, prefix, clock, supply, written)
    ensures ExportSpec(vol, prefix, clock, supply).written == written
  {
    var w := ExportSpec(vol, prefix, clock, supply).written;
    forall k | 0 <= k < |written| ensures k < |w| && w[k] == written[k] {
      SpecWrittenAt(vol, prefix, clock, supply, k);
    }
    if |written| > 0 {
      SpecWrittenAt(vol, prefix, clock, supply, 0);
    } else {
      assert |w| == 0;
    }
  }

  lemma SpecOnError(vol: Volume, prefix: string, clock: nat -> Stamp, supply: nat, written: seq<File>)
    requires |vol.data.flat| > 0 && vol.frame.size.Some? && |vol.frame.size.value| >= 3
    requires |written| == Completed(vol, vol.frame.size.value[2]) < vol.frame.size.value[2]
    requires WrittenPrefix(vol, prefix, clock, supply, written)
    ensures ExportSpec(vol, prefix, clock, supply) ==
              ExportResult(written, IterationError(vol, |written|), supply + 3 + 2 * (|written| + 1))
  {
    SpecWritten(vol, prefix, clock, supply, written);
  }

  lemma SpecOnSuccess(vol: Volume, prefix: string, clock: nat -> Stamp, supply: nat, written: seq<File>)
    requires |vol.data.flat| > 0 && vol.frame.size.Some? && |vol.frame.size.value| >= 3
    requires |written| == vol.frame.size.value[2] <= Completed(vol, vol.frame.size.value[2])
    requires WrittenPrefix(vol, prefix, clock, supply, written)
    ensures ExportSpec(vol, prefix, clock, supply) ==
              ExportResult(written, None, supply + 3 + 2 * |written|)
  {
    SpecWritten(vol, prefix, clock, supply, written);
  }

  /** The assignments of the loop body, one attribute at a time. */
  method FillSlice(base: Dataset, vol: Volume, minVal: int, i: nat) returns (ds: Dataset)
    requires SliceReady(vol, i)
    ensures ds == base.(image := SliceImage(vol, minVal, i))
  {
    var size := vol.frame.size.value;
    var start, spacing := vol.frame.start.value, vol.frame.spacing.value;
    var img := base.image;
    img := img.(sliceThickness := spacing[2]);
    img := img.(pixelSpacing := spacing[..2]);
    img := img.(sliceLocation := start[2] + i as real * spacing[2]);
    img := img.(imagePositionPatient := start[..2] + [img.sliceLocation]);
    img := img.(columns := size[0]);
    img := img.(rows := size[1]);
    img := img.(acquisitionNumber := i + 1);
    img := img.(modality := vol.modality.GetOr(""));
    img := img.(derivationDescription := Some(vol.featureLabel.GetOr("")));
    img := img.(pixelData := Some(Encode(SliceAt(vol.data, i), minVal)));
    img := img.(rescaleSlope := 1.0);
    img := img.(rescaleIntercept := minVal);  // floor of an integer minimum is the minimum
    img := img.(pixelRepresentation := 0);
    assert spacing[..2] == [spacing[0], spacing[1]];
    assert start[..2] + [img.sliceLocation] == [start[0], start[1], img.sliceLocation];
    ds := base.(image := img);
  }

  /** `toDicom`: the loop over `range(size[2])`, one file per slice. */
  method ToDicom(vol: Volume, prefix: string, clock: nat -> Stamp, supply: nat) returns (r: ExportResult)
    ensures r == ExportSpec(vol, prefix, clock, supply)
  {
    var series := Generated(supply);
    var study := Generated(supply + 1);
    var frameUid := Generated(supply + 2);
    var next := supply + 3;
    if |vol.data.flat| == 0 {
      return ExportResult([], Some(EmptyMinimum), next);
    }
    var minVal := Min(vol.data.flat);
    if vol.frame.size.None? {
      return ExportResult([], Some(NoneSubscript("size")), next);
    }
    var size := vol.frame.size.value;
    if |size| < 3 {
      return ExportResult([], Some(IndexOutOfRange("size", 2)), next);
    }
    ghost var shared := Shared(series, study, frameUid, minVal);
    var written: seq<File> := [];
    var i := 0;
    while i < size[2]
      invariant i <= size[2] && i <= Completed(vol, size[2])
      invariant |written| == i
      invariant next == supply + 3 + 2 * i
      invariant WrittenPrefix(vol, prefix, clock, supply, written)
    {
      var made := Boilerplate(Some(series), Some(study), Some(frameUid), clock(i), next);
      var ds := made.0;
      next := made.1;
      var err := IterationError(vol, i);
      if err.Some? {
        assert i == Completed(vol, size[2]);
        SpecOnError(vol, prefix, clock, supply, written);
        return ExportResult(written, err, next);
      }
      ds := FillSlice(ds, vol, minVal, i);
      assert File(FileName(prefix, i), ds) == SliceFile(vol, prefix, clock(i), shared, next - 2, i);
      WrittenPrefixExtend(vol, prefix, clock, supply, written, File(FileName(prefix, i), ds));
      written := written + [File(FileName(prefix, i), ds)];
      i := i + 1;
    }
    SpecOnSuccess(vol, prefix, clock, supply, written);
    return ExportResult(written, None, next);
  }
}
