/**
 * `FrameOfReference` and `BaseVolume`: a voxel grid's placement in patient
 * space, and a volume of intensities built from a numpy array.
 */
module Volumes {
  import opened Results
  import opened NdArrays

  /**
   * `FrameOfReference(start, spacing, size, UID)`: every field defaults to `None`
   * and nothing is validated. `start` and `spacing` are (x, y, z) in mm, `size`
   * the voxel counts (x, y, z).
   */
  datatype FrameOfReference = FrameOfReference(
    start: Option<seq<real>>,
    spacing: Option<seq<real>>,
    size: Option<seq<nat>>,
    uid: Option<string>)

  /** A `BaseVolume` as `fromArray` leaves it; `modality` and `featureLabel` are set by callers. */
  datatype Volume = Volume(
    data: NdArray,
    frame: FrameOfReference,
    modality: Option<string>,
    featureLabel: Option<string>)

  /** The frame `fromArray` makes up when none is given: origin 0, unit spacing, reversed shape then `1`. */
  function SynthesizedFrame(shape: seq<nat>): (f: FrameOfReference)
    ensures f.start == Some([0.0, 0.0, 0.0]) && f.spacing == Some([1.0, 1.0, 1.0]) && f.uid.None?
    ensures f.size.Some? && |f.size.value| == |shape| + 1 && f.size.value[|shape|] == 1
    ensures forall k :: 0 <= k < |shape| ==> f.size.value[k] == shape[|shape| - 1 - k]
    ensures NSlices(f) == Ok(1)
  {
    FrameOfReference(Some([0.0, 0.0, 0.0]), Some([1.0, 1.0, 1.0]), Some(Reverse(shape) + [1]), None)
  }

  /**
   * `BaseVolume.fromArray(input, frameofreference)`. Without a frame it cannot
   * fail; with a frame it fails on a missing size (`None[::-1]`) or on a reshape
   * whose element count differs, and otherwise keeps the frame. Either way the
   * elements keep their row-major order and the labels are unset.
   */
  function FromArray(input: NdArray, frame: Option<FrameOfReference>): (r: Result<Volume>)
    ensures frame.None? ==> r.Ok?
    ensures frame.Some? && frame.value.size.None? ==> r == Err(NoneSubscript("size"))
    ensures frame.Some? && r.Ok? ==> r.value.frame == frame.value
    ensures r.Ok? ==> r.value.data.flat == input.flat && r.value.modality.None? && r.value.featureLabel.None?
  {
    var a := Promote(input);
    match frame
    case Some(f) =>
      if f.size.None? then Err(NoneSubscript("size"))
      else
        (match Reshape(a, Reverse(f.size.value))
         case Ok(d) => Ok(Volume(d, f, None, None))
         case Err(e) => Err(e))
    case None =>
      Ok(Volume(a, SynthesizedFrame(a.shape), None, None))
  }

  /** `BaseVolume.nslices`: the last extent of a frame with three or more, otherwise 1. */
  function NSlices(f: FrameOfReference): (r: Result<nat>)
    ensures f.size.None? <==> r.Err?
    ensures r.Ok? && |f.size.value| >= 3 ==> r.value == f.size.value[|f.size.value| - 1]
    ensures r.Ok? && |f.size.value| < 3 ==> r.value == 1
  {
    if f.size.None? then Err(NoneLength("size"))
    else if |f.size.value| >= 3 then Ok(f.size.value[|f.size.value| - 1])
    else Ok(1)
  }

  // ---------------------------------------------------------------------------

  /**
   * With a frame whose size is set, construction succeeds exactly when the
   * array has `size[0] * size[1] * ...` elements; the volume then holds the
   * same buffer under the reversed extents, and keeps the given frame.
   */
  lemma FromArrayWithFrame(input: NdArray, f: FrameOfReference)
    requires f.size.Some?
    ensures FromArray(input, Some(f)).Ok? <==> Product(f.size.value) == |input.flat|
    ensures FromArray(input, Some(f)).Err? ==>
              FromArray(input, Some(f)).error == ShapeMismatch(|input.flat|, Reverse(f.size.value))
    ensures FromArray(input, Some(f)).Ok? ==>
              var v := FromArray(input, Some(f)).value;
              v.data.shape == Reverse(f.size.value) && v.data.flat == input.flat && v.frame == f
              && v.modality.None? && v.featureLabel.None?
  {
    ProductReverse(f.size.value);
  }

  /**
   * For a three-extent frame `(X, Y, Z)`, voxel `[z][y][x]` of the volume is
   * element `(z * Y + y) * X + x` of the input read in row-major order.
   */
  lemma FromArrayVoxel(input: NdArray, f: FrameOfReference, z: nat, y: nat, x: nat)
    requires f.size.Some? && |f.size.value| == 3
    requires FromArray(input, Some(f)).Ok?
    requires z < f.size.value[2] && y < f.size.value[1] && x < f.size.value[0]
    ensures var s := f.size.value;
            var v := FromArray(input, Some(f)).value;
            v.data.shape == [s[2], s[1], s[0]] &&
            (z * s[1] + y) * s[0] + x < |input.flat| &&
            At(v.data, [z, y, x]) == input.flat[(z * s[1] + y) * s[0] + x]
  {
    var s := f.size.value;
    var d := FromArray(input, Some(f)).value.data;
    assert Reverse(s) == [s[2], s[1], s[0]];
    assert InBounds(d.shape, [z, y, x]);
    OffsetBound(d.shape, [z, y, x]);
    Offset3(z, y, x, s[2], s[1], s[0]);
  }

  /**
   * Without a frame the (possibly promoted) array is kept as it is, and the
   * made-up frame has origin 0, unit spacing and size `shape[::-1] + (1,)`;
   * `nslices` of that frame is therefore always 1.
   */
  lemma FromArrayWithoutFrame(input: NdArray)
    ensures FromArray(input, None).Ok?
    ensures var v := FromArray(input, None).value;
            v.data == Promote(input) &&
            v.data.shape == (if |input.shape| == 2 then input.shape + [1] else input.shape) &&
            v.data.flat == input.flat &&
            v.frame.start == Some([0.0, 0.0, 0.0]) && v.frame.spacing == Some([1.0, 1.0, 1.0]) &&
            v.frame.size == Some(Reverse(v.data.shape) + [1]) && v.frame.uid.None? &&
            NSlices(v.frame) == Ok(1)
  {}

  /** A `(Z, Y, X)` array without a frame gets size `(X, Y, Z, 1)`. */
  lemma ThreeDimensionalWithoutFrame(input: NdArray)
    requires |input.shape| == 3
    ensures var s := input.shape;
            FromArray(input, None).Ok? &&
            FromArray(input, None).value.frame.size == Some([s[2], s[1], s[0], 1])
  {
    var s := input.shape;
    assert Promote(input) == input;
    assert Reverse(s) == [s[2], s[1], s[0]];
    assert Reverse(s) + [1] == [s[2], s[1], s[0], 1];
  }

  /** A 2-D `(R, C)` array without a frame becomes `(R, C, 1)` and gets size `(1, C, R, 1)`. */
  lemma TwoDimensionalWithoutFrame(input: NdArray)
    requires |input.shape| == 2
    ensures var s := input.shape;
            FromArray(input, None).Ok? &&
            FromArray(input, None).value.data.shape == [s[0], s[1], 1] &&
            FromArray(input, None).value.frame.size == Some([1, s[1], s[0], 1])
  {
    var s := input.shape;
    assert Promote(input).shape == s + [1] == [s[0], s[1], 1];
    assert Reverse(s + [1]) == [1, s[1], s[0]];
    assert Reverse(s + [1]) + [1] == [1, s[1], s[0], 1];
  }

  /**
   * The volume invariant `data.shape == (size[2], size[1], size[0])` holds
   * after construction with a three-extent frame, or without a frame from a
   * 2-D or 3-D array.
   */
  lemma VolumeShapeInvariant(input: NdArray, frame: Option<FrameOfReference>)
    requires FromArray(input, frame).Ok?
    requires frame.Some? ==> |frame.value.size.value| == 3
    requires frame.None? ==> 2 <= |input.shape| <= 3
    ensures var v := FromArray(input, frame).value;
            v.frame.size.Some? && |v.frame.size.value| >= 3 &&
            v.data.shape == [v.frame.size.value[2], v.frame.size.value[1], v.frame.size.value[0]]
  {
    var v := FromArray(input, frame).value;
    if frame.Some? {
      var s := frame.value.size.value;
      assert Reverse(s) == [s[2], s[1], s[0]];
    } else if |input.shape| == 2 {
      TwoDimensionalWithoutFrame(input);
    } else {
      ThreeDimensionalWithoutFrame(input);
    }
  }
}
