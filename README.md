# npy2dcm in Dafny

`npy2dcm.py` converts a numpy intensity array into a series of CT-image DICOM
datasets, one per axial slice. This project models the converter's core:

- `make_dicom_boilerplate` builds the CT-image dataset with its fixed
  attributes, the stamp of the current date and time, and its UIDs.
  It is modelled by `Dicom.Boilerplate`, a pure function returning the
  dataset record.
- `FrameOfReference(start, spacing, size, UID)` places a voxel grid in patient
  space. It is modelled by the `Volumes.FrameOfReference` datatype, whose
  fields are all optional, as in Python.
- `BaseVolume.fromArray` builds a volume from an array and an optional frame.
  It is modelled by `Volumes.FromArray`; `BaseVolume.nslices` by
  `Volumes.NSlices`.
- `BaseVolume.toDicom` writes one dataset per slice. It is modelled by the
  method `Export.ToDicom`: a loop that builds each slice's dataset and appends
  `(file name, dataset)` to the output. The method is proved equal to the
  specification function `Export.ExportSpec`, and `ExportProperties` proves
  what an export guarantees.
- The zero-padded file names are modelled in `Naming`.

How the source's outside world is represented:

- A numpy array is its shape plus its elements in row-major order
  (`NdArrays.NdArray`).
- `reshape` keeps the buffer and changes the extents.
- `np.atleast_3d` on a 2-D array appends an axis of length 1.
- The UID generator is a supply of serial numbers. A drawn UID is
  `Generated(n)`, and each draw advances the supply, so drawn UIDs never
  repeat. The supply is a parameter and comes back as a result.
- `datetime.now()` is a parameter: `clock(i)` is the date and time read by
  slice `i`'s boilerplate.
- Python exceptions are `Results.PyError` values. An export that raises keeps
  the files it wrote before the exception and records the exception.

Behaviour of the code that is easy to misread, modelled as written:

- Without a frame, a 2-D `(R, C)` array becomes `(R, C, 1)`, and its frame
  gets size `(1, C, R, 1)`. The export loop runs over `size[2]`, so it writes
  `R` files. File `i` holds row `i` of the input as an image with
  Columns 1 and Rows `C`. A reading of the code as
  "a 2-D array is a single slice that exports one file" does not match it;
  the model follows the code (`ExportProperties.TwoDimensionalExport`).
- `nslices` returns `size[-1]`. For a frame made up by `fromArray` that is the
  padding `1`, while `toDicom` exports `size[2]` slices.
- `MediaStorageSOPInstanceUID` and `SOPInstanceUID` are two separate
  generated UIDs, so they differ on every file.
- The file meta version `b'00\01'` is the three bytes `0x30 0x30 0x01`: `\01`
  is an octal escape.
- The boilerplate sets `ReferringPhysiciansName`. That is not a DICOM keyword
  (the standard's is `ReferringPhysicianName`); the model keeps it as an
  attribute of the record.
- The frame's `UID` is never read: every export draws its own
  frame-of-reference UID.

## Model

| member | source | states |
|---|---|---|
| NdArrays.Reverse | npy2dcm.py:139 | `s[::-1]` has the same length, and element `k` is `s[len-1-k]` |
| NdArrays.ProductReverse | npy2dcm.py:139 | reversing the extents keeps the element count |
| NdArrays.Promote | npy2dcm.py:136-137 | `np.atleast_3d` as applied to a 2-D `(R, C)` array gives `(R, C, 1)` over the same buffer; any other array is left unchanged |
| NdArrays.PromoteElement | npy2dcm.py:136-137 | promotion keeps every element: `atleast_3d(a)[i][j][0] == a[i][j]` |
| NdArrays.Reshape | npy2dcm.py:139 | `reshape` succeeds exactly when the element counts agree, and then has the new extents over the same buffer; otherwise the error names the element count and the extents |
| NdArrays.ReshapeReinterprets | npy2dcm.py:139 | element `idx` of the reshaped array is the input's row-major element `Offset(extents, idx)` |
| NdArrays.Offset3 | npy2dcm.py:139 | for three axes, `[z][y][x]` sits at `(z*Y + y)*X + x` |
| NdArrays.SliceAt | npy2dcm.py:163 | `data[i, :, :].flatten()` has one value per element of the sub-array |
| NdArrays.SliceAtIndex | npy2dcm.py:163 | value `j` of sub-array `i` is flat element `i*P + j`, where `P` is the sub-array size |
| NdArrays.SliceAt3 | npy2dcm.py:163 | for three axes, value `y*X + x` of sub-array `z` is voxel `[z][y][x]`, and the sub-array has `Y*X` values |
| NdArrays.Min | npy2dcm.py:151 | `np.min` returns an element of the array that is no greater than any element |
| NdArrays.MinOfConstant | npy2dcm.py:151 | the minimum of a constant array is that constant |
| Naming.Digits | npy2dcm.py:168 | `str(n)` is at least one character long, all decimal digits, `"0"` for 0, and has no leading zero when `n > 0` |
| Naming.Pad4 | npy2dcm.py:168 | the `{:04d}` field; what it produces is stated by `Naming.Pad4Layout` and `Naming.Pad4RoundTrip` |
| Naming.Pad4Layout | npy2dcm.py:168 | the `{:04d}` field is `max(4, len(str(n)))` characters wide, ends in `str(n)`, has only zeros before it, and is all digits |
| Naming.Pad4RoundTrip | npy2dcm.py:168 | the `{:04d}` field reads back as the index |
| Naming.FileName | npy2dcm.py:168 | `'{}{:04d}.dcm'.format(prefix, i)`; what it produces is stated by `Naming.FileNameLayout` |
| Naming.FileNameLayout | npy2dcm.py:168 | a file name is the prefix, then the `{:04d}` field, which reads back as the index, then `.dcm` |
| Naming.FileNameInjective | npy2dcm.py:168 | two indices with the same file name are equal |
| Naming.SingleDigitName | npy2dcm.py:168 | an index below 10 is written as the prefix, three zeros, the digit and `.dcm` |
| Naming.ExampleNames | npy2dcm.py:168 | indices 0 to 3 with an empty prefix give `0000.dcm`, `0001.dcm`, `0002.dcm` and `0003.dcm` |
| Naming.ExampleWideName | npy2dcm.py:168 | index 12345 is not truncated: `ct_12345.dcm` |
| Dicom.UidOrDraw | npy2dcm.py:49-51 | a given UID is used and draws nothing; a missing one is drawn from the supply |
| Dicom.Boilerplate | npy2dcm.py:11-73 | given UIDs are used unchanged; the media-storage UID is drawn first, then each missing UID in the order study, series, frame of reference, then the SOP UID last; the supply advances by 2 plus the number missing; the SOP UID differs from the media-storage UID and from every shared UID drawn in the same call |
| Dicom.BoilerplateConstants | npy2dcm.py:14-72 | every attribute that the boilerplate fixes and the exporter never overwrites has its fixed value, whatever UIDs and clock reading are used; content and study date and time come from the clock |
| Volumes.SynthesizedFrame | npy2dcm.py:143 | the made-up frame has origin 0, unit spacing, no UID, and size `shape[::-1] + (1,)`, so `nslices` of it is 1 |
| Volumes.FromArray | npy2dcm.py:127-145 | without a frame construction cannot fail; with a frame lacking a size it fails on `None[::-1]`; with a frame it keeps that frame; the volume always holds the input's elements in their row-major order and has no labels |
| Volumes.NSlices | npy2dcm.py:111-115 | fails exactly when the size is missing; otherwise it is the last extent when there are three or more, and 1 otherwise |
| Volumes.FromArrayWithFrame | npy2dcm.py:136-140 | with a sized frame, construction succeeds exactly when the array has `Product(size)` elements; it then holds the same buffer under `size[::-1]` and keeps the frame; otherwise the reshape error names the element count and the extents |
| Volumes.FromArrayVoxel | npy2dcm.py:136-140 | with a three-extent frame the data has shape `(size[2], size[1], size[0])`, and voxel `[z][y][x]` is input element `(z*size[1] + y)*size[0] + x` |
| Volumes.FromArrayWithoutFrame | npy2dcm.py:136-143 | without a frame the promoted array is kept unchanged; the made-up frame has origin 0, unit spacing, size `shape[::-1] + (1,)` and no UID; `nslices` of it is 1 |
| Volumes.ThreeDimensionalWithoutFrame | npy2dcm.py:141-143 | a `(Z, Y, X)` array without a frame gets size `(X, Y, Z, 1)` |
| Volumes.TwoDimensionalWithoutFrame | npy2dcm.py:136-143 | a `(R, C)` array without a frame becomes `(R, C, 1)` with size `(1, C, R, 1)` |
| Volumes.VolumeShapeInvariant | npy2dcm.py:136-143 | after construction from a 3-extent frame, or from a 2-D or 3-D array without a frame, `data.shape == (size[2], size[1], size[0])` |
| Export.Wrap16 | npy2dcm.py:163 | `astype(np.uint16)` keeps an integer's value modulo 2^16, and keeps it exactly when it is in `[0, 2^16)` |
| Export.Encode | npy2dcm.py:163 | `(values - min_val).astype(np.uint16)` has one value per input; each is `(v - min) mod 2^16`, and adding `min` back gives `v` when `0 <= v - min < 2^16` |
| Export.IterationError | npy2dcm.py:154-163 | the loop body for slice `i` raises nothing exactly when `spacing` and `start` have at least three components and the data has three axes with `i < shape[0]`; when slice 0 goes through, a later slice can only fail on the data index |
| Export.Completed | npy2dcm.py:152-163 | the loop gets through every slice before `Completed(n)`, and when that is below `n`, the slice at it raises |
| Export.SliceImage | npy2dcm.py:158-166 | the image of slice `i` has `size[0]` columns and `size[1]` rows, acquisition number `i + 1`, the volume's labels or `''`, slope 1.0, intercept `min` and unsigned pixels |
| Export.SliceGeometry | npy2dcm.py:154-157 | the slice location is `start[2] + i*spacing[2]`; the position is `[start[0], start[1], location]`; thickness is `spacing[2]`; pixel spacing is `spacing[:2]` |
| Export.SliceFile | npy2dcm.py:153-168 | the file for slice `i`: the boilerplate with the slice's image; what it holds is stated by `Export.SliceFileFields` |
| Export.SliceFileFields | npy2dcm.py:153-168 | slice `i`'s file is named `FileName(prefix, i)`; it carries the shared series, study and frame-of-reference UIDs, the media-storage UID `supply` and SOP UID `supply + 1` drawn by its boilerplate, the boilerplate constants, the clock reading, and slice `i`'s image |
| Export.SlicePixels | npy2dcm.py:163-166 | the buffer has one value per element of `data[i]`; each value is `(v - min) mod 2^16`; slope is 1.0, intercept `min`, representation unsigned; adding the intercept back gives `v` exactly when `v - min < 2^16` |
| Export.SliceOfConstant | npy2dcm.py:163-165 | when every element equals the minimum, every stored value is 0 |
| Export.SliceLayout | npy2dcm.py:158-163 | for three axes, value `y*X + x` of slice `i`'s buffer encodes voxel `[i][y][x]` |
| Export.ExportSpec | npy2dcm.py:147-168 | the outcome of `toDicom` as a function; what it guarantees is stated by `Export.ExportOutcome` and the `ExportProperties` lemmas |
| Export.ExportOutcome | npy2dcm.py:147-168 | an export draws three UIDs, two per file written, and two more when an iteration raises (its boilerplate draws before the body fails); it ends without an exception only on a non-empty volume with a readable `size[2]`, after writing `size[2]` files; once the loop has started, the exception that stops it is the one the slice after the last written file raises |
| Export.FillSlice | npy2dcm.py:154-166 | the loop body's assignments give the boilerplate dataset the slice's image attributes and change nothing else |
| Export.ToDicom | npy2dcm.py:147-168 | the loop's output (files written, the exception that stopped it, the UID supply) is exactly `ExportSpec` |
| ExportProperties.WrittenFields | npy2dcm.py:148-168 | file `k` of an export has name `FileName(prefix, k)`; it has the boilerplate constants, clock reading `k`, the three UIDs drawn first, SOP UID `supply+3+2k+1` and media-storage UID `supply+3+2k`; its image attributes are slice `k`'s with the global minimum |
| ExportProperties.ExportCompletesIff | npy2dcm.py:147-168 | an export ends without an exception exactly when the volume is non-empty, `size[2]` is readable, and the frame and data cover every slice; it then writes exactly `size[2]` files |
| ExportProperties.ExportNames | npy2dcm.py:152-168 | file `k` is named `prefix + pad4(k) + ".dcm"`, and no two files of an export share a name |
| ExportProperties.ExportGeometry | npy2dcm.py:154-160 | each written file's geometry comes from the frame and the slice index alone |
| ExportProperties.ExportUids | npy2dcm.py:148-153 | the study, series and frame-of-reference UIDs are the three drawn first and equal on every file; SOP and media-storage UIDs are drawn during the export, never repeat and never coincide |
| ExportProperties.ConsecutiveExportsDisjoint | npy2dcm.py:148-153 | two exports in a row share no SOP instance UID |
| ExportProperties.SliceFileIgnoresUid | npy2dcm.py:153-166 | a slice's file is the same whatever UID the frame stores |
| ExportProperties.FrameUidNotRead | npy2dcm.py:96 | changing the frame's stored UID does not change an export |
| ExportProperties.ExportPixels | npy2dcm.py:151-166 | each written buffer holds `(v - min) mod 2^16` for the minimum over the whole volume; slope is 1.0 and intercept `min`; stored value plus intercept gives back `v` exactly when `v - min < 2^16` |
| ExportProperties.ExportPixelLayout | npy2dcm.py:158-163 | when rows and columns agree with the data's extents, each buffer has `Rows*Columns` values in row-major order |
| ExportProperties.AllOnesVolume | npy2dcm.py:151-165 | an all-ones volume stores every pixel as 0 with intercept 1 |
| ExportProperties.ExportKeepsBoilerplate | npy2dcm.py:44-72 | each written file keeps the boilerplate constants and its slice's clock reading; modality and derivation description are the volume's labels, or `''` when unset |
| ExportProperties.TwoDimensionalExport | npy2dcm.py:136-152 | a non-empty 2-D `(R, C)` array without a frame exports `R` files without error, although `nslices` is 1 |
| ExportProperties.ThreeDimensionalExport | npy2dcm.py:136-152 | a non-empty `(Z, Y, X)` array without a frame exports `Z` files, while `nslices` is 1 |
| ExportProperties.FramedExport | npy2dcm.py:138-168 | an array reshaped onto a frame with three-component start, spacing and size exports `size[2]` files; with size `(2, 3, 4)` and no prefix they are `0000.dcm`, `0001.dcm`, `0002.dcm` and `0003.dcm` |

## Left out

- Serialisation, which is done by the DICOM library: `save_as`, the 128-byte
  preamble, the little-endian and implicit-VR flags, and `.tostring()` byte
  packing. A dataset is the record of its attribute values. The pixel buffer
  is a sequence of unsigned 16-bit values.
- `os.makedirs`, the directory argument `dname` and the file writes, with the
  I/O errors they can raise. Writing a file is appending `(name, dataset)` to
  the output.
- `pydicom.uid.generate_uid`. It is a supply of serial numbers, so the UIDs'
  text (the `2.25.` random form) is not modelled, only their distinctness.
- `datetime.now()`. Its readings are the `clock` parameter. The date and time
  formats are not modelled.
- Floating-point intensities. The model's intensities are integers, so
  `floor(min_val)` is `min_val`. Truncation of fractional values and numpy's
  handling of out-of-range float casts are not modelled. Frame coordinates
  are exact reals, not IEEE floats.
- Export.Encode: the array's dtype is not modelled. The model subtracts
  `min_val` exactly and reduces the difference modulo 2^16. numpy subtracts
  in the array's dtype, so this agrees for unsigned dtypes and for signed
  integer dtypes at least 16 bits wide, whose wrap-around keeps the value
  modulo 2^16. For a narrower signed dtype such as `int8` the difference
  wraps first, and `127 - (-128)` is stored as 65535, not 255.
- Export.SlicePixels: makes the same assumption about the dtype as `Export.Encode`.
- ExportProperties.ExportPixels: makes the same assumption about the dtype as `Export.Encode`.
- Negative reshape extents (numpy's `-1`) and non-integer sizes. Extents are
  natural numbers.
- `BaseVolume()` with `data` and `frameofreference` still `None`, the
  `init_object` attribute, and the `data` property's getter and setter (which
  only store and return the value). A modelled volume always has data and a
  frame, as `fromArray` leaves it.
- Whether `PixelSpacing = [x, y]` follows the row/column order of DICOM
  PS3.3 section 10.7.1.3.
- The demonstration block under `if __name__ == "__main__"`.
