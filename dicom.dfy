/**
 * The CT-image dataset the converter fills in, and the boilerplate builder
 * `make_dicom_boilerplate`. Serialisation is not modelled: a dataset is the
 * record of attribute values it carries.
 */
module Dicom {
  import opened Results

  /**
   * A UID is either a fixed, well-known string or one drawn from the UID
   * generator. The generator is a supply of serial numbers: each draw takes
   * the next one, so two draws never coincide.
   */
  datatype Uid = Fixed(text: string) | Generated(serial: nat)

  /** The UID was drawn from the supply while it advanced from `lo` to `hi`. */
  predicate DrawnIn(u: Uid, lo: nat, hi: nat) {
    u.Generated? && lo <= u.serial < hi
  }

  /** Stored pixel values are unsigned 16-bit integers. */
  newtype Uint16 = x: int | 0 <= x < 0x1_0000

  /** `datetime.now()` formatted as `%Y%m%d` and `%H%M%S`. */
  datatype Stamp = Stamp(date: string, time: string)

  const CT_IMAGE_SOP_CLASS_UID: string := "1.2.840.10008.5.1.4.1.1.2"
  const IMPLEMENTATION_CLASS_UID: string := "2.25.229451600072090404564844894284998027179"
  /** Implicit VR Little Endian, the default transfer syntax of DICOM (PS3.5 section 10.1). */
  const IMPLICIT_VR_LITTLE_ENDIAN: string := "1.2.840.10008.1.2"

  datatype FileMeta = FileMeta(
    groupLength: int,
    version: seq<bv8>,
    mediaStorageSopClassUid: Uid,
    mediaStorageSopInstanceUid: Uid,
    implementationClassUid: Uid,
    implementationVersionName: string,
    transferSyntaxUid: Uid)

  /** The attributes the boilerplate fixes and the exporter leaves alone. */
  datatype Header = Header(
    contentDate: string,
    contentTime: string,
    studyDate: string,
    studyTime: string,
    patientId: string,
    studyId: string,
    seriesNumber: string,
    accessionNumber: string,
    referringPhysiciansName: string,
    patientName: string,
    patientSex: string,
    patientAge: string,
    patientBirthDate: string,
    patientOrientation: string,
    patientPosition: string,
    imageOrientationPatient: seq<int>,
    instanceNumber: int,
    studyInstanceUid: Uid,
    seriesInstanceUid: Uid,
    frameOfReferenceUid: Uid,
    sopInstanceUid: Uid,
    imageType: seq<string>,
    sopClassUid: Uid,
    samplesPerPixel: int,
    photometricInterpretation: string,
    bitsAllocated: int,
    bitsStored: int,
    highBit: int,
    kvp: string,
    units: string,
    rescaleType: string)

  /** The attributes the exporter sets on every slice (the boilerplate gives placeholders). */
  datatype Image = Image(
    sliceThickness: real,
    pixelSpacing: seq<real>,
    sliceLocation: real,
    imagePositionPatient: seq<real>,
    columns: int,
    rows: int,
    acquisitionNumber: int,
    modality: string,
    derivationDescription: Option<string>,  // absent from the boilerplate
    pixelData: Option<seq<Uint16>>,         // absent from the boilerplate
    rescaleSlope: real,
    rescaleIntercept: int,
    pixelRepresentation: int)

  /** A dataset: file meta information and the attributes, grouped by who sets them. */
  datatype Dataset = Dataset(fileMeta: FileMeta, header: Header, image: Image)

  /** Take `given` if present, otherwise draw the next UID: `generate_uid() if x is None else x`. */
  function UidOrDraw(given: Option<Uid>, supply: nat): (r: (Uid, nat))
    ensures given.Some? ==> r == (given.value, supply)
    ensures given.None? ==> r.1 == supply + 1 && DrawnIn(r.0, supply, r.1)
  {
    if given.Some? then (given.value, supply) else (Generated(supply), supply + 1)
  }

  /**
   * `make_dicom_boilerplate(SeriesInstanceUID, StudyInstanceUID, FrameOfReferenceUID)`.
   * Returns the dataset and the supply after the UIDs it drew: the media-storage
   * instance UID first, then each missing shared UID (study, series, frame of
   * reference, in that order), then the SOP instance UID.
   */
  function Boilerplate(series: Option<Uid>, study: Option<Uid>, frame: Option<Uid>,
                       stamp: Stamp, supply: nat): (r: (Dataset, nat))
    ensures var missing := (if series.None? then 1 else 0) + (if study.None? then 1 else 0)
                           + (if frame.None? then 1 else 0);
            r.1 == supply + 2 + missing
    ensures series.Some? ==> r.0.header.seriesInstanceUid == series.value
    ensures study.Some? ==> r.0.header.studyInstanceUid == study.value
    ensures frame.Some? ==> r.0.header.frameOfReferenceUid == frame.value
    ensures series.None? ==> DrawnIn(r.0.header.seriesInstanceUid, supply, r.1)
    ensures study.None? ==> DrawnIn(r.0.header.studyInstanceUid, supply, r.1)
    ensures frame.None? ==> DrawnIn(r.0.header.frameOfReferenceUid, supply, r.1)
    ensures DrawnIn(r.0.fileMeta.mediaStorageSopInstanceUid, supply, r.1)
    ensures DrawnIn(r.0.header.sopInstanceUid, supply, r.1)
    ensures r.0.header.sopInstanceUid != r.0.fileMeta.mediaStorageSopInstanceUid
    ensures series.None? ==> r.0.header.sopInstanceUid != r.0.header.seriesInstanceUid
    ensures study.None? ==> r.0.header.sopInstanceUid != r.0.header.studyInstanceUid
    ensures frame.None? ==> r.0.header.sopInstanceUid != r.0.header.frameOfReferenceUid
    // the order of the draws: media-storage UID first, SOP instance UID last
    ensures r.0.fileMeta.mediaStorageSopInstanceUid == Generated(supply)
    ensures r.0.header.sopInstanceUid == Generated(r.1 - 1)
    ensures study.None? ==> r.0.header.studyInstanceUid == Generated(supply + 1)
    ensures series.None? ==>
              r.0.header.seriesInstanceUid == Generated(supply + 1 + (if study.None? then 1 else 0))
    ensures frame.None? ==>
              r.0.header.frameOfReferenceUid ==
                Generated(supply + 1 + (if study.None? then 1 else 0) + (if series.None? then 1 else 0))
  {
    var media := Generated(supply);
    var meta := FileMeta(204, [0x30, 0x30, 0x01], Fixed(CT_IMAGE_SOP_CLASS_UID), media,
                         Fixed(IMPLEMENTATION_CLASS_UID), "PyMedImage",
                         Fixed(IMPLICIT_VR_LITTLE_ENDIAN));
    var (studyUid, s1) := UidOrDraw(study, supply + 1);
    var (seriesUid, s2) := UidOrDraw(series, s1);
    var (frameUid, s3) := UidOrDraw(frame, s2);
    var sop := Generated(s3);
    var header := Header(
      contentDate := stamp.date, contentTime := stamp.time,
      studyDate := stamp.date, studyTime := stamp.time,
      patientId := "ANON0001", studyId := "ANON0001", seriesNumber := "0001",
      accessionNumber := "", referringPhysiciansName := "", patientName := "ANON0001",
      patientSex := "", patientAge := "", patientBirthDate := "",
      patientOrientation := "LA", patientPosition := "HFS",
      imageOrientationPatient := [1, 0, 0, 0, 1, 0],
      instanceNumber := 1,
      studyInstanceUid := studyUid, seriesInstanceUid := seriesUid,
      frameOfReferenceUid := frameUid, sopInstanceUid := sop,
      imageType := ["ORIGINAL", "PRIMARY", "AXIAL"],
      sopClassUid := Fixed(CT_IMAGE_SOP_CLASS_UID),
      samplesPerPixel := 1,
      photometricInterpretation := "MONOCHROME2",
      bitsAllocated := 16, bitsStored := 16, highBit := 15,
      kvp := "",
      units := "HU", rescaleType := "HU");
    var image := Image(
      sliceThickness := 1.0,
      pixelSpacing := [1.0, 1.0],
      sliceLocation := 0.0,
      imagePositionPatient := [0.0, 0.0, 0.0],
      columns := 0, rows := 0,
      acquisitionNumber := 1,
      modality := "",
      derivationDescription := None,
      pixelData := None,
      rescaleSlope := 1.0, rescaleIntercept := 0,
      pixelRepresentation := 0);
    var ds := Dataset(meta, header, image);
    (ds, s3 + 1)
  }

  /**
   * The attributes of the boilerplate that the exporter never overwrites, with
   * the constant values the boilerplate gives them.
   */
  predicate KeepsConstants(ds: Dataset) {
    && ds.fileMeta.groupLength == 204
    && ds.fileMeta.version == [0x30, 0x30, 0x01]
    && ds.fileMeta.implementationVersionName == "PyMedImage"
    && ds.fileMeta.mediaStorageSopClassUid == Fixed(CT_IMAGE_SOP_CLASS_UID)
    && ds.fileMeta.implementationClassUid == Fixed(IMPLEMENTATION_CLASS_UID)
    && ds.fileMeta.transferSyntaxUid == Fixed(IMPLICIT_VR_LITTLE_ENDIAN)
    && var h := ds.header;
    && h.sopClassUid == Fixed(CT_IMAGE_SOP_CLASS_UID)
    && h.patientId == "ANON0001" && h.patientName == "ANON0001"
    && h.studyId == "ANON0001" && h.seriesNumber == "0001"
    && h.accessionNumber == "" && h.referringPhysiciansName == ""
    && h.patientSex == "" && h.patientAge == "" && h.patientBirthDate == ""
    && h.kvp == ""
    && h.patientOrientation == "LA" && h.patientPosition == "HFS"
    && h.imageOrientationPatient == [1, 0, 0, 0, 1, 0]
    && h.instanceNumber == 1
    && h.imageType == ["ORIGINAL", "PRIMARY", "AXIAL"]
    && h.samplesPerPixel == 1
    && h.photometricInterpretation == "MONOCHROME2"
    && h.bitsAllocated == 16 && h.bitsStored == 16 && h.highBit == 15
    && h.units == "HU" && h.rescaleType == "HU"
  }

  /** The boilerplate's fixed attributes hold whatever UIDs and clock reading it gets. */
  lemma BoilerplateConstants(series: Option<Uid>, study: Option<Uid>, frame: Option<Uid>,
                             stamp: Stamp, supply: nat)
    ensures KeepsConstants(Boilerplate(series, study, frame, stamp, supply).0)
    ensures var h := Boilerplate(series, study, frame, stamp, supply).0.header;
            && h.contentDate == stamp.date && h.contentTime == stamp.time
            && h.studyDate == stamp.date && h.studyTime == stamp.time
  {}
}
