/**
 * The S3 organiser: which listed objects are DICOM files, where each one is
 * copied (patient/study/series/instance under the target prefix), and how the
 * patient -> study -> series grouping is read back from the copied keys.
 *
 * The S3 client and pydicom are not modelled: a listing is a sequence of
 * pages, an object's bytes come from a map (a missing key is a failed read),
 * and the parsed header of a file is an optional set of four fields.
 */
module DicomOrganizer {
  import opened Wrappers
  import opened Strings

  // ---------------------------------------------------------------------------
  // Configuration
  // ---------------------------------------------------------------------------

  /** The organiser's settings; none of them is reassigned after construction. */
  datatype Organizer = Organizer(
    sourceBucket: string,
    sourcePrefix: string,
    targetBucket: string,
    targetPrefix: string)

  /** `S3DICOMOrganizer.__init__`: the target bucket defaults to the source bucket. */
  function NewOrganizer(sourceBucket: string, sourcePrefix: string := "",
                        targetBucket: Option<string> := None, targetPrefix: string := ""): (o: Organizer)
    ensures o.sourceBucket == sourceBucket && o.sourcePrefix == sourcePrefix
    ensures o.targetPrefix == targetPrefix
    ensures Truthy(targetBucket) ==> o.targetBucket == targetBucket.value
    ensures !Truthy(targetBucket) ==> o.targetBucket == sourceBucket
  {
    Organizer(sourceBucket, sourcePrefix,
              if Truthy(targetBucket) then targetBucket.value else sourceBucket,
              targetPrefix)
  }

  // ---------------------------------------------------------------------------
  // Sanitising path segments
  // ---------------------------------------------------------------------------

  /** The characters `_sanitize` replaces, in the order it replaces them. */
  const InvalidChars: string := "<>:\"|?*\\"

  /** What one character of the input becomes. */
  function SanitizedChar(c: char): char {
    if c in InvalidChars then '_' else c
  }

  /** The specification of `_sanitize`: character by character. */
  function Sanitized(text: string): string {
    seq(|text|, i requires 0 <= i < |text| => SanitizedChar(text[i]))
  }

  /** `text.replace(c, d)` for a one-character pattern. */
  function Replace(text: string, c: char, d: char): string {
    seq(|text|, i requires 0 <= i < |text| => if text[i] == c then d else text[i])
  }

  /** `_sanitize`: replace each invalid character in turn by `_`. */
  method Sanitize(text: string) returns (r: string)
    ensures r == Sanitized(text)
  {
    r := text;
    var k := 0;
    while k < |InvalidChars|
      invariant 0 <= k <= |InvalidChars|
      invariant |r| == |text|
      invariant forall i :: 0 <= i < |text| ==>
        r[i] == if text[i] in InvalidChars[..k] then '_' else text[i]
    {
      r := Replace(r, InvalidChars[k], '_');
      assert InvalidChars[..k + 1] == InvalidChars[..k] + [InvalidChars[k]];
      k := k + 1;
    }
    assert InvalidChars[..k] == InvalidChars;
  }

  /** No invalid character survives sanitising. */
  lemma SanitizedIsClean(text: string)
    ensures forall i :: 0 <= i < |Sanitized(text)| ==> Sanitized(text)[i] !in InvalidChars
  {
  }

  /** Sanitising keeps the length and every other character, `/` included. */
  lemma SanitizedKeepsOthers(text: string)
    ensures |Sanitized(text)| == |text|
    ensures forall i :: 0 <= i < |text| && text[i] !in InvalidChars ==> Sanitized(text)[i] == text[i]
    ensures forall i :: 0 <= i < |text| && text[i] in InvalidChars ==> Sanitized(text)[i] == '_'
    ensures '/' in text <==> '/' in Sanitized(text)
  {
    var r := Sanitized(text);
    if '/' in text {
      var i :| 0 <= i < |text| && text[i] == '/';
      assert r[i] == '/';
    }
    if '/' in r {
      var i :| 0 <= i < |r| && r[i] == '/';
      assert text[i] == '/';
    }
  }

  /** Sanitising twice is sanitising once. */
  lemma SanitizedIdempotent(text: string)
    ensures Sanitized(Sanitized(text)) == Sanitized(text)
  {
  }

  // ---------------------------------------------------------------------------
  // Destination keys
  // ---------------------------------------------------------------------------

  /** The four fields of a parsed DICOM header that the layout uses; each may be absent. */
  datatype DicomHeader = DicomHeader(
    patientId: Option<string>,
    studyInstanceUid: Option<string>,
    seriesInstanceUid: Option<string>,
    sopInstanceUid: Option<string>)

  const UnknownPatient: string := "Unknown_Patient"
  const UnknownStudy: string := "Unknown_Study"
  const UnknownSeries: string := "Unknown_Series"
  const UnknownInstance: string := "Unknown_Instance"
  const DcmExtension: string := ".dcm"

  /** `ds.get(name, placeholder)` */
  function FieldOr(field: Option<string>, placeholder: string): string {
    match field
    case Some(v) => v
    case None => placeholder
  }

  /** The sanitised path segments of a header, placeholders filled in. */
  function PatientSegment(h: DicomHeader): string { Sanitized(FieldOr(h.patientId, UnknownPatient)) }
  function StudySegment(h: DicomHeader): string { Sanitized(FieldOr(h.studyInstanceUid, UnknownStudy)) }
  function SeriesSegment(h: DicomHeader): string { Sanitized(FieldOr(h.seriesInstanceUid, UnknownSeries)) }
  function InstanceSegment(h: DicomHeader): string { Sanitized(FieldOr(h.sopInstanceUid, UnknownInstance)) }

  /** `{target_prefix}/{patient}/{study}/{series}/{instance}.dcm` */
  function DestinationKey(targetPrefix: string, h: DicomHeader): string {
    targetPrefix + "/" + (PatientSegment(h) + "/" + (StudySegment(h) + "/" + (SeriesSegment(h)
      + "/" + (InstanceSegment(h) + DcmExtension))))
  }

  /**
   * A present field is sanitised, an absent one becomes its placeholder
   * (which sanitising leaves as it is).
   */
  lemma SegmentsFromFields(h: DicomHeader)
    ensures PatientSegment(h) == if h.patientId.Some? then Sanitized(h.patientId.value) else UnknownPatient
    ensures StudySegment(h) == if h.studyInstanceUid.Some? then Sanitized(h.studyInstanceUid.value) else UnknownStudy
    ensures SeriesSegment(h) == if h.seriesInstanceUid.Some? then Sanitized(h.seriesInstanceUid.value) else UnknownSeries
    ensures InstanceSegment(h) == if h.sopInstanceUid.Some? then Sanitized(h.sopInstanceUid.value) else UnknownInstance
  {
    SanitizedKeepsOthers(UnknownPatient);
    SanitizedKeepsOthers(UnknownStudy);
    SanitizedKeepsOthers(UnknownSeries);
    SanitizedKeepsOthers(UnknownInstance);
  }

  /** The destination key lies under the target prefix and ends in `.dcm`. */
  lemma DestinationKeyShape(targetPrefix: string, h: DicomHeader)
    ensures var key := DestinationKey(targetPrefix, h);
      && EndsWith(key, DcmExtension)
      && |targetPrefix| < |key| && key[..|targetPrefix| + 1] == targetPrefix + "/"
  {
    var key := DestinationKey(targetPrefix, h);
    var rest := PatientSegment(h) + "/" + (StudySegment(h) + "/" + (SeriesSegment(h) + "/" + InstanceSegment(h)));
    assert key == targetPrefix + "/" + rest + DcmExtension;
    assert key[|key| - |DcmExtension|..] == DcmExtension;
    assert key[..|targetPrefix| + 1] == targetPrefix + "/";
  }

  /** Past the target prefix, no invalid character appears in a destination key. */
  lemma DestinationKeyClean(targetPrefix: string, h: DicomHeader)
    ensures var key := DestinationKey(targetPrefix, h);
      forall i :: |targetPrefix| <= i < |key| ==> key[i] !in InvalidChars
  {
    var p, s, se, n := PatientSegment(h), StudySegment(h), SeriesSegment(h), InstanceSegment(h);
    SanitizedIsClean(FieldOr(h.patientId, UnknownPatient));
    SanitizedIsClean(FieldOr(h.studyInstanceUid, UnknownStudy));
    SanitizedIsClean(FieldOr(h.seriesInstanceUid, UnknownSeries));
    SanitizedIsClean(FieldOr(h.sopInstanceUid, UnknownInstance));
    var tail := "/" + (p + "/" + (s + "/" + (se + "/" + (n + DcmExtension))));
    assert DestinationKey(targetPrefix, h) == targetPrefix + tail;
    assert forall c :: c in tail ==> c == '/' || c in p || c in s || c in se || c in n || c in DcmExtension;
  }

  /** No field of the header, nor its placeholder, holds a `/`. */
  predicate SlashFree(h: DicomHeader) {
    && '/' !in FieldOr(h.patientId, UnknownPatient)
    && '/' !in FieldOr(h.studyInstanceUid, UnknownStudy)
    && '/' !in FieldOr(h.seriesInstanceUid, UnknownSeries)
    && '/' !in FieldOr(h.sopInstanceUid, UnknownInstance)
  }

  /**
   * When no field holds a `/`, the last four `/`-separated pieces of the
   * destination key are exactly the four sanitised segments.
   */
  lemma DestinationKeyPieces(targetPrefix: string, h: DicomHeader)
    requires SlashFree(h)
    ensures Split(DestinationKey(targetPrefix, h), '/') == Split(targetPrefix, '/')
      + [PatientSegment(h), StudySegment(h), SeriesSegment(h), InstanceSegment(h) + DcmExtension]
  {
    SanitizedKeepsOthers(FieldOr(h.patientId, UnknownPatient));
    SanitizedKeepsOthers(FieldOr(h.studyInstanceUid, UnknownStudy));
    SanitizedKeepsOthers(FieldOr(h.seriesInstanceUid, UnknownSeries));
    SanitizedKeepsOthers(FieldOr(h.sopInstanceUid, UnknownInstance));
    assert '/' !in InstanceSegment(h) + DcmExtension;
    SplitPath(targetPrefix, PatientSegment(h), StudySegment(h), SeriesSegment(h),
              InstanceSegment(h) + DcmExtension, '/');
  }

  // ---------------------------------------------------------------------------
  // Listing and classifying objects
  // ---------------------------------------------------------------------------

  /** One page of a `list_objects_v2` listing; `None` when it has no `Contents`. */
  datatype Page = Page(contents: Option<seq<string>>)

  function PageKeys(page: Page): seq<string> {
    match page.contents
    case Some(keys) => keys
    case None => []
  }

  /** Every key of a listing, page after page, in listing order. */
  function ListedKeys(pages: seq<Page>): seq<string> {
    if pages == [] then [] else ListedKeys(pages[..|pages| - 1]) + PageKeys(pages[|pages| - 1])
  }

  /** The four suffixes accepted without reading the object, exact case. */
  const DicomSuffixes: seq<string> := [".dcm", ".dicom", ".DCM", ".DICOM"]

  /** `key.endswith(('.dcm', '.dicom', '.DCM', '.DICOM'))` */
  predicate HasDicomSuffix(key: string) {
    exists i :: 0 <= i < |DicomSuffixes| && EndsWith(key, DicomSuffixes[i])
  }

  /** The file-format marker "DICM" that follows the 128-byte preamble. */
  const MagicOffset: nat := 128
  const DicmMagic: seq<bv8> := [0x44, 0x49, 0x43, 0x4D]

  /** `get_object(Key=key)`: the object's bytes, or `None` when the request fails. */
  function Fetch(store: map<string, seq<bv8>>, key: string): Option<seq<bv8>> {
    if key in store then Some(store[key]) else None
  }

  /**
   * A ranged read `bytes=first-last` followed by `read()`: `None` when the
   * object cannot be fetched or the range starts at or past its end (S3
   * answers 416), otherwise those bytes of the range the object has.
   */
  function RangeRead(obj: Option<seq<bv8>>, first: nat, last: nat): Option<seq<bv8>>
    requires first <= last
  {
    match obj
    case None => None
    case Some(bytes) =>
      if first >= |bytes| then None
      else Some(bytes[first..if last < |bytes| then last + 1 else |bytes|])
  }

  /** `_is_dicom_file`: the bytes 128..131 read back as "DICM"; a failed read is `False`. */
  predicate IsDicomFile(store: map<string, seq<bv8>>, key: string) {
    RangeRead(Fetch(store, key), MagicOffset, MagicOffset + 3) == Some(DicmMagic)
  }

  /**
   * The magic test accepts exactly the objects of at least 132 bytes whose
   * bytes 128..131 are "DICM": a short object or a failed read is rejected.
   */
  lemma IsDicomFileIffMarker(store: map<string, seq<bv8>>, key: string)
    ensures IsDicomFile(store, key) <==>
      key in store && |store[key]| >= MagicOffset + 4 && store[key][MagicOffset..MagicOffset + 4] == DicmMagic
  {
    if key in store {
      var bytes := store[key];
      if MagicOffset < |bytes| < MagicOffset + 4 {
        assert |bytes[MagicOffset..]| < |DicmMagic|;
      }
    }
  }

  /** The test `_list_dicom_files` applies to each listed key. */
  predicate IsDicomKey(store: map<string, seq<bv8>>, key: string) {
    HasDicomSuffix(key) || IsDicomFile(store, key)
  }

  /** The keys that pass the test, in listing order. */
  function DicomKeys(keys: seq<string>, store: map<string, seq<bv8>>): seq<string> {
    if keys == [] then []
    else
      var last := keys[|keys| - 1];
      DicomKeys(keys[..|keys| - 1], store) + if IsDicomKey(store, last) then [last] else []
  }

  /** A key is kept exactly when it was listed and passes the test; nothing is added. */
  lemma {:induction false} DicomKeysMembers(keys: seq<string>, store: map<string, seq<bv8>>)
    ensures |DicomKeys(keys, store)| <= |keys|
    ensures forall k :: k in DicomKeys(keys, store) <==> k in keys && IsDicomKey(store, k)
  {
    if keys != [] {
      var init := keys[..|keys| - 1];
      DicomKeysMembers(init, store);
      assert keys == init + [keys[|keys| - 1]];
    }
  }

  lemma ListedKeysStep(pages: seq<Page>, i: nat)
    requires i < |pages|
    ensures ListedKeys(pages[..i + 1]) == ListedKeys(pages[..i]) + PageKeys(pages[i])
  {
    assert pages[..i + 1][..i] == pages[..i];
  }

  lemma DicomKeysStep(seen: seq<string>, keys: seq<string>, j: nat, store: map<string, seq<bv8>>)
    requires j < |keys|
    ensures DicomKeys(seen + keys[..j + 1], store)
         == DicomKeys(seen + keys[..j], store) + if IsDicomKey(store, keys[j]) then [keys[j]] else []
  {
    assert (seen + keys[..j + 1])[..|seen| + j] == seen + keys[..j];
  }

  /** `_list_dicom_files` over the listing of the source bucket under the source prefix. */
  method ListDicomFiles(pages: seq<Page>, store: map<string, seq<bv8>>) returns (files: seq<string>)
    ensures files == DicomKeys(ListedKeys(pages), store)
  {
    files := [];
    var i := 0;
    while i < |pages|
      invariant 0 <= i <= |pages|
      invariant files == DicomKeys(ListedKeys(pages[..i]), store)
    {
      var listed := ListedKeys(pages[..i]);
      ListedKeysStep(pages, i);
      if pages[i].contents.Some? {
        var keys := pages[i].contents.value;
        var j := 0;
        assert listed + keys[..j] == listed;
        while j < |keys|
          invariant 0 <= j <= |keys|
          invariant files == DicomKeys(listed + keys[..j], store)
        {
          var key := keys[j];
          DicomKeysStep(listed, keys, j, store);
          if IsDicomKey(store, key) {
            files := files + [key];
          }
          j := j + 1;
        }
        assert keys[..j] == keys;
      } else {
        assert listed + PageKeys(pages[i]) == listed;
      }
      i := i + 1;
    }
    assert pages[..i] == pages;
  }

  // ---------------------------------------------------------------------------
  // Copying each DICOM file to its destination key
  // ---------------------------------------------------------------------------

  /** One `copy_object` request. */
  datatype CopyRequest = CopyRequest(sourceBucket: string, sourceKey: string,
                                     targetBucket: string, targetKey: string)

  /**
   * The copies made for the given files. `headers` holds the parsed header of
   * each file whose download and parse succeed; any other file raises, is
   * reported, and is skipped without stopping the loop.
   */
  function CopyPlan(org: Organizer, files: seq<string>, headers: map<string, DicomHeader>): seq<CopyRequest> {
    if files == [] then []
    else
      var last := files[|files| - 1];
      CopyPlan(org, files[..|files| - 1], headers)
        + if last in headers
          then [CopyRequest(org.sourceBucket, last, org.targetBucket, DestinationKey(org.targetPrefix, headers[last]))]
          else []
  }

  /**
   * Every copy goes from a file with a readable header in the source bucket to
   * that header's destination key in the target bucket, and every such file is
   * copied, whatever happened to the others.
   */
  lemma {:induction false} CopyPlanComplete(org: Organizer, files: seq<string>, headers: map<string, DicomHeader>)
    ensures forall c :: c in CopyPlan(org, files, headers) ==>
      && c.sourceBucket == org.sourceBucket && c.targetBucket == org.targetBucket
      && c.sourceKey in files && c.sourceKey in headers
      && c.targetKey == DestinationKey(org.targetPrefix, headers[c.sourceKey])
    ensures forall k :: k in files && k in headers ==>
      CopyRequest(org.sourceBucket, k, org.targetBucket, DestinationKey(org.targetPrefix, headers[k]))
        in CopyPlan(org, files, headers)
  {
    if files != [] {
      CopyPlanComplete(org, files[..|files| - 1], headers);
      assert files == files[..|files| - 1] + [files[|files| - 1]];
    }
  }

  /** Every destination key is itself recognised as DICOM by its suffix. */
  lemma DestinationKeyIsDicom(targetPrefix: string, h: DicomHeader, store: map<string, seq<bv8>>)
    ensures HasDicomSuffix(DestinationKey(targetPrefix, h))
    ensures IsDicomKey(store, DestinationKey(targetPrefix, h))
  {
    DestinationKeyShape(targetPrefix, h);
    assert EndsWith(DestinationKey(targetPrefix, h), DicomSuffixes[0]);
  }

  /** `organize_by_patient_study_series` */
  method OrganizeByPatientStudySeries(org: Organizer, pages: seq<Page>, store: map<string, seq<bv8>>,
                                      headers: map<string, DicomHeader>) returns (copies: seq<CopyRequest>)
    ensures copies == CopyPlan(org, DicomKeys(ListedKeys(pages), store), headers)
  {
    var files := ListDicomFiles(pages, store);
    copies := [];
    var i := 0;
    while i < |files|
      invariant 0 <= i <= |files|
      invariant copies == CopyPlan(org, files[..i], headers)
    {
      var key := files[i];
      assert files[..i + 1][..i] == files[..i];
      if key in headers {
        var ds := headers[key];
        var patientId := Sanitize(FieldOr(ds.patientId, UnknownPatient));
        var studyUid := Sanitize(FieldOr(ds.studyInstanceUid, UnknownStudy));
        var seriesUid := Sanitize(FieldOr(ds.seriesInstanceUid, UnknownSeries));
        var sopInstanceUid := Sanitize(FieldOr(ds.sopInstanceUid, UnknownInstance));
        var newKey := org.targetPrefix + "/" + (patientId + "/" + (studyUid + "/" + (seriesUid
          + "/" + (sopInstanceUid + DcmExtension))));
        copies := copies + [CopyRequest(org.sourceBucket, key, org.targetBucket, newKey)];
      }
      i := i + 1;
    }
    assert files[..i] == files;
  }

  // ---------------------------------------------------------------------------
  // Reading the hierarchy back from the organised keys
  // ---------------------------------------------------------------------------

  /** Where a key sits in the hierarchy: its patient, study and series pieces. */
  datatype Placement = Placement(patient: string, study: string, series: string)

  /** patient -> study -> series list, as `get_organized_structure` returns it. */
  type Structure = map<string, map<string, seq<string>>>

  /**
   * What one key contributes: `parts[-4]`, `parts[-3]` and `parts[-2]` of its
   * `/`-separated pieces when it has at least four of them, nothing otherwise.
   */
  function PlacementOf(key: string): Option<Placement> {
    var parts := Split(key, '/');
    if |parts| < 4 then None
    else Some(Placement(parts[|parts| - 4], parts[|parts| - 3], parts[|parts| - 2]))
  }

  /** The series recorded under a patient and study; empty when there are none. */
  function SeriesList(st: Structure, patient: string, study: string): seq<string> {
    if patient in st && study in st[patient] then st[patient][study] else []
  }

  /** The placement is recorded in the structure. */
  predicate Holds(st: Structure, t: Placement) {
    t.series in SeriesList(st, t.patient, t.study)
  }

  /** Record one placement: create the patient and the study if needed, append a new series. */
  function Record(st: Structure, t: Placement): Structure {
    var studies := if t.patient in st then st[t.patient] else map[];
    var series := SeriesList(st, t.patient, t.study);
    st[t.patient := studies[t.study := if t.series in series then series else series + [t.series]]]
  }

  function AddKey(st: Structure, key: string): Structure {
    match PlacementOf(key)
    case None => st
    case Some(t) => Record(st, t)
  }

  /** The structure built from the keys, taken in listing order. */
  function Organized(keys: seq<string>): Structure {
    if keys == [] then map[] else AddKey(Organized(keys[..|keys| - 1]), keys[|keys| - 1])
  }

  predicate NoDuplicates(xs: seq<string>) {
    forall i, j :: 0 <= i < j < |xs| ==> xs[i] != xs[j]
  }

  /** Every patient has a study, every study a series, and no series list repeats itself. */
  predicate WellFormed(st: Structure) {
    forall patient :: patient in st ==>
      && |st[patient]| > 0
      && forall study :: study in st[patient] ==>
           |st[patient][study]| > 0 && NoDuplicates(st[patient][study])
  }

  lemma RecordWellFormed(st: Structure, t: Placement)
    requires WellFormed(st)
    ensures WellFormed(Record(st, t))
  {
    var r := Record(st, t);
    var series := SeriesList(st, t.patient, t.study);
    assert t.study in r[t.patient];
    if t.series !in series {
      var xs := series + [t.series];
      forall i, j | 0 <= i < j < |xs| ensures xs[i] != xs[j] {
        if j == |xs| - 1 { assert xs[i] in series; }
      }
    }
  }

  /** The structure never holds an empty level nor a repeated series. */
  lemma {:induction false} OrganizedWellFormed(keys: seq<string>)
    ensures WellFormed(Organized(keys))
  {
    if keys != [] {
      OrganizedWellFormed(keys[..|keys| - 1]);
      var last := keys[|keys| - 1];
      if PlacementOf(last).Some? {
        RecordWellFormed(Organized(keys[..|keys| - 1]), PlacementOf(last).value);
      }
    }
  }

  lemma RecordHolds(st: Structure, t: Placement, u: Placement)
    ensures Holds(Record(st, t), u) <==> Holds(st, u) || u == t
  {
  }

  /**
   * A placement is in the structure exactly when some key contributes it:
   * keys with fewer than four pieces contribute nothing, every other key's
   * placement is present.
   */
  lemma {:induction false} OrganizedHolds(keys: seq<string>, t: Placement)
    ensures Holds(Organized(keys), t) <==> exists k :: k in keys && PlacementOf(k) == Some(t)
  {
    if keys != [] {
      var init, last := keys[..|keys| - 1], keys[|keys| - 1];
      OrganizedHolds(init, t);
      assert keys == init + [last];
      if PlacementOf(last).Some? {
        RecordHolds(Organized(init), PlacementOf(last).value, t);
      }
    }
  }

  /** The series of the keys that sit under this patient and study, in listing order. */
  function SeriesUnder(keys: seq<string>, patient: string, study: string): seq<string> {
    if keys == [] then []
    else
      var t := PlacementOf(keys[|keys| - 1]);
      SeriesUnder(keys[..|keys| - 1], patient, study)
        + if t.Some? && t.value.patient == patient && t.value.study == study then [t.value.series] else []
  }

  /** Each element at its first occurrence, in order of first occurrence. */
  function FirstOccurrences(xs: seq<string>): seq<string> {
    if xs == [] then []
    else
      var init := FirstOccurrences(xs[..|xs| - 1]);
      if xs[|xs| - 1] in init then init else init + [xs[|xs| - 1]]
  }

  /**
   * Every series list is the series of the keys under that patient and study,
   * each kept at its first occurrence: the order in which series were first seen.
   */
  lemma {:induction false} OrganizedSeriesOrder(keys: seq<string>, patient: string, study: string)
    ensures SeriesList(Organized(keys), patient, study) == FirstOccurrences(SeriesUnder(keys, patient, study))
  {
    if keys != [] {
      var init, last := keys[..|keys| - 1], keys[|keys| - 1];
      OrganizedSeriesOrder(init, patient, study);
      var under := SeriesUnder(init, patient, study);
      var t := PlacementOf(last);
      if t.Some? && t.value.patient == patient && t.value.study == study {
        assert SeriesUnder(keys, patient, study) == under + [t.value.series];
        assert (under + [t.value.series])[..|under|] == under;
      } else {
        assert SeriesUnder(keys, patient, study) == under;
      }
    }
  }

  lemma {:induction false} FirstOccurrencesMembers(xs: seq<string>)
    ensures forall x :: x in FirstOccurrences(xs) <==> x in xs
  {
    if xs != [] {
      FirstOccurrencesMembers(xs[..|xs| - 1]);
      assert xs == xs[..|xs| - 1] + [xs[|xs| - 1]];
    }
  }

  /** The index of the first occurrence of `x`. */
  function FirstIndex(xs: seq<string>, x: string): (i: nat)
    requires x in xs
    ensures i < |xs| && xs[i] == x && x !in xs[..i]
  {
    if xs[0] == x then 0
    else
      assert xs[1..][..FirstIndex(xs[1..], x)] == xs[..FirstIndex(xs[1..], x) + 1][1..];
      FirstIndex(xs[1..], x) + 1
  }

  lemma FirstIndexPrefix(xs: seq<string>, y: string, x: string)
    requires x in xs
    ensures x in xs + [y] && FirstIndex(xs + [y], x) == FirstIndex(xs, x)
  {
    if xs[0] != x {
      assert (xs + [y])[1..] == xs[1..] + [y];
      FirstIndexPrefix(xs[1..], y, x);
    }
  }

  /**
   * `FirstOccurrences` keeps each element once, and in the order of the
   * elements' first occurrences in the input.
   */
  lemma {:induction false} FirstOccurrencesOrdered(xs: seq<string>)
    ensures NoDuplicates(FirstOccurrences(xs))
    ensures forall i, j :: 0 <= i < j < |FirstOccurrences(xs)| ==>
      FirstOccurrences(xs)[i] in xs && FirstOccurrences(xs)[j] in xs &&
      FirstIndex(xs, FirstOccurrences(xs)[i]) < FirstIndex(xs, FirstOccurrences(xs)[j])
  {
    if xs != [] {
      var init, last := xs[..|xs| - 1], xs[|xs| - 1];
      assert xs == init + [last];
      FirstOccurrencesOrdered(init);
      FirstOccurrencesMembers(init);
      var d := FirstOccurrences(init);
      var r := FirstOccurrences(xs);
      forall x | x in init ensures FirstIndex(xs, x) == FirstIndex(init, x) {
        FirstIndexPrefix(init, last, x);
      }
      if last !in d {
        assert last !in init;
        forall i, j | 0 <= i < j < |r| ensures r[i] != r[j] {
          if j == |r| - 1 { assert r[i] in d; }
        }
      }
    }
  }

  lemma OrganizedStep(seen: seq<string>, keys: seq<string>, j: nat)
    requires j < |keys|
    ensures Organized(seen + keys[..j + 1]) == AddKey(Organized(seen + keys[..j]), keys[j])
  {
    assert (seen + keys[..j + 1])[..|seen| + j] == seen + keys[..j];
  }

  /** `Record` performed as the three in-place updates `get_organized_structure` makes. */
  lemma RecordInSteps(st: Structure, t: Placement)
    ensures
      var s1 := if t.patient !in st then st[t.patient := map[]] else st;
      var s2 := if t.study !in s1[t.patient] then s1[t.patient := s1[t.patient][t.study := []]] else s1;
      var s3 := if t.series !in s2[t.patient][t.study]
                then s2[t.patient := s2[t.patient][t.study := s2[t.patient][t.study] + [t.series]]]
                else s2;
      s3 == Record(st, t)
  {
    var studies := if t.patient in st then st[t.patient] else map[];
    var series := SeriesList(st, t.patient, t.study);
    var s1 := if t.patient !in st then st[t.patient := map[]] else st;
    var s2 := if t.study !in s1[t.patient] then s1[t.patient := s1[t.patient][t.study := []]] else s1;
    if t.patient in st && t.study in st[t.patient] {
      assert st[t.patient][t.study := series] == st[t.patient];
      assert st[t.patient := st[t.patient]] == st;
    }
    assert s2 == st[t.patient := studies[t.study := series]];
    assert s2[t.patient][t.study] == series;
    if t.series !in series {
      assert s2[t.patient][t.study := series + [t.series]] == studies[t.study := series + [t.series]];
      assert s2[t.patient := studies[t.study := series + [t.series]]]
          == st[t.patient := studies[t.study := series + [t.series]]];
    }
  }

  /** `get_organized_structure` over the listing of the target bucket under the target prefix. */
  method GetOrganizedStructure(pages: seq<Page>) returns (structure: Structure)
    ensures structure == Organized(ListedKeys(pages))
  {
    structure := map[];
    var i := 0;
    while i < |pages|
      invariant 0 <= i <= |pages|
      invariant structure == Organized(ListedKeys(pages[..i]))
    {
      var listed := ListedKeys(pages[..i]);
      ListedKeysStep(pages, i);
      if pages[i].contents.Some? {
        var keys := pages[i].contents.value;
        var j := 0;
        assert listed + keys[..j] == listed;
        while j < |keys|
          invariant 0 <= j <= |keys|
          invariant structure == Organized(listed + keys[..j])
        {
          var key := keys[j];
          OrganizedStep(listed, keys, j);
          var parts := Split(key, '/');
          if |parts| >= 4 {
            var patient, study, series := parts[|parts| - 4], parts[|parts| - 3], parts[|parts| - 2];
            assert PlacementOf(key) == Some(Placement(patient, study, series));
            ghost var before := structure;
            if patient !in structure {
              structure := structure[patient := map[]];
            }
            if study !in structure[patient] {
              structure := structure[patient := structure[patient][study := []]];
            }
            if series !in structure[patient][study] {
              structure := structure[patient := structure[patient][study := structure[patient][study] + [series]]];
            }
            RecordInSteps(before, Placement(patient, study, series));
          }
          j := j + 1;
        }
        assert keys[..j] == keys;
      } else {
        assert listed + PageKeys(pages[i]) == listed;
      }
      i := i + 1;
    }
    assert pages[..i] == pages;
  }

  // ---------------------------------------------------------------------------
  // Round trip between the key layout and the hierarchy
  // ---------------------------------------------------------------------------

  /** A destination key is read back as its header's patient, study and series. */
  lemma PlacementOfDestinationKey(targetPrefix: string, h: DicomHeader)
    requires SlashFree(h)
    ensures PlacementOf(DestinationKey(targetPrefix, h))
         == Some(Placement(PatientSegment(h), StudySegment(h), SeriesSegment(h)))
  {
    DestinationKeyPieces(targetPrefix, h);
  }

  /**
   * Round trip: once a file has been organised, the structure read back from
   * any listing that holds its key maps its patient to its study to a series
   * list that holds its series.
   */
  lemma OrganizedRecoversHeader(keys: seq<string>, targetPrefix: string, h: DicomHeader)
    requires SlashFree(h)
    requires DestinationKey(targetPrefix, h) in keys
    ensures var st := Organized(keys);
      && PatientSegment(h) in st
      && StudySegment(h) in st[PatientSegment(h)]
      && SeriesSegment(h) in st[PatientSegment(h)][StudySegment(h)]
  {
    PlacementOfDestinationKey(targetPrefix, h);
    OrganizedHolds(keys, Placement(PatientSegment(h), StudySegment(h), SeriesSegment(h)));
  }

  lemma SanitizedAround(a: string, b: string)
    ensures Sanitized(a + "/" + b) == Sanitized(a) + "/" + Sanitized(b)
  {
  }

  /**
   * Why the round trip needs slash-free fields: `_sanitize` keeps `/`, so a
   * patient id `a/b` adds a level to the key and the key is read back under
   * patient `b`, a different patient.
   */
  lemma SlashInPatientIdMisplaces(targetPrefix: string, a: string, b: string, h: DicomHeader)
    requires '/' !in a && '/' !in b
    requires h.patientId == Some(a + "/" + b)
    requires SlashFree(h.(patientId := Some(b)))
    ensures PlacementOf(DestinationKey(targetPrefix, h))
         == Some(Placement(Sanitized(b), StudySegment(h), SeriesSegment(h)))
    ensures Sanitized(b) != PatientSegment(h)
  {
    SanitizedAround(a, b);
    SanitizedKeepsOthers(a);
    SanitizedKeepsOthers(b);
    var h' := h.(patientId := Some(b));
    SanitizedKeepsOthers(FieldOr(h.studyInstanceUid, UnknownStudy));
    SanitizedKeepsOthers(FieldOr(h.seriesInstanceUid, UnknownSeries));
    SanitizedKeepsOthers(FieldOr(h.sopInstanceUid, UnknownInstance));
    var i := InstanceSegment(h) + DcmExtension;
    assert '/' !in i;
    var head := targetPrefix + "/" + Sanitized(a);
    assert DestinationKey(targetPrefix, h)
        == head + ['/'] + (Sanitized(b) + ['/'] + (StudySegment(h) + ['/'] + (SeriesSegment(h) + ['/'] + i)));
    SplitPath(head, Sanitized(b), StudySegment(h), SeriesSegment(h), i, '/');
    assert |Sanitized(b)| < |PatientSegment(h)|;
  }
}
