# DICOM organiser and imaging-import client, modelled in Dafny

This project models the logic of a small pipeline. The pipeline copies DICOM files in S3 into a
`patient/study/series/instance` layout and then imports them into AWS HealthImaging.

- `wrappers.dfy` (`Wrappers`): `Option` and Python's truthiness of an optional string.
- `strings.dfy` (`Strings`): the parts of Python's `str` that the organiser uses.
  `Split` models `str.split` with a one-character separator, and `EndsWith` models `endswith`.
  `Join` is the inverse of `Split`.
- `dicom_organizer.dfy` (`DicomOrganizer`): the `S3DICOMOrganizer` class.
  - `_sanitize` is a method with the source's loop over the eight invalid characters.
    It is proved equal to a per-character specification.
  - The destination key `{target_prefix}/{patient}/{study}/{series}/{instance}.dcm`, with its placeholders.
  - The DICOM test: one of four suffixes, or the "DICM" marker after the 128-byte preamble
    (DICOM PS3.10, section 7.1), read with an S3 range request.
  - The listing loop and `get_organized_structure` are methods with nested loops over listing
    pages and their keys. The copy loop is one loop over the DICOM files that the listing loop
    returns. Each is proved equal to a specification function over the flattened listing, and the
    properties are proved about those functions.
- `health_imaging.dfy` (`HealthImaging`): the `AWSHealthImaging` class.
  - The import-job polling loop.
  - The keyword arguments that `search_studies` and `get_image_set_metadata` build.
  - The data store that `delete_datastore` targets.

External services are inputs:
- An S3 listing is a sequence of pages. A page without `Contents` is `Page(None)`.
- Object bytes are a `map<string, seq<bv8>>`. A missing key is a failed `get_object`.
- A parsed DICOM header is a `DicomHeader` of four optional fields. A file whose download or
  parse fails is absent from the `headers` map. `headers` is not tied to the object map, so it
  over-approximates the reads: every property of the copy loop holds for any `headers`.
- The status lookups of the polling loop are a sequence of optional status strings.
- The clock is a sequence of elapsed-time readings.

The docstring at DicomOrganizer.py:139 says `/` becomes `_`, but the code at lines 141-144 leaves
`/` alone. The model follows the code. `SlashInPatientIdMisplaces` shows the consequence:
a patient id `a/b` adds a directory level, and the hierarchy reads that key back under patient `b`.
The round trip `OrganizedRecoversHeader` therefore needs fields without `/`.

## Model

| member | source | states |
|---|---|---|
| `DicomOrganizer.NewOrganizer` | DicomOrganizer.py:7-19 | The target bucket is the given one when it is truthy, else the source bucket; the other settings are kept as given |
| `DicomOrganizer.Sanitize` | DicomOrganizer.py:135-144 | Replacing each invalid character in turn yields exactly the per-character specification: each of `< > : " \| ? * \` becomes `_`, every other character stays |
| `DicomOrganizer.SanitizedIsClean` | DicomOrganizer.py:141-144 | No character of `< > : " \| ? * \` survives sanitising |
| `DicomOrganizer.SanitizedKeepsOthers` | DicomOrganizer.py:141-144 | Sanitising preserves length and every other character; `/` is kept, so the result contains `/` exactly when the input does |
| `DicomOrganizer.SanitizedIdempotent` | DicomOrganizer.py:141-144 | Sanitising twice equals sanitising once |
| `DicomOrganizer.SegmentsFromFields` | DicomOrganizer.py:53-56 | A present field becomes its sanitised value; an absent one becomes `Unknown_Patient`, `Unknown_Study`, `Unknown_Series` or `Unknown_Instance` |
| `DicomOrganizer.DestinationKeyShape` | DicomOrganizer.py:58 | The destination key starts with the target prefix followed by `/` and ends in `.dcm` |
| `DicomOrganizer.DestinationKeyClean` | DicomOrganizer.py:53-58 | After the target prefix, no invalid character appears anywhere in the key |
| `DicomOrganizer.DestinationKeyPieces` | DicomOrganizer.py:58 | With slash-free fields, the key splits on `/` into the prefix's pieces followed by patient, study, series and `instance.dcm` |
| `DicomOrganizer.DestinationKeyIsDicom` | DicomOrganizer.py:93 | Every destination key passes the DICOM test on its suffix alone |
| `DicomOrganizer.IsDicomFileIffMarker` | DicomOrganizer.py:98-116 | The magic test accepts an object exactly when it can be read, has at least 132 bytes, and its bytes 128..131 are "DICM"; a failed, out-of-range or short read is rejected |
| `DicomOrganizer.DicomKeysMembers` | DicomOrganizer.py:91-94 | A listed key is kept exactly when it has a DICOM suffix or passes the magic test; nothing unlisted is added |
| `DicomOrganizer.ListDicomFiles` | DicomOrganizer.py:74-96 | The loop over pages and keys returns the DICOM keys of the listing in listing order, skipping pages without `Contents` |
| `DicomOrganizer.CopyPlanComplete` | DicomOrganizer.py:50-70 | Each copy goes from a listed file with a readable header to that header's destination key, between the configured buckets; every such file is copied even when others fail |
| `DicomOrganizer.OrganizeByPatientStudySeries` | DicomOrganizer.py:47-72 | The copy loop issues exactly the copy plan of the DICOM files of the listing |
| `DicomOrganizer.OrganizedWellFormed` | DicomOrganizer.py:183-188 | In the rebuilt hierarchy every patient has a study, every study a series, and no study's series list has duplicates |
| `DicomOrganizer.OrganizedHolds` | DicomOrganizer.py:175-188 | A patient/study/series triple is present exactly when some key has at least four pieces and that triple as `parts[-4]`, `parts[-3]`, `parts[-2]`; shorter keys contribute nothing |
| `DicomOrganizer.OrganizedSeriesOrder` | DicomOrganizer.py:183-188 | Each series list is the series of the keys under that patient and study, each kept at its first occurrence |
| `DicomOrganizer.FirstOccurrencesOrdered` | DicomOrganizer.py:187-188 | First-occurrence lists have no duplicates and are ordered by the elements' first positions in the input |
| `DicomOrganizer.GetOrganizedStructure` | DicomOrganizer.py:146-190 | The nested loops with in-place dictionary updates build exactly the hierarchy of the listed keys |
| `DicomOrganizer.RecordInSteps` | DicomOrganizer.py:183-188 | The three conditional in-place updates (new patient, new study, new series) have the effect of recording one placement |
| `DicomOrganizer.PlacementOfDestinationKey` | DicomOrganizer.py:175-181 | With slash-free fields, a destination key is read back as its header's patient, study and series segments |
| `DicomOrganizer.OrganizedRecoversHeader` | DicomOrganizer.py:175-188 | Round trip: any listing that holds an organised file's key maps its patient to its study to a list holding its series |
| `DicomOrganizer.SlashInPatientIdMisplaces` | DicomOrganizer.py:135-144 | A patient id `a/b` gives a key that is read back under patient `b`, which differs from the key's patient segment |
| `Strings.Split` | DicomOrganizer.py:175 | `split('/')` yields at least one piece, and no piece contains the separator |
| `Strings.SplitConcat` | DicomOrganizer.py:175 | Splitting `a/b` gives the pieces of `a` followed by those of `b` |
| `Strings.JoinSplit` | DicomOrganizer.py:175 | Joining the pieces of a split gives back the key |
| `Strings.SplitJoin` | DicomOrganizer.py:175 | Splitting a join of separator-free pieces gives back the pieces |
| `HealthImaging.WaitForImportCompletion` | HealthImaging.py:64-86 | Every lookup happens before `max_wait`. All lookups but the last saw a non-terminal status. The result is true exactly when the last status is `COMPLETED`. With a negative `check_interval`, at most one lookup is made, and the first sleep raises exactly when its status is non-terminal. Otherwise the loop stops at `None`, `FAILED`, `COMPLETED_WITH_ERRORS` or `COMPLETED`, or else at the deadline. There are no lookups when `max_wait <= 0`. There is at most one lookup per check interval |
| `HealthImaging.ElapsedLowerBound` | HealthImaging.py:67-83 | After `k` iterations that each sleep `check_interval`, elapsed time is at least `k * check_interval` |
| `HealthImaging.WithinMaxPolls` | HealthImaging.py:67-83 | A lookup made at iteration `k` before the deadline has `k` below `(max_wait - 1) / check_interval + 1` (120 with the defaults 30 and 3600) |
| `HealthImaging.DeadlineReached` | HealthImaging.py:67-83 | With `check_interval > 0`, the clock reaches `max_wait` within that many iterations, so the loop ends |
| `HealthImaging.DefaultMaxPolls` | HealthImaging.py:64 | With the default interval 30 and wait 3600, at most 120 status lookups are made |
| `HealthImaging.SearchStudiesParams` | HealthImaging.py:125-134 | The arguments are exactly `datastoreId` and `maxResults`, plus `searchCriteria`; `searchCriteria` is present exactly when the filters are truthy and then equals them |
| `HealthImaging.ImageSetMetadataParams` | HealthImaging.py:160-169 | The arguments are exactly `datastoreId` and `imageSetId`, plus `versionId`; `versionId` is present exactly when the version id is truthy and then equals it |
| `HealthImaging.DatastoreToDelete` | HealthImaging.py:266 | The explicit data store id is used when it is truthy, otherwise the client's own |

## Left out

- The AWS calls are remote I/O and are not modelled: S3 `list_objects_v2` paging, `get_object` and `copy_object`, and every HealthImaging call. This covers `create_datastore`, `import_dicom_from_s3`, `get_import_job_status`, `get_image_frame`, `delete_image_set` and the service calls in `search_studies`, `get_image_set_metadata` and `delete_datastore`. Their answers are inputs. The one exception is `get_import_job_status`: the `None` it returns on an exception is modelled, as a `None` status lookup that ends the polling loop. The `True`/`False`/`None` that the other calls return on an exception are not modelled.
- The `Prefix` filter of a listing is applied by S3. The pages given to the model are the already-filtered listing.
- The outcome of `copy_object` is not modelled. The model records the copy requests issued; a failing copy is reported and the loop goes on, as with a failing header read.
- pydicom's `dcmread` (DicomOrganizer.py:132) is not modelled. A header is four optional string fields; non-string element values are not modelled.
- `get_image_set_metadata`'s JSON decoding and its walk over patients, studies and series only print. The model covers only its request arguments. `search_studies` likewise: its result listing and printing are not modelled.
- All `print` output is left out.
- Python dictionaries keep insertion order, but Dafny maps do not. The order of patients and of studies in the structure is therefore not modelled. The order of series within a study is modelled.
- `time.time()` returns floats. The model's elapsed-time readings are integers.
- WaitForImportCompletion: the clock is a finite sequence whose last reading is at least `max_wait`, so that the inputs never run out. `DeadlineReached` shows that any clock honouring the sleep reaches that point after at most `MaxPolls` iterations.
- WaitForImportCompletion: `time.sleep` with a negative `check_interval` raises `ValueError`, which the source does not catch. The model returns `sleepRaised = true` (with `completed = false`) instead of propagating an exception.
- Only `None` and dictionaries are modelled for the `filters` argument of `search_studies`. Filter values are opaque strings.
- A status lookup that returns an empty property dictionary is also falsy in the source. The model treats every failed lookup as `None`.
- main.py is a linear driver script and is not modelled. It calls `list_datastores` and `search_image_sets`, which the client class does not define.
