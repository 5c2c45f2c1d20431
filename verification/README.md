# Sleep-EDF preprocessing, modelled in Dafny

This project models the preprocessing stage of a sleep-stage classifier. The input
is the Sleep-EDF Expanded database. The output is a flat table with one row per
sleep stage of every recorded night. The model covers these steps:

* **Subject table.** `create_cassette_data` and `preprocess_subject_data` read the
  subject spreadsheet. For the cassette study they turn the sex codes "0"/"1" into
  "M"/"F", the latter through `preprocess_cassette_subject_data`.
* **Recording index.** Both functions then list the study's EDF directory. They keep
  the names containing `PSG` (and, separately, `Hypnogram`) and sort each list by the
  subject code `int(s[3:6])`. Each list becomes a column of the subject table, and
  character 7 of each hypnogram name becomes the technician column.
* **Frequency bounds.** For every night, the PSG file's prefilter text gives the
  admissible spectral range. `LP:<number>` caps the upper bound at the Nyquist
  frequency `SAMPLE_FREQ/2`. `HP:<number>` floors the lower bound at 0.
* **Stage segmentation.** Every hypnogram annotation except the closing one becomes
  an epoch. An epoch holds a start index `int(onset)` and an end index
  `start + int(duration)`. It also holds a lower frequency bound, raised by
  `SAMPLE_FREQ/int(duration)`, the night's upper bound, and the last character of
  the stage text as the label.
* **Assembly.** Each epoch becomes a row, the night's subject row plus the epoch
  columns plus `study = 0`. Nights come in table order, and stages in annotation
  order within a night.
* **Study-generic helpers.** `preprocessing.py` adds the EDF directory and
  spreadsheet names of a study and dispatches the preprocessing by study.

Everything the code reads from disk is a parameter:

* the spreadsheet rows (already renamed and passed through `astype(str)`);
* the directory listing;
* a map from PSG file name to prefilter text;
* a map from hypnogram file name to its annotations;
* `SAMPLE_FREQ`.

Every exception the code can raise on those inputs is an `Err` of one `Error` type:

* a missing file;
* an empty study name;
* a subject code that `int()` rejects;
* a filename column whose length differs from a non-empty table's;
* a hypnogram name too short for `s[7]`;
* a prefilter number that `float()` rejects;
* a duration that truncates to 0;
* an empty stage text;
* a name nothing defines.

The modules are:

| module | models |
|---|---|
| `Base` | Options, results, errors, Python's `max` and `int()` on a real |
| `Text` | Python's clamped slicing, `int()` of a string, `float()` of a `[\d.]+` token, ASCII `upper()` |
| `Subjects` | The subject row and the in-place sex relabelling |
| `RecordingIndex` | Filtering and stable sorting of filenames, technicians, the indexed nights |
| `FrequencyBounds` | `re.search(r'LP:([\d.]+)')` / `HP:` and the clamped bounds |
| `StageSegmenter` | The stage loop of one night as a function, with the running lower bound |
| `Dataset` | The row table; the imperative night and stage loops proved equal to it |
| `CassetteData` | `create_cassette_data` end to end |
| `Preprocessing` | The study-generic functions of `preprocessing.py` |

## Model

| member | source | states |
|---|---|---|
| `Base.Max` | preprocessing/create_cassette_data.py:101 | The result is at least both arguments and is one of them. |
| `Base.TruncSpec` | preprocessing/create_cassette_data.py:96-97 | `int()` on a float truncates toward zero: for non-negative input the result is non-negative, at most the input and less than 1 below it, and for negative input it is non-positive, at least the input and less than 1 above it. |
| `Text.Slice` | preprocessing/create_cassette_data.py:42 | `s[3:6]` clamps both ends to the string: its length is `max(0, min(hi,len) - min(lo,len))` and character `i` is `s[lo+i]`. |
| `Text.Upper` | preprocessing/preprocessing.py:18 | `upper()` maps `a`-`z` to `A`-`Z` and leaves every other character unchanged. |
| `Text.GroupsValue` | preprocessing/create_cassette_data.py:42 | `int()` accepts a digit body exactly when it is digit groups separated by single underscores, and a non-empty run of plain digits yields its decimal value. |
| `Text.PyIntOfDigits` | preprocessing/create_cassette_data.py:42 | `int()` of a non-empty digit string is its decimal value, so every ordinary subject code parses. |
| `Text.ParseDecimalAccepts` | preprocessing/create_cassette_data.py:78 | `float()` of a `[\d.]+` token succeeds exactly when the token has a digit and at most one dot. |
| `Text.ParseDecimalValue` | preprocessing/create_cassette_data.py:78 | A parsed value is never negative. A token made only of digits parses to its decimal value. |
| `Text.DecimalValue` | preprocessing/create_cassette_data.py:78 | A number with a whole part and a shorter fraction lies between the whole part and the next integer. |
| `FrequencyBounds.FindFrom` | preprocessing/create_cassette_data.py:76 | The search returns the leftmost position at or after `from` where the marker is followed by a number character, and finds none exactly when there is no such position. |
| `FrequencyBounds.RunEnd` | preprocessing/create_cassette_data.py:76 | The greedy `[\d.]+` run: every character from the start up to the end is a digit or a dot, and the run stops at the end of the text or at the first other character. |
| `FrequencyBounds.Search` | preprocessing/create_cassette_data.py:76 | A group `re.search` captures is non-empty and made of digits and dots only. |
| `FrequencyBounds.SearchSpec` | preprocessing/create_cassette_data.py:76 | `re.search` finds no match exactly when no marker is followed by a number character. Otherwise its group is the maximal `[\d.]+` run after the leftmost such marker. |
| `FrequencyBounds.LowPassBoundSpec` | preprocessing/create_cassette_data.py:76-79 | Without an `LP:` token the upper bound is `SAMPLE_FREQ/2`. A token `float()` rejects stops the extraction. A parsed value is kept when strictly below Nyquist, and Nyquist is used otherwise. |
| `FrequencyBounds.HighPassBoundSpec` | preprocessing/create_cassette_data.py:81-84 | Without an `HP:` token the lower bound is 0. A token `float()` rejects is an error. A parsed value is kept when strictly above 0, and 0 is used otherwise. |
| `FrequencyBounds.PrefilterBoundsWithinGlobal` | preprocessing/create_cassette_data.py:19-21 | Extracted bounds never loosen the global bounds (0 ≤ min, max ≤ Nyquist). A text without tokens gives exactly the global bounds. |
| `FrequencyBounds.SearchHighPassExample` | preprocessing/create_cassette_data.py:81 | In "HP:0.5Hz LP:35Hz" the HP group is "0.5". |
| `FrequencyBounds.SearchLowPassExample` | preprocessing/create_cassette_data.py:76 | In "HP:0.5Hz LP:35Hz" the LP group is "35"; the search skips the earlier HP token. |
| `FrequencyBounds.ParseExamples` | preprocessing/create_cassette_data.py:78 | `float("0.5")` is 0.5 and `float("35")` is 35. |
| `FrequencyBounds.HighAndLowPassExample` | preprocessing/create_cassette_data.py:71-84 | "HP:0.5Hz LP:35Hz" gives the range 0.5 to 35 Hz whenever Nyquist is at least 35 Hz. |
| `FrequencyBounds.NoTokenExample` | preprocessing/create_cassette_data.py:71-72 | A text with no tokens keeps 0 and Nyquist. |
| `Subjects.ReadableSexTableSpec` | preprocessing/create_cassette_data.py:27-31 | Relabelling keeps the rows, their order, the subject and the other columns. "0" becomes "M", "1" becomes "F", and every other value is unchanged. |
| `Subjects.ReadableSexTableReadable` | preprocessing/create_cassette_data.py:30-31 | After relabelling no sex value is "0" or "1". |
| `Subjects.ReadableSexTableIdempotent` | preprocessing/create_cassette_data.py:30-31 | Relabelling twice is the same as relabelling once. |
| `Subjects.ReplaceSexColumn` | preprocessing/create_cassette_data.py:30 | One masked `.loc` assignment rewrites, in place, exactly the rows whose sex equals the mask value. |
| `Subjects.PreprocessCassetteSubjectData` | preprocessing/preprocessing.py:21-35 | The two masked assignments in sequence leave the array equal to the relabelled table. |
| `RecordingIndex.FilterAppend` | preprocessing/create_cassette_data.py:41 | The comprehension keeps the listing's order: filtering a concatenation gives the concatenation of the filtered parts. |
| `RecordingIndex.FilterMembers` | preprocessing/create_cassette_data.py:41 | A name survives the comprehension exactly when it is listed and contains the marker. |
| `RecordingIndex.FilterMultiset` | preprocessing/create_cassette_data.py:41 | The comprehension keeps each listed name containing the marker as often as it is listed, and no other name. |
| `RecordingIndex.FirstUncoded` | preprocessing/create_cassette_data.py:42 | Computing the sort keys fails exactly when some name's `int(s[3:6])` fails, and the name reported is such a name from the list. |
| `RecordingIndex.FirstUncodedIsFirst` | preprocessing/create_cassette_data.py:42 | The name reported is the first in list order whose key fails: every name before it has an integer code. |
| `RecordingIndex.SortBySpec` | preprocessing/create_cassette_data.py:42 | `list.sort(key=...)` returns a permutation ascending by key. Names of equal key keep their listing order (stability). |
| `RecordingIndex.SortedFilenamesSpec` | preprocessing/create_cassette_data.py:41-47 | The filename list fails exactly when a matching name has no integer code. Otherwise it is a permutation of the matching names, all carrying the marker and a code, ascending and stable. |
| `RecordingIndex.SortedFilenamesError` | preprocessing/create_cassette_data.py:41-42 | A failing filename list reports `BadSubjectCode` of the first matching name, in listing order, whose `int(s[3:6])` fails. |
| `RecordingIndex.Technicians` | preprocessing/create_cassette_data.py:51 | The column exists exactly when every hypnogram name is longer than 7 characters, and entry `i` is character 7 of name `i`. |
| `RecordingIndex.IndexRecordingsSpec` | preprocessing/create_cassette_data.py:41-51 | Indexing gives one night per subject row in table order. Its PSG and hypnogram columns are the sorted filename lists, and the technician is character 7 of the hypnogram name. A PSG list of the wrong length fails. |
| `RecordingIndex.IndexRecordingsOutcome` | preprocessing/create_cassette_data.py:41-51 | Indexing succeeds exactly when both filename lists are computed, both have one name per subject, and every hypnogram name is longer than 7 characters. Otherwise it reports the first failing step, in source order: the PSG list, its length, the hypnogram list, its length, the technician column. |
| `StageSegmenter.Stages` | preprocessing/create_cassette_data.py:88-90 | `annotations[:-1]` drops exactly the closing annotation and keeps the others in order. |
| `StageSegmenter.SegmentStepOk` | preprocessing/create_cassette_data.py:90-109 | One more stage with a non-zero truncated duration and a non-empty text appends one epoch. The epoch spans `int(onset)` to `int(onset) + int(duration)` and carries the running lower bound raised to `SAMPLE_FREQ/int(duration)`, the night's upper bound and the text's last character. |
| `StageSegmenter.SegmentStepErr` | preprocessing/create_cassette_data.py:96-104 | A stage whose duration truncates to 0 stops the night with ZeroDivisionError, and an empty stage text with IndexError, whatever stages follow. |
| `StageSegmenter.SegmentOkIff` | preprocessing/create_cassette_data.py:96-104 | A night segments exactly when every stage's duration truncates to a non-zero integer and its text is non-empty. |
| `StageSegmenter.SegmentErrPersists` | preprocessing/create_cassette_data.py:90-109 | The first failing stage stops the night: later stages do not change the error. |
| `StageSegmenter.SegmentEpochs` | preprocessing/create_cassette_data.py:90-109 | There is one epoch per stage. Each starts at `int(onset)`, spans `int(duration)` samples, carries the night's upper bound and the last character of the stage text. The loop's final `min_freq` is the last epoch's. |
| `StageSegmenter.SegmentFinal` | preprocessing/create_cassette_data.py:100-101 | The running `min_freq` after the loop is the last epoch's lower bound, or the night's bound when there is no stage. |
| `StageSegmenter.SegmentMinFreqStep` | preprocessing/create_cassette_data.py:100-101 | Each epoch's lower bound is the maximum of the previous epoch's (the night's bound for the first) and `SAMPLE_FREQ/int(duration)`. |
| `StageSegmenter.SegmentRunningMax` | preprocessing/create_cassette_data.py:71-101 | Lower bounds never decrease along a night and never fall below the night's bound or below the duration frequency of the stage or any earlier stage. Each equals the night's bound or one of those duration frequencies. |
| `StageSegmenter.EpochRangeNonEmpty` | preprocessing/create_cassette_data.py:79-101 | If the night's bounds are ordered and no duration frequency exceeds the upper bound, every epoch's range is non-empty. |
| `StageSegmenter.ThreeStagesExample` | preprocessing/create_cassette_data.py:86-109 | Durations 100, 30, 400 plus a closing annotation at 100 Hz give 3 epochs. The 30-sample epoch has a lower bound ≥ 100/30, and the later 400-sample epoch keeps 100/30. |
| `Dataset.NightTableAppend` | preprocessing/create_cassette_data.py:106-109 | One more epoch adds exactly one row, at the end of the night's rows. |
| `Dataset.NightTable` | preprocessing/create_cassette_data.py:106-109 | Row `i` is the night's base row, epoch `i` and study 0. |
| `Dataset.NightBounds` | preprocessing/create_cassette_data.py:71-84 | The imperative LP-then-HP updates compute exactly the extracted bounds, including the error. |
| `Dataset.AppendStages` | preprocessing/create_cassette_data.py:90-109 | The stage loop appends exactly the night's segmented rows, or returns the segmentation's error. |
| `Dataset.AppendNight` | preprocessing/create_cassette_data.py:66-109 | One night's body appends exactly that night's rows, or fails as they do. |
| `Dataset.AssembleRows` | preprocessing/create_cassette_data.py:61-109 | The night loop computes exactly the assembled table. |
| `Dataset.AssembleErrPersists` | preprocessing/create_cassette_data.py:64-109 | The first failing night stops the table. |
| `Dataset.NightRowsOk` | preprocessing/create_cassette_data.py:66-109 | A night yields rows only when both of its files are found, its prefilter parses and its stages segment. The rows are then exactly the segmentation's epochs, each with the night's base row. |
| `Dataset.SegmentedRows` | preprocessing/create_cassette_data.py:86-109 | A segmented night has one row per annotation but the last, in order. Each row has the night's base row, study 0, start `int(onset)`, length `int(duration)`, the night's upper bound, a lower bound at least the night's and at least its duration frequency, and the text's last character. Lower bounds never decrease. |
| `Dataset.NightRowsShape` | preprocessing/create_cassette_data.py:88-109 | A night contributes `len(annotations) - 1` rows, each with its base row. |
| `Dataset.AssembleAppend` | preprocessing/create_cassette_data.py:64-109 | The table of two runs of nights is the first run's rows followed by the second's: rows are grouped in night order. |
| `Dataset.AssembleOne` | preprocessing/create_cassette_data.py:64-109 | A one-night table is that night's rows. |
| `Dataset.JoinOk` | preprocessing/create_cassette_data.py:64-109 | Two partial tables combine exactly when both exist, and the result is the first followed by the second. |
| `Dataset.AssembleStep` | preprocessing/create_cassette_data.py:64-109 | The table of the nights is the table of all nights but the last, followed by the last night's rows. |
| `Dataset.AssembleOkNight` | preprocessing/create_cassette_data.py:64-109 | When the table is produced, each single night yields its rows. |
| `Dataset.AssembleOkOnlyIfAll` | preprocessing/create_cassette_data.py:64-109 | A table is produced only if every night's rows are. |
| `Dataset.AssembleOkIfAll` | preprocessing/create_cassette_data.py:64-109 | A table is produced whenever every night's rows are. |
| `Dataset.AssembleCount` | preprocessing/create_cassette_data.py:86-109 | The table has one row per annotation but the last of every night. |
| `Dataset.AssembleRowOfNight` | preprocessing/create_cassette_data.py:107-122 | Row `k` of a produced table carries the base row of one of the nights and study 0. |
| `Dataset.AssembleRowsOfNights` | preprocessing/create_cassette_data.py:107-122 | Every row carries one of the nights' base rows and study 0. |
| `CassetteData.CreateCassetteData` | preprocessing/create_cassette_data.py:14-124 | The whole function returns the relabelled, indexed and expanded table, or the first error. |
| `CassetteData.CassetteTableSpec` | preprocessing/create_cassette_data.py:24-122 | Every output row carries study 0 and a relabelled subject row whose sex is never a raw code. Its technician is character 7 of its hypnogram name, and its file names carry their markers. The row count is the total number of stages. |
| `Preprocessing.EdfDirNameInjective` | preprocessing/preprocessing.py:17 | The directory name is "sleep-" followed by the study. Distinct studies get distinct directories. |
| `Preprocessing.SubjectFilenameSpec` | preprocessing/preprocessing.py:18-19 | The spreadsheet name fails exactly on the empty study and otherwise is "S", the upper-cased initial and "-subjects.xls". Two studies share it exactly when their initials agree up to case. |
| `Preprocessing.StudyFileNames` | preprocessing/preprocessing.py:17-19 | Cassette reads SC-subjects.xls from sleep-cassette. Telemetry reads ST-subjects.xls from sleep-telemetry. |
| `Preprocessing.PreprocessTelemetrySubjectData` | preprocessing/preprocessing.py:37-38 | The telemetry table comes back row for row as it was read, sex codes included. |
| `Preprocessing.PreprocessSubjectTableSpec` | preprocessing/preprocessing.py:37-49 | The study dispatch keeps rows, order, subjects and other columns. Only the cassette study's sex codes become readable, and applying it twice equals once. |
| `Preprocessing.PreprocessSubjectData` | preprocessing/preprocessing.py:40-79 | The imperative dispatch (in-place relabelling for cassette) computes exactly the indexed subject data. |
| `Preprocessing.SubjectDataSpec` | preprocessing/preprocessing.py:40-76 | An empty study name or a missing spreadsheet fails. Otherwise there is one night per preprocessed row, with the study directory's sorted PSG and hypnogram names. |
| `Preprocessing.CassetteSubjectDataAgrees` | preprocessing/preprocessing.py:44-76 | For the cassette study the generic path indexes the same nights as `create_cassette_data`. |
| `Preprocessing.SubjectDataAsWrittenFails` | preprocessing/preprocessing.py:54-58 | Every cassette spreadsheet and directory that index cleanly as intended still raise NameError as written. |
| `Preprocessing.SubjectDataAsWrittenExample` | preprocessing/preprocessing.py:54-58 | The empty cassette spreadsheet and the empty directory index to an empty table as intended, and raise NameError as written. |
| `Preprocessing.GetSignalDataAsWrittenFails` | preprocessing/preprocessing.py:95-139 | On an empty table, whose intended result is empty, the code as written raises NameError. |
| `Preprocessing.GetSignalData` | preprocessing/preprocessing.py:84-148 | The intended night loop computes the assembled table, with one row per stage, each row from one of the nights with study 0. |

## Left out

- File and spreadsheet I/O (`pd.read_excel`, `os.listdir`, `pyedflib`) are not modelled. Their results are parameters, and a file the reader cannot find is `MissingFile`.
- The column renaming of `create_cassette_data.py:25` and `preprocessing.py:23-27` is not modelled as an operation. It is reflected in the field names of `SubjectRow`.
- `astype(str)` is not modelled: the sex column arrives as a string.
- The lights-off circular encoding (`create_cassette_data.py:34-38`, `preprocessing.py:51-58`) is left out. It is floating-point arithmetic through `CircularEncoder`, and `utils` is not part of this model.
- The status-printing thread, the `deque` and the `print` calls are left out. They are output and concurrency only.
- The `DataFrame` reconstruction of `create_cassette_data.py:116-119` is modelled by the `Row` datatype: base row, epoch columns, study.
- Floating point is not modelled: frequencies and annotation times are exact reals, so IEEE rounding of `SAMPLE_FREQ/int(duration)` and of `float()` is left out.
- Python's `int()` and `\d` accept Unicode digits and whitespace, and `upper()` is Unicode-aware. `int()` also strips the separators `\x1c`-`\x1f`. The model accepts ASCII digits, the whitespace space, tab, newline, CR, VT and FF, and ASCII letters only.
- `SAMPLE_FREQ` is a parameter. Its value lives in `utils`, which is not part of this model.
- `list.sort` sorts in place. It is modelled as a function on the list value, because nothing else aliases the list.
- IndexRecordings: on an empty subject table pandas adopts a non-empty filename list as the new column instead of raising. The model reports `ColumnLengthMismatch` whenever the lengths differ.
- `int()` of a NaN or an infinity, which raises in Python, cannot arise on exact reals and is not modelled.
- The module-level script of `preprocessing.py:150-163` and the root `preprocessing.py` and `models.py` are not part of this model.
- A per-stage lower bound would be `max(prefilter bound, that stage's duration frequency)`. The code instead keeps one running maximum per night: line 101 of `create_cassette_data.py` assigns back to `min_freq`, which line 71 resets only per night. A short stage therefore raises the lower bound of every later stage of that night. The model follows the code, and `StageSegmenter.ThreeStagesExample` exhibits the carry-over.

## Findings

| source | as written | input that shows it | evidently intended | confidence | as-written member | corrected member |
|---|---|---|---|---|---|---|
| preprocessing/preprocessing.py:57 | encodes `cassette_data['lights_off']`, a name unbound while the function runs, so every call that gets past reading and preprocessing the spreadsheet raises NameError | study "cassette", an empty SC-subjects.xls and an empty sleep-cassette directory | encode `data['lights_off']` and return the indexed table | high, not executed | `Preprocessing.SubjectDataAsWrittenFails` | `Preprocessing.SubjectDataSpec` |
| preprocessing/preprocessing.py:95-139 | `get_signal_data` reads `global_min_freq`, `cassette_path`, `status_deque` and `cassette_data_temp`, none of which the module defines, and returns nothing | an empty subject table: the loop is skipped and line 138 raises NameError | the night loop of `create_cassette_data` returning the row table | high, not executed | `Preprocessing.GetSignalDataAsWrittenFails` | `Preprocessing.GetSignalData` |
