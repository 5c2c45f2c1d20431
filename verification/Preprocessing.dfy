/** The study-generic preprocessing of `preprocessing.py`: the names of a study's EDF
    directory and subject spreadsheet, the per-study subject-table preprocessing, the
    indexing of a study's recordings, and the per-night signal table. The
    spreadsheets are a map from file name to table, the directory listings a map
    from directory name to the names it holds. */
module Preprocessing {
  import opened Base
  import opened Text
  import opened Subjects
  import opened StageSegmenter
  import opened RecordingIndex
  import opened Dataset
  import opened CassetteData

  /** Line 17: the EDF directory of a study. */
  function GetEdfDirName(studyName: string): string {
    "sleep-" + studyName
  }

  /** Different studies have different EDF directories, and every directory name
      starts with "sleep-" followed by the study name. */
  lemma EdfDirNameInjective(a: string, b: string)
    ensures GetEdfDirName(a) == GetEdfDirName(b) <==> a == b
    ensures |GetEdfDirName(a)| == |a| + 6
    ensures GetEdfDirName(a)[..6] == "sleep-" && GetEdfDirName(a)[6..] == a
  {
    if GetEdfDirName(a) == GetEdfDirName(b) {
      assert a == GetEdfDirName(a)[6..];
      assert b == GetEdfDirName(b)[6..];
    }
  }

  /** Lines 18-19: "S", the upper-cased first letter of the study and "-subjects.xls";
      an empty study name raises IndexError. */
  function GetSubjectFilename(studyName: string): Result<string> {
    if studyName == [] then Err(EmptyStudyName)
    else Ok(['S', Upper(studyName[0])] + "-subjects.xls")
  }

  /** The spreadsheet name exists exactly for a non-empty study name, and two studies
      share a spreadsheet exactly when their first letters agree up to case. */
  lemma SubjectFilenameSpec(a: string, b: string)
    ensures GetSubjectFilename(a).Err? <==> a == []
    ensures GetSubjectFilename(a).Ok? ==>
              var f := GetSubjectFilename(a).value;
              |f| == 15 && f[0] == 'S' && f[1] == Upper(a[0]) && f[2..] == "-subjects.xls"
    ensures a != [] && b != [] ==>
              (GetSubjectFilename(a) == GetSubjectFilename(b) <==> Upper(a[0]) == Upper(b[0]))
  {
    if a != [] && b != [] && GetSubjectFilename(a) == GetSubjectFilename(b) {
      assert GetSubjectFilename(a).value[1] == Upper(a[0]);
      assert GetSubjectFilename(b).value[1] == Upper(b[0]);
    }
  }

  /** The two studies of the database: cassette reads SC-subjects.xls from
      sleep-cassette, telemetry reads ST-subjects.xls from sleep-telemetry. */
  lemma StudyFileNames()
    ensures GetSubjectFilename("cassette") == Ok("SC-subjects.xls")
    ensures GetSubjectFilename("telemetry") == Ok("ST-subjects.xls")
    ensures GetEdfDirName("cassette") == "sleep-cassette"
    ensures GetEdfDirName("telemetry") == "sleep-telemetry"
  {
    assert ['S', Upper('c')] + "-subjects.xls" == "SC-subjects.xls";
    assert ['S', Upper('t')] + "-subjects.xls" == "ST-subjects.xls";
  }

  /** Lines 37-38: the telemetry table needs no preprocessing; every row, its sex code
      included, comes back as it was read. */
  function PreprocessTelemetrySubjectData(rows: seq<SubjectRow>): (r: seq<SubjectRow>)
    ensures |r| == |rows| && forall i | 0 <= i < |rows| :: r[i] == rows[i]
  {
    rows
  }

  /** Lines 45-49: the cassette table is relabelled, the telemetry table kept; the
      `match` has no default case, so any other study keeps its table too. */
  function PreprocessSubjectTable(studyName: string, rows: seq<SubjectRow>): seq<SubjectRow> {
    if studyName == "cassette" then ReadableSexTable(rows)
    else if studyName == "telemetry" then PreprocessTelemetrySubjectData(rows)
    else rows
  }

  /** Preprocessing keeps the rows, their order, subjects and other columns; only the
      cassette study's sex codes change, to readable labels; applying it twice is the
      same as once. */
  lemma PreprocessSubjectTableSpec(studyName: string, rows: seq<SubjectRow>)
    ensures var r := PreprocessSubjectTable(studyName, rows);
            && |r| == |rows|
            && (forall i | 0 <= i < |rows| :: r[i].subject == rows[i].subject && r[i].others == rows[i].others)
            && (studyName != "cassette" ==> r == rows)
            && (studyName == "cassette" ==>
                  forall i | 0 <= i < |rows| :: r[i].sex == ReadableSex(rows[i].sex) && r[i].sex != "0" && r[i].sex != "1")
            && PreprocessSubjectTable(studyName, r) == r
  {
    ReadableSexTableSpec(rows);
    ReadableSexTableReadable(rows);
    ReadableSexTableIdempotent(rows);
  }

  /** The indexed subject table of a study, or the error that stops it (the
      lights-off columns are not part of this model). */
  function SubjectData(studyName: string, tables: map<string, seq<SubjectRow>>,
                       listings: map<string, seq<string>>): Result<seq<Night>>
  {
    var filename :- GetSubjectFilename(studyName);
    if filename !in tables then Err(MissingFile(filename))
    else
      var rows := PreprocessSubjectTable(studyName, tables[filename]);
      var dir := GetEdfDirName(studyName);
      if dir !in listings then Err(MissingFile(dir))
      else IndexRecordings(rows, listings[dir])
  }

  /** Lines 40-79 with the lights-off encoding of lines 51-58 left out: read the
      study's spreadsheet, preprocess it in place for the cassette study, then add the
      filename and technician columns from the study's directory. */
  method PreprocessSubjectData(studyName: string, tables: map<string, seq<SubjectRow>>,
                               listings: map<string, seq<string>>)
    returns (r: Result<seq<Night>>)
    ensures r == SubjectData(studyName, tables, listings)
  {
    var filename := GetSubjectFilename(studyName);
    if filename.Err? {
      return Err(filename.error);
    }
    if filename.value !in tables {
      return Err(MissingFile(filename.value));
    }
    var rows := tables[filename.value];
    var table := new SubjectRow[|rows|](i requires 0 <= i < |rows| => rows[i]);
    assert table[..] == rows;
    if studyName == "cassette" {
      PreprocessCassetteSubjectData(table);
    }
    var dir := GetEdfDirName(studyName);
    if dir !in listings {
      return Err(MissingFile(dir));
    }
    r := IndexRecordings(table[..], listings[dir]);
  }

  /** A study's indexed table has one night per spreadsheet row, carrying that row
      after preprocessing, with the sorted PSG and hypnogram names of the study's
      directory; an empty study name, a missing spreadsheet or a missing directory
      stops it. */
  lemma SubjectDataSpec(studyName: string, tables: map<string, seq<SubjectRow>>,
                        listings: map<string, seq<string>>)
    ensures studyName == [] ==> SubjectData(studyName, tables, listings) == Err(EmptyStudyName)
    ensures studyName != [] && GetSubjectFilename(studyName).value !in tables ==>
              SubjectData(studyName, tables, listings) == Err(MissingFile(GetSubjectFilename(studyName).value))
    ensures SubjectData(studyName, tables, listings).Ok? ==>
              && GetSubjectFilename(studyName).Ok?
              && GetSubjectFilename(studyName).value in tables
              && GetEdfDirName(studyName) in listings
              && var rows := tables[GetSubjectFilename(studyName).value];
                 var listing := listings[GetEdfDirName(studyName)];
                 var nights := SubjectData(studyName, tables, listings).value;
                 && |nights| == |rows|
                 && (forall i | 0 <= i < |nights| :: nights[i].subject == PreprocessSubjectTable(studyName, rows)[i])
                 && SortedFilenames(listing, "PSG") == Ok(PsgColumn(nights))
                 && SortedFilenames(listing, "Hypnogram") == Ok(HypnogramColumn(nights))
  {
    if SubjectData(studyName, tables, listings).Ok? {
      var rows := PreprocessSubjectTable(studyName, tables[GetSubjectFilename(studyName).value]);
      IndexRecordingsSpec(rows, listings[GetEdfDirName(studyName)]);
      PreprocessSubjectTableSpec(studyName, tables[GetSubjectFilename(studyName).value]);
    }
  }

  /** For the cassette study the generic path indexes the same nights as
      `create_cassette_data` does from SC-subjects.xls and sleep-cassette. */
  lemma CassetteSubjectDataAgrees(subjects: seq<SubjectRow>, listing: seq<string>)
    ensures SubjectData("cassette", map["SC-subjects.xls" := subjects], map["sleep-cassette" := listing]) ==
              IndexRecordings(ReadableSexTable(subjects), listing)
  {
    StudyFileNames();
  }

  /** Lines 84-148 as written: the body reads `global_min_freq` (line 95) for the
      first night and `status_deque` (line 138) after the loop, neither of which the
      module defines, so every call raises NameError. */
  function GetSignalDataAsWritten(nights: seq<Night>): Result<seq<Row>> {
    if nights == [] then Err(UndefinedName("status_deque")) else Err(UndefinedName("global_min_freq"))
  }

  /** Even on an empty subject table, where the intended table is empty, the code as
      written raises. */
  lemma GetSignalDataAsWrittenFails(prefilters: map<string, string>, annotations: map<string, seq<Annotation>>,
                                    sampleFreq: real)
    ensures Assemble([], prefilters, annotations, sampleFreq) == Ok([])
    ensures GetSignalDataAsWritten([]) == Err(UndefinedName("status_deque"))
  {
  }

  /** Lines 84-148 as intended: the per-night loop of `create_cassette_data` over a
      study's indexed table, with study 0 in every row as line 148 sets it. */
  method GetSignalData(nights: seq<Night>, prefilters: map<string, string>,
                       annotations: map<string, seq<Annotation>>, sampleFreq: real)
    returns (r: Result<seq<Row>>)
    ensures r == Assemble(nights, prefilters, annotations, sampleFreq)
    ensures r.Ok? ==> |r.value| == StageCount(nights, annotations)
    ensures r.Ok? ==> forall k | 0 <= k < |r.value| :: r.value[k].base in nights && r.value[k].study == CassetteStudy
  {
    r := AssembleRows(nights, prefilters, annotations, sampleFreq);
    if r.Ok? {
      AssembleCount(nights, prefilters, annotations, sampleFreq);
      AssembleRowsOfNights(nights, prefilters, annotations, sampleFreq);
    }
  }

  /** Lines 40-79 as written: after the spreadsheet is read and preprocessed, line 57
      encodes `cassette_data['lights_off']`, a name that is unbound while the function
      runs, so every call that reaches it raises NameError. */
  function SubjectDataAsWritten(studyName: string, tables: map<string, seq<SubjectRow>>,
                                listings: map<string, seq<string>>): Result<seq<Night>>
  {
    var filename :- GetSubjectFilename(studyName);
    if filename !in tables then Err(MissingFile(filename))
    else Err(UndefinedName("cassette_data"))
  }

  /** Every cassette spreadsheet and directory that index cleanly as intended still
      make the code as written raise. */
  lemma SubjectDataAsWrittenFails(tables: map<string, seq<SubjectRow>>, listings: map<string, seq<string>>)
    requires SubjectData("cassette", tables, listings).Ok?
    ensures SubjectDataAsWritten("cassette", tables, listings) == Err(UndefinedName("cassette_data"))
  {
  }

  /** A witness: the empty cassette spreadsheet and the empty directory index cleanly
      as intended, yet the code as written raises. */
  lemma SubjectDataAsWrittenExample()
    ensures SubjectData("cassette", map["SC-subjects.xls" := []], map["sleep-cassette" := []]) == Ok([])
    ensures SubjectDataAsWritten("cassette", map["SC-subjects.xls" := []], map["sleep-cassette" := []]) ==
              Err(UndefinedName("cassette_data"))
  {
    StudyFileNames();
    CassetteSubjectDataAgrees([], []);
    assert SortedFilenames([], "PSG") == Ok([]);
    assert SortedFilenames([], "Hypnogram") == Ok([]);
    assert Technicians([]) == Ok([]);
    assert ReadableSexTable([]) == [];
    IndexRecordingsSpec([], []);
    assert IndexRecordings([], []).Ok?;
  }
}
