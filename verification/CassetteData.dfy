/** `create_cassette_data`: the cassette subject table, relabelled and indexed against
    the `sleep-cassette` directory listing, expanded into one row per sleep stage of
    every night. The spreadsheet, the directory listing, each PSG file's prefilter
    text and each hypnogram's annotations are inputs. */
module CassetteData {
  import opened Base
  import opened Text
  import opened Subjects
  import opened StageSegmenter
  import opened RecordingIndex
  import opened Dataset

  /** The table `create_cassette_data` returns, or the error that stops it. */
  function CassetteTable(subjects: seq<SubjectRow>, listing: seq<string>, prefilters: map<string, string>,
                         annotations: map<string, seq<Annotation>>, sampleFreq: real): Result<seq<Row>>
  {
    var nights :- IndexRecordings(ReadableSexTable(subjects), listing);
    Assemble(nights, prefilters, annotations, sampleFreq)
  }

  /** Lines 24-122 of create_cassette_data.py: the subject table is relabelled in
      place, given its filename and technician columns, and then expanded night by
      night. */
  method CreateCassetteData(subjects: seq<SubjectRow>, listing: seq<string>, prefilters: map<string, string>,
                            annotations: map<string, seq<Annotation>>, sampleFreq: real)
    returns (r: Result<seq<Row>>)
    ensures r == CassetteTable(subjects, listing, prefilters, annotations, sampleFreq)
  {
    var table := new SubjectRow[|subjects|](i requires 0 <= i < |subjects| => subjects[i]);
    assert table[..] == subjects;
    PreprocessCassetteSubjectData(table);
    var nights := IndexRecordings(table[..], listing);
    if nights.Err? {
      return Err(nights.error);
    }
    r := AssembleRows(nights.value, prefilters, annotations, sampleFreq);
  }

  /** Every row of the cassette table carries study 0 and the base row of one of the
      relabelled subject rows, whose sex is never a raw code; its technician is
      character 7 of its hypnogram's name, its PSG and hypnogram names carry their
      markers; and there is one row per stage of every indexed night. */
  lemma CassetteTableSpec(subjects: seq<SubjectRow>, listing: seq<string>, prefilters: map<string, string>,
                          annotations: map<string, seq<Annotation>>, sampleFreq: real)
    requires CassetteTable(subjects, listing, prefilters, annotations, sampleFreq).Ok?
    ensures IndexRecordings(ReadableSexTable(subjects), listing).Ok?
    ensures var rows := CassetteTable(subjects, listing, prefilters, annotations, sampleFreq).value;
            && |rows| == StageCount(IndexRecordings(ReadableSexTable(subjects), listing).value, annotations)
            && forall k | 0 <= k < |rows| ::
                 && rows[k].study == CassetteStudy
                 && rows[k].base.subject in ReadableSexTable(subjects)
                 && rows[k].base.subject.sex != "0" && rows[k].base.subject.sex != "1"
                 && |rows[k].base.hypnogramFile| > 7
                 && rows[k].base.technician == rows[k].base.hypnogramFile[7]
                 && Contains(rows[k].base.psgFile, "PSG")
                 && Contains(rows[k].base.hypnogramFile, "Hypnogram")
  {
    var relabelled := ReadableSexTable(subjects);
    var nights := IndexRecordings(relabelled, listing).value;
    var rows := Assemble(nights, prefilters, annotations, sampleFreq).value;
    IndexRecordingsSpec(relabelled, listing);
    SortedFilenamesSpec(listing, "PSG");
    SortedFilenamesSpec(listing, "Hypnogram");
    ReadableSexTableReadable(subjects);
    ReadableSexTableSpec(subjects);
    AssembleCount(nights, prefilters, annotations, sampleFreq);
    AssembleRowsOfNights(nights, prefilters, annotations, sampleFreq);
    forall k | 0 <= k < |rows|
      ensures && rows[k].base.subject in relabelled
              && rows[k].base.subject.sex != "0" && rows[k].base.subject.sex != "1"
              && |rows[k].base.hypnogramFile| > 7
              && rows[k].base.technician == rows[k].base.hypnogramFile[7]
              && Contains(rows[k].base.psgFile, "PSG")
              && Contains(rows[k].base.hypnogramFile, "Hypnogram")
    {
      var i :| 0 <= i < |nights| && nights[i] == rows[k].base;
      assert PsgColumn(nights)[i] == nights[i].psgFile;
      assert HypnogramColumn(nights)[i] == nights[i].hypnogramFile;
    }
  }
}
