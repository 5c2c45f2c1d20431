/** The subject table: one row per subject-night, read from the study's spreadsheet.
    Only the sex column is rewritten; the other columns travel unchanged. */
module Subjects {

  /** A row after the column renaming: the subject number (`k`), the sex code as
      the string `astype(str)` produced, and the remaining columns in order. */
  datatype SubjectRow = SubjectRow(subject: int, sex: string, others: seq<string>)

  /** One `.loc[data['sex'] == from, 'sex'] = to` assignment, applied to one row. */
  function ReplaceSex(row: SubjectRow, from: string, to: string): SubjectRow {
    if row.sex == from then row.(sex := to) else row
  }

  /** The readable sex label: "0" becomes "M", "1" becomes "F". */
  function ReadableSex(code: string): string {
    if code == "0" then "M" else if code == "1" then "F" else code
  }

  /** The table after the sex column has been made readable. */
  function ReadableSexTable(rows: seq<SubjectRow>): seq<SubjectRow> {
    if rows == [] then []
    else [rows[0].(sex := ReadableSex(rows[0].sex))] + ReadableSexTable(rows[1..])
  }

  /** Relabelling keeps the rows and their order, changes only the sex column, turns
      "0" into "M" and "1" into "F", and leaves every other sex value as it was. */
  lemma {:induction false} ReadableSexTableSpec(rows: seq<SubjectRow>)
    ensures |ReadableSexTable(rows)| == |rows|
    ensures forall i | 0 <= i < |rows| ::
              && ReadableSexTable(rows)[i].subject == rows[i].subject
              && ReadableSexTable(rows)[i].others == rows[i].others
    ensures forall i | 0 <= i < |rows| :: rows[i].sex == "0" ==> ReadableSexTable(rows)[i].sex == "M"
    ensures forall i | 0 <= i < |rows| :: rows[i].sex == "1" ==> ReadableSexTable(rows)[i].sex == "F"
    ensures forall i | 0 <= i < |rows| ::
              rows[i].sex != "0" && rows[i].sex != "1" ==> ReadableSexTable(rows)[i].sex == rows[i].sex
  {
    if rows != [] {
      ReadableSexTableSpec(rows[1..]);
      forall i | 1 <= i < |rows|
        ensures ReadableSexTable(rows)[i] == ReadableSexTable(rows[1..])[i - 1]
      {
      }
    }
  }

  /** After relabelling no sex value is a raw code "0" or "1". */
  lemma {:induction false} ReadableSexTableReadable(rows: seq<SubjectRow>)
    ensures forall i | 0 <= i < |ReadableSexTable(rows)| ::
              ReadableSexTable(rows)[i].sex != "0" && ReadableSexTable(rows)[i].sex != "1"
  {
    if rows != [] {
      ReadableSexTableReadable(rows[1..]);
      assert "M" != "0" && "M" != "1" && "F" != "0" && "F" != "1";
      forall i | 1 <= i < |ReadableSexTable(rows)|
        ensures ReadableSexTable(rows)[i] == ReadableSexTable(rows[1..])[i - 1]
      {
      }
    }
  }

  /** Relabelling an already relabelled table changes nothing. */
  lemma {:induction false} ReadableSexTableIdempotent(rows: seq<SubjectRow>)
    ensures ReadableSexTable(ReadableSexTable(rows)) == ReadableSexTable(rows)
  {
    if rows != [] {
      ReadableSexTableIdempotent(rows[1..]);
      assert "M" != "0" && "M" != "1" && "F" != "0" && "F" != "1";
      var once := ReadableSexTable(rows);
      assert once[1..] == ReadableSexTable(rows[1..]);
    }
  }

  /** Lines 30-31 of create_cassette_data.py, lines 32-33 of preprocessing.py: one
      masked assignment over the whole sex column, done in place. */
  method ReplaceSexColumn(table: array<SubjectRow>, from: string, to: string)
    modifies table
    ensures forall i | 0 <= i < table.Length :: table[i] == ReplaceSex(old(table[i]), from, to)
  {
    for i := 0 to table.Length
      invariant forall j | 0 <= j < i :: table[j] == ReplaceSex(old(table[j]), from, to)
      invariant forall j | i <= j < table.Length :: table[j] == old(table[j])
    {
      table[i] := ReplaceSex(table[i], from, to);
    }
  }

  /** `preprocess_cassette_subject_data`: the two masked assignments, "0" to "M" and
      then "1" to "F", leave the table relabelled. */
  method PreprocessCassetteSubjectData(table: array<SubjectRow>)
    modifies table
    ensures table[..] == ReadableSexTable(old(table[..]))
  {
    ghost var before := table[..];
    ReplaceSexColumn(table, "0", "M");
    ReplaceSexColumn(table, "1", "F");
    ReadableSexTableSpec(before);
    assert forall i | 0 <= i < table.Length :: table[i] == ReadableSexTable(before)[i];
  }
}
