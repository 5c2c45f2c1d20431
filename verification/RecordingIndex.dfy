/** Pairing subjects with their recordings: the directory listing is filtered by a
    role marker ("PSG" for signal files, "Hypnogram" for annotation files), each group
    is sorted by the subject code at characters 3 to 5 of the name ("SC4001E0-PSG.edf"
    has code 1), and the sorted groups are matched with the subject rows by position.
    The technician is the character at index 7 of the hypnogram name. */
module RecordingIndex {
  import opened Base
  import opened Text
  import opened Subjects

  /** A subject row extended with its files and technician, the `base_row` of the
      segmentation loop. */
  datatype Night = Night(subject: SubjectRow, psgFile: string, hypnogramFile: string, technician: char)

  /** `[s for s in listing if marker in s]` */
  function Filter(names: seq<string>, marker: string): seq<string> {
    if names == [] then []
    else if Contains(names[0], marker) then [names[0]] + Filter(names[1..], marker)
    else Filter(names[1..], marker)
  }

  /** The filter keeps each name that contains the marker as often as the listing
      holds it, and drops every other name. */
  lemma {:induction false} FilterMultiset(names: seq<string>, marker: string)
    ensures forall x :: multiset(Filter(names, marker))[x] == if Contains(x, marker) then multiset(names)[x] else 0
  {
    if names != [] {
      FilterMultiset(names[1..], marker);
      assert names == [names[0]] + names[1..];
    }
  }

  /** A name survives the filter exactly when it is listed and contains the marker. */
  lemma {:induction false} FilterMembers(names: seq<string>, marker: string)
    ensures forall x :: x in Filter(names, marker) <==> x in names && Contains(x, marker)
  {
    if names != [] {
      FilterMembers(names[1..], marker);
      assert names == [names[0]] + names[1..];
    }
  }

  /** The filter keeps the listing's order: filtering a concatenation concatenates. */
  lemma {:induction false} FilterAppend(a: seq<string>, b: seq<string>, marker: string)
    ensures Filter(a + b, marker) == Filter(a, marker) + Filter(b, marker)
  {
    if a != [] {
      FilterAppend(a[1..], b, marker);
      assert (a + b)[1..] == a[1..] + b;
    } else {
      assert a + b == b;
    }
  }

  /** The sort key `int(s[3:6])`; None where `int` raises ValueError. */
  function SubjectCode(name: string): Option<int> {
    PyInt(Slice(name, 3, 6))
  }

  /** The code of a name whose code exists (0 stands in for a missing one, which the
      sort never meets: a missing code stops it before it starts). */
  function CodeOf(name: string): int {
    match SubjectCode(name)
    case Some(c) => c
    case None => 0
  }

  /** The keys `list.sort` computes, in list order, before it sorts: the first name
      whose key cannot be computed, if any. */
  function FirstUncoded(names: seq<string>): (r: Option<string>)
    ensures r.None? <==> forall i | 0 <= i < |names| :: SubjectCode(names[i]).Some?
    ensures r.Some? ==> r.value in names && SubjectCode(r.value).None?
  {
    if names == [] then None
    else if SubjectCode(names[0]).None? then Some(names[0])
    else
      assert forall i | 1 <= i < |names| :: names[i] == names[1..][i - 1];
      FirstUncoded(names[1..])
  }

  /** The name reported is the first one whose code cannot be computed: every name
      before it has a code. */
  lemma {:induction false} FirstUncodedIsFirst(names: seq<string>)
    ensures FirstUncoded(names).Some? ==>
              exists k | 0 <= k < |names| ::
                && names[k] == FirstUncoded(names).value
                && SubjectCode(names[k]).None?
                && forall j | 0 <= j < k :: SubjectCode(names[j]).Some?
  {
    if names != [] {
      if SubjectCode(names[0]).None? {
        assert names[0] == FirstUncoded(names).value;
      } else if FirstUncoded(names[1..]).Some? {
        FirstUncodedIsFirst(names[1..]);
        var k :| 0 <= k < |names[1..]| && names[1..][k] == FirstUncoded(names[1..]).value
                 && SubjectCode(names[1..][k]).None?
                 && forall j | 0 <= j < k :: SubjectCode(names[1..][j]).Some?;
        CodedPrefixShift(names, k);
      }
    }
  }

  /** A coded head followed by a coded run of `k` names in the tail is a coded run of
      `k + 1` names. */
  lemma CodedPrefixShift(names: seq<string>, k: nat)
    requires 0 <= k < |names| - 1 && SubjectCode(names[0]).Some?
    requires forall j | 0 <= j < k :: SubjectCode(names[1..][j]).Some?
    ensures names[k + 1] == names[1..][k]
    ensures forall j | 0 <= j < k + 1 :: SubjectCode(names[j]).Some?
  {
    forall j | 0 <= j < k + 1 ensures SubjectCode(names[j]).Some? {
      if j > 0 { assert names[j] == names[1..][j - 1]; }
    }
  }



  /** Places `x` before the first name whose key is not smaller. */
  function Insert(x: string, names: seq<string>, key: string -> int): seq<string> {
    if names == [] || key(x) <= key(names[0]) then [x] + names
    else [names[0]] + Insert(x, names[1..], key)
  }

  /** `list.sort(key=key)`: a stable sort by key, here by insertion. */
  function SortBy(names: seq<string>, key: string -> int): seq<string> {
    if names == [] then [] else Insert(names[0], SortBy(names[1..], key), key)
  }

  predicate SortedBy(names: seq<string>, key: string -> int) {
    forall i, j | 0 <= i < j < |names| :: key(names[i]) <= key(names[j])
  }

  /** The names whose key is `c`, in order. */
  function WithKey(names: seq<string>, key: string -> int, c: int): seq<string> {
    if names == [] then []
    else if key(names[0]) == c then [names[0]] + WithKey(names[1..], key, c)
    else WithKey(names[1..], key, c)
  }

  lemma {:induction false} InsertMultiset(x: string, names: seq<string>, key: string -> int)
    ensures multiset(Insert(x, names, key)) == multiset(names) + multiset{x}
  {
    if !(names == [] || key(x) <= key(names[0])) {
      InsertMultiset(x, names[1..], key);
      assert names == [names[0]] + names[1..];
    }
  }

  lemma {:induction false} InsertSorted(x: string, names: seq<string>, key: string -> int)
    requires SortedBy(names, key)
    ensures SortedBy(Insert(x, names, key), key)
  {
    if !(names == [] || key(x) <= key(names[0])) {
      InsertSorted(x, names[1..], key);
      InsertMultiset(x, names[1..], key);
      var r := Insert(x, names, key);
      forall i, j | 0 <= i < j < |r| ensures key(r[i]) <= key(r[j]) {
        if i == 0 {
          assert r[j] in multiset(Insert(x, names[1..], key));
          assert r[j] == x || r[j] in names[1..];
        }
      }
    }
  }

  lemma {:induction false} InsertWithKey(x: string, names: seq<string>, key: string -> int, c: int)
    ensures WithKey(Insert(x, names, key), key, c) ==
              if key(x) == c then [x] + WithKey(names, key, c) else WithKey(names, key, c)
  {
    if names == [] || key(x) <= key(names[0]) {
      assert ([x] + names)[1..] == names;
    } else {
      InsertWithKey(x, names[1..], key, c);
      assert Insert(x, names, key)[1..] == Insert(x, names[1..], key);
    }
  }

  /** The sort yields a permutation ordered by key, and keeps the relative order of
      names that share a key (Python's sort is stable). */
  lemma {:induction false} SortBySpec(names: seq<string>, key: string -> int)
    ensures multiset(SortBy(names, key)) == multiset(names)
    ensures SortedBy(SortBy(names, key), key)
    ensures forall c :: WithKey(SortBy(names, key), key, c) == WithKey(names, key, c)
  {
    if names != [] {
      var rest := SortBy(names[1..], key);
      SortBySpec(names[1..], key);
      InsertMultiset(names[0], rest, key);
      InsertSorted(names[0], rest, key);
      forall c ensures WithKey(SortBy(names, key), key, c) == WithKey(names, key, c) {
        InsertWithKey(names[0], rest, key, c);
      }
      assert names == [names[0]] + names[1..];
    }
  }

  /** Lines 41-42 and 46-47: the names containing `marker`, sorted by `int(s[3:6])`. */
  function SortedFilenames(listing: seq<string>, marker: string): Result<seq<string>> {
    var matching := Filter(listing, marker);
    match FirstUncoded(matching)
    case Some(name) => Err(BadSubjectCode(name))
    case None => Ok(SortBy(matching, CodeOf))
  }

  /** Each filename list holds exactly the listing's names that contain the marker,
      as a permutation, ascending by `int(s[3:6])`, with names of equal code in listing
      order; it fails exactly when some matching name has no integer code. */
  lemma SortedFilenamesSpec(listing: seq<string>, marker: string)
    ensures SortedFilenames(listing, marker).Ok? <==>
              forall x | x in listing && Contains(x, marker) :: SubjectCode(x).Some?
    ensures SortedFilenames(listing, marker).Ok? ==>
              var r := SortedFilenames(listing, marker).value;
              && multiset(r) == multiset(Filter(listing, marker))
              && (forall i | 0 <= i < |r| :: Contains(r[i], marker) && SubjectCode(r[i]).Some?)
              && (forall i, j | 0 <= i < j < |r| :: SubjectCode(r[i]).value <= SubjectCode(r[j]).value)
              && (forall c :: WithKey(r, CodeOf, c) == WithKey(Filter(listing, marker), CodeOf, c))
  {
    var f := Filter(listing, marker);
    FilterMultiset(listing, marker);
    FilterMembers(listing, marker);
    if FirstUncoded(f).None? {
      var r := SortBy(f, CodeOf);
      assert SortedFilenames(listing, marker) == Ok(r);
      SortBySpec(f, CodeOf);
      forall i | 0 <= i < |r| ensures Contains(r[i], marker) && SubjectCode(r[i]).Some? {
        assert r[i] in multiset(f);
      }
      forall i, j | 0 <= i < j < |r| ensures SubjectCode(r[i]).value <= SubjectCode(r[j]).value {
        assert CodeOf(r[i]) <= CodeOf(r[j]);
      }
    } else {
      var x := FirstUncoded(f).value;
      assert x in listing && Contains(x, marker);
    }
  }

  /** A failing filename list reports the first matching name, in listing order,
      whose code `int(s[3:6])` cannot compute; every matching name before it has one. */
  lemma SortedFilenamesError(listing: seq<string>, marker: string)
    ensures SortedFilenames(listing, marker).Err? ==>
              exists k | 0 <= k < |Filter(listing, marker)| ::
                && SortedFilenames(listing, marker).error == BadSubjectCode(Filter(listing, marker)[k])
                && SubjectCode(Filter(listing, marker)[k]).None?
                && forall j | 0 <= j < k :: SubjectCode(Filter(listing, marker)[j]).Some?
  {
    var f := Filter(listing, marker);
    FirstUncodedIsFirst(f);
    if FirstUncoded(f).Some? {
      var k :| 0 <= k < |f| && f[k] == FirstUncoded(f).value && SubjectCode(f[k]).None?
               && forall j | 0 <= j < k :: SubjectCode(f[j]).Some?;
      assert SortedFilenames(listing, marker).error == BadSubjectCode(f[k]);
    }
  }

  /** Line 51: `[s[7] for s in hypnogram_filenames]`; a name of 7 characters or
      fewer raises IndexError. */
  function Technicians(names: seq<string>): (r: Result<seq<char>>)
    ensures r.Ok? <==> forall i | 0 <= i < |names| :: |names[i]| > 7
    ensures r.Ok? ==> |r.value| == |names| && forall i | 0 <= i < |names| :: r.value[i] == names[i][7]
  {
    if names == [] then Ok([])
    else if |names[0]| <= 7 then Err(ShortHypnogramName(names[0]))
    else
      var rest :- Technicians(names[1..]);
      assert forall i | 1 <= i < |names| :: names[i] == names[1..][i - 1];
      Ok([names[0][7]] + rest)
  }

  /** Lines 41-51 of create_cassette_data.py (64-76 of preprocessing.py): both sorted
      filename lists become columns of the subject table, which pandas refuses when a
      list's length differs from that of a non-empty table, and the technician column
      follows. */
  function IndexRecordings(subjects: seq<SubjectRow>, listing: seq<string>): Result<seq<Night>> {
    var psgs :- SortedFilenames(listing, "PSG");
    if |psgs| != |subjects| then Err(ColumnLengthMismatch("psg_filename"))
    else
      var hypnograms :- SortedFilenames(listing, "Hypnogram");
      if |hypnograms| != |subjects| then Err(ColumnLengthMismatch("hypnogram_filename"))
      else
        var technicians :- Technicians(hypnograms);
        Ok(seq(|subjects|, i requires 0 <= i < |subjects| =>
          Night(subjects[i], psgs[i], hypnograms[i], technicians[i])))
  }

  function PsgColumn(nights: seq<Night>): seq<string> {
    seq(|nights|, i requires 0 <= i < |nights| => nights[i].psgFile)
  }

  function HypnogramColumn(nights: seq<Night>): seq<string> {
    seq(|nights|, i requires 0 <= i < |nights| => nights[i].hypnogramFile)
  }

  /** A successful indexing gives one night per subject row, in table order; its PSG
      column and its hypnogram column are the sorted filename lists (so each holds
      only names with its marker, is a permutation of the matching names, and ascends
      by subject code); the technician is character 7 of the hypnogram name. Indexing
      fails when a list's length differs from the number of subjects. */
  lemma IndexRecordingsSpec(subjects: seq<SubjectRow>, listing: seq<string>)
    ensures IndexRecordings(subjects, listing).Ok? ==>
              var nights := IndexRecordings(subjects, listing).value;
              && |nights| == |subjects|
              && (forall i | 0 <= i < |nights| :: nights[i].subject == subjects[i])
              && SortedFilenames(listing, "PSG") == Ok(PsgColumn(nights))
              && SortedFilenames(listing, "Hypnogram") == Ok(HypnogramColumn(nights))
              && (forall i | 0 <= i < |nights| ::
                    |nights[i].hypnogramFile| > 7 && nights[i].technician == nights[i].hypnogramFile[7])
    ensures SortedFilenames(listing, "PSG").Ok? && |SortedFilenames(listing, "PSG").value| != |subjects| ==>
              IndexRecordings(subjects, listing) == Err(ColumnLengthMismatch("psg_filename"))
  {
    var r := IndexRecordings(subjects, listing);
    if r.Ok? {
      var nights := r.value;
      assert PsgColumn(nights) == SortedFilenames(listing, "PSG").value;
      assert HypnogramColumn(nights) == SortedFilenames(listing, "Hypnogram").value;
    }
  }

  /** The steps of lines 41-51 fail in order, each with its own error: the PSG list,
      its length, the hypnogram list, its length, then the technician column; and
      indexing succeeds exactly when both lists are computed, both have one name per
      subject, and every hypnogram name is longer than 7 characters. */
  lemma IndexRecordingsOutcome(subjects: seq<SubjectRow>, listing: seq<string>)
    ensures IndexRecordings(subjects, listing).Ok? <==>
              && SortedFilenames(listing, "PSG").Ok?
              && SortedFilenames(listing, "Hypnogram").Ok?
              && |SortedFilenames(listing, "PSG").value| == |subjects|
              && |SortedFilenames(listing, "Hypnogram").value| == |subjects|
              && forall x | x in SortedFilenames(listing, "Hypnogram").value :: |x| > 7
    ensures SortedFilenames(listing, "PSG").Err? ==>
              IndexRecordings(subjects, listing) == Err(SortedFilenames(listing, "PSG").error)
    ensures SortedFilenames(listing, "PSG").Ok? && |SortedFilenames(listing, "PSG").value| == |subjects|
              && SortedFilenames(listing, "Hypnogram").Err? ==>
              IndexRecordings(subjects, listing) == Err(SortedFilenames(listing, "Hypnogram").error)
    ensures SortedFilenames(listing, "PSG").Ok? && |SortedFilenames(listing, "PSG").value| == |subjects|
              && SortedFilenames(listing, "Hypnogram").Ok?
              && |SortedFilenames(listing, "Hypnogram").value| != |subjects| ==>
              IndexRecordings(subjects, listing) == Err(ColumnLengthMismatch("hypnogram_filename"))
    ensures SortedFilenames(listing, "PSG").Ok? && |SortedFilenames(listing, "PSG").value| == |subjects|
              && SortedFilenames(listing, "Hypnogram").Ok?
              && |SortedFilenames(listing, "Hypnogram").value| == |subjects|
              && Technicians(SortedFilenames(listing, "Hypnogram").value).Err? ==>
              IndexRecordings(subjects, listing) == Err(Technicians(SortedFilenames(listing, "Hypnogram").value).error)
  {
  }
}
