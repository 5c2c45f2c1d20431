/** The flat epoch table: for every night, in table order, one row per stage, in
    annotation order. A row is the night's base row followed by the stage's
    `start_index`, `end_index`, `min_freq`, `max_freq` and `label` columns, and the
    `study` column. */
module Dataset {
  import opened Base
  import opened Text
  import opened FrequencyBounds
  import opened StageSegmenter
  import opened RecordingIndex

  /** The value of the `study` column for the cassette study. */
  const CassetteStudy: nat := 0

  datatype Row = Row(base: Night, epoch: Epoch, study: nat)

  /** The rows of one night's epochs, in order. */
  function NightTable(night: Night, epochs: seq<Epoch>): (r: seq<Row>)
    ensures |r| == |epochs|
    ensures forall i | 0 <= i < |epochs| :: r[i] == Row(night, epochs[i], CassetteStudy)
  {
    if epochs == [] then []
    else NightTable(night, epochs[..|epochs| - 1]) + [Row(night, epochs[|epochs| - 1], CassetteStudy)]
  }

  lemma NightTableAppend(night: Night, epochs: seq<Epoch>, epoch: Epoch)
    ensures NightTable(night, epochs + [epoch]) == NightTable(night, epochs) + [Row(night, epoch, CassetteStudy)]
  {
    assert (epochs + [epoch])[..|epochs|] == epochs;
  }

  /** The rows one night contributes: its PSG file's prefilter text gives the bounds
      (read first), its hypnogram's annotations give the stages. A file the reader
      cannot find stops the whole table. */
  function NightRows(night: Night, prefilters: map<string, string>, annotations: map<string, seq<Annotation>>,
                     sampleFreq: real): Result<seq<Row>>
  {
    if night.psgFile !in prefilters then Err(MissingFile(night.psgFile))
    else
      var bounds :- PrefilterBounds(prefilters[night.psgFile], sampleFreq);
      if night.hypnogramFile !in annotations then Err(MissingFile(night.hypnogramFile))
      else
        var seg :- Segment(Stages(annotations[night.hypnogramFile]), bounds, sampleFreq);
        Ok(NightTable(night, seg.epochs))
  }

  /** The table of the first nights, night after night; the first failing night stops it. */
  function Assemble(nights: seq<Night>, prefilters: map<string, string>, annotations: map<string, seq<Annotation>>,
                    sampleFreq: real): Result<seq<Row>>
    decreases |nights|
  {
    if nights == [] then Ok([])
    else
      var before :- Assemble(nights[..|nights| - 1], prefilters, annotations, sampleFreq);
      var rows :- NightRows(nights[|nights| - 1], prefilters, annotations, sampleFreq);
      Ok(before + rows)
  }

  lemma {:induction false} AssembleErrPersists(nights: seq<Night>, k: nat, prefilters: map<string, string>,
                                               annotations: map<string, seq<Annotation>>, sampleFreq: real)
    requires k <= |nights|
    requires Assemble(nights[..k], prefilters, annotations, sampleFreq).Err?
    ensures Assemble(nights, prefilters, annotations, sampleFreq) == Assemble(nights[..k], prefilters, annotations, sampleFreq)
    decreases |nights| - k
  {
    if k < |nights| {
      var n := |nights| - 1;
      assert nights[..n][..k] == nights[..k];
      AssembleErrPersists(nights[..n], k, prefilters, annotations, sampleFreq);
    } else {
      assert nights[..k] == nights;
    }
  }

  /** Lines 71-84 of create_cassette_data.py: `min_freq` and `max_freq` start at the
      global bounds and are replaced by the clamped LP and HP values when present. */
  method NightBounds(text: string, sampleFreq: real) returns (r: Result<Bounds>)
    ensures r == PrefilterBounds(text, sampleFreq)
  {
    var minFreq := GlobalMinFreq;
    var maxFreq := GlobalMaxFreq(sampleFreq);
    var lp := Search(text, "LP:");
    if lp.Some? {
      var value := ParseDecimal(lp.value);
      if value.None? {
        return Err(BadFilterValue(lp.value));
      }
      maxFreq := if value.value < GlobalMaxFreq(sampleFreq) then value.value else GlobalMaxFreq(sampleFreq);
    }
    var hp := Search(text, "HP:");
    if hp.Some? {
      var value := ParseDecimal(hp.value);
      if value.None? {
        return Err(BadFilterValue(hp.value));
      }
      minFreq := if value.value > GlobalMinFreq then value.value else GlobalMinFreq;
    }
    r := Ok(Bounds(minFreq, maxFreq));
  }

  /** Lines 90-109 of create_cassette_data.py: the stage loop, which raises the running
      `min_freq` and appends one row per stage to `rows`. */
  method AppendStages(rows: seq<Row>, night: Night, stages: seq<Annotation>, bounds: Bounds, sampleFreq: real)
    returns (r: Result<seq<Row>>)
    ensures Segment(stages, bounds, sampleFreq).Err? ==> r == Err(Segment(stages, bounds, sampleFreq).error)
    ensures Segment(stages, bounds, sampleFreq).Ok? ==>
              r == Ok(rows + NightTable(night, Segment(stages, bounds, sampleFreq).value.epochs))
  {
    var minFreq := bounds.minFreq;
    var out := rows;
    ghost var epochs: seq<Epoch> := [];
    for s := 0 to |stages|
      invariant Segment(stages[..s], bounds, sampleFreq) == Ok(Segmentation(epochs, minFreq))
      invariant out == rows + NightTable(night, epochs)
    {
      var stage := stages[s];
      var startIndex := Trunc(stage.onset);
      var duration := Trunc(stage.duration);
      var endIndex := startIndex + duration;
      if duration == 0 {
        assert Segment(stages, bounds, sampleFreq) == Err(ZeroDuration(stage.onset)) by {
          SegmentStepErr(stages, s, bounds, sampleFreq);
        }
        return Err(ZeroDuration(stage.onset));
      }
      ghost var before := minFreq;
      var durationFreq := sampleFreq / duration as real;
      minFreq := Max(minFreq, durationFreq);
      if stage.text == [] {
        assert Segment(stages, bounds, sampleFreq) == Err(EmptyStageText(stage.onset)) by {
          SegmentStepErr(stages, s, bounds, sampleFreq);
        }
        return Err(EmptyStageText(stage.onset));
      }
      var epoch := Epoch(startIndex, endIndex, minFreq, bounds.maxFreq, stage.text[|stage.text| - 1]);
      assert Segment(stages[..s + 1], bounds, sampleFreq) == Ok(Segmentation(epochs + [epoch], minFreq)) by {
        SegmentStepOk(stages, s, bounds, sampleFreq, epochs, before);
      }
      assert NightTable(night, epochs + [epoch]) == NightTable(night, epochs) + [Row(night, epoch, CassetteStudy)] by {
        NightTableAppend(night, epochs, epoch);
      }
      out := out + [Row(night, epoch, CassetteStudy)];
      epochs := epochs + [epoch];
    }
    assert stages[..|stages|] == stages;
    r := Ok(out);
  }

  /** Lines 66-109 of create_cassette_data.py for one night: the PSG file's prefilter
      text, then the hypnogram's annotations without the closing one. */
  method AppendNight(rows: seq<Row>, night: Night, prefilters: map<string, string>,
                     annotations: map<string, seq<Annotation>>, sampleFreq: real)
    returns (r: Result<seq<Row>>)
    ensures NightRows(night, prefilters, annotations, sampleFreq).Err? ==>
              r == Err(NightRows(night, prefilters, annotations, sampleFreq).error)
    ensures NightRows(night, prefilters, annotations, sampleFreq).Ok? ==>
              r == Ok(rows + NightRows(night, prefilters, annotations, sampleFreq).value)
  {
    if night.psgFile !in prefilters {
      return Err(MissingFile(night.psgFile));
    }
    var bounds := NightBounds(prefilters[night.psgFile], sampleFreq);
    if bounds.Err? {
      return Err(bounds.error);
    }
    if night.hypnogramFile !in annotations {
      return Err(MissingFile(night.hypnogramFile));
    }
    r := AppendStages(rows, night, Stages(annotations[night.hypnogramFile]), bounds.value, sampleFreq);
  }

  /** Lines 61-109 of create_cassette_data.py: the loop over the nights of the indexed
      subject table, collecting every night's rows into one list. */
  method AssembleRows(nights: seq<Night>, prefilters: map<string, string>,
                      annotations: map<string, seq<Annotation>>, sampleFreq: real)
    returns (r: Result<seq<Row>>)
    ensures r == Assemble(nights, prefilters, annotations, sampleFreq)
  {
    var rows: seq<Row> := [];
    for n := 0 to |nights|
      invariant Assemble(nights[..n], prefilters, annotations, sampleFreq) == Ok(rows)
    {
      var next := AppendNight(rows, nights[n], prefilters, annotations, sampleFreq);
      assert Assemble(nights[..n + 1], prefilters, annotations, sampleFreq) == next by {
        assert nights[..n + 1][..n] == nights[..n];
        AssembleStep(nights[..n + 1], prefilters, annotations, sampleFreq);
      }
      if next.Err? {
        AssembleErrPersists(nights, n + 1, prefilters, annotations, sampleFreq);
        return next;
      }
      rows := next.value;
    }
    assert nights[..|nights|] == nights;
    r := Ok(rows);
  }

  /** Two partial tables one after the other; the first error wins. */
  function Join(first: Result<seq<Row>>, second: Result<seq<Row>>): Result<seq<Row>> {
    match first
    case Err(e) => Err(e)
    case Ok(x) =>
      match second
      case Err(e) => Err(e)
      case Ok(y) => Ok(x + y)
  }

  lemma JoinAssociative(a: Result<seq<Row>>, b: Result<seq<Row>>, c: Result<seq<Row>>)
    ensures Join(Join(a, b), c) == Join(a, Join(b, c))
  {
    if a.Ok? && b.Ok? && c.Ok? {
      assert (a.value + b.value) + c.value == a.value + (b.value + c.value);
    }
  }

  lemma JoinOk(first: Result<seq<Row>>, second: Result<seq<Row>>)
    ensures Join(first, second).Ok? <==> first.Ok? && second.Ok?
    ensures Join(first, second).Ok? ==> Join(first, second).value == first.value + second.value
  {
  }

  lemma AssembleStep(nights: seq<Night>, prefilters: map<string, string>,
                     annotations: map<string, seq<Annotation>>, sampleFreq: real)
    requires nights != []
    ensures Assemble(nights, prefilters, annotations, sampleFreq) ==
              Join(Assemble(nights[..|nights| - 1], prefilters, annotations, sampleFreq),
                   NightRows(nights[|nights| - 1], prefilters, annotations, sampleFreq))
  {
  }

  /** When a night yields rows, both its files were found, its prefilter text gave
      bounds, its stages segmented, and the rows are those epochs. */
  lemma NightRowsOk(night: Night, prefilters: map<string, string>, annotations: map<string, seq<Annotation>>,
                    sampleFreq: real)
    requires NightRows(night, prefilters, annotations, sampleFreq).Ok?
    ensures night.psgFile in prefilters && night.hypnogramFile in annotations
    ensures PrefilterBounds(prefilters[night.psgFile], sampleFreq).Ok?
    ensures Segment(Stages(annotations[night.hypnogramFile]),
                    PrefilterBounds(prefilters[night.psgFile], sampleFreq).value, sampleFreq).Ok?
    ensures NightRows(night, prefilters, annotations, sampleFreq).value ==
              NightTable(night, Segment(Stages(annotations[night.hypnogramFile]),
                                        PrefilterBounds(prefilters[night.psgFile], sampleFreq).value, sampleFreq).value.epochs)
  {
  }

  /** The rows of one segmented night: one per annotation except the last, in
      annotation order, each made of the night's base row, start `int(onset)`, length
      `int(duration)`, the night's upper bound, a lower bound at least the night's
      prefilter bound and at least its own duration frequency, the last character of
      the stage text, and study 0; the lower bounds never decrease. */
  lemma SegmentedRows(night: Night, anns: seq<Annotation>, bounds: Bounds, sampleFreq: real)
    requires Segment(Stages(anns), bounds, sampleFreq).Ok?
    ensures var rows := NightTable(night, Segment(Stages(anns), bounds, sampleFreq).value.epochs);
            && |rows| == (if anns == [] then 0 else |anns| - 1)
            && (forall i | 0 <= i < |rows| ::
                  && rows[i].base == night && rows[i].study == CassetteStudy
                  && Segmentable(anns[i])
                  && rows[i].epoch.startIndex == Trunc(anns[i].onset)
                  && rows[i].epoch.endIndex - rows[i].epoch.startIndex == Trunc(anns[i].duration)
                  && rows[i].epoch.maxFreq == bounds.maxFreq
                  && bounds.minFreq <= rows[i].epoch.minFreq
                  && DurationFreq(sampleFreq, anns[i]) <= rows[i].epoch.minFreq
                  && rows[i].epoch.stageCode == StageLabel(anns[i]))
            && (forall i, j | 0 <= i <= j < |rows| :: rows[i].epoch.minFreq <= rows[j].epoch.minFreq)
  {
    var stages := Stages(anns);
    var epochs := Segment(stages, bounds, sampleFreq).value.epochs;
    var rows := NightTable(night, epochs);
    assert |epochs| == |stages| by {
      SegmentEpochs(stages, bounds, sampleFreq);
    }
    forall i, j | 0 <= i <= j < |rows| ensures rows[i].epoch.minFreq <= rows[j].epoch.minFreq {
      SegmentRunningMax(stages, bounds, sampleFreq);
      assert rows[i].epoch == epochs[i] && rows[j].epoch == epochs[j];
    }
    forall i | 0 <= i < |rows|
      ensures && rows[i].base == night && rows[i].study == CassetteStudy
              && Segmentable(anns[i])
              && rows[i].epoch.startIndex == Trunc(anns[i].onset)
              && rows[i].epoch.endIndex - rows[i].epoch.startIndex == Trunc(anns[i].duration)
              && rows[i].epoch.maxFreq == bounds.maxFreq
              && bounds.minFreq <= rows[i].epoch.minFreq
              && DurationFreq(sampleFreq, anns[i]) <= rows[i].epoch.minFreq
              && rows[i].epoch.stageCode == StageLabel(anns[i])
    {
      SegmentEpochs(stages, bounds, sampleFreq);
      assert bounds.minFreq <= epochs[i].minFreq && DurationFreq(sampleFreq, stages[i]) <= epochs[i].minFreq by {
        SegmentRunningMax(stages, bounds, sampleFreq);
      }
      assert rows[i] == Row(night, epochs[i], CassetteStudy);
      assert stages[i] == anns[i];
    }
  }

  /** Assembling two runs of nights one after the other gives the first run's rows
      followed by the second's: rows come in night order. */
  lemma {:induction false} AssembleAppend(a: seq<Night>, b: seq<Night>, prefilters: map<string, string>,
                                          annotations: map<string, seq<Annotation>>, sampleFreq: real)
    ensures Assemble(a + b, prefilters, annotations, sampleFreq) ==
              Join(Assemble(a, prefilters, annotations, sampleFreq), Assemble(b, prefilters, annotations, sampleFreq))
    decreases |b|
  {
    if b == [] {
      assert a + b == a;
      var first := Assemble(a, prefilters, annotations, sampleFreq);
      if first.Ok? {
        assert first.value + [] == first.value;
      }
    } else {
      var n := |b| - 1;
      assert (a + b)[..|a + b| - 1] == a + b[..n];
      assert (a + b)[|a + b| - 1] == b[n];
      AssembleStep(a + b, prefilters, annotations, sampleFreq);
      AssembleStep(b, prefilters, annotations, sampleFreq);
      AssembleAppend(a, b[..n], prefilters, annotations, sampleFreq);
      JoinAssociative(Assemble(a, prefilters, annotations, sampleFreq), Assemble(b[..n], prefilters, annotations, sampleFreq),
                      NightRows(b[n], prefilters, annotations, sampleFreq));
    }
  }

  /** A single night's table is that night's rows. */
  lemma AssembleOne(night: Night, prefilters: map<string, string>, annotations: map<string, seq<Annotation>>,
                    sampleFreq: real)
    ensures Assemble([night], prefilters, annotations, sampleFreq) == NightRows(night, prefilters, annotations, sampleFreq)
  {
    assert [night][..0] == [];
    AssembleStep([night], prefilters, annotations, sampleFreq);
    var rows := NightRows(night, prefilters, annotations, sampleFreq);
    if rows.Ok? {
      assert [] + rows.value == rows.value;
    }
  }

  /** The number of stages of all nights: each night's annotations but the last. */
  function StageCount(nights: seq<Night>, annotations: map<string, seq<Annotation>>): nat {
    if nights == [] then 0
    else
      var h := nights[|nights| - 1].hypnogramFile;
      StageCount(nights[..|nights| - 1], annotations) + (if h in annotations then |Stages(annotations[h])| else 0)
  }

  /** The night at index `i` yields rows whenever the whole table is produced. */
  lemma {:induction false} AssembleOkNight(nights: seq<Night>, i: nat, prefilters: map<string, string>,
                                           annotations: map<string, seq<Annotation>>, sampleFreq: real)
    requires Assemble(nights, prefilters, annotations, sampleFreq).Ok?
    requires i < |nights|
    ensures NightRows(nights[i], prefilters, annotations, sampleFreq).Ok?
  {
    var n := |nights| - 1;
    var prefix := nights[..n];
    var first := Assemble(prefix, prefilters, annotations, sampleFreq);
    var second := NightRows(nights[n], prefilters, annotations, sampleFreq);
    AssembleStep(nights, prefilters, annotations, sampleFreq);
    JoinOk(first, second);
    if i < n {
      AssembleOkNight(prefix, i, prefilters, annotations, sampleFreq);
      assert prefix[i] == nights[i];
    } else {
      assert i == n && second.Ok?;
    }
  }

  /** The table is produced only when every night's rows are. */
  lemma AssembleOkOnlyIfAll(nights: seq<Night>, prefilters: map<string, string>,
                            annotations: map<string, seq<Annotation>>, sampleFreq: real)
    requires Assemble(nights, prefilters, annotations, sampleFreq).Ok?
    ensures forall i | 0 <= i < |nights| :: NightRows(nights[i], prefilters, annotations, sampleFreq).Ok?
  {
    forall i | 0 <= i < |nights| ensures NightRows(nights[i], prefilters, annotations, sampleFreq).Ok? {
      AssembleOkNight(nights, i, prefilters, annotations, sampleFreq);
    }
  }

  /** The table is produced whenever every night's rows are. */
  lemma {:induction false} AssembleOkIfAll(nights: seq<Night>, prefilters: map<string, string>,
                                         annotations: map<string, seq<Annotation>>, sampleFreq: real)
    requires forall i | 0 <= i < |nights| :: NightRows(nights[i], prefilters, annotations, sampleFreq).Ok?
    ensures Assemble(nights, prefilters, annotations, sampleFreq).Ok?
  {
    if nights != [] {
      var n := |nights| - 1;
      var prefix := nights[..n];
      forall i | 0 <= i < n ensures NightRows(prefix[i], prefilters, annotations, sampleFreq).Ok? {
        assert prefix[i] == nights[i];
      }
      AssembleOkIfAll(prefix, prefilters, annotations, sampleFreq);
      AssembleStep(nights, prefilters, annotations, sampleFreq);
    }
  }

  /** One night contributes one row per stage, each made of that night's base row and
      study 0. */
  lemma NightRowsShape(night: Night, prefilters: map<string, string>, annotations: map<string, seq<Annotation>>,
                       sampleFreq: real)
    requires NightRows(night, prefilters, annotations, sampleFreq).Ok?
    ensures night.hypnogramFile in annotations
    ensures var rows := NightRows(night, prefilters, annotations, sampleFreq).value;
            && |rows| == |Stages(annotations[night.hypnogramFile])|
            && forall k | 0 <= k < |rows| :: rows[k].base == night && rows[k].study == CassetteStudy
  {
    NightRowsOk(night, prefilters, annotations, sampleFreq);
    SegmentEpochs(Stages(annotations[night.hypnogramFile]), PrefilterBounds(prefilters[night.psgFile], sampleFreq).value,
                  sampleFreq);
  }

  /** The table has one row per stage of every night. */
  lemma {:induction false} AssembleCount(nights: seq<Night>, prefilters: map<string, string>,
                                         annotations: map<string, seq<Annotation>>, sampleFreq: real)
    requires Assemble(nights, prefilters, annotations, sampleFreq).Ok?
    ensures |Assemble(nights, prefilters, annotations, sampleFreq).value| == StageCount(nights, annotations)
  {
    if nights != [] {
      var n := |nights| - 1;
      AssembleStep(nights, prefilters, annotations, sampleFreq);
      AssembleCount(nights[..n], prefilters, annotations, sampleFreq);
      NightRowsShape(nights[n], prefilters, annotations, sampleFreq);
    }
  }

  /** Row `k` of the table belongs to one of the nights and carries study 0. */
  lemma {:induction false} AssembleRowOfNight(nights: seq<Night>, k: nat, prefilters: map<string, string>,
                                              annotations: map<string, seq<Annotation>>, sampleFreq: real)
    requires Assemble(nights, prefilters, annotations, sampleFreq).Ok?
    requires k < |Assemble(nights, prefilters, annotations, sampleFreq).value|
    ensures Assemble(nights, prefilters, annotations, sampleFreq).value[k].base in nights
    ensures Assemble(nights, prefilters, annotations, sampleFreq).value[k].study == CassetteStudy
  {
    var n := |nights| - 1;
    var prefix := nights[..n];
    var first := Assemble(prefix, prefilters, annotations, sampleFreq);
    var second := NightRows(nights[n], prefilters, annotations, sampleFreq);
    assert first.Ok? && second.Ok? &&
           Assemble(nights, prefilters, annotations, sampleFreq).value == first.value + second.value by {
      AssembleStep(nights, prefilters, annotations, sampleFreq);
      JoinOk(first, second);
    }
    var row := (first.value + second.value)[k];
    if k < |first.value| {
      assert row.base in nights && row.study == CassetteStudy by {
        AssembleRowOfNight(prefix, k, prefilters, annotations, sampleFreq);
        assert row == first.value[k];
        var j :| 0 <= j < n && prefix[j] == row.base;
        assert nights[j] == row.base;
      }
    } else {
      assert row.base in nights && row.study == CassetteStudy by {
        NightRowsShape(nights[n], prefilters, annotations, sampleFreq);
        assert row == second.value[k - |first.value|];
        assert row.base == nights[n];
      }
    }
  }

  /** Every row of the table belongs to one of the nights and carries study 0. */
  lemma AssembleRowsOfNights(nights: seq<Night>, prefilters: map<string, string>,
                             annotations: map<string, seq<Annotation>>, sampleFreq: real)
    requires Assemble(nights, prefilters, annotations, sampleFreq).Ok?
    ensures var rows := Assemble(nights, prefilters, annotations, sampleFreq).value;
            forall k | 0 <= k < |rows| :: rows[k].base in nights && rows[k].study == CassetteStudy
  {
    var rows := Assemble(nights, prefilters, annotations, sampleFreq).value;
    forall k | 0 <= k < |rows| ensures rows[k].base in nights && rows[k].study == CassetteStudy {
      AssembleRowOfNight(nights, k, prefilters, annotations, sampleFreq);
    }
  }
}
