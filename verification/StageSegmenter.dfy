/** The stages of one night: every annotation of the hypnogram except the last one
    becomes an epoch with its sample range, its admissible frequency range and its
    stage label. The lower frequency bound is a running maximum over the night: each
    stage raises it to `SAMPLE_FREQ/int(duration)` when that is larger, and later
    stages inherit the raised value. */
module StageSegmenter {
  import opened Base
  import opened FrequencyBounds

  /** One entry of the annotation list: onset, duration and stage text
      ("Sleep stage W", "Sleep stage 2", ..., "Movement time"). */
  datatype Annotation = Annotation(onset: real, duration: real, text: string)

  /** The columns one stage adds to its row: `start_index`, `end_index`, `min_freq`,
      `max_freq` and the stage code of the `label` column. */
  datatype Epoch = Epoch(startIndex: int, endIndex: int, minFreq: real, maxFreq: real, stageCode: char)

  /** The epochs of the night so far and the value `min_freq` holds after them. */
  datatype Segmentation = Segmentation(epochs: seq<Epoch>, minFreq: real)

  /** `annotations[:-1]`: the last annotation closes the recording and yields no row
      (and an empty list yields none either). */
  function Stages(annotations: seq<Annotation>): (r: seq<Annotation>)
    ensures |r| == if annotations == [] then 0 else |annotations| - 1
    ensures forall i | 0 <= i < |r| :: r[i] == annotations[i]
  {
    if annotations == [] then [] else annotations[..|annotations| - 1]
  }

  /** `SAMPLE_FREQ/int(duration)`: the lowest frequency a stage of this length resolves. */
  function DurationFreq(sampleFreq: real, a: Annotation): real
    requires Trunc(a.duration) != 0
  {
    sampleFreq / Trunc(a.duration) as real
  }

  /** The stage text's last character, the stage code. */
  function StageLabel(a: Annotation): char
    requires a.text != []
  {
    a.text[|a.text| - 1]
  }

  /** Lines 90-109 of create_cassette_data.py for one night, stage after stage: the
      epochs appended so far and the running `min_freq`. A stage whose duration
      truncates to 0 divides by zero; a stage with an empty text has no last character. */
  function Segment(stages: seq<Annotation>, bounds: Bounds, sampleFreq: real): Result<Segmentation>
    decreases |stages|
  {
    if stages == [] then Ok(Segmentation([], bounds.minFreq))
    else
      var prev :- Segment(stages[..|stages| - 1], bounds, sampleFreq);
      var a := stages[|stages| - 1];
      var start := Trunc(a.onset);
      var duration := Trunc(a.duration);
      if duration == 0 then Err(ZeroDuration(a.onset))
      else
        var minFreq := Max(prev.minFreq, sampleFreq / duration as real);
        if a.text == [] then Err(EmptyStageText(a.onset))
        else Ok(Segmentation(prev.epochs + [Epoch(start, start + duration, minFreq, bounds.maxFreq, a.text[|a.text| - 1])], minFreq))
  }

  /** One more stage that can be segmented appends one epoch to the segmentation of
      the stages before it and raises the running lower bound to its duration
      frequency, exactly as the loop body does. */
  lemma SegmentStepOk(stages: seq<Annotation>, s: nat, bounds: Bounds, sampleFreq: real,
                      epochs: seq<Epoch>, minFreq: real)
    requires s < |stages|
    requires Segment(stages[..s], bounds, sampleFreq) == Ok(Segmentation(epochs, minFreq))
    requires Trunc(stages[s].duration) != 0 && stages[s].text != []
    ensures var a := stages[s];
            var start := Trunc(a.onset);
            var duration := Trunc(a.duration);
            var raised := Max(minFreq, sampleFreq / duration as real);
            Segment(stages[..s + 1], bounds, sampleFreq) ==
              Ok(Segmentation(epochs + [Epoch(start, start + duration, raised, bounds.maxFreq, a.text[|a.text| - 1])], raised))
  {
    assert stages[..s + 1][..s] == stages[..s];
    assert stages[..s + 1][s] == stages[s];
  }

  /** A stage whose duration truncates to 0, or whose text is empty, stops the whole
      night with that stage's error, whatever follows it. */
  lemma SegmentStepErr(stages: seq<Annotation>, s: nat, bounds: Bounds, sampleFreq: real)
    requires s < |stages|
    requires Segment(stages[..s], bounds, sampleFreq).Ok?
    requires Trunc(stages[s].duration) == 0 || stages[s].text == []
    ensures Segment(stages, bounds, sampleFreq) ==
              Err(if Trunc(stages[s].duration) == 0 then ZeroDuration(stages[s].onset) else EmptyStageText(stages[s].onset))
  {
    assert stages[..s + 1][..s] == stages[..s];
    assert stages[..s + 1][s] == stages[s];
    SegmentErrPersists(stages, s + 1, bounds, sampleFreq);
  }

  /** A stage that can be segmented: its duration does not truncate to 0 and its text
      has a last character. */
  predicate Segmentable(a: Annotation) {
    Trunc(a.duration) != 0 && a.text != []
  }

  /** Segmentation succeeds exactly when every stage can be segmented. */
  lemma {:induction false} SegmentOkIff(stages: seq<Annotation>, bounds: Bounds, sampleFreq: real)
    ensures Segment(stages, bounds, sampleFreq).Ok? <==> forall i | 0 <= i < |stages| :: Segmentable(stages[i])
  {
    if stages != [] {
      var n := |stages| - 1;
      SegmentOkIff(stages[..n], bounds, sampleFreq);
      assert forall i | 0 <= i < n :: stages[..n][i] == stages[i];
    }
  }

  /** Once a prefix of the stages fails, the whole night fails with the same error:
      the exception leaves the loop. */
  lemma {:induction false} SegmentErrPersists(stages: seq<Annotation>, k: nat, bounds: Bounds, sampleFreq: real)
    requires k <= |stages|
    requires Segment(stages[..k], bounds, sampleFreq).Err?
    ensures Segment(stages, bounds, sampleFreq) == Segment(stages[..k], bounds, sampleFreq)
    decreases |stages| - k
  {
    if k < |stages| {
      var n := |stages| - 1;
      assert stages[..n][..k] == stages[..k];
      SegmentErrPersists(stages[..n], k, bounds, sampleFreq);
    } else {
      assert stages[..k] == stages;
    }
  }

  /** Every stage yields one epoch, in annotation order: its start is `int(onset)`,
      its length `int(duration)`, its upper bound the night's upper bound and its
      label the last character of its text; the running value after the night is the
      last epoch's lower bound. */
  lemma {:induction false} SegmentEpochs(stages: seq<Annotation>, bounds: Bounds, sampleFreq: real)
    requires Segment(stages, bounds, sampleFreq).Ok?
    ensures var seg := Segment(stages, bounds, sampleFreq).value;
            && |seg.epochs| == |stages|
            && seg.minFreq == (if stages == [] then bounds.minFreq else seg.epochs[|stages| - 1].minFreq)
            && forall i | 0 <= i < |stages| ::
                 && Segmentable(stages[i])
                 && seg.epochs[i].startIndex == Trunc(stages[i].onset)
                 && seg.epochs[i].endIndex - seg.epochs[i].startIndex == Trunc(stages[i].duration)
                 && seg.epochs[i].maxFreq == bounds.maxFreq
                 && seg.epochs[i].stageCode == StageLabel(stages[i])
  {
    if stages != [] {
      var n := |stages| - 1;
      SegmentEpochs(stages[..n], bounds, sampleFreq);
      assert forall i | 0 <= i < n :: stages[..n][i] == stages[i];
    }
  }

  /** The lower bound of epoch `i` is the previous epoch's (for the first epoch, the
      night's prefilter bound) raised to `SAMPLE_FREQ/int(duration)` of stage `i`:
      `min_freq = max(min_freq, duration_freq)` of line 101. */
  lemma {:induction false} SegmentMinFreqStep(stages: seq<Annotation>, bounds: Bounds, sampleFreq: real)
    requires Segment(stages, bounds, sampleFreq).Ok?
    ensures RunningSteps(Segment(stages, bounds, sampleFreq).value.epochs, stages, bounds.minFreq, sampleFreq)
  {
    if stages != [] {
      var n := |stages| - 1;
      var pre := stages[..n];
      SegmentMinFreqStep(pre, bounds, sampleFreq);
      SegmentFinal(pre, bounds, sampleFreq);
      var prev := Segment(pre, bounds, sampleFreq).value;
      var a := stages[n];
      var d := Trunc(a.duration);
      var m := Max(prev.minFreq, sampleFreq / d as real);
      var e := Epoch(Trunc(a.onset), Trunc(a.onset) + d, m, bounds.maxFreq, a.text[|a.text| - 1]);
      var epochs := prev.epochs + [e];
      assert Segment(stages, bounds, sampleFreq) == Ok(Segmentation(epochs, m));
      assert forall i | 0 <= i < n :: epochs[i] == prev.epochs[i] && stages[i] == pre[i];
      assert Segmentable(a);
      assert m == Max(if n == 0 then bounds.minFreq else epochs[n - 1].minFreq, DurationFreq(sampleFreq, a));
    }
  }

  /** The night yields as many epochs as it has stages, and the running value after it
      is the last epoch's lower bound. */
  lemma {:induction false} SegmentFinal(stages: seq<Annotation>, bounds: Bounds, sampleFreq: real)
    requires Segment(stages, bounds, sampleFreq).Ok?
    ensures var seg := Segment(stages, bounds, sampleFreq).value;
            && |seg.epochs| == |stages|
            && seg.minFreq == (if stages == [] then bounds.minFreq else seg.epochs[|stages| - 1].minFreq)
  {
    if stages != [] {
      SegmentFinal(stages[..|stages| - 1], bounds, sampleFreq);
    }
  }

  /** Within a night the lower bound never decreases; it is at least the prefilter
      bound and at least `SAMPLE_FREQ/int(duration)` of its own stage and of every
      earlier stage; and it is one of those values (the largest of them). */
  lemma SegmentRunningMax(stages: seq<Annotation>, bounds: Bounds, sampleFreq: real)
    requires Segment(stages, bounds, sampleFreq).Ok?
    ensures var epochs := Segment(stages, bounds, sampleFreq).value.epochs;
            && |epochs| == |stages|
            && (forall i, j | 0 <= i <= j < |epochs| :: epochs[i].minFreq <= epochs[j].minFreq)
            && (forall i | 0 <= i < |epochs| :: bounds.minFreq <= epochs[i].minFreq)
            && (forall j, i | 0 <= j <= i < |epochs| ::
                  Segmentable(stages[j]) && DurationFreq(sampleFreq, stages[j]) <= epochs[i].minFreq)
            && (forall i | 0 <= i < |epochs| ::
                  || epochs[i].minFreq == bounds.minFreq
                  || exists j | 0 <= j <= i :: Segmentable(stages[j]) && epochs[i].minFreq == DurationFreq(sampleFreq, stages[j]))
  {
    var epochs := Segment(stages, bounds, sampleFreq).value.epochs;
    SegmentMinFreqStep(stages, bounds, sampleFreq);
    forall i, j | 0 <= i <= j < |epochs| ensures epochs[i].minFreq <= epochs[j].minFreq {
      StepsMonotone(epochs, stages, bounds.minFreq, sampleFreq, i, j);
    }
    forall i | 0 <= i < |epochs|
      ensures bounds.minFreq <= epochs[i].minFreq
      ensures forall j | 0 <= j <= i :: DurationFreq(sampleFreq, stages[j]) <= epochs[i].minFreq
      ensures || epochs[i].minFreq == bounds.minFreq
              || exists j | 0 <= j <= i :: Segmentable(stages[j]) && epochs[i].minFreq == DurationFreq(sampleFreq, stages[j])
    {
      StepBounds(epochs, stages, bounds.minFreq, sampleFreq, i);
    }
  }

  /** The step relation between consecutive lower bounds that SegmentMinFreqStep proves. */
  ghost predicate RunningSteps(epochs: seq<Epoch>, stages: seq<Annotation>, start: real, sampleFreq: real) {
    && |epochs| == |stages|
    && (forall i | 0 <= i < |stages| :: Segmentable(stages[i]))
    && (|stages| > 0 ==> epochs[0].minFreq == Max(start, DurationFreq(sampleFreq, stages[0])))
    && (forall i | 0 < i < |stages| ::
          epochs[i].minFreq == Max(epochs[i - 1].minFreq, DurationFreq(sampleFreq, stages[i])))
  }

  lemma {:induction false} StepsMonotone(epochs: seq<Epoch>, stages: seq<Annotation>, start: real, sampleFreq: real, i: nat, j: nat)
    requires RunningSteps(epochs, stages, start, sampleFreq)
    requires i <= j < |epochs|
    ensures epochs[i].minFreq <= epochs[j].minFreq
    decreases j - i
  {
    if i < j {
      StepsMonotone(epochs, stages, start, sampleFreq, i, j - 1);
      assert epochs[j].minFreq == Max(epochs[j - 1].minFreq, DurationFreq(sampleFreq, stages[j]));
    }
  }

  lemma {:induction false} StepBounds(epochs: seq<Epoch>, stages: seq<Annotation>, start: real, sampleFreq: real, i: nat)
    requires RunningSteps(epochs, stages, start, sampleFreq)
    requires i < |epochs|
    ensures start <= epochs[i].minFreq
    ensures forall j | 0 <= j <= i :: DurationFreq(sampleFreq, stages[j]) <= epochs[i].minFreq
    ensures || epochs[i].minFreq == start
            || exists j | 0 <= j <= i :: Segmentable(stages[j]) && epochs[i].minFreq == DurationFreq(sampleFreq, stages[j])
  {
    var d := DurationFreq(sampleFreq, stages[i]);
    if i == 0 {
      assert epochs[0].minFreq == Max(start, d);
    } else {
      StepBounds(epochs, stages, start, sampleFreq, i - 1);
      var p := epochs[i - 1].minFreq;
      assert epochs[i].minFreq == Max(p, d);
      if epochs[i].minFreq == p && p != start {
        var j :| 0 <= j <= i - 1 && Segmentable(stages[j]) && p == DurationFreq(sampleFreq, stages[j]);
        assert 0 <= j <= i;
      }
    }
  }

  /** The range of every epoch is non-empty when the night's range is and no stage is
      so short that `SAMPLE_FREQ/int(duration)` exceeds the upper bound (the code itself
      never checks this). */
  lemma EpochRangeNonEmpty(stages: seq<Annotation>, bounds: Bounds, sampleFreq: real)
    requires Segment(stages, bounds, sampleFreq).Ok?
    requires bounds.minFreq <= bounds.maxFreq
    requires forall i | 0 <= i < |stages| :: Segmentable(stages[i]) && DurationFreq(sampleFreq, stages[i]) <= bounds.maxFreq
    ensures forall e | e in Segment(stages, bounds, sampleFreq).value.epochs :: e.minFreq <= e.maxFreq
  {
    var epochs := Segment(stages, bounds, sampleFreq).value.epochs;
    SegmentEpochs(stages, bounds, sampleFreq);
    SegmentRunningMax(stages, bounds, sampleFreq);
    forall e | e in epochs ensures e.minFreq <= e.maxFreq {
      var i :| 0 <= i < |epochs| && epochs[i] == e;
    }
  }

  /** A night of three stages of 100, 30 and 400 samples at 100 Hz, followed by the
      closing annotation, yields three epochs; the 30-sample epoch's lower bound is at
      least 100/30 Hz, and the 400-sample epoch after it keeps that bound. */
  lemma ThreeStagesExample()
    ensures var annotations := [Annotation(0.0, 100.0, "Sleep stage W"), Annotation(100.0, 30.0, "Sleep stage 1"),
                                Annotation(130.0, 400.0, "Sleep stage 2"), Annotation(530.0, 0.0, "Sleep stage ?")];
            var seg := Segment(Stages(annotations), Bounds(0.5, 35.0), 100.0);
            && seg.Ok? && |seg.value.epochs| == 3
            && seg.value.epochs[1].minFreq >= 100.0 / 30.0
            && seg.value.epochs[2].minFreq == 100.0 / 30.0
            && seg.value.epochs[2].endIndex - seg.value.epochs[2].startIndex == 400
            && seg.value.epochs[2].stageCode == '2'
  {
    var annotations := [Annotation(0.0, 100.0, "Sleep stage W"), Annotation(100.0, 30.0, "Sleep stage 1"),
                        Annotation(130.0, 400.0, "Sleep stage 2"), Annotation(530.0, 0.0, "Sleep stage ?")];
    var stages := Stages(annotations);
    var b := Bounds(0.5, 35.0);
    assert Trunc(100.0) == 100 && Trunc(30.0) == 30 && Trunc(400.0) == 400;
    assert Trunc(130.0) == 130;
    assert |stages| == 3;
    assert forall i | 0 <= i < 3 :: Segmentable(stages[i]);
    SegmentOkIff(stages, b, 100.0);
    SegmentFinal(stages, b, 100.0);
    SegmentEpochs(stages, b, 100.0);
    SegmentMinFreqStep(stages, b, 100.0);
    var epochs := Segment(stages, b, 100.0).value.epochs;
    assert epochs[0].minFreq == 1.0;
    assert epochs[1].minFreq == 100.0 / 30.0;
    assert StageLabel(stages[2]) == '2';
  }
}
