/** The admissible frequency range of one recording, read from the free-text prefilter
    description of its first signal channel ("HP:0.5Hz LP:100Hz [enhanced cassette BW]").
    The first `LP:` token lowers the upper bound from the Nyquist frequency, the first
    `HP:` token raises the lower bound from zero; a missing token keeps the global bound. */
module FrequencyBounds {
  import opened Base
  import opened Text

  datatype Bounds = Bounds(minFreq: real, maxFreq: real)

  /** The least conservative lower bound, `global_min_freq`. */
  const GlobalMinFreq: real := 0.0

  /** The least conservative upper bound, `global_max_freq`: half the sample rate. */
  function GlobalMaxFreq(sampleFreq: real): real { sampleFreq / 2.0 }

  /** The pattern `marker([\d.]+)` matches at index `i`: the marker, then at least one
      digit or dot. */
  predicate TokenAt(text: string, marker: string, i: nat) {
    i + |marker| < |text| && text[i..i + |marker|] == marker && IsNumChar(text[i + |marker|])
  }

  /** No match of `marker([\d.]+)` anywhere in `text`. */
  ghost predicate NoToken(text: string, marker: string) {
    forall i: nat :: !TokenAt(text, marker, i)
  }

  /** `i` is where `re.search` reports the pattern: a match with no match further left. */
  predicate FirstTokenAt(text: string, marker: string, i: nat) {
    TokenAt(text, marker, i) && forall j: nat | j < i :: !TokenAt(text, marker, j)
  }

  /** The end of the longest run of digits and dots starting at `j` (greedy `[\d.]+`). */
  function RunEnd(text: string, j: nat): (k: nat)
    requires j <= |text|
    ensures j <= k <= |text|
    ensures forall m | j <= m < k :: IsNumChar(text[m])
    ensures k == |text| || !IsNumChar(text[k])
    decreases |text| - j
  {
    if j == |text| || !IsNumChar(text[j]) then j else RunEnd(text, j + 1)
  }

  /** The captured group `([\d.]+)` of the match at `i`. */
  function TokenText(text: string, marker: string, i: nat): (tok: string)
    requires TokenAt(text, marker, i)
    ensures |tok| > 0 && forall m | 0 <= m < |tok| :: IsNumChar(tok[m])
  {
    var k := RunEnd(text, i + |marker|);
    text[i + |marker|..k]
  }

  /** The leftmost match at or after `from`. */
  function FindFrom(text: string, marker: string, from: nat): (r: Option<nat>)
    ensures r.None? ==> forall i: nat | from <= i :: !TokenAt(text, marker, i)
    ensures r.Some? ==> from <= r.value && TokenAt(text, marker, r.value)
    ensures r.Some? ==> forall i: nat | from <= i < r.value :: !TokenAt(text, marker, i)
    decreases |text| - from
  {
    if |text| <= from + |marker| then None
    else if TokenAt(text, marker, from) then Some(from)
    else FindFrom(text, marker, from + 1)
  }

  /** `re.search(marker + r'([\d.]+)', text)` followed by `.group(1)`. */
  function Search(text: string, marker: string): (r: Option<string>)
    ensures r.Some? ==> |r.value| > 0 && forall m | 0 <= m < |r.value| :: IsNumChar(r.value[m])
  {
    match FindFrom(text, marker, 0)
    case None => None
    case Some(i) => Some(TokenText(text, marker, i))
  }

  /** The search finds nothing exactly when no marker is followed by a digit or dot;
      otherwise its group is the maximal run after the leftmost such marker. */
  lemma SearchSpec(text: string, marker: string)
    ensures Search(text, marker).None? <==> NoToken(text, marker)
    ensures Search(text, marker).Some? ==>
              exists i: nat :: FirstTokenAt(text, marker, i) && Search(text, marker).value == TokenText(text, marker, i)
  {
    match FindFrom(text, marker, 0)
    case None =>
    case Some(i) =>
      assert FirstTokenAt(text, marker, i);
  }

  /** Lines 76-79: `max_freq` is the LP value when it lies strictly below the global
      bound and the global bound otherwise. */
  function LowPassBound(text: string, globalMax: real): Result<real> {
    match Search(text, "LP:")
    case None => Ok(globalMax)
    case Some(tok) =>
      match ParseDecimal(tok)
      case None => Err(BadFilterValue(tok))
      case Some(lp) => Ok(if lp < globalMax then lp else globalMax)
  }

  /** Lines 81-84: `min_freq` is the HP value when it lies strictly above the global
      bound and the global bound otherwise. */
  function HighPassBound(text: string, globalMin: real): Result<real> {
    match Search(text, "HP:")
    case None => Ok(globalMin)
    case Some(tok) =>
      match ParseDecimal(tok)
      case None => Err(BadFilterValue(tok))
      case Some(hp) => Ok(if hp > globalMin then hp else globalMin)
  }

  /** The recording-level bounds of lines 71-84: LP is read (and may fail) before HP. */
  function PrefilterBounds(text: string, sampleFreq: real): Result<Bounds> {
    var maxFreq :- LowPassBound(text, GlobalMaxFreq(sampleFreq));
    var minFreq :- HighPassBound(text, GlobalMinFreq);
    Ok(Bounds(minFreq, maxFreq))
  }

  lemma FirstTokenUnique(text: string, marker: string, i: nat, j: nat)
    requires FirstTokenAt(text, marker, i) && FirstTokenAt(text, marker, j)
    ensures i == j
  {
  }

  /** The upper bound: with no `LP:` token it is the Nyquist frequency; with one whose
      value `float()` accepts it is that value when strictly below Nyquist and Nyquist
      otherwise; with one `float()` rejects the whole extraction fails. */
  lemma LowPassBoundSpec(text: string, sampleFreq: real, i: nat)
    requires FirstTokenAt(text, "LP:", i) || NoToken(text, "LP:")
    ensures NoToken(text, "LP:") ==> LowPassBound(text, GlobalMaxFreq(sampleFreq)) == Ok(sampleFreq / 2.0)
    ensures FirstTokenAt(text, "LP:", i) ==>
              var tok := TokenText(text, "LP:", i);
              match ParseDecimal(tok)
              case None => PrefilterBounds(text, sampleFreq) == Err(BadFilterValue(tok))
              case Some(lp) => LowPassBound(text, GlobalMaxFreq(sampleFreq))
                                 == Ok(if lp < sampleFreq / 2.0 then lp else sampleFreq / 2.0)
  {
    SearchSpec(text, "LP:");
    if FirstTokenAt(text, "LP:", i) {
      var r := Search(text, "LP:");
      var j: nat :| FirstTokenAt(text, "LP:", j) && r.value == TokenText(text, "LP:", j);
      FirstTokenUnique(text, "LP:", i, j);
    }
  }

  /** The lower bound: with no `HP:` token it is 0; with one whose value `float()`
      accepts it is that value when strictly positive and 0 otherwise. */
  lemma HighPassBoundSpec(text: string, i: nat)
    requires FirstTokenAt(text, "HP:", i) || NoToken(text, "HP:")
    ensures NoToken(text, "HP:") ==> HighPassBound(text, GlobalMinFreq) == Ok(0.0)
    ensures FirstTokenAt(text, "HP:", i) ==>
              var tok := TokenText(text, "HP:", i);
              match ParseDecimal(tok)
              case None => HighPassBound(text, GlobalMinFreq) == Err(BadFilterValue(tok))
              case Some(hp) => HighPassBound(text, GlobalMinFreq) == Ok(if hp > 0.0 then hp else 0.0)
  {
    SearchSpec(text, "HP:");
    if FirstTokenAt(text, "HP:", i) {
      var r := Search(text, "HP:");
      var j: nat :| FirstTokenAt(text, "HP:", j) && r.value == TokenText(text, "HP:", j);
      FirstTokenUnique(text, "HP:", i, j);
    }
  }

  /** Whatever the text, successful bounds never loosen the global ones: the lower
      bound is at least 0 and the upper bound at most the Nyquist frequency. A text
      without either token yields exactly the global bounds. */
  lemma PrefilterBoundsWithinGlobal(text: string, sampleFreq: real)
    ensures PrefilterBounds(text, sampleFreq).Ok? ==>
              GlobalMinFreq <= PrefilterBounds(text, sampleFreq).value.minFreq
              && PrefilterBounds(text, sampleFreq).value.maxFreq <= GlobalMaxFreq(sampleFreq)
    ensures NoToken(text, "LP:") && NoToken(text, "HP:") ==>
              PrefilterBounds(text, sampleFreq) == Ok(Bounds(0.0, sampleFreq / 2.0))
  {
    SearchSpec(text, "LP:");
    SearchSpec(text, "HP:");
  }

  /** A text with no ':' holds no token of either kind. */
  lemma NoColonNoToken(text: string, marker: string)
    requires |marker| > 0 && marker[|marker| - 1] == ':'
    requires ':' !in text
    ensures NoToken(text, marker)
  {
  }

  const ExampleFilter: string := "HP:0.5Hz LP:35Hz"

  lemma SearchHighPassExample()
    ensures Search(ExampleFilter, "HP:") == Some("0.5")
  {
    var text := ExampleFilter;
    assert TokenAt(text, "HP:", 0);
    assert RunEnd(text, 3) == 6 by {
      assert IsNumChar(text[3]) && IsNumChar(text[4]) && IsNumChar(text[5]) && !IsNumChar(text[6]);
    }
    assert FindFrom(text, "HP:", 0) == Some(0);
    assert text[3..6] == "0.5";
  }

  lemma SearchLowPassExample()
    ensures Search(ExampleFilter, "LP:") == Some("35")
  {
    var text := ExampleFilter;
    assert TokenAt(text, "LP:", 9);
    forall j: nat | j < 9 ensures !TokenAt(text, "LP:", j) {
      assert text[j] != 'L';
      assert j + 3 <= |text| ==> text[j..j + 3][0] == text[j];
    }
    assert FindFrom(text, "LP:", 0) == Some(9);
    assert RunEnd(text, 12) == 14 by {
      assert IsNumChar(text[12]) && IsNumChar(text[13]) && !IsNumChar(text[14]);
    }
    assert text[12..14] == "35";
  }

  lemma ParseExamples()
    ensures ParseDecimal("0.5") == Some(0.5)
    ensures ParseDecimal("35") == Some(35.0)
  {
    assert DotIndex("0.5", 0) == 1;
    assert DotIndex("0.5", 2) == 3;
    assert DigitsValue("0") == 0 && DigitsValue("5") == 5;
    assert DigitsValue("35") == 35 by { assert DigitsValue("3") == 3; }
  }

  /** The usual Sleep-EDF description "HP:0.5Hz LP:35Hz" yields the range 0.5 to 35 Hz
      whenever the Nyquist frequency is at least 35 Hz. */
  lemma HighAndLowPassExample(sampleFreq: real)
    requires sampleFreq >= 70.0
    ensures PrefilterBounds(ExampleFilter, sampleFreq) == Ok(Bounds(0.5, 35.0))
  {
    SearchHighPassExample();
    SearchLowPassExample();
    ParseExamples();
  }

  /** A text without any token keeps the global bounds 0 and Nyquist. */
  lemma NoTokenExample(sampleFreq: real)
    ensures PrefilterBounds("[enhanced cassette BW]", sampleFreq) == Ok(Bounds(0.0, sampleFreq / 2.0))
  {
    NoColonNoToken("[enhanced cassette BW]", "LP:");
    NoColonNoToken("[enhanced cassette BW]", "HP:");
    PrefilterBoundsWithinGlobal("[enhanced cassette BW]", sampleFreq);
  }
}
