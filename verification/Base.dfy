/** Shared vocabulary of the preprocessing model: optional values, results that carry
    the error the Python code would raise, and the maximum of two frequencies. */
module Base {

  datatype Option<+T> = None | Some(value: T)

  /** Every way the preprocessing can stop with an exception instead of producing a table.
      Each constructor names the input that provokes it. */
  datatype Error =
    | MissingFile(name: string)            // a subject table, listing or EDF file the reader cannot find
    | EmptyStudyName                       // `study_name[0]` on the empty string (IndexError)
    | BadSubjectCode(name: string)         // `int(s[3:6])` rejects the characters (ValueError)
    | ColumnLengthMismatch(column: string) // a filename column whose length differs from the table's
    | ShortHypnogramName(name: string)     // `s[7]` past the end of a hypnogram name (IndexError)
    | BadFilterValue(token: string)        // `float(...)` rejects an LP/HP token such as "1.2.3" (ValueError)
    | ZeroDuration(onset: real)            // `SAMPLE_FREQ/int(duration)` with int(duration) == 0 (ZeroDivisionError)
    | EmptyStageText(onset: real)          // `annotation[-1][-1]` on an empty stage text (IndexError)
    | UndefinedName(name: string)          // a name the function reads but nothing defines (NameError)

  datatype Result<+T> = Ok(value: T) | Err(error: Error) {
    predicate IsFailure() { Err? }

    function PropagateFailure<U>(): Result<U>
      requires Err?
    {
      Err(error)
    }

    function Extract(): T
      requires Ok?
    {
      value
    }
  }

  /** Python's `max(a, b)` on two frequencies. */
  function Max(a: real, b: real): (m: real)
    ensures a <= m && b <= m
    ensures m == a || m == b
  {
    if b > a then b else a
  }

  /** Python's `int(x)` on a float: truncation toward zero, that is the floor, moved
      up by one for a negative number that is not an integer. */
  function Trunc(x: real): int
  {
    if x < 0.0 && x != x.Floor as real then x.Floor + 1 else x.Floor
  }

  /** `Trunc` rounds toward zero: it never moves away from zero and stays within 1
      of its argument. */
  lemma TruncSpec(x: real)
    ensures x >= 0.0 ==> 0 <= Trunc(x) && Trunc(x) as real <= x < Trunc(x) as real + 1.0
    ensures x < 0.0 ==> Trunc(x) <= 0 && Trunc(x) as real - 1.0 < x <= Trunc(x) as real
  {
  }
}
