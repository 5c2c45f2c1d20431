/** The string operations the preprocessing relies on, written out as Python performs
    them on the characters that occur in EDF file names and prefilter texts:
    substring tests, clamped slicing, `int(...)`, `float(...)` on a digits-and-dots
    token, and upper-casing of one letter. */
module Text {
  import opened Base

  predicate IsDigit(c: char) { '0' <= c <= '9' }

  /** A character matched by the regular-expression class `[\d.]`. */
  predicate IsNumChar(c: char) { IsDigit(c) || c == '.' }

  /** The whitespace Python's `int()` strips around its argument. */
  predicate IsSpace(c: char) {
    c == ' ' || c == '\t' || c == '\n' || c == '\r' || c as int == 11 || c as int == 12
  }

  predicate AllDigits(s: string) { forall i | 0 <= i < |s| :: IsDigit(s[i]) }

  function DigitValue(c: char): (d: nat)
    requires IsDigit(c)
    ensures d < 10
  {
    c as int - '0' as int
  }

  function Pow10(n: nat): (p: nat)
    ensures p >= 1
  {
    if n == 0 then 1 else 10 * Pow10(n - 1)
  }

  /** The value of a string of decimal digits, most significant first. */
  function DigitsValue(s: string): (v: nat)
    requires AllDigits(s)
    ensures v < Pow10(|s|)
  {
    if s == [] then 0 else DigitsValue(s[..|s| - 1]) * 10 + DigitValue(s[|s| - 1])
  }

  /** `sub` occurs in `s` starting at index `i`. */
  predicate OccursAt(s: string, sub: string, i: nat) {
    i + |sub| <= |s| && s[i..i + |sub|] == sub
  }

  /** Python's `sub in s`. */
  predicate Contains(s: string, sub: string) {
    exists i: nat | i <= |s| :: OccursAt(s, sub, i)
  }

  /** Python's `s[lo:hi]` for non-negative bounds: both ends are clamped to the length. */
  function Slice(s: string, lo: nat, hi: nat): (r: string)
    requires lo <= hi
    ensures |r| == (if hi <= |s| then hi - lo else if lo <= |s| then |s| - lo else 0)
    ensures forall i | 0 <= i < |r| :: r[i] == s[lo + i]
  {
    if |s| <= lo then [] else if |s| <= hi then s[lo..] else s[lo..hi]
  }

  /** Python's `c.upper()` on one character, for the ASCII letters. */
  function Upper(c: char): (u: char)
    ensures 'a' <= c <= 'z' ==> 'A' <= u <= 'Z' && u as int == c as int - 32
    ensures !('a' <= c <= 'z') ==> u == c
  {
    if 'a' <= c <= 'z' then (c as int - 32) as char else c
  }

  function StripStart(s: string): (r: string)
    ensures |r| <= |s|
    ensures r == [] || !IsSpace(r[0])
  {
    if |s| > 0 && IsSpace(s[0]) then StripStart(s[1..]) else s
  }

  function StripEnd(s: string): (r: string)
    ensures |r| <= |s|
    ensures r == [] || !IsSpace(r[|r| - 1])
  {
    if |s| > 0 && IsSpace(s[|s| - 1]) then StripEnd(s[..|s| - 1]) else s
  }

  /** Digits with single underscores between them, the body of a Python integer literal. */
  predicate IsDigitGroups(s: string) {
    && |s| > 0
    && IsDigit(s[0]) && IsDigit(s[|s| - 1])
    && (forall i | 0 <= i < |s| :: IsDigit(s[i]) || s[i] == '_')
    && (forall i | 0 <= i < |s| - 1 :: !(s[i] == '_' && s[i + 1] == '_'))
  }

  function DropUnderscores(s: string): (r: string)
    ensures (forall i | 0 <= i < |s| :: IsDigit(s[i]) || s[i] == '_') ==> AllDigits(r)
    ensures AllDigits(s) ==> r == s
  {
    if s == [] then []
    else if s[0] == '_' then DropUnderscores(s[1..])
    else [s[0]] + DropUnderscores(s[1..])
  }

  /** The value of a run of digit groups, None when `body` is not one; a plain run
      of digits has its decimal value. */
  function GroupsValue(body: string): (v: Option<nat>)
    ensures v.Some? <==> IsDigitGroups(body)
    ensures body != [] && AllDigits(body) ==> v == Some(DigitsValue(body))
  {
    if IsDigitGroups(body) then Some(DigitsValue(DropUnderscores(body))) else None
  }

  /** Python's `int(s)` on a string: surrounding whitespace, an optional sign, then
      digits with single underscores between them; None where Python raises ValueError. */
  function PyInt(s: string): Option<int> {
    var t := StripEnd(StripStart(s));
    if |t| > 0 && (t[0] == '+' || t[0] == '-') then
      match GroupsValue(t[1..])
      case None => None
      case Some(v) => var n: int := v; Some(if t[0] == '-' then -n else n)
    else
      match GroupsValue(t)
      case None => None
      case Some(v) => Some(v)
  }

  lemma {:induction false} NoSpaceInDigits(s: string)
    requires AllDigits(s)
    ensures StripEnd(StripStart(s)) == s
  {
    if |s| > 0 {
      assert !IsSpace(s[0]);
      assert !IsSpace(s[|s| - 1]);
    }
  }

  /** On a plain run of digits, such as the subject code "001" of "SC4001E0-PSG.edf",
      `int()` yields its decimal value. */
  lemma PyIntOfDigits(s: string)
    requires |s| > 0 && AllDigits(s)
    ensures PyInt(s) == Some(DigitsValue(s))
  {
    NoSpaceInDigits(s);
    assert IsDigit(s[0]);
    assert GroupsValue(s) == Some(DigitsValue(s));
    var t := StripEnd(StripStart(s));
    assert t == s && !(t[0] == '+' || t[0] == '-');
  }

  /** Python's `float(tok)` on a token of digits and dots, as the pattern `[\d.]+`
      matches it: at most one dot and at least one digit ("35", "0.5", "1.", ".5");
      None for "." or "1.2.3", which Python rejects with ValueError. */
  function ParseDecimal(tok: string): Option<real>
    requires forall i | 0 <= i < |tok| :: IsNumChar(tok[i])
  {
    var k := DotIndex(tok, 0);
    if k == |tok| then
      assert AllDigits(tok) by {
        forall i | 0 <= i < |tok| ensures IsDigit(tok[i]) { assert IsNumChar(tok[i]) && tok[i] != '.'; }
      }
      if tok == [] then None else Some(DigitsValue(tok) as real)
    else
      var k2 := DotIndex(tok, k + 1);
      if k2 < |tok| then
        None
      else if |tok| == 1 then
        None
      else
        var whole, frac := tok[..k], tok[k + 1..];
        assert AllDigits(whole) by {
          forall i | 0 <= i < |whole| ensures IsDigit(whole[i]) { assert IsNumChar(tok[i]) && whole[i] == tok[i] != '.'; }
        }
        assert AllDigits(frac) by {
          forall i | 0 <= i < |frac| ensures IsDigit(frac[i]) { assert IsNumChar(tok[k + 1 + i]) && frac[i] == tok[k + 1 + i] != '.'; }
        }
        Some(DecimalValue(DigitsValue(whole), DigitsValue(frac), |frac|))
  }

  lemma ProductSign(q: real, scale: real)
    requires scale > 0.0
    ensures q < 0.0 ==> q * scale < 0.0
    ensures q >= 1.0 ==> q * scale >= scale
  {
  }

  lemma QuotientBelowOne(x: real, scale: real)
    requires 0.0 <= x < scale
    ensures 0.0 <= x / scale < 1.0
  {
    var q := x / scale;
    assert q * scale == x;
    ProductSign(q, scale);
  }

  /** The number `whole.frac` where `frac` has `digits` decimal digits: at least the
      whole part and less than one more. */
  function DecimalValue(whole: nat, frac: nat, digits: nat): (r: real)
    requires frac < Pow10(digits)
    ensures whole as real <= r < whole as real + 1.0
  {
    QuotientBelowOne(frac as real, Pow10(digits) as real);
    whole as real + frac as real / Pow10(digits) as real
  }

  /** `float()` accepts a `[\d.]+` token exactly when it has a digit and no second
      dot. */
  lemma ParseDecimalAccepts(tok: string)
    requires forall i | 0 <= i < |tok| :: IsNumChar(tok[i])
    ensures ParseDecimal(tok).Some? <==> (exists i | 0 <= i < |tok| :: IsDigit(tok[i]))
                                         && (forall i, j | 0 <= i < j < |tok| :: !(tok[i] == '.' && tok[j] == '.'))
  {
    var k := DotIndex(tok, 0);
    if k == |tok| {
      if tok != [] {
        assert IsNumChar(tok[0]) && tok[0] != '.';
      }
    } else {
      var k2 := DotIndex(tok, k + 1);
      if k2 < |tok| {
        assert tok[k] == '.' && tok[k2] == '.';
      } else if |tok| == 1 {
        assert tok[0] == '.';
      } else if k > 0 {
        assert IsNumChar(tok[0]) && tok[0] != '.';
      } else {
        assert IsNumChar(tok[1]) && tok[1] != '.';
      }
    }
  }

  /** An accepted token never reads as a negative number, and a token of digits only
      reads as the integer it spells. */
  lemma ParseDecimalValue(tok: string)
    requires forall i | 0 <= i < |tok| :: IsNumChar(tok[i])
    ensures ParseDecimal(tok).Some? ==> ParseDecimal(tok).value >= 0.0
    ensures AllDigits(tok) && |tok| > 0 ==> ParseDecimal(tok) == Some(DigitsValue(tok) as real)
  {
    var k := DotIndex(tok, 0);
    if k < |tok| {
      assert tok[k] == '.';
      assert !AllDigits(tok);
      var k2 := DotIndex(tok, k + 1);
    }
  }

  /** The index of the first '.' at or after `from`, or the length when there is none. */
  function DotIndex(s: string, from: nat): (k: nat)
    requires from <= |s|
    ensures from <= k <= |s|
    ensures forall i | from <= i < k :: s[i] != '.'
    ensures k < |s| ==> s[k] == '.'
    decreases |s| - from
  {
    if from == |s| || s[from] == '.' then from else DotIndex(s, from + 1)
  }
}
