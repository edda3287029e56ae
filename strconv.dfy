/**
 * The parts of Go's `strconv` package that the keys client relies on: base-10
 * rendering of unsigned integers (`FormatUint(n, 10)`), base-10 parsing into a
 * 64-bit unsigned integer (`ParseUint(s, 10, 64)`) and `FormatBool`.
 * Both directions are proved against one reference definition, `ValueOf`,
 * the value of a string of decimal digits.
 */
module Strconv {
  import opened Wrappers

  const MaxUint64: nat := 0xFFFF_FFFF_FFFF_FFFF

  /** Go's `uint64`. */
  type Uint64 = x: int | 0 <= x <= MaxUint64

  predicate IsDigit(c: char) {
    '0' <= c <= '9'
  }

  function DigitValue(c: char): (d: nat)
    requires IsDigit(c)
    ensures d < 10
  {
    c as int - '0' as int
  }

  function DigitChar(d: nat): (c: char)
    requires d < 10
    ensures IsDigit(c) && DigitValue(c) == d
  {
    ('0' as int + d) as char
  }

  predicate AllDigits(s: string) {
    forall i :: 0 <= i < |s| ==> IsDigit(s[i])
  }

  /** A non-empty string of decimal digits. */
  predicate IsDecimal(s: string) {
    |s| > 0 && AllDigits(s)
  }

  /** The number a string of decimal digits denotes, most significant digit first. */
  function ValueOf(s: string): nat
    requires AllDigits(s)
  {
    if |s| == 0 then 0 else 10 * ValueOf(s[..|s| - 1]) + DigitValue(s[|s| - 1])
  }

  /** Canonical rendering: no leading zero except for "0" itself. */
  predicate IsCanonical(s: string) {
    |s| > 0 && (s[0] == '0' ==> s == "0")
  }

  /** `strconv.FormatUint(n, 10)`: the canonical decimal digits of `n`. */
  function FormatUint(n: nat): (s: string)
    ensures IsDecimal(s) && IsCanonical(s)
    ensures ValueOf(s) == n
  {
    if n < 10 then [DigitChar(n)]
    else
      var init := FormatUint(n / 10);
      var s := init + [DigitChar(n % 10)];
      assert s[..|s| - 1] == init;
      s
  }

  /** `strconv.FormatBool`. */
  function FormatBool(b: bool): (s: string)
    ensures s == "true" || s == "false"
    ensures s == "true" <==> b
  {
    if b then "true" else "false"
  }

  /** The two kinds of `*strconv.NumError` that `ParseUint` reports. */
  datatype NumError = ErrSyntax | ErrRange

  /** Go's cut-off: `n * 10` overflows a `uint64` exactly when `n >= Cutoff`. */
  const Cutoff: nat := MaxUint64 / 10 + 1

  /**
   * `strconv.ParseUint(s, 10, 64)`: the empty string is a syntax error; the
   * digits are consumed left to right and the first failure decides the error:
   * a character that is not a digit is a syntax error, and a value that no
   * longer fits in 64 bits is a range error.
   */
  function ParseUint(s: string): Result<Uint64, NumError> {
    if |s| == 0 then Err(ErrSyntax) else Accumulate(s, 0, 0)
  }

  /** The digit loop of `ParseUint`, from position `i` on with `n` read so far. */
  function Accumulate(s: string, i: nat, n: Uint64): Result<Uint64, NumError>
    requires i <= |s|
    decreases |s| - i
  {
    if i == |s| then Ok(n)
    else if !IsDigit(s[i]) then Err(ErrSyntax)
    else if n >= Cutoff then Err(ErrRange)
    else if n * 10 + DigitValue(s[i]) > MaxUint64 then Err(ErrRange)
    else Accumulate(s, i + 1, n * 10 + DigitValue(s[i]))
  }

  /** Adding a digit at the end of a prefix. */
  lemma ValueOfStep(s: string, i: nat)
    requires i < |s| && AllDigits(s[..i + 1])
    ensures AllDigits(s[..i]) && IsDigit(s[i])
    ensures ValueOf(s[..i + 1]) == 10 * ValueOf(s[..i]) + DigitValue(s[i])
  {
    assert s[..i + 1][..i] == s[..i];
    assert s[..i + 1][i] == s[i];
  }

  /** A prefix of a digit string never denotes more than the whole string. */
  lemma {:induction false} PrefixValueBounded(s: string, i: nat)
    requires AllDigits(s) && i <= |s|
    ensures ValueOf(s[..i]) <= ValueOf(s)
    decreases |s| - i
  {
    if i < |s| {
      assert AllDigits(s[..i + 1]) by {
        assert forall j :: 0 <= j < i + 1 ==> s[..i + 1][j] == s[j];
      }
      ValueOfStep(s, i);
      PrefixValueBounded(s, i + 1);
    } else {
      assert s[..i] == s;
    }
  }

  lemma {:induction false} AccumulateCorrect(s: string, i: nat, n: Uint64)
    requires i <= |s| && AllDigits(s[..i]) && n == ValueOf(s[..i])
    ensures Accumulate(s, i, n).Ok? <==> AllDigits(s) && ValueOf(s) <= MaxUint64
    ensures Accumulate(s, i, n).Ok? ==> Accumulate(s, i, n).value == ValueOf(s)
    ensures AllDigits(s) && ValueOf(s) > MaxUint64 ==> Accumulate(s, i, n) == Err(ErrRange)
    decreases |s| - i
  {
    if i == |s| {
      assert s[..i] == s;
    } else if !IsDigit(s[i]) {
    } else {
      assert AllDigits(s[..i + 1]) by {
        assert forall j :: 0 <= j < i + 1 ==> s[..i + 1][j] == s[j];
        assert forall j :: 0 <= j < i ==> s[..i][j] == s[j];
      }
      ValueOfStep(s, i);
      if AllDigits(s) {
        PrefixValueBounded(s, i + 1);
      }
      if n * 10 + DigitValue(s[i]) <= MaxUint64 {
        AccumulateCorrect(s, i + 1, n * 10 + DigitValue(s[i]));
      }
    }
  }

  /**
   * `ParseUint` accepts exactly the non-empty digit strings whose value fits
   * in 64 bits, and returns that value; a digit string that is too large is a
   * range error.
   */
  lemma ParseUintCorrect(s: string)
    ensures ParseUint(s).Ok? <==> IsDecimal(s) && ValueOf(s) <= MaxUint64
    ensures ParseUint(s).Ok? ==> ParseUint(s).value == ValueOf(s)
    ensures IsDecimal(s) && ValueOf(s) > MaxUint64 ==> ParseUint(s) == Err(ErrRange)
  {
    if |s| > 0 {
      assert s[..0] == [];
      AccumulateCorrect(s, 0, 0);
    }
  }

  /** Every 64-bit value survives rendering and parsing back. */
  lemma ParseFormatRoundTrip(n: Uint64)
    ensures ParseUint(FormatUint(n)) == Ok(n)
  {
    ParseUintCorrect(FormatUint(n));
  }

  /** Two canonical digit strings with the same value are the same string. */
  lemma {:induction false} CanonicalUnique(s: string, t: string)
    requires IsDecimal(s) && IsCanonical(s) && IsDecimal(t) && IsCanonical(t)
    requires ValueOf(s) == ValueOf(t)
    ensures s == t
    decreases |s| + |t|
  {
    if |s| == 1 && |t| == 1 {
    } else if |s| == 1 {
      LeadingDigitPositive(t);
    } else if |t| == 1 {
      LeadingDigitPositive(s);
    } else {
      var s', t' := s[..|s| - 1], t[..|t| - 1];
      assert s'[0] == s[0] && t'[0] == t[0];
      assert IsCanonical(s') && IsCanonical(t');
      CanonicalUnique(s', t');
      assert s == s' + [s[|s| - 1]] && t == t' + [t[|t| - 1]];
    }
  }

  /** A canonical digit string of two or more digits denotes at least 10. */
  lemma {:induction false} LeadingDigitPositive(s: string)
    requires IsDecimal(s) && IsCanonical(s) && |s| > 1
    ensures ValueOf(s) >= 10
    decreases |s|
  {
    var s' := s[..|s| - 1];
    assert s'[0] == s[0];
    if |s'| > 1 {
      LeadingDigitPositive(s');
    } else {
      assert s' == [s[0]];
      assert s[0] != '0' by {
        assert s != "0";
      }
    }
  }

  /** A canonical digit string that parses is exactly the rendering of its value. */
  lemma FormatParseRoundTrip(s: string)
    requires IsCanonical(s) && ParseUint(s).Ok?
    ensures FormatUint(ParseUint(s).value) == s
  {
    ParseUintCorrect(s);
    CanonicalUnique(FormatUint(ParseUint(s).value), s);
  }
}
