/**
 The text-to-value conversions behind `RawConfigParser.getint`, `getfloat`
 and `getboolean` (Python 2), which the typed accessors of `ConfigWrapper`
 delegate to. Integers and booleans follow Python's rules; floats are
 limited to plain decimal notation.
 */
module ValueParse {
  import opened Results

  /** The `ValueError` each conversion raises on malformed text. */
  datatype ParseError = NotAnInteger(text: string) | NotAFloat(text: string) | NotABoolean(text: string)

  predicate IsDigit(c: char)
  {
    '0' <= c <= '9'
  }

  predicate AllDigits(s: string)
  {
    forall i :: 0 <= i < |s| ==> IsDigit(s[i])
  }

  function DigitValue(c: char): (d: nat)
    requires IsDigit(c)
    ensures d < 10
  {
    (c as int) - ('0' as int)
  }

  function DigitChar(d: nat): (c: char)
    requires d < 10
    ensures IsDigit(c) && DigitValue(c) == d
  {
    (('0' as int) + d) as char
  }

  /** The number a string of decimal digits denotes, most significant first. */
  function DigitsValue(s: string): nat
    requires AllDigits(s)
    decreases |s|
  {
    if |s| == 0 then 0 else DigitsValue(s[..|s| - 1]) * 10 + DigitValue(s[|s| - 1])
  }

  /** Python's `str(n)` for a natural number. */
  function NatToDigits(n: nat): (s: string)
    ensures |s| >= 1 && AllDigits(s)
    decreases n
  {
    if n < 10 then [DigitChar(n)] else NatToDigits(n / 10) + [DigitChar(n % 10)]
  }

  /** Python's `str(n)`: a minus sign for negative numbers, then the digits. */
  function IntToString(n: int): string
  {
    if n < 0 then "-" + NatToDigits(-n) else NatToDigits(n)
  }

  /** `int(s)`: an optional sign followed by one or more decimal digits. */
  function ParseInt(s: string): (r: Result<int, ParseError>)
    ensures r.Err? ==> r.error == NotAnInteger(s)
  {
    if |s| > 0 && (s[0] == '-' || s[0] == '+') then
      var digits := s[1..];
      if |digits| > 0 && AllDigits(digits) then
        Ok(if s[0] == '-' then -(DigitsValue(digits) as int) else DigitsValue(digits))
      else Err(NotAnInteger(s))
    else if |s| > 0 && AllDigits(s) then Ok(DigitsValue(s))
    else Err(NotAnInteger(s))
  }

  lemma {:induction false} DigitsRoundTrip(n: nat)
    ensures DigitsValue(NatToDigits(n)) == n
    decreases n
  {
    if n >= 10 {
      var s := NatToDigits(n);
      assert s[..|s| - 1] == NatToDigits(n / 10);
      DigitsRoundTrip(n / 10);
    }
  }

  /** Reading back what `str` wrote gives the same integer. */
  lemma IntRoundTrip(n: int)
    ensures ParseInt(IntToString(n)) == Ok(n)
  {
    if n < 0 {
      SignedRoundTrip(-n);
    } else {
      UnsignedRoundTrip(n);
    }
  }

  /** The digits `str` writes for a natural number carry no sign and read back as that number. */
  lemma UnsignedRoundTrip(n: nat)
    ensures ParseInt(NatToDigits(n)) == Ok(n)
  {
    DigitsRoundTrip(n);
    var s := NatToDigits(n);
    assert IsDigit(s[0]);
  }

  /** A minus sign before the digits of `m` reads back as `-m`. */
  lemma SignedRoundTrip(m: nat)
    ensures ParseInt("-" + NatToDigits(m)) == Ok(-(m as int))
  {
    var digits := NatToDigits(m);
    var s := "-" + digits;
    assert s[0] == '-' && s[1..] == digits;
    DigitsRoundTrip(m);
  }

  lemma ParseIntRejectsNonDigits(s: string)
    requires exists i :: 0 <= i < |s| && !IsDigit(s[i]) && s[i] != '-' && s[i] != '+'
    ensures ParseInt(s) == Err(NotAnInteger(s))
  {
    var i :| 0 <= i < |s| && !IsDigit(s[i]) && s[i] != '-' && s[i] != '+';
    if |s| > 0 && (s[0] == '-' || s[0] == '+') {
      assert s[1..][i - 1] == s[i];
    }
  }

  /** `s` is `sign` followed by `digits`: no sign, `-` or `+`, then one or more decimal digits. */
  predicate IntegerNumeral(s: string, sign: string, digits: string)
  {
    && (sign == "" || sign == "-" || sign == "+")
    && |digits| > 0 && AllDigits(digits)
    && s == sign + digits
  }

  /**
   `int(s)` succeeds exactly on an optional sign followed directly by one or
   more digits, and then yields the digits' value, negated after a `-`.
   */
  lemma ParseIntAccepts(s: string)
    ensures ParseInt(s).Ok? <==> exists sign, digits :: IntegerNumeral(s, sign, digits)
    ensures forall sign, digits :: IntegerNumeral(s, sign, digits) ==>
              ParseInt(s) == Ok(if sign == "-" then -(DigitsValue(digits) as int) else DigitsValue(digits))
  {
    if ParseInt(s).Ok? {
      if s[0] == '-' || s[0] == '+' {
        assert IntegerNumeral(s, s[..1], s[1..]);
      } else {
        assert IntegerNumeral(s, "", s);
      }
    }
    forall sign, digits | IntegerNumeral(s, sign, digits)
      ensures ParseInt(s) == Ok(if sign == "-" then -(DigitsValue(digits) as int) else DigitsValue(digits))
    {
      if sign == "" {
        assert s == digits && IsDigit(s[0]);
      } else {
        assert s[0] == sign[0] && s[1..] == digits;
      }
    }
  }

  /** `x` divided by ten `k` times: the value of `k` fractional digits read as an integer `x`. */
  function ShiftRight(x: real, k: nat): real
  {
    if k == 0 then x else ShiftRight(x, k - 1) / 10.0
  }

  /** Index of the first '.' in `s`, or `|s|` when there is none. */
  function DotIndex(s: string): (k: nat)
    ensures k <= |s|
    ensures k < |s| ==> s[k] == '.'
    ensures forall i :: 0 <= i < k ==> s[i] != '.'
    decreases |s|
  {
    if |s| == 0 then 0
    else if s[0] == '.' then 0
    else 1 + DotIndex(s[1..])
  }

  /** The value of an unsigned decimal `whole.fraction` numeral, if it is one. */
  function DecimalValue(s: string): (r: Result<real, ParseError>)
  {
    var k := DotIndex(s);
    var whole := s[..k];
    var fraction := if k < |s| then s[k + 1..] else "";
    if |whole| + |fraction| > 0 && AllDigits(whole) && AllDigits(fraction) then
      Ok(DigitsValue(whole) as real + ShiftRight(DigitsValue(fraction) as real, |fraction|))
    else Err(NotAFloat(s))
  }

  /** `float(s)` for decimal notation: an optional sign, digits, at most one point. */
  function ParseFloat(s: string): (r: Result<real, ParseError>)
    ensures r.Err? ==> r.error == NotAFloat(s)
  {
    var signed := |s| > 0 && (s[0] == '-' || s[0] == '+');
    var magnitude := DecimalValue(if signed then s[1..] else s);
    if magnitude.Err? then Err(NotAFloat(s))
    else if signed && s[0] == '-' then Ok(-magnitude.value)
    else Ok(magnitude.value)
  }

  lemma NoDotInDigits(s: string)
    requires AllDigits(s)
    ensures DotIndex(s) == |s|
  {
    if DotIndex(s) < |s| {
      assert s[DotIndex(s)] == '.';
    }
  }

  /** A plain digit string is a decimal numeral without a fraction. */
  lemma DecimalOfDigits(digits: string)
    requires |digits| > 0 && AllDigits(digits)
    ensures DecimalValue(digits) == Ok(DigitsValue(digits) as real)
  {
    NoDotInDigits(digits);
    assert digits[..DotIndex(digits)] == digits;
    assert ShiftRight(DigitsValue("") as real, 0) == 0.0;
  }

  /** An integer written by `str` reads back as the same number through `float`. */
  lemma FloatAgreesWithInt(n: int)
    ensures ParseFloat(IntToString(n)) == Ok(n as real)
  {
    if n < 0 {
      SignedFloat(-n);
    } else {
      UnsignedFloat(n);
    }
  }

  /** A minus sign before the digits of `m` reads back through `float` as `-m`. */
  lemma SignedFloat(m: nat)
    ensures ParseFloat("-" + NatToDigits(m)) == Ok(-(m as real))
  {
    var digits := NatToDigits(m);
    var s := "-" + digits;
    DecimalOfDigits(digits);
    DigitsRoundTrip(m);
    assert s[0] == '-' && s[1..] == digits;
    NegatedFloat(s, m as real);
  }

  /** The digits `str` writes for a natural number read back through `float` as that number. */
  lemma UnsignedFloat(m: nat)
    ensures ParseFloat(NatToDigits(m)) == Ok(m as real)
  {
    var digits := NatToDigits(m);
    DecimalOfDigits(digits);
    DigitsRoundTrip(m);
    assert IsDigit(digits[0]);
  }

  /** A leading minus sign negates the value `float` reads from the rest. */
  lemma NegatedFloat(s: string, v: real)
    requires |s| > 0 && s[0] == '-'
    requires DecimalValue(s[1..]) == Ok(v)
    ensures ParseFloat(s) == Ok(-v)
  {
  }

  /** ASCII lower-casing, as `str.lower` does for byte strings. */
  function LowerChar(c: char): (l: char)
    ensures !('A' <= l <= 'Z')
  {
    if 'A' <= c <= 'Z' then (c as int - 'A' as int + 'a' as int) as char else c
  }

  function Lower(s: string): (l: string)
    ensures |l| == |s|
    ensures forall i :: 0 <= i < |s| ==> l[i] == LowerChar(s[i])
  {
    seq(|s|, i requires 0 <= i < |s| => LowerChar(s[i]))
  }

  /** `RawConfigParser._boolean_states`: the eight accepted spellings. */
  const TrueWords: set<string> := {"1", "yes", "true", "on"}
  const FalseWords: set<string> := {"0", "no", "false", "off"}

  /** `getboolean`: look up the lower-cased text among the accepted words. */
  function ParseBool(s: string): (r: Result<bool, ParseError>)
    ensures r == Ok(true) <==> Lower(s) in TrueWords
    ensures r == Ok(false) <==> Lower(s) in FalseWords
    ensures r.Err? <==> Lower(s) !in TrueWords + FalseWords
  {
    var word := Lower(s);
    if word in TrueWords then Ok(true)
    else if word in FalseWords then Ok(false)
    else Err(NotABoolean(s))
  }

  lemma LowerIdempotent(s: string)
    ensures Lower(Lower(s)) == Lower(s)
  {
  }

  /** Letter case never changes how a boolean reads. */
  lemma ParseBoolIgnoresCase(s: string)
    ensures ParseBool(Lower(s)) == (match ParseBool(s)
                                    case Ok(b) => Ok(b)
                                    case Err(_) => Err(NotABoolean(Lower(s))))
  {
    LowerIdempotent(s);
  }

  /** Python's `str(b)` for a boolean. */
  function BoolToString(b: bool): string
  {
    if b then "True" else "False"
  }

  /** What `str` writes for a boolean reads back through `getboolean`. */
  lemma BoolRoundTrip(b: bool)
    ensures ParseBool(BoolToString(b)) == Ok(b)
  {
    if b {
      assert Lower("True") == "true";
    } else {
      assert Lower("False") == "false";
    }
  }
}
