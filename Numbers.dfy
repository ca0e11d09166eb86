/**
 * Reading an integer out of a path segment, as `int.TryParse` and `Convert.ToInt32` do,
 * and writing one back, as `int.ToString` does. A number is an optional sign followed
 * by at least one decimal digit; `int.TryParse` fails and `Convert.ToInt32` throws when
 * the text is not such a number or its value does not fit in 32 bits.
 */
module Numbers {
  import opened Values

  const Int32Min: int := -0x8000_0000
  const Int32Max: int := 0x7FFF_FFFF

  predicate IsInt32(n: int) {
    Int32Min <= n <= Int32Max
  }

  predicate IsDigit(c: char) {
    '0' <= c <= '9'
  }

  predicate AllDigits(s: string) {
    forall i :: 0 <= i < |s| ==> IsDigit(s[i])
  }

  /** The value of a non-empty run of decimal digits, most significant first. */
  function DigitsValue(s: string): nat
    requires AllDigits(s)
  {
    if |s| == 0 then 0
    else DigitsValue(s[..|s| - 1]) * 10 + (s[|s| - 1] as int - '0' as int)
  }

  /** The value of the text as an optional sign followed by one or more digits, of any
      magnitude, or `None` when the text has another shape. */
  function ParseInteger(s: string): (r: Option<int>)
    ensures r.Some? <==> (
      || (|s| > 0 && AllDigits(s))
      || (|s| > 1 && (s[0] == '-' || s[0] == '+') && AllDigits(s[1..])))
  {
    if |s| > 0 && AllDigits(s) then Some(DigitsValue(s))
    else if |s| > 1 && s[0] == '-' && AllDigits(s[1..]) then Some(0 - DigitsValue(s[1..]) as int)
    else if |s| > 1 && s[0] == '+' && AllDigits(s[1..]) then Some(DigitsValue(s[1..]))
    else None
  }

  /** `int.TryParse(s, out n)`: `Some(n)` when it returns true. */
  function TryParseInt32(s: string): (r: Option<int>)
    ensures r.Some? ==> IsInt32(r.value)
  {
    match ParseInteger(s)
    case Some(n) => if IsInt32(n) then Some(n) else None
    case None => None
  }

  /** `Convert.ToInt32(s)`: a `FormatException` for text that is not a number, an
      `OverflowException` for a number outside 32 bits. */
  function ConvertToInt32(s: string): Result<int> {
    match ParseInteger(s)
    case None => Failure(FormatException)
    case Some(n) => if IsInt32(n) then Success(n) else Failure(OverflowException)
  }

  function DigitChar(d: nat): char
    requires d < 10
  {
    ('0' as int + d) as char
  }

  /** The decimal digits of a natural number, without leading zeros. */
  function FormatNat(n: nat): (s: string)
    ensures |s| > 0 && AllDigits(s)
    ensures s[0] == '0' ==> n == 0
  {
    if n < 10 then [DigitChar(n)] else FormatNat(n / 10) + [DigitChar(n % 10)]
  }

  /** `n.ToString()` in the invariant culture. */
  function FormatInt(n: int): string {
    if n < 0 then "-" + FormatNat(-n) else FormatNat(n)
  }

  // ---- properties ----

  lemma {:induction false} DigitsValueOfFormatNat(n: nat)
    ensures DigitsValue(FormatNat(n)) == n
  {
    var s := FormatNat(n);
    if n >= 10 {
      DigitsValueOfFormatNat(n / 10);
      assert s[..|s| - 1] == FormatNat(n / 10);
    }
  }

  /** Reading back a formatted integer gives the integer. */
  lemma ParseFormatInt(n: int)
    ensures ParseInteger(FormatInt(n)) == Some(n)
  {
    if n < 0 {
      assert FormatInt(n)[1..] == FormatNat(-n);
      DigitsValueOfFormatNat(-n);
    } else {
      DigitsValueOfFormatNat(n);
    }
  }

  /** `int.TryParse(n.ToString())` gives back every 32-bit integer, and nothing else is
      accepted. */
  lemma TryParseFormatInt(n: int)
    ensures TryParseInt32(FormatInt(n)) == if IsInt32(n) then Some(n) else None
  {
    ParseFormatInt(n);
  }

  /** `Convert.ToInt32` and `int.TryParse` accept the same texts with the same values;
      where `int.TryParse` fails, `Convert.ToInt32` throws. */
  lemma ConvertAgreesWithTryParse(s: string)
    ensures ConvertToInt32(s).Success? <==> TryParseInt32(s).Some?
    ensures ConvertToInt32(s).Success? ==> ConvertToInt32(s).value == TryParseInt32(s).value
    ensures ConvertToInt32(s).Failure? ==>
              ConvertToInt32(s).exception in {FormatException, OverflowException}
  {
  }

  /** Leading zeros and a plus sign are accepted: several texts name the same index. */
  lemma SeveralTextsForOneIndex()
    ensures TryParseInt32("1") == Some(1)
    ensures TryParseInt32("01") == Some(1)
    ensures TryParseInt32("+1") == Some(1)
  {
    assert "01"[..1] == "0";
    assert "+1"[1..] == "1";
  }

  /** Texts that are not numbers. */
  lemma NotNumbers()
    ensures TryParseInt32("-") == None
    ensures TryParseInt32("") == None
    ensures TryParseInt32("_") == None
    ensures TryParseInt32("blah") == None
    ensures TryParseInt32("1a") == None
  {
    assert !IsDigit("1a"[1]);
  }

  /** The smallest number just past the 32-bit range is rejected by `int.TryParse` and
      makes `Convert.ToInt32` throw an overflow. */
  lemma JustPastInt32()
    ensures ParseInteger("2147483648") == Some(2147483648)
    ensures TryParseInt32("2147483648") == None
    ensures ConvertToInt32("2147483648") == Failure(OverflowException)
  {
    var s := "2147483648";
    assert AllDigits(s);
    assert DigitsValue(s[..1]) == 2;
    assert DigitsValue(s[..2]) == 21 by { assert s[..2][..1] == s[..1]; }
    assert DigitsValue(s[..3]) == 214 by { assert s[..3][..2] == s[..2]; }
    assert DigitsValue(s[..4]) == 2147 by { assert s[..4][..3] == s[..3]; }
    assert DigitsValue(s[..5]) == 21474 by { assert s[..5][..4] == s[..4]; }
    assert DigitsValue(s[..6]) == 214748 by { assert s[..6][..5] == s[..5]; }
    assert DigitsValue(s[..7]) == 2147483 by { assert s[..7][..6] == s[..6]; }
    assert DigitsValue(s[..8]) == 21474836 by { assert s[..8][..7] == s[..7]; }
    assert DigitsValue(s[..9]) == 214748364 by { assert s[..9][..8] == s[..8]; }
    assert DigitsValue(s) == 2147483648 by { assert s[..9] == s[..|s| - 1]; }
  }
}
