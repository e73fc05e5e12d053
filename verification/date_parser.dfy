/** `DateParser`: strict parsing of the `dd-MM-yyyy` literal format
    (invariant culture, no white space allowed), as `DateOnly.TryParseExact` does it. */
module DateParser {
  import opened Wrappers
  import opened Text
  import opened Dates

  /** The only accepted layout. */
  const Pattern: string := "dd-MM-yyyy"

  /** The message of the `FormatException` raised for a rejected value. */
  function FormatError(fieldName: string): (msg: string)
    ensures msg == fieldName + " must be in " + Pattern + " format"
  {
    fieldName + " must be in dd-MM-yyyy format"
  }

  /** Two digits, '-', two digits, '-', four digits, and nothing else. */
  predicate HasShape(s: string) {
    && |s| == 10
    && IsDigit(s[0]) && IsDigit(s[1]) && s[2] == '-'
    && IsDigit(s[3]) && IsDigit(s[4]) && s[5] == '-'
    && IsDigit(s[6]) && IsDigit(s[7]) && IsDigit(s[8]) && IsDigit(s[9])
  }

  /** The shape is the pattern read literally: each letter of `dd-MM-yyyy`
      stands for one digit and each '-' for itself. */
  lemma ShapeFollowsPattern(s: string)
    ensures HasShape(s) <==>
      |s| == |Pattern| && forall i :: 0 <= i < |s| ==> if Pattern[i] == '-' then s[i] == '-' else IsDigit(s[i])
  {
  }

  function DigitValue(c: char): (n: nat)
    requires IsDigit(c)
    ensures n <= 9
  {
    c as int - '0' as int
  }

  function DigitChar(n: nat): (c: char)
    requires n <= 9
    ensures IsDigit(c) && DigitValue(c) == n
  {
    ('0' as int + n) as char
  }

  /** The day, month and year fields read from a well-shaped string. */
  function Fields(s: string): Date
    requires HasShape(s)
  {
    Date(
      1000 * DigitValue(s[6]) + 100 * DigitValue(s[7]) + 10 * DigitValue(s[8]) + DigitValue(s[9]),
      10 * DigitValue(s[3]) + DigitValue(s[4]),
      10 * DigitValue(s[0]) + DigitValue(s[1]))
  }

  /** `DateOnly.TryParseExact(value, "dd-MM-yyyy", InvariantCulture, None, out date)`:
      the date when `value` has the exact shape and names a real calendar day. */
  function TryParseExact(value: string): (r: Option<Date>)
    ensures r.Some? ==> IsValid(r.value)
    ensures r.Some? <==> HasShape(value) && IsValid(Fields(value))
  {
    if HasShape(value) && IsValid(Fields(value)) then Some(Fields(value)) else None
  }

  /** `DateParser.ParseRequired`: no blank shortcut, any rejected value raises
      the format error naming `fieldName`. */
  function ParseRequired(value: string, fieldName: string): (r: Result<Date, string>)
    ensures r.Success? ==> IsValid(r.value) && Format(r.value) == value
    ensures r.Failure? ==> r.error == FormatError(fieldName)
    ensures |value| != |Pattern| ==> r.Failure?
  {
    match TryParseExact(value)
    case Some(d) =>
      FieldsFormat(value);
      Success(d)
    case None => Failure(FormatError(fieldName))
  }

  /** `DateParser.ParseOptional`: null or white space yields no date and no error;
      anything else is parsed exactly as `ParseRequired` parses it. */
  function ParseOptional(value: Option<string>, fieldName: string): (r: Result<Option<Date>, string>)
    ensures IsBlank(value) ==> r == Success(None)
    ensures !IsBlank(value) ==>
      match ParseRequired(value.value, fieldName)
      case Success(d) => r == Success(Some(d))
      case Failure(e) => r == Failure(e)
  {
    if IsBlank(value) then Success(None)
    else match TryParseExact(value.value)
      case Some(d) => Success(Some(d))
      case None => Failure(FormatError(fieldName))
  }

  /** Renders a date in the `dd-MM-yyyy` layout: the inverse of the parser. */
  function Format(d: Date): (s: string)
    requires IsValid(d)
    ensures HasShape(s)
  {
    [DigitChar(d.day / 10), DigitChar(d.day % 10), '-',
     DigitChar(d.month / 10), DigitChar(d.month % 10), '-',
     DigitChar(d.year / 1000), DigitChar(d.year / 100 % 10),
     DigitChar(d.year / 10 % 10), DigitChar(d.year % 10)]
  }

  // ---------------------------------------------------------------------------
  // Digit arithmetic: helpers for the round-trip proofs below

  lemma TwoDigits(a: nat, b: nat)
    requires a <= 9 && b <= 9
    ensures (10 * a + b) / 10 == a && (10 * a + b) % 10 == b
  {
  }

  lemma DivMod10(q: nat, r: nat)
    requires r < 10
    ensures (10 * q + r) / 10 == q && (10 * q + r) % 10 == r
  {
  }

  lemma DivMod100(q: nat, r: nat)
    requires r < 100
    ensures (100 * q + r) / 100 == q
  {
  }

  lemma DivMod1000(q: nat, r: nat)
    requires r < 1000
    ensures (1000 * q + r) / 1000 == q
  {
  }

  lemma FourDigits(a: nat, b: nat, c: nat, d: nat)
    requires a <= 9 && b <= 9 && c <= 9 && d <= 9
    ensures var n := 1000 * a + 100 * b + 10 * c + d;
      n / 1000 == a && n / 100 % 10 == b && n / 10 % 10 == c && n % 10 == d
  {
    var n := 1000 * a + 100 * b + 10 * c + d;
    DivMod10(100 * a + 10 * b + c, d);
    DivMod10(10 * a + b, c);
    DivMod10(a, b);
    DivMod100(10 * a + b, 10 * c + d);
    DivMod1000(a, 100 * b + 10 * c + d);
  }

  lemma SplitDigits(n: nat)
    requires n <= 9999
    ensures 1000 * (n / 1000) + 100 * (n / 100 % 10) + 10 * (n / 10 % 10) + n % 10 == n
    ensures 10 * (n / 10 % 10) + n % 10 == n % 100
  {
    assert n == 10 * (n / 10) + n % 10;
    assert n / 10 / 10 == n / 100;
    assert n / 10 == 10 * (n / 100) + n / 10 % 10;
    assert n / 100 / 10 == n / 1000;
    assert n / 100 == 10 * (n / 1000) + n / 100 % 10;
  }

  lemma DigitRoundTrip(c: char)
    requires IsDigit(c)
    ensures DigitChar(DigitValue(c)) == c
  {
  }

  /** A well-shaped string naming a valid date is exactly that date's rendering. */
  lemma FieldsFormat(s: string)
    requires HasShape(s) && IsValid(Fields(s))
    ensures Format(Fields(s)) == s
  {
    var d := Fields(s);
    TwoDigits(DigitValue(s[0]), DigitValue(s[1]));
    TwoDigits(DigitValue(s[3]), DigitValue(s[4]));
    FourDigits(DigitValue(s[6]), DigitValue(s[7]), DigitValue(s[8]), DigitValue(s[9]));
    forall i | 0 <= i < 10 && i != 2 && i != 5
      ensures DigitChar(DigitValue(s[i])) == s[i]
    {
      DigitRoundTrip(s[i]);
    }
  }

  /** Round trip: rendering a valid date and parsing it back yields the same date. */
  lemma FormatThenParse(d: Date, fieldName: string)
    requires IsValid(d)
    ensures ParseRequired(Format(d), fieldName) == Success(d)
  {
    var s := Format(d);
    assert Fields(s).day == d.day by {
      assert DigitValue(s[0]) == d.day / 10 && DigitValue(s[1]) == d.day % 10;
    }
    assert Fields(s).month == d.month by {
      assert DigitValue(s[3]) == d.month / 10 && DigitValue(s[4]) == d.month % 10;
    }
    assert Fields(s).year == d.year by {
      assert DigitValue(s[6]) == d.year / 1000;
      assert DigitValue(s[7]) == d.year / 100 % 10;
      assert DigitValue(s[8]) == d.year / 10 % 10;
      assert DigitValue(s[9]) == d.year % 10;
      SplitDigits(d.year);
    }
    assert TryParseExact(s) == Some(d);
  }

  /** Parsing succeeds exactly on the renderings of valid calendar dates. */
  lemma ParseSucceedsIff(value: string, fieldName: string)
    ensures ParseRequired(value, fieldName).Success? <==>
      exists d :: IsValid(d) && Format(d) == value
  {
    if exists d :: IsValid(d) && Format(d) == value {
      var d :| IsValid(d) && Format(d) == value;
      FormatThenParse(d, fieldName);
    }
  }

  /** `ParseRequired` has no blank shortcut: the empty string is rejected. */
  lemma EmptyIsRejected(fieldName: string)
    ensures ParseRequired("", fieldName) == Failure(FormatError(fieldName))
  {
  }
}
