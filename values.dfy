/** Python values as the record sees them: the few built-in types its
    arguments can have, `str()` coercion of those values, and the zero-padded
    decimal fields (`%02d`, `%04d`) that datetime formatting is made of. */
module Values {

  datatype Option<+T> = None | Some(value: T)

  datatype Result<+T, +E> = Success(value: T) | Failure(error: E)

  /** A `datetime.timezone`: a fixed offset from UTC, in whole seconds east of UTC. */
  datatype TzInfo = FixedOffset(seconds: int)

  /** A `datetime.datetime`. It is zone-naive when `tzinfo` is `None`. */
  datatype DateTime = DateTime(
    year: nat, month: nat, day: nat,
    hour: nat, minute: nat, second: nat, microsecond: nat,
    tzinfo: Option<TzInfo>)
  {
    /** The ranges the `datetime` constructor enforces on its fields. */
    predicate WellFormed() {
      1 <= year <= 9999 && 1 <= month <= 12 && 1 <= day <= DaysInMonth(year, month) &&
      hour < 24 && minute < 60 && second < 60 && microsecond < 1000000 &&
      (tzinfo.Some? ==> -86400 < tzinfo.value.seconds < 86400)
    }

    predicate IsNaive() { tzinfo.None? }
  }

  /** The values a caller can hand to the record's constructor and setters. */
  datatype PyValue =
    | Str(s: string)
    | Int(i: int)
    | Bool(b: bool)
    | NoneValue
    | DateTimeValue(dt: DateTime)

  predicate IsLeapYear(y: nat) {
    y % 4 == 0 && (y % 100 != 0 || y % 400 == 0)
  }

  function DaysInMonth(y: nat, m: nat): nat {
    if m == 2 then (if IsLeapYear(y) then 29 else 28)
    else if m == 4 || m == 6 || m == 9 || m == 11 then 30
    else 31
  }

  // ---------------------------------------------------------------------
  // Decimal digits
  // ---------------------------------------------------------------------

  predicate IsDigit(c: char) { '0' <= c <= '9' }

  predicate AllDigits(s: string) { forall i :: 0 <= i < |s| ==> IsDigit(s[i]) }

  function DigitChar(d: nat): (c: char)
    requires d < 10
    ensures IsDigit(c) && DigitValue(c) == d
  {
    ('0' as int + d) as char
  }

  function DigitValue(c: char): nat
    requires IsDigit(c)
  {
    c as int - '0' as int
  }

  function Pow10(k: nat): (r: nat)
    ensures r >= 1
  {
    if k == 0 then 1 else 10 * Pow10(k - 1)
  }

  /** The shortest decimal numeral of `n`, as `str(n)` writes a non-negative int. */
  function Digits(n: nat): (r: string)
    ensures |r| >= 1 && AllDigits(r)
    decreases n
  {
    if n < 10 then [DigitChar(n)] else Digits(n / 10) + [DigitChar(n % 10)]
  }

  /** The number a string of decimal digits denotes (leading zeros allowed). */
  function DecimalValue(s: string): nat
    requires AllDigits(s)
  {
    if s == [] then 0 else 10 * DecimalValue(s[..|s| - 1]) + DigitValue(s[|s| - 1])
  }

  function Zeros(k: nat): (r: string)
    ensures |r| == k && AllDigits(r)
  {
    if k == 0 then [] else Zeros(k - 1) + ['0']
  }

  /** `"%0*d" % (width, n)`: the numeral of `n`, left-padded with zeros to at
      least `width` characters; a wider numeral is kept whole. */
  function PadZero(n: nat, width: nat): (r: string)
    ensures AllDigits(r) && |r| >= width
    ensures |r| == if |Digits(n)| < width then width else |Digits(n)|
  {
    var d := Digits(n);
    if |d| < width then Zeros(width - |d|) + d else d
  }

  /** `str(i)` for a Python int: an optional minus sign and the numeral. */
  function IntText(i: int): string {
    if i < 0 then "-" + Digits(-i) else Digits(i)
  }

  /** The inverse reading of `IntText`. */
  function ParseInt(s: string): Option<int> {
    if |s| >= 2 && s[0] == '-' && AllDigits(s[1..]) then Some(-(DecimalValue(s[1..]) as int))
    else if |s| >= 1 && AllDigits(s) then Some(DecimalValue(s))
    else None
  }

  lemma {:induction false} DigitsRoundTrip(n: nat)
    ensures DecimalValue(Digits(n)) == n
    decreases n
  {
    var d := Digits(n);
    if n >= 10 {
      DigitsRoundTrip(n / 10);
      assert d[..|d| - 1] == Digits(n / 10);
    }
  }

  /** A numeral of `n` needs no more than `k` digits when `n < 10^k`. */
  lemma {:induction false} DigitsFit(n: nat, k: nat)
    requires k >= 1 && n < Pow10(k)
    ensures |Digits(n)| <= k
    decreases n
  {
    if n >= 10 {
      assert k >= 2;
      DigitsFit(n / 10, k - 1);
    }
  }

  lemma {:induction false} LeadingZerosIgnored(k: nat, s: string)
    requires AllDigits(s)
    ensures AllDigits(Zeros(k) + s) && DecimalValue(Zeros(k) + s) == DecimalValue(s)
    decreases |s|, k
  {
    var z := Zeros(k) + s;
    if s == [] {
      assert z == Zeros(k);
      if k > 0 {
        assert z[..|z| - 1] == Zeros(k - 1) + [];
        LeadingZerosIgnored(k - 1, []);
      }
    } else {
      var init := s[..|s| - 1];
      assert z[..|z| - 1] == Zeros(k) + init;
      LeadingZerosIgnored(k, init);
    }
  }

  /** Zero padding never changes the number a field denotes. */
  lemma PadZeroRoundTrip(n: nat, width: nat)
    ensures DecimalValue(PadZero(n, width)) == n
  {
    var d := Digits(n);
    DigitsRoundTrip(n);
    if |d| < width {
      assert PadZero(n, width) == Zeros(width - |d|) + d;
      LeadingZerosIgnored(width - |d|, d);
    } else {
      assert PadZero(n, width) == d;
    }
  }

  /** A field whose number fits its width takes exactly that width. */
  lemma PadZeroExactWidth(n: nat, width: nat)
    requires width >= 1 && n < Pow10(width)
    ensures |PadZero(n, width)| == width
  {
    DigitsFit(n, width);
  }

  lemma IntTextRoundTrip(i: int)
    ensures ParseInt(IntText(i)) == Some(i)
  {
    if i < 0 {
      var d := Digits(-i);
      var s := "-" + d;
      assert s == IntText(i);
      assert s[1..] == d;
      DigitsRoundTrip(-i);
      assert ParseInt(s) == Some(-(DecimalValue(d) as int));
    } else {
      var d := Digits(i);
      assert d == IntText(i);
      assert IsDigit(d[0]);
      DigitsRoundTrip(i);
      assert ParseInt(d) == Some(DecimalValue(d));
    }
  }

  // ---------------------------------------------------------------------
  // Text forms of datetimes and of values
  // ---------------------------------------------------------------------

  /** `YYYY-MM-DD` of `isoformat`. */
  function DateText(dt: DateTime): string {
    PadZero(dt.year, 4) + "-" + PadZero(dt.month, 2) + "-" + PadZero(dt.day, 2)
  }

  /** `HH:MM:SS` of `isoformat(timespec="seconds")`. */
  function TimeText(dt: DateTime): string {
    PadZero(dt.hour, 2) + ":" + PadZero(dt.minute, 2) + ":" + PadZero(dt.second, 2)
  }

  /** The `+HH:MM[:SS]` suffix `isoformat` gives an aware datetime; empty when naive. */
  function OffsetText(tz: Option<TzInfo>): string {
    match tz
    case None => ""
    case Some(FixedOffset(off)) =>
      var sign := if off < 0 then "-" else "+";
      var a: nat := if off < 0 then -off else off;
      sign + PadZero(a / 3600, 2) + ":" + PadZero(a % 3600 / 60, 2) +
      (if a % 60 != 0 then ":" + PadZero(a % 60, 2) else "")
  }

  /** `str(dt)`, that is `dt.isoformat(sep=" ")`: sub-seconds appear only when
      non-zero, the offset only when the datetime is aware. */
  function DateTimeText(dt: DateTime): string {
    DateText(dt) + " " + TimeText(dt) +
    (if dt.microsecond != 0 then "." + PadZero(dt.microsecond, 6) else "") +
    OffsetText(dt.tzinfo)
  }

  /** `str(value)`: the coercion the record applies to its two text fields. */
  function ToText(v: PyValue): (r: string)
    ensures v.Str? ==> r == v.s
    ensures v.Int? ==> ParseInt(r) == Some(v.i)
    ensures v.Bool? ==> r == (if v.b then "True" else "False")
  {
    match v
    case Str(s) => s
    case Int(i) => IntTextRoundTrip(i); IntText(i)
    case Bool(b) => if b then "True" else "False"
    case NoneValue => "None"
    case DateTimeValue(dt) => DateTimeText(dt)
  }
}
