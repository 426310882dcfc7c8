/** Timestamp normalisation of `ApplicationRecord._to_iso_utc`: a string is
    kept verbatim, a datetime is brought to UTC and written to the second as
    `YYYY-MM-DDTHH:MM:SSZ`, and anything else is a `TypeError`. */
module Timestamps {
  import opened Values

  /** Python's `TypeError`, with its message. */
  datatype TypeError = TypeError(message: string)

  const TimestampTypeMessage: string := "timestamp must be a datetime or ISO8601 string"

  /** `dt.astimezone(datetime.timezone.utc)` for an aware `dt`. Its calendar
      arithmetic belongs to the standard library, so it is supplied from outside. */
  type UtcConversion = DateTime -> DateTime

  /** A civil date and time to the whole second: what the canonical text records. */
  datatype CivilSecond = CivilSecond(year: nat, month: nat, day: nat, hour: nat, minute: nat, second: nat)

  /** The part of a datetime the canonical text keeps: no sub-seconds, no zone. */
  function Truncated(dt: DateTime): CivilSecond {
    CivilSecond(dt.year, dt.month, dt.day, dt.hour, dt.minute, dt.second)
  }

  predicate InCanonicalAlphabet(c: char) {
    IsDigit(c) || c == '-' || c == 'T' || c == ':' || c == 'Z'
  }

  predicate AllInCanonicalAlphabet(s: string) {
    forall i :: 0 <= i < |s| ==> InCanonicalAlphabet(s[i])
  }

  lemma AlphabetConcat(a: string, b: string)
    requires AllInCanonicalAlphabet(a) && AllInCanonicalAlphabet(b)
    ensures AllInCanonicalAlphabet(a + b)
  {
    forall i | 0 <= i < |a + b|
      ensures InCanonicalAlphabet((a + b)[i])
    {
      if i < |a| { assert (a + b)[i] == a[i]; } else { assert (a + b)[i] == b[i - |a|]; }
    }
  }

  lemma DigitsInAlphabet(s: string)
    requires AllDigits(s)
    ensures AllInCanonicalAlphabet(s)
  {
  }

  /** `dt.replace(tzinfo=None).isoformat(timespec="seconds") + "Z"`. */
  function CanonicalText(dt: DateTime): (r: string)
    ensures |r| >= 20 && r[|r| - 1] == 'Z'
  {
    DateText(dt) + "T" + TimeText(dt) + "Z"
  }

  /** Whatever the field values, the canonical text uses only digits and the
      separators `-`, `T`, `:`, `Z`, so no `+` of a numeric offset appears. */
  lemma CanonicalTextAlphabet(dt: DateTime)
    ensures AllInCanonicalAlphabet(CanonicalText(dt))
    ensures '+' !in CanonicalText(dt)
  {
    // Built up piece by piece so that the proof stays cheap on every solver seed.
    var y, mo, d := PadZero(dt.year, 4), PadZero(dt.month, 2), PadZero(dt.day, 2);
    var h, mi, s := PadZero(dt.hour, 2), PadZero(dt.minute, 2), PadZero(dt.second, 2);
    DigitsInAlphabet(y); DigitsInAlphabet(mo); DigitsInAlphabet(d);
    DigitsInAlphabet(h); DigitsInAlphabet(mi); DigitsInAlphabet(s);
    var dash, colon := "-", ":";
    assert AllInCanonicalAlphabet(dash) && AllInCanonicalAlphabet(colon);
    AlphabetConcat(y, dash); AlphabetConcat(y + dash, mo); AlphabetConcat(y + dash + mo, dash);
    AlphabetConcat(y + dash + mo + dash, d);
    var date := y + dash + mo + dash + d;
    AlphabetConcat(h, colon); AlphabetConcat(h + colon, mi); AlphabetConcat(h + colon + mi, colon);
    AlphabetConcat(h + colon + mi + colon, s);
    var time := h + colon + mi + colon + s;
    assert AllInCanonicalAlphabet("T") && AllInCanonicalAlphabet("Z");
    AlphabetConcat(date, "T"); AlphabetConcat(date + "T", time); AlphabetConcat(date + "T" + time, "Z");
    assert CanonicalText(dt) == date + "T" + time + "Z";
  }

  /** Fields narrow enough that every one of them takes exactly its width. */
  predicate FitsCanonicalWidths(dt: DateTime) {
    dt.year < 10000 && dt.month < 100 && dt.day < 100 &&
    dt.hour < 100 && dt.minute < 100 && dt.second < 100
  }

  /** Exactly 20 characters: `-` at 4 and 7, `T` at 10, `:` at 13 and 16, `Z` at
      19, and a decimal digit everywhere else. */
  predicate IsCanonical(s: string) {
    |s| == 20 &&
    s[4] == '-' && s[7] == '-' && s[10] == 'T' && s[13] == ':' && s[16] == ':' && s[19] == 'Z' &&
    AllDigits(s[0..4]) && AllDigits(s[5..7]) && AllDigits(s[8..10]) &&
    AllDigits(s[11..13]) && AllDigits(s[14..16]) && AllDigits(s[17..19])
  }

  /** Reads a canonical timestamp back into the civil second it names. */
  function ParseCanonical(s: string): Option<CivilSecond> {
    if IsCanonical(s) then
      Some(CivilSecond(
        DecimalValue(s[0..4]), DecimalValue(s[5..7]), DecimalValue(s[8..10]),
        DecimalValue(s[11..13]), DecimalValue(s[14..16]), DecimalValue(s[17..19])))
    else None
  }

  /** `ApplicationRecord._to_iso_utc(value)`. */
  function ToIsoUtc(value: PyValue, toUtc: UtcConversion): (r: Result<string, TypeError>)
    ensures value.Str? ==> r == Success(value.s)
    ensures value.DateTimeValue? ==> r.Success? && |r.value| >= 20 && r.value[|r.value| - 1] == 'Z' && '+' !in r.value
    ensures r.Failure? <==> !(value.Str? || value.DateTimeValue?)
    ensures r.Failure? ==> r.error == TypeError(TimestampTypeMessage)
  {
    match value
    case DateTimeValue(dt) =>
      var utc := if dt.tzinfo.None? then dt else toUtc(dt);
      CanonicalTextAlphabet(utc);
      Success(CanonicalText(utc))
    case Str(s) => Success(s)
    case _ => Failure(TypeError(TimestampTypeMessage))
  }

  // ---------------------------------------------------------------------
  // Properties
  // ---------------------------------------------------------------------

  /** Every datetime Python can hold has fields that fit the canonical widths. */
  lemma WellFormedFits(dt: DateTime)
    requires dt.WellFormed()
    ensures FitsCanonicalWidths(dt)
  {
  }

  lemma PadZeroWidth(n: nat, width: nat)
    requires width >= 1 && n < Pow10(width)
    ensures |PadZero(n, width)| == width && DecimalValue(PadZero(n, width)) == n
  {
    PadZeroRoundTrip(n, width);
    PadZeroExactWidth(n, width);
  }

  /** Where each field of `date + "T" + time + "Z"` sits when the fields have
      their exact widths. */
  lemma CanonicalLayout(y: string, mo: string, d: string, h: string, mi: string, sec: string)
    requires |y| == 4 && |mo| == 2 && |d| == 2 && |h| == 2 && |mi| == 2 && |sec| == 2
    ensures var s := (y + "-" + mo + "-" + d) + "T" + (h + ":" + mi + ":" + sec) + "Z";
      |s| == 20 &&
      s[4] == '-' && s[7] == '-' && s[10] == 'T' && s[13] == ':' && s[16] == ':' && s[19] == 'Z' &&
      s[0..4] == y && s[5..7] == mo && s[8..10] == d &&
      s[11..13] == h && s[14..16] == mi && s[17..19] == sec
  {
  }

  /** For fields within their widths the text has the canonical shape and reads
      back as the datetime truncated to the second. */
  lemma CanonicalRoundTrip(dt: DateTime)
    requires FitsCanonicalWidths(dt)
    ensures IsCanonical(CanonicalText(dt))
    ensures ParseCanonical(CanonicalText(dt)) == Some(Truncated(dt))
  {
    assert Pow10(2) == 100 && Pow10(4) == 10000;
    PadZeroWidth(dt.year, 4);
    PadZeroWidth(dt.month, 2);
    PadZeroWidth(dt.day, 2);
    PadZeroWidth(dt.hour, 2);
    PadZeroWidth(dt.minute, 2);
    PadZeroWidth(dt.second, 2);
    CanonicalLayout(PadZero(dt.year, 4), PadZero(dt.month, 2), PadZero(dt.day, 2),
                    PadZero(dt.hour, 2), PadZero(dt.minute, 2), PadZero(dt.second, 2));
  }

  /** Two datetimes give the same canonical text exactly when they agree to the
      second: only sub-seconds and the (already removed) zone are lost. */
  lemma CanonicalTextInjective(a: DateTime, b: DateTime)
    requires FitsCanonicalWidths(a) && FitsCanonicalWidths(b)
    ensures CanonicalText(a) == CanonicalText(b) <==> Truncated(a) == Truncated(b)
  {
    CanonicalRoundTrip(a);
    CanonicalRoundTrip(b);
  }

  /** A zone-naive datetime is taken as UTC already: no conversion is applied,
      so the result is its own fields, to the second, whatever the conversion. */
  lemma NaiveIsNotShifted(dt: DateTime, toUtc: UtcConversion, other: UtcConversion)
    requires dt.IsNaive() && FitsCanonicalWidths(dt)
    ensures ToIsoUtc(DateTimeValue(dt), toUtc) == ToIsoUtc(DateTimeValue(dt), other)
    ensures ToIsoUtc(DateTimeValue(dt), toUtc).Success?
    ensures ParseCanonical(ToIsoUtc(DateTimeValue(dt), toUtc).value) == Some(Truncated(dt))
  {
    CanonicalRoundTrip(dt);
  }

  /** An aware datetime is written as the UTC instant the conversion gives it. */
  lemma AwareIsConverted(dt: DateTime, toUtc: UtcConversion)
    requires !dt.IsNaive() && FitsCanonicalWidths(toUtc(dt))
    ensures ToIsoUtc(DateTimeValue(dt), toUtc).Success?
    ensures ParseCanonical(ToIsoUtc(DateTimeValue(dt), toUtc).value) == Some(Truncated(toUtc(dt)))
  {
    CanonicalRoundTrip(toUtc(dt));
  }

  /** Any datetime in Python's range normalises to text of the canonical shape. */
  lemma DateTimeGivesCanonical(dt: DateTime, toUtc: UtcConversion)
    requires dt.WellFormed()
    requires !dt.IsNaive() ==> toUtc(dt).WellFormed()
    ensures ToIsoUtc(DateTimeValue(dt), toUtc).Success?
    ensures IsCanonical(ToIsoUtc(DateTimeValue(dt), toUtc).value)
  {
    var utc := if dt.IsNaive() then dt else toUtc(dt);
    WellFormedFits(utc);
    CanonicalRoundTrip(utc);
  }
}
