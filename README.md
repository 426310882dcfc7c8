# ApplicationRecord, modelled in Dafny

The program appends job-application entries (a timestamp, a company name and
an application id) to a comma-separated file. Its only logic lives in the
`ApplicationRecord` class, and that class is what this project models:

- **Timestamp normalisation** (`_to_iso_utc`). A string is kept verbatim. A
  zone-naive datetime is taken as UTC. An aware datetime is converted to UTC.
  Either kind is written as `YYYY-MM-DDTHH:MM:SS` with sub-seconds dropped,
  followed by a literal `Z`. Any other value raises `TypeError`.
- **Three text fields behind setters.** The `timestamp` setter normalises its
  value. The `company_name` and `application_id` setters store `str(value)`.
- **Serialisation and append.** `to_csv_row` gives `[timestamp, company_name,
  application_id]`, in the order of `CSV_HEADER`. `append_to_csv` writes the
  header only when the file is missing or empty, and then writes the row.

Files:

- `values.dfy` (module `Values`): the Python values a caller can pass
  (`str`, `int`, `bool`, `None`, `datetime`), `str()` coercion of them, and the
  zero-padded decimal fields that datetime formatting uses.
- `timestamps.dfy` (module `Timestamps`): `_to_iso_utc`, the canonical text
  shape, and a reader of that shape used as its inverse.
- `records.dfy` (module `Records`): the `ApplicationRecord` class with mutable
  fields, a `CsvFile` class whose `rows` the append updates in place, and the
  header-once append rule with its lemmas.

The file is modelled as a sequence of rows, each a sequence of fields. A file
that does not exist and a file of length zero both have no rows.

The standard library's `astimezone(timezone.utc)` is not re-implemented. It is a
parameter of type `UtcConversion` (`DateTime -> DateTime`) that a record keeps
in a constant. The clock reading `datetime.now(timezone.utc)` that the
constructor uses for a missing timestamp is the parameter `now`.

The Python constructor can raise `TypeError`. It is modelled as the static
method `ApplicationRecord.Create`, which returns `Failure(TypeError(...))` and
creates no record in that case. The Python properties only read the private
fields, so in the model the getters are the public fields `timestamp`,
`companyName` and `applicationId`.

Two points about the stored timestamp:

- Strings are stored verbatim (application_record.py:87-88), so `Valid` says
  only that the stored text is the normalisation of the last value accepted.
  `StoredTimestampForm` proves the canonical shape for datetime inputs only.
- The constructor turns a missing timestamp (`None`) into the current time
  (application_record.py:20-21). The setter does not: `rec.timestamp = None`
  raises `TypeError` (application_record.py:33, 89-90).

## Model

| member | source | states |
|---|---|---|
| `Timestamps.ToIsoUtc` | application_record.py:77-90 | a string comes back unchanged; any datetime gives text of at least 20 characters that ends in `Z` and has no `+`; the result is `TypeError("timestamp must be a datetime or ISO8601 string")` exactly when the value is neither a string nor a datetime |
| `Timestamps.CanonicalText` | application_record.py:85-86 | for any field values the text has at least 20 characters and ends in `Z` |
| `Timestamps.CanonicalTextAlphabet` | application_record.py:85-86 | for any field values the text uses only digits and `-`, `T`, `:`, `Z`, so it carries no `+` offset |
| `Timestamps.CanonicalRoundTrip` | application_record.py:85-86 | for fields within their widths the text is exactly 20 characters with `-` at 4 and 7, `T` at 10, `:` at 13 and 16, `Z` at 19 and digits elsewhere, and it reads back as the datetime truncated to the second |
| `Timestamps.CanonicalTextInjective` | application_record.py:85-86 | two datetimes give the same text if and only if they agree to the second |
| `Timestamps.NaiveIsNotShifted` | application_record.py:80-86 | a zone-naive datetime gives the same text under any UTC conversion, and that text reads back as its own fields to the second |
| `Timestamps.AwareIsConverted` | application_record.py:83-86 | an aware datetime's text reads back as the UTC conversion of it, to the second |
| `Timestamps.DateTimeGivesCanonical` | application_record.py:78-86 | every datetime in Python's range (years 1 to 9999) normalises to text of the canonical 20-character shape |
| `Timestamps.WellFormedFits` | application_record.py:86 | every field of a valid datetime fits its `%04d` or `%02d` width |
| `Values.PadZeroRoundTrip` | application_record.py:86 | a zero-padded field reads back as its number |
| `Values.PadZeroExactWidth` | application_record.py:86 | a zero-padded field takes exactly its width when its number fits that width |
| `Values.DigitsRoundTrip` | application_record.py:86 | the decimal numeral of a number reads back as that number |
| `Values.DigitsFit` | application_record.py:86 | a number below `10^k` has a numeral of at most `k` digits |
| `Values.LeadingZerosIgnored` | application_record.py:86 | leading zeros do not change the number a numeral denotes |
| `Values.ToText` | application_record.py:23-24 | `str(value)`: a string unchanged, an int as a numeral that reads back as the int, a bool as `True` or `False` |
| `Values.IntTextRoundTrip` | application_record.py:23-24 | `str()` of an int reads back as the same int |
| `Records.ApplicationRecord.Create` | application_record.py:13-24 | a missing timestamp becomes the clock reading; a timestamp that is not a datetime or string fails with its `TypeError` and no record is made; otherwise the new record holds the normalised timestamp, records the value it came from, holds `str()` of the two other values, and keeps the invariant |
| `Records.ApplicationRecord.FromNormalised` | application_record.py:22-24 | a record built from already-normalised text holds exactly the given fields and keeps the invariant |
| `Records.ApplicationRecord.SetTimestamp` | application_record.py:31-33 | stores the normalised value (and the value it came from) and reports no error, or reports the `TypeError` and keeps the old timestamp; the other fields never change and the invariant holds afterwards |
| `Records.ApplicationRecord.SetCompanyName` | application_record.py:41-43 | stores `str(value)` as the company name; nothing else changes |
| `Records.ApplicationRecord.SetApplicationId` | application_record.py:51-53 | stores `str(value)` as the application id; nothing else changes |
| `Records.ApplicationRecord.ToCsvRow` | application_record.py:57-59 | the row has one field per column of `CSV_HEADER`, and each field is the attribute that its column names |
| `Records.ApplicationRecord.AppendToCsv` | application_record.py:61-74 | the file's new rows are the header-once append of the record's row to its old rows |
| `Records.HeaderColumns` | application_record.py:11 | `CSV_HEADER` (the constant `Records.Header`) has three distinct column names in row order, and each names an attribute of the record |
| `Records.StoredTimestampForm` | application_record.py:22 | a record whose timestamp was set from a datetime holds canonical text, also in the first field of its row |
| `Records.AppendToEmptyFile` | application_record.py:67-74 | appending to an absent or empty file gives exactly `[CSV_HEADER, row]` |
| `Records.AppendToNonEmptyFile` | application_record.py:67-74 | appending to a file with rows adds exactly one row, the record's, at the end, and keeps every earlier row |
| `Records.AppendExtendsLog` | application_record.py:67-74 | one append turns a file holding one header and the rows so far into one holding one header and those rows plus the new one |
| `Records.AppendedAllExtendsLog` | application_record.py:67-74 | any number of appends extends a header-plus-rows file by their rows in call order |
| `Records.AppendsToFreshFile` | application_record.py:67-74 | appends to a fresh file give one header followed by every row in call order; two appends give `[CSV_HEADER, first, second]` |
| `Records.AppendsToNonEmptyFile` | application_record.py:67-74 | appends to a file with rows never add a header: the result is the old rows followed by the new ones |

## Left out

- `Timestamps.ToIsoUtc`: the conversion of an aware datetime to UTC is a parameter, so the model does not state the calendar arithmetic of `astimezone`, nor its `OverflowError` near years 1 and 9999.
- `Timestamps.ToIsoUtc`: zone information is modelled as a fixed offset (`datetime.timezone`). A custom `tzinfo` whose `utcoffset` returns `None` is not modelled; the code sends it to `astimezone`, which treats it as local time.
- `Records.ApplicationRecord.Create`: the clock reading `datetime.now(timezone.utc)` is the parameter `now`.
- `Values.ToText`: `str()` is modelled for `str`, `int`, `bool`, `None` and `datetime` values only. Floats and other objects are not modelled.
- `Records.ApplicationRecord.AppendToCsv`: creating the parent directory, the existence and size checks, UTF-8 file handles and I/O failures are file-system I/O and are not modelled. A file with no rows stands for a missing or zero-length file.
- `Records.ApplicationRecord.AppendToCsv`: the byte-level CSV encoding (minimal quoting, line terminators) comes from the `csv` module, which is not part of this model. The file is its sequence of rows.
- `Records.ApplicationRecord.AppendToCsv`: the row model assumes a non-empty file ends with a line terminator. If its last line has none, `writer.writerow` (application_record.py:74) continues that line instead of starting a new row, while `AppendedRows` always adds a row.
- `__repr__` (application_record.py:92-96) is debug output only.
- `main.py` (the console loop, the web form, `parse_timestamp`, argument handling and mode selection) is interactive I/O and environment plumbing and is not part of this model.
