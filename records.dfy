/** `ApplicationRecord`: three text fields behind setters, the row it
    serialises to, and the header-once append of that row to a delimited file. */
module Records {
  import opened Values
  import opened Timestamps

  /** `ApplicationRecord.CSV_HEADER`. */
  const Header: seq<string> := ["timestamp", "company_name", "application_id"]

  /** A delimited file, seen as its rows, each row a sequence of fields. A file
      that does not exist and a file of length zero both have no rows. */
  class CsvFile {
    var rows: seq<seq<string>>

    constructor (rows: seq<seq<string>>)
      ensures this.rows == rows
    {
      this.rows := rows;
    }
  }

  /** The rows of a file after one `append_to_csv` of `row`. */
  function AppendedRows(rows: seq<seq<string>>, row: seq<string>): seq<seq<string>> {
    (if rows == [] then [Header] else []) + rows + [row]
  }

  /** The rows after appending `data`, one row per call, in call order. */
  function AppendedAll(rows: seq<seq<string>>, data: seq<seq<string>>): seq<seq<string>>
    decreases |data|
  {
    if data == [] then rows else AppendedAll(AppendedRows(rows, data[0]), data[1..])
  }

  /** The file holds exactly one header followed by `data`, or is still empty
      because nothing was appended. */
  predicate IsLogOf(rows: seq<seq<string>>, data: seq<seq<string>>) {
    if data == [] then rows == [] else rows == [Header] + data
  }

  class ApplicationRecord {
    var timestamp: string
    var companyName: string
    var applicationId: string

    /** The standard library's conversion to UTC that `_to_iso_utc` relies on. */
    const toUtc: UtcConversion

    /** The last value the timestamp was set from. */
    ghost var timestampSource: PyValue

    /** The stored timestamp is always the normalised form of a value it was
        given: normalisation happens when it is written, never when it is read. */
    ghost predicate Valid()
      reads this
    {
      ToIsoUtc(timestampSource, toUtc) == Success(timestamp)
    }

    constructor FromNormalised(ghost source: PyValue, timestamp: string, companyName: string,
                               applicationId: string, toUtc: UtcConversion)
      requires ToIsoUtc(source, toUtc) == Success(timestamp)
      ensures Valid() && this.toUtc == toUtc && timestampSource == source
      ensures this.timestamp == timestamp
      ensures this.companyName == companyName && this.applicationId == applicationId
    {
      this.timestamp := timestamp;
      this.companyName := companyName;
      this.applicationId := applicationId;
      this.toUtc := toUtc;
      this.timestampSource := source;
    }

    /** `ApplicationRecord(timestamp, company_name, application_id)`. A missing
        timestamp (`None`) means the clock reading `now`; a timestamp that is
        neither a datetime nor a string raises `TypeError` and no record exists. */
    static method Create(timestamp: PyValue, companyName: PyValue, applicationId: PyValue,
                         now: DateTime, toUtc: UtcConversion)
      returns (r: Result<ApplicationRecord, TypeError>)
      ensures var input := if timestamp.NoneValue? then DateTimeValue(now) else timestamp;
        match ToIsoUtc(input, toUtc)
        case Failure(e) => r == Failure(e)
        case Success(ts) =>
          r.Success? && fresh(r.value) && r.value.Valid() && r.value.toUtc == toUtc &&
          r.value.timestamp == ts && r.value.timestampSource == input &&
          r.value.companyName == ToText(companyName) &&
          r.value.applicationId == ToText(applicationId)
    {
      var input := if timestamp.NoneValue? then DateTimeValue(now) else timestamp;
      var normalised := ToIsoUtc(input, toUtc);
      if normalised.Failure? {
        r := Failure(normalised.error);
      } else {
        var rec := new ApplicationRecord.FromNormalised(input, normalised.value, ToText(companyName),
                                                        ToText(applicationId), toUtc);
        r := Success(rec);
      }
    }

    /** The `timestamp` setter: the value is normalised before it is stored; a
        value of another type (`None` included) raises `TypeError` and leaves the
        record as it was. The other two fields never change. */
    method SetTimestamp(value: PyValue) returns (error: Option<TypeError>)
      requires Valid()
      modifies this
      ensures Valid()
      ensures companyName == old(companyName) && applicationId == old(applicationId)
      ensures match ToIsoUtc(value, toUtc)
        case Success(ts) => error == None && timestamp == ts && timestampSource == value
        case Failure(e) =>
          error == Some(e) && timestamp == old(timestamp) && timestampSource == old(timestampSource)
    {
      match ToIsoUtc(value, toUtc)
      case Success(ts) =>
        timestamp := ts;
        timestampSource := value;
        error := None;
      case Failure(e) =>
        error := Some(e);
    }

    /** The `company_name` setter: stores `str(value)`, nothing else changes. */
    method SetCompanyName(value: PyValue)
      requires Valid()
      modifies this`companyName
      ensures Valid()
      ensures companyName == ToText(value)
      ensures timestamp == old(timestamp) && applicationId == old(applicationId)
    {
      companyName := ToText(value);
    }

    /** The `application_id` setter: stores `str(value)`, nothing else changes. */
    method SetApplicationId(value: PyValue)
      requires Valid()
      modifies this`applicationId
      ensures Valid()
      ensures applicationId == ToText(value)
      ensures timestamp == old(timestamp) && companyName == old(companyName)
    {
      applicationId := ToText(value);
    }

    /** The record's attribute that a header column names. */
    function Attribute(column: string): Option<string>
      reads this
    {
      if column == "timestamp" then Some(timestamp)
      else if column == "company_name" then Some(companyName)
      else if column == "application_id" then Some(applicationId)
      else None
    }

    /** `to_csv_row`: one field per header column, each the attribute that the
        column names, in the header's order. */
    function ToCsvRow(): (row: seq<string>)
      reads this
      ensures |row| == |Header|
      ensures forall i :: 0 <= i < |Header| ==> Attribute(Header[i]) == Some(row[i])
    {
      [timestamp, companyName, applicationId]
    }

    /** `append_to_csv`: writes the header only when the file has no rows, then
        the record's row. */
    method AppendToCsv(file: CsvFile)
      modifies file
      ensures file.rows == AppendedRows(old(file.rows), ToCsvRow())
    {
      var writeHeader := |file.rows| == 0;
      if writeHeader {
        file.rows := file.rows + [Header];
      }
      file.rows := file.rows + [ToCsvRow()];
    }
  }

  /** `CSV_HEADER` has three distinct column names, and each names an attribute
      of every record. */
  lemma HeaderColumns(rec: ApplicationRecord)
    ensures |Header| == 3
    ensures forall i, j :: 0 <= i < j < |Header| ==> Header[i] != Header[j]
    ensures forall i :: 0 <= i < |Header| ==> rec.Attribute(Header[i]).Some?
  {
  }

  /** A record whose timestamp was last set from a datetime holds canonical text,
      and so does the first column of its row. */
  lemma StoredTimestampForm(rec: ApplicationRecord)
    requires rec.Valid()
    requires rec.timestampSource.DateTimeValue? && rec.timestampSource.dt.WellFormed()
    requires !rec.timestampSource.dt.IsNaive() ==> rec.toUtc(rec.timestampSource.dt).WellFormed()
    ensures IsCanonical(rec.timestamp) && IsCanonical(rec.ToCsvRow()[0])
  {
    DateTimeGivesCanonical(rec.timestampSource.dt, rec.toUtc);
  }

  // ---------------------------------------------------------------------
  // Properties of the header-once append
  // ---------------------------------------------------------------------

  /** Appending to a file that is absent or empty gives the header and the row. */
  lemma AppendToEmptyFile(row: seq<string>)
    ensures AppendedRows([], row) == [Header, row]
  {
  }

  /** Appending to a file with rows adds exactly the one row at the end: no second
      header, and every earlier row is kept. */
  lemma AppendToNonEmptyFile(rows: seq<seq<string>>, row: seq<string>)
    requires rows != []
    ensures |AppendedRows(rows, row)| == |rows| + 1
    ensures AppendedRows(rows, row)[..|rows|] == rows
    ensures AppendedRows(rows, row)[|rows|] == row
  {
  }

  /** One append extends the log by its row. */
  lemma AppendExtendsLog(rows: seq<seq<string>>, data: seq<seq<string>>, row: seq<string>)
    requires IsLogOf(rows, data)
    ensures IsLogOf(AppendedRows(rows, row), data + [row])
  {
    assert AppendedRows(rows, row) == [Header] + (data + [row]);
  }

  /** Any number of appends to a file that holds a log extends the log by their
      rows, in call order. */
  lemma {:induction false} AppendedAllExtendsLog(rows: seq<seq<string>>, data: seq<seq<string>>,
                                                 more: seq<seq<string>>)
    requires IsLogOf(rows, data)
    ensures IsLogOf(AppendedAll(rows, more), data + more)
    decreases |more|
  {
    if more == [] {
      assert data + more == data;
    } else {
      AppendExtendsLog(rows, data, more[0]);
      AppendedAllExtendsLog(AppendedRows(rows, more[0]), data + [more[0]], more[1..]);
      assert (data + [more[0]]) + more[1..] == data + more;
    }
  }

  /** Appends to a fresh file give one header followed by every row in call order;
      two appends give `[Header, first, second]`. */
  lemma AppendsToFreshFile(data: seq<seq<string>>)
    requires data != []
    ensures AppendedAll([], data) == [Header] + data
    ensures |data| == 2 ==> AppendedAll([], data) == [Header, data[0], data[1]]
  {
    AppendedAllExtendsLog([], [], data);
    assert [] + data == data;
  }

  /** Appends to a file that already has rows never add a header: the rows are
      the old ones followed by the appended ones. */
  lemma {:induction false} AppendsToNonEmptyFile(rows: seq<seq<string>>, data: seq<seq<string>>)
    requires rows != []
    ensures AppendedAll(rows, data) == rows + data
    decreases |data|
  {
    if data == [] {
      assert rows + data == rows;
    } else {
      assert AppendedRows(rows, data[0]) == rows + [data[0]];
      AppendsToNonEmptyFile(rows + [data[0]], data[1..]);
      assert (rows + [data[0]]) + data[1..] == rows + data;
    }
  }
}
