/**
 * The export layer the scrapers and the command line share: `csv.DictWriter` row layout,
 * and the choice between JSON, CSV and a spreadsheet by format name.
 */
module Export {
  import opened Results
  import opened Records

  /**
   * A CSV document: no text at all, or a header line and one line per record. Cells keep
   * their values; turning a value into cell text is the csv library's part.
   */
  datatype Csv = EmptyCsv | Table(header: seq<string>, rows: seq<seq<Value>>)

  /** What an export hands back. */
  datatype Payload =
    | Json(records: seq<Record>)    // `json.dumps(records, ensure_ascii=False, indent=2)`
    | CsvText(csv: Csv)             // the text `csv.DictWriter` writes
    | Workbook(rows: seq<Record>)   // the spreadsheet `pandas.DataFrame(rows).to_excel` writes
    | Text(s: string)               // a literal string

  /** A record fits a header when it has no key outside it (`DictWriter` raises otherwise). */
  predicate FitsHeader(header: seq<string>, r: Record)
  {
    forall j :: 0 <= j < |r| ==> r[j].key in header
  }

  /** `DictWriter`'s row for one record: the value under each header key, `""` when absent. */
  function Row(header: seq<string>, r: Record): (row: seq<Value>)
    ensures |row| == |header|
  {
    seq(|header|, j requires 0 <= j < |header| => GetOr(r, header[j], Str("")))
  }

  /**
   * `_to_csv`: no records give the empty document; otherwise the header is the first
   * record's keys and there is one row per record, in order; a record with a key outside
   * the header makes the writer raise.
   */
  function ToCsv(records: seq<Record>): (c: Result<Csv>)
    ensures records == [] ==> c == Ok(EmptyCsv)
    ensures records != [] ==>
      (c.Ok? <==> forall i :: 0 <= i < |records| ==> FitsHeader(Keys(records[0]), records[i]))
    ensures records != [] && c.Ok? ==>
      && c.value.Table? && c.value.header == Keys(records[0])
      && |c.value.rows| == |records|
      && forall i :: 0 <= i < |records| ==> c.value.rows[i] == Row(Keys(records[0]), records[i])
  {
    if records == [] then Ok(EmptyCsv)
    else
      var header := Keys(records[0]);
      if forall i :: 0 <= i < |records| ==> FitsHeader(header, records[i]) then
        Ok(Table(header, seq(|records|, i requires 0 <= i < |records| => Row(header, records[i]))))
      else
        Err(ValueError("dict contains fields not in fieldnames"))
  }

  /** Reads a CSV row back into a record under the header. */
  function RecordOfRow(header: seq<string>, row: seq<Value>): (r: Record)
    requires |header| == |row|
    ensures |r| == |row|
  {
    seq(|row|, j requires 0 <= j < |row| => Entry(header[j], row[j]))
  }

  /** Records that share one key list. */
  ghost predicate Uniform(records: seq<Record>)
  {
    records != [] && DistinctKeys(records[0])
    && forall i :: 0 <= i < |records| ==> Keys(records[i]) == Keys(records[0])
  }

  /**
   * Records that share one key list export to a table whose rows are their values, and
   * reading each row back under the header gives the record again: CSV keeps the content.
   */
  lemma {:induction false} CsvRoundTrip(records: seq<Record>)
    requires Uniform(records)
    ensures ToCsv(records).Ok? && ToCsv(records).value.Table?
    ensures ToCsv(records).value.header == Keys(records[0])
    ensures |ToCsv(records).value.rows| == |records|
    ensures forall i :: 0 <= i < |records| ==>
      && ToCsv(records).value.rows[i] == Values(records[i])
      && RecordOfRow(Keys(records[0]), ToCsv(records).value.rows[i]) == records[i]
  {
    var header := Keys(records[0]);
    forall i | 0 <= i < |records|
      ensures FitsHeader(header, records[i])
      ensures Row(header, records[i]) == Values(records[i])
      ensures RecordOfRow(header, Values(records[i])) == records[i]
    {
      var r := records[i];
      assert Keys(r) == header;
      forall j | 0 <= j < |r| ensures r[j].key in header {
        assert header[j] == r[j].key;
      }
      assert DistinctKeys(r) by {
        forall a, b | 0 <= a < b < |r| ensures r[a].key != r[b].key {
          assert r[a].key == header[a] == records[0][a].key;
          assert r[b].key == header[b] == records[0][b].key;
        }
      }
      forall j | 0 <= j < |header| ensures Row(header, r)[j] == Values(r)[j] {
        LookupAt(r, j);
      }
    }
  }

  /** `_to_csv` / `_to_excel` / `json.dumps` by format name; anything but csv and excel is JSON. */
  function Dispatch(format: string, records: seq<Record>): (p: Result<Payload>)
    ensures format == "csv" ==>
      p == (match ToCsv(records) case Ok(c) => Ok(CsvText(c)) case Err(e) => Err(e))
    ensures format == "excel" ==> p == Ok(Workbook(records))
    ensures format != "csv" && format != "excel" ==> p == Ok(Json(records))
  {
    if format == "csv" then
      match ToCsv(records)
      case Ok(c) => Ok(CsvText(c))
      case Err(e) => Err(e)
    else if format == "excel" then Ok(Workbook(records))
    else Ok(Json(records))
  }

  /** The export of a collection step's outcome: its exception propagates, its records are exported. */
  function ExportOutcome(format: string, outcome: Result<seq<Record>>): Result<Payload>
  {
    match outcome
    case Ok(records) => Dispatch(format, records)
    case Err(e) => Err(e)
  }
}
