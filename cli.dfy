/** The command line's output formatting for scraped books (`format_output`). */
module Cli {
  import opened Results
  import opened Text
  import opened Records
  import opened Export
  import Books

  /** Where the excel branch writes its spreadsheet. */
  const ExcelPath: string := "data/processed/books.xlsx"

  /** A file the formatter writes: its path and the rows of the sheet. */
  datatype FileWrite = FileWrite(path: string, rows: seq<Record>)

  /** What the formatter returns, and the file it wrote, if any. */
  datatype Formatted = Formatted(output: Payload, written: Option<FileWrite>)

  /** What the confirmation says after the number of books: the noun and the file's path. */
  const SavedTail: string := " ksi\U{0105}\U{017C}ek do: " + ExcelPath

  /** The confirmation the excel branch returns: the number of books and the file's path. */
  function SavedMessage(n: int): string
  {
    "Zapisano " + IntToDecimal(n) + SavedTail
  }

  /**
   * `format_output(books, output_format)`: an empty list gives `"[]"` for JSON and an empty
   * string for anything else; otherwise JSON, CSV (header from the first book's keys) or a
   * written spreadsheet, with JSON for any other format.
   */
  function FormatOutput(books: seq<Record>, format: string): (r: Result<Formatted>)
    ensures books == [] ==> r == Ok(Formatted(Text(if format == "json" then "[]" else ""), None))
    ensures (r.Ok? && r.value.written.Some?) <==> (books != [] && format == "excel")
    ensures books != [] && format == "excel" ==>
      r == Ok(Formatted(Text(SavedMessage(|books|)), Some(FileWrite(ExcelPath, books))))
    ensures books != [] && format != "excel" ==>
      r == (match Dispatch(format, books) case Ok(p) => Ok(Formatted(p, None)) case Err(e) => Err(e))
  {
    if books == [] then Ok(Formatted(Text(if format == "json" then "[]" else ""), None))
    else if format == "json" then Ok(Formatted(Json(books), None))
    else if format == "csv" then
      match ToCsv(books)
      case Ok(c) => Ok(Formatted(CsvText(c), None))
      case Err(e) => Err(e)
    else if format == "excel" then
      Ok(Formatted(Text(SavedMessage(|books|)), Some(FileWrite(ExcelPath, books))))
    else Ok(Formatted(Json(books), None))
  }

  /**
   * Books as the scraper returns them format as CSV with the book fields as header and one
   * row per book holding its values, in order.
   */
  lemma {:induction false} BooksCsvOutput(books: seq<Record>)
    requires books != [] && Books.AllBooks(books)
    ensures FormatOutput(books, "csv").Ok?
    ensures FormatOutput(books, "csv").value.written == None
    ensures var out := FormatOutput(books, "csv").value.output;
      && out.CsvText? && out.csv.Table? && out.csv.header == Books.BookFields
      && |out.csv.rows| == |books|
      && forall i :: 0 <= i < |books| ==> out.csv.rows[i] == Values(books[i])
  {
    Books.BookRecordsCsv(books);
  }

  /** The confirmation names the count: different counts never give the same message. */
  lemma {:induction false} SavedMessageInjective(m: int, n: int)
    requires SavedMessage(m) == SavedMessage(n)
    ensures m == n
  {
    MiddleCancel("Zapisano ", IntToDecimal(m), IntToDecimal(n), SavedTail);
    IntToDecimalInjective(m, n);
  }
}
