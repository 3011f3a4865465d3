/** The quotes.toscrape.com scraper: `div.quote` blocks, optionally filtered by tag. */
module Quotes {
  import opened Results
  import opened Text
  import opened Records
  import opened Site
  import opened Export

  const BaseUrl: string := "https://quotes.toscrape.com"

  /** The keys of every quote record, in order. */
  const QuoteFields: seq<string> := ["text", "author", "author_url", "tags"]

  /** The curly and straight quotation marks trimmed from both ends of a quote's text. */
  const QuoteMarks: set<char> := {'\U{201C}', '\U{201D}', '"', '\''}

  /** What the tags of a quote are joined with for CSV and spreadsheet output. */
  const TagSeparator: string := ", "

  /** The scraper's settings; `tag` is already normalised. */
  datatype QuotesScraper = QuotesScraper(tag: Option<string>, pages: Option<int>, outputFormat: string)

  /**
   * `tag.lower().strip() if tag else None`: a missing or empty tag is no tag; any other tag is
   * lower-cased and loses its surrounding whitespace (and may end up empty).
   */
  function NormalizeTag(tag: Option<string>): (t: Option<string>)
    ensures tag.None? || tag.value == "" <==> t.None?
    ensures t.Some? ==> t.value == Strip(Lower(tag.value), Whitespace)
    ensures t.Some? ==> forall k :: 0 <= k < |t.value| ==> !('A' <= t.value[k] <= 'Z')
    ensures t.Some? && t.value != [] ==>
      t.value[0] !in Whitespace && t.value[|t.value| - 1] !in Whitespace
  {
    if tag.None? || tag.value == "" then None
    else
      StripEnds(Lower(tag.value), Whitespace);
      StripLowerNoUpper(tag.value, Whitespace);
      Some(Strip(Lower(tag.value), Whitespace))
  }

  /**
   * Normalising again keeps a non-empty normalised tag as it is; the empty tag a
   * whitespace-only tag leaves behind becomes no tag, and no tag stays no tag.
   */
  lemma {:induction false} NormalizeTagIdempotent(tag: Option<string>)
    ensures NormalizeTag(NormalizeTag(tag))
      == if NormalizeTag(tag).Some? && NormalizeTag(tag).value != "" then NormalizeTag(tag) else None
  {
    if NormalizeTag(tag).Some? && NormalizeTag(tag).value != "" {
      var l := Lower(tag.value);
      LowerStrip(l);
      LowerIdempotent(tag.value);
      StripIdempotent(l, Whitespace);
    }
  }

  /** `QuotesScraper(tag, pages, output_format)`. */
  function NewScraper(tag: Option<string>, pages: Option<int>, outputFormat: string): (s: QuotesScraper)
    ensures s.tag == NormalizeTag(tag) && s.pages == pages && s.outputFormat == outputFormat
  {
    QuotesScraper(NormalizeTag(tag), pages, outputFormat)
  }

  /** `if self.tag`: a tag that is present and not empty. */
  predicate Tagged(s: QuotesScraper)
  {
    s.tag.Some? && s.tag.value != ""
  }

  /** `build_url(page)`: the tag's listing when the scraper is tagged, the main listing otherwise. */
  function BuildUrl(s: QuotesScraper, page: int): string
  {
    if Tagged(s) then BaseUrl + "/tag/" + s.tag.value + "/page/" + IntToDecimal(page) + "/"
    else BaseUrl + "/page/" + IntToDecimal(page) + "/"
  }

  /** Different pages of one listing have different URLs. */
  lemma {:induction false} BuildUrlPages(s: QuotesScraper, p: int, q: int)
    ensures BuildUrl(s, p) == BuildUrl(s, q) ==> p == q
  {
    if BuildUrl(s, p) == BuildUrl(s, q) {
      if Tagged(s) {
        MiddleCancel(BaseUrl + "/tag/" + s.tag.value + "/page/", IntToDecimal(p), IntToDecimal(q), "/");
      } else {
        MiddleCancel(BaseUrl + "/page/", IntToDecimal(p), IntToDecimal(q), "/");
      }
      IntToDecimalInjective(p, q);
    }
  }

  /** A tag made only of whitespace normalises to the empty tag, which selects the main listing. */
  lemma {:induction false} WhitespaceTagIsUntagged(tag: string, pages: Option<int>, outputFormat: string, page: int)
    requires tag != "" && forall k :: 0 <= k < |tag| ==> tag[k] in Whitespace
    ensures NewScraper(Some(tag), pages, outputFormat).tag == Some("")
    ensures BuildUrl(NewScraper(Some(tag), pages, outputFormat), page) == BaseUrl + "/page/" + IntToDecimal(page) + "/"
  {
    var l := Lower(tag);
    forall k | 0 <= k < |l| ensures l[k] in Whitespace {
      LowerCharWhitespace(tag[k]);
    }
    StripEmptyIff(l, Whitespace);
  }

  /**
   * One `div.quote` block: the optional `span.text`, `small.author` and `a[href^='/author/']`
   * elements, and the `div.tags a.tag` elements in order.
   */
  datatype QuoteDiv = QuoteDiv(
    text: Option<Element>,
    author: Option<Element>,
    authorLink: Option<Element>,
    tags: seq<Element>)

  /** The text of an optional element, or `None`. */
  function TextOf(e: Option<Element>): Option<string>
  {
    if e.Some? then Some(e.value.text) else None
  }

  /** The quote's text: `None` without a `span.text`, and otherwise without quotation marks at its ends. */
  function QuoteText(d: QuoteDiv): (v: Value)
    ensures d.text.None? <==> v.Null?
    ensures v.Str? ==> |v.s| <= |d.text.value.text|
    ensures v.Str? && v.s != [] ==> v.s[0] !in QuoteMarks && v.s[|v.s| - 1] !in QuoteMarks
    ensures v.Str? ==> (v.s == [] <==> forall k :: 0 <= k < |d.text.value.text| ==> d.text.value.text[k] in QuoteMarks)
    ensures v.Str? ==> v.s == Strip(d.text.value.text, QuoteMarks)
  {
    if d.text.None? then Null
    else
      var t := d.text.value.text;
      StripEmptyIff(t, QuoteMarks);
      StripEnds(t, QuoteMarks);
      if t == "" then Str("") else Str(Strip(t, QuoteMarks))
  }

  /** The texts of the tag links, in order. */
  function TagTexts(d: QuoteDiv): (ts: seq<Value>)
    ensures |ts| == |d.tags| && forall i :: 0 <= i < |ts| ==> ts[i] == Str(d.tags[i].text)
  {
    seq(|d.tags|, i requires 0 <= i < |d.tags| => Str(d.tags[i].text))
  }

  /** Every item of a list is a string. */
  predicate AllStr(items: seq<Value>)
  {
    forall i :: 0 <= i < |items| ==> items[i].Str?
  }

  /** The shape of every quote record: the four keys in order, strings or `None`, and a list of strings. */
  predicate IsQuoteRecord(r: Record)
  {
    && Keys(r) == QuoteFields
    && StrOrNull(r[0].val) && StrOrNull(r[1].val) && StrOrNull(r[2].val)
    && r[3].val.Arr? && AllStr(r[3].val.items)
  }

  /** `_parse_quote`: never raises, and always gives the four quote keys. */
  function ParseQuote(d: QuoteDiv): (r: Record)
    ensures IsQuoteRecord(r)
    ensures r[0].val == QuoteText(d)
    ensures r[1].val == OptStr(TextOf(d.author))
    ensures r[2].val == OptStr(if d.authorLink.Some? then Attr(d.authorLink.value, "href") else None)
    ensures r[3].val == Arr(TagTexts(d))
  {
    var authorUrl := if d.authorLink.Some? then Attr(d.authorLink.value, "href") else None;
    [Entry("text", QuoteText(d)),
     Entry("author", OptStr(TextOf(d.author))),
     Entry("author_url", OptStr(authorUrl)),
     Entry("tags", Arr(TagTexts(d)))]
  }

  /** What `parse` returns for a page: one record per `div.quote`, in document order. */
  function ParseQuotes(divs: seq<QuoteDiv>): seq<Record>
  {
    seq(|divs|, i requires 0 <= i < |divs| => ParseQuote(divs[i]))
  }

  /** `parse`. */
  method Parse(divs: seq<QuoteDiv>) returns (quotes: seq<Record>)
    ensures quotes == ParseQuotes(divs)
  {
    quotes := [];
    for i := 0 to |divs|
      invariant quotes == ParseQuotes(divs[..i])
    {
      assert divs[..i + 1] == divs[..i] + [divs[i]];
      quotes := quotes + [ParseQuote(divs[i])];
    }
    assert divs[..|divs|] == divs;
  }

  // ---------------------------------------------------------------- pagination

  /** How a page's blocks become records; `get` uses `ParseQuotes`. */
  type Parser = seq<QuoteDiv> -> seq<Record>

  /**
   * The page loop of `get` from page `page` on: fetch, parse, stop on an empty page, extend,
   * stop at the requested page count, stop when there is no "next" link, next page; a
   * request error stops quietly.
   */
  function QuotesWalk(parse: Parser, site: seq<Page<QuoteDiv>>, page: int, pages: Option<int>): Walk
    decreases MaxPages(pages) - page
  {
    if page > MaxPages(pages) then Walk(Ok([]), 0, PastCap)
    else
      match PageAt(site, page)
      case FetchError => Walk(Ok([]), 1, FetchFailed)
      case Fetched(divs, hasNext) =>
        var quotes := parse(divs);
        if quotes == [] then Walk(Ok([]), 1, EmptyPage)
        else if Limited(pages) && page >= pages.value then Walk(Ok(quotes), 1, PageLimit)
        else if !hasNext then Walk(Ok(quotes), 1, NoNextLink)
        else
          var rest := QuotesWalk(parse, site, page + 1, pages);
          Walk(Prepend(quotes, rest.outcome), rest.fetched + 1, rest.stop)
  }

  /** The `else` branch of `get`: walk the pages from 1 and gather their quotes. */
  method CollectPages(s: QuotesScraper, site: seq<Page<QuoteDiv>>) returns (allQuotes: seq<Record>)
    ensures QuotesWalk(ParseQuotes, site, 1, s.pages).outcome == Ok(allQuotes)
  {
    allQuotes := [];
    var page := 1;
    var maxPages := if Limited(s.pages) then s.pages.value else SafetyCap;
    PrependNothing(QuotesWalk(ParseQuotes, site, 1, s.pages).outcome);
    while page <= maxPages
      invariant maxPages == MaxPages(s.pages)
      invariant 1 <= page
      invariant QuotesWalk(ParseQuotes, site, 1, s.pages).outcome
        == Prepend(allQuotes, QuotesWalk(ParseQuotes, site, page, s.pages).outcome)
      decreases maxPages - page
    {
      var fetched := PageAt(site, page);
      if fetched.FetchError? {
        PrependEmpty(allQuotes);
        break;
      }
      var quotes := Parse(fetched.containers);
      if quotes == [] {
        PrependEmpty(allQuotes);
        break;
      }
      PrependTwice(allQuotes, quotes, QuotesWalk(ParseQuotes, site, page + 1, s.pages).outcome);
      allQuotes := allQuotes + quotes;
      if Limited(s.pages) && page >= s.pages.value {
        break;
      }
      if !fetched.hasNext {
        break;
      }
      page := page + 1;
    }
    PrependEmpty(allQuotes);
  }

  // ---------------------------------------------------------------- export

  /** The strings of a list of string values. */
  function Strings(items: seq<Value>): (ss: seq<string>)
    requires AllStr(items)
    ensures |ss| == |items| && forall i :: 0 <= i < |items| ==> items[i] == Str(ss[i])
  {
    seq(|items|, i requires 0 <= i < |items| => items[i].s)
  }

  /** `", ".join(value)`: a list of strings, a string (its characters) or a dict (its keys); anything else raises. */
  function JoinTags(v: Value): (r: Result<string>)
    ensures v.Arr? && AllStr(v.items) ==> r == Ok(Join(Strings(v.items), TagSeparator))
    ensures v.Arr? && !AllStr(v.items) ==> r.Err? && r.error.TypeError?
    ensures v.Null? || v.Bool? || v.Int? || v.Real? ==> r.Err? && r.error.TypeError?
  {
    match v
    case Arr(items) =>
      if AllStr(items) then Ok(Join(Strings(items), TagSeparator))
      else Err(TypeError("sequence item: expected str instance"))
    case Str(s) => Ok(Join(seq(|s|, i requires 0 <= i < |s| => [s[i]]), TagSeparator))
    case Obj(entries) => Ok(Join(Keys(entries), TagSeparator))
    case _ => Err(TypeError("can only join an iterable"))
  }

  /**
   * `flat_q = q.copy(); flat_q["tags"] = ", ".join(q["tags"])`: the copy keeps every key in
   * place and only the tags become one string; a record without tags raises `KeyError`.
   */
  function FlattenQuote(q: Record): (r: Result<Record>)
    ensures "tags" !in Keys(q) ==> r == Err(KeyError("tags"))
    ensures r.Ok? ==> Keys(r.value) == Keys(q)
    ensures r.Ok? ==> (Lookup(q, "tags").Some? && JoinTags(Lookup(q, "tags").value).Ok?
      && Lookup(r.value, "tags") == Some(Str(JoinTags(Lookup(q, "tags").value).value)))
    ensures r.Ok? ==> forall j :: 0 <= j < |q| && q[j].key != "tags" ==> r.value[j] == q[j]
    ensures r.Err? ==> r.error.KeyError? || r.error.TypeError?
  {
    match Lookup(q, "tags")
    case None => Err(KeyError("tags"))
    case Some(v) =>
      match JoinTags(v)
      case Err(e) => Err(e)
      case Ok(t) => Ok(Put(q, "tags", Str(t)))
  }

  /** The flattened copies of all quotes, or the first exception. */
  function Flattened(quotes: seq<Record>): (r: Result<seq<Record>>)
    ensures r.Ok? <==> forall i :: 0 <= i < |quotes| ==> FlattenQuote(quotes[i]).Ok?
    ensures r.Ok? ==> |r.value| == |quotes|
  {
    if quotes == [] then Ok([])
    else
      match FlattenQuote(quotes[0])
      case Err(e) => Err(e)
      case Ok(q) =>
        var rest := Flattened(quotes[1..]);
        FlattenedCons(quotes, rest.Ok?);
        Prepend([q], rest)
  }

  /** The quotes after the first all flatten exactly when all of them do, given the first does. */
  lemma {:induction false} FlattenedCons(quotes: seq<Record>, restOk: bool)
    requires quotes != [] && FlattenQuote(quotes[0]).Ok?
    requires restOk <==> forall i :: 0 <= i < |quotes| - 1 ==> FlattenQuote(quotes[1..][i]).Ok?
    ensures restOk <==> forall i :: 0 <= i < |quotes| ==> FlattenQuote(quotes[i]).Ok?
  {
    assert forall i :: 1 <= i < |quotes| ==> quotes[i] == quotes[1..][i - 1];
  }

  /** Each flattened copy is its own quote's, in order. */
  lemma {:induction false} FlattenedRecords(quotes: seq<Record>)
    requires Flattened(quotes).Ok?
    ensures forall i :: 0 <= i < |quotes| ==> Flattened(quotes).value[i] == FlattenQuote(quotes[i]).value
  {
    if quotes != [] {
      var t := quotes[1..];
      FlattenedRecords(t);
      forall i | 1 <= i < |quotes| ensures Flattened(quotes).value[i] == FlattenQuote(quotes[i]).value {
        assert quotes[i] == t[i - 1];
      }
    }
  }

  /** The `for q in quotes` loop of `_to_csv` and `_to_excel`. */
  method FlattenQuotes(quotes: seq<Record>) returns (r: Result<seq<Record>>)
    ensures r == Flattened(quotes)
  {
    var flat: seq<Record> := [];
    assert quotes[0..] == quotes;
    PrependNothing(Flattened(quotes));
    for i := 0 to |quotes|
      invariant Flattened(quotes) == Prepend(flat, Flattened(quotes[i..]))
    {
      var q := FlattenQuote(quotes[i]);
      assert quotes[i..][1..] == quotes[i + 1..];
      if q.Err? {
        return Err(q.error);
      }
      PrependTwice(flat, [q.value], Flattened(quotes[i + 1..]));
      flat := flat + [q.value];
    }
    assert quotes[|quotes|..] == [];
    PrependEmpty(flat);
    return Ok(flat);
  }

  /** `_to_csv`: no quotes give the empty text; otherwise the flattened quotes under the first one's keys. */
  function QuotesCsv(quotes: seq<Record>): Result<Csv>
  {
    if quotes == [] then Ok(EmptyCsv)
    else
      match Flattened(quotes)
      case Err(e) => Err(e)
      case Ok(flat) => ToCsv(flat)
  }

  /**
   * The end of `get`: CSV of the flattened quotes, a spreadsheet of the flattened quotes, or
   * (for any other format) JSON of the quotes as parsed, tags still a list.
   */
  function QuotesExport(format: string, quotes: seq<Record>): (p: Result<Payload>)
    ensures format != "csv" && format != "excel" ==> p == Ok(Json(quotes))
    ensures format == "excel" ==> p == (match Flattened(quotes) case Ok(f) => Ok(Workbook(f)) case Err(e) => Err(e))
    ensures format == "csv" && quotes == [] ==> p == Ok(CsvText(EmptyCsv))
    ensures format == "csv" && quotes != [] ==>
      p == (match Flattened(quotes) case Ok(f) => (match ToCsv(f) case Ok(c) => Ok(CsvText(c)) case Err(e) => Err(e))
                                    case Err(e) => Err(e))
  {
    if format == "csv" then
      match QuotesCsv(quotes)
      case Ok(c) => Ok(CsvText(c))
      case Err(e) => Err(e)
    else if format == "excel" then
      match Flattened(quotes)
      case Ok(f) => Ok(Workbook(f))
      case Err(e) => Err(e)
    else Ok(Json(quotes))
  }

  /** The export step at the end of `get`. */
  method ExportQuotes(format: string, allQuotes: seq<Record>) returns (r: Result<Payload>)
    ensures r == QuotesExport(format, allQuotes)
  {
    if format == "csv" {
      if allQuotes == [] {
        return Ok(CsvText(EmptyCsv));
      }
      var flat := FlattenQuotes(allQuotes);
      if flat.Err? {
        return Err(flat.error);
      }
      var c := ToCsv(flat.value);
      if c.Err? {
        return Err(c.error);
      }
      return Ok(CsvText(c.value));
    } else if format == "excel" {
      var flat := FlattenQuotes(allQuotes);
      if flat.Err? {
        return Err(flat.error);
      }
      return Ok(Workbook(flat.value));
    }
    return Ok(Json(allQuotes));
  }

  /**
   * `get(html)`: non-empty `html` is parsed with no fetching, otherwise the pages are walked;
   * the quotes are then exported in the scraper's format.
   */
  method Get(s: QuotesScraper, html: Option<seq<QuoteDiv>>, site: seq<Page<QuoteDiv>>) returns (r: Result<Payload>)
    ensures html.Some? ==> r == QuotesExport(s.outputFormat, ParseQuotes(html.value))
    ensures html.None? ==> (QuotesWalk(ParseQuotes, site, 1, s.pages).outcome.Ok?
      && r == QuotesExport(s.outputFormat, QuotesWalk(ParseQuotes, site, 1, s.pages).outcome.value))
  {
    var allQuotes: seq<Record>;
    if html.Some? {
      allQuotes := Parse(html.value);
    } else {
      allQuotes := CollectPages(s, site);
    }
    r := ExportQuotes(s.outputFormat, allQuotes);
  }

  // ---------------------------------------------------------------- what the page loop promises

  /** The quotes of page `p` (none when it fails). */
  function PageQuotes(parse: Parser, site: seq<Page<QuoteDiv>>, p: int): seq<Record>
  {
    if PageAt(site, p).Fetched? then parse(PageAt(site, p).containers) else []
  }

  /** The quotes of the `n` pages from page `j` on, page by page. */
  function QuotesOfPages(parse: Parser, site: seq<Page<QuoteDiv>>, j: int, n: int): seq<Record>
    decreases n
  {
    if n <= 0 then [] else PageQuotes(parse, site, j) + QuotesOfPages(parse, site, j + 1, n - 1)
  }

  /** Page `p` lets the loop go on: it loads, holds quotes, is below the requested count and links to a next page. */
  predicate Continues(parse: Parser, site: seq<Page<QuoteDiv>>, pages: Option<int>, p: int)
  {
    && PageAt(site, p).Fetched?
    && parse(PageAt(site, p).containers) != []
    && !(Limited(pages) && p >= pages.value)
    && PageAt(site, p).hasNext
  }

  /** The number of pages whose quotes a run kept: all it fetched, except a last page that failed or was empty. */
  function Gathered(w: Walk): int
  {
    if w.stop == FetchFailed || w.stop == EmptyPage then w.fetched - 1 else w.fetched
  }

  lemma {:induction false} QuotesWalkOutcomeFrom(parse: Parser, site: seq<Page<QuoteDiv>>, pages: Option<int>, j: int)
    ensures Gathered(QuotesWalk(parse, site, j, pages)) >= 0
    ensures QuotesWalk(parse, site, j, pages).outcome
      == Ok(QuotesOfPages(parse, site, j, Gathered(QuotesWalk(parse, site, j, pages))))
    decreases MaxPages(pages) - j
  {
    var w := QuotesWalk(parse, site, j, pages);
    if j <= MaxPages(pages) && PageAt(site, j).Fetched? {
      var quotes := parse(PageAt(site, j).containers);
      if quotes == [] {
        assert w == Walk(Ok([]), 1, EmptyPage);
      } else if (Limited(pages) && j >= pages.value) || !PageAt(site, j).hasNext {
        assert w.outcome == Ok(quotes) && Gathered(w) == 1;
        assert QuotesOfPages(parse, site, j, 1) == quotes + QuotesOfPages(parse, site, j + 1, 0);
        assert quotes + [] == quotes;
      } else {
        QuotesWalkOutcomeFrom(parse, site, pages, j + 1);
        var rest := QuotesWalk(parse, site, j + 1, pages);
        assert w == Walk(Prepend(quotes, rest.outcome), rest.fetched + 1, rest.stop);
        assert Gathered(w) == Gathered(rest) + 1;
      }
    } else {
      assert w.outcome == Ok([]) && Gathered(w) == 0;
    }
  }

  /** From page `j` the walk never raises and fetches at most the pages left before the cap. */
  lemma {:induction false} QuotesWalkCount(parse: Parser, site: seq<Page<QuoteDiv>>, pages: Option<int>, j: int)
    ensures QuotesWalk(parse, site, j, pages).stop != Raised
    ensures QuotesWalk(parse, site, j, pages).fetched <= (if j <= MaxPages(pages) then MaxPages(pages) - j + 1 else 0)
    decreases MaxPages(pages) - j
  {
    if j <= MaxPages(pages) && PageAt(site, j).Fetched? {
      var quotes := parse(PageAt(site, j).containers);
      if quotes != [] && !(Limited(pages) && j >= pages.value) && PageAt(site, j).hasNext {
        QuotesWalkCount(parse, site, pages, j + 1);
      }
    }
  }

  lemma {:induction false} QuotesWalkStopFrom(parse: Parser, site: seq<Page<QuoteDiv>>, pages: Option<int>, j: int)
    ensures var w := QuotesWalk(parse, site, j, pages);
      var last := j + w.fetched - 1;
      && (forall p :: j <= p < last ==> Continues(parse, site, pages, p))
      && (w.stop == PastCap ==> last == MaxPages(pages) || (w.fetched == 0 && j > MaxPages(pages)))
      && (w.stop != PastCap ==> w.fetched >= 1)
      && (w.stop == FetchFailed ==> PageAt(site, last).FetchError?)
      && (w.stop == EmptyPage ==> PageAt(site, last).Fetched? && parse(PageAt(site, last).containers) == [])
      && (w.stop == PageLimit ==> (Limited(pages) && last >= pages.value
            && PageAt(site, last).Fetched? && parse(PageAt(site, last).containers) != []))
      && (w.stop == NoNextLink ==> (PageAt(site, last).Fetched? && !PageAt(site, last).hasNext
            && parse(PageAt(site, last).containers) != [] && !(Limited(pages) && last >= pages.value)))
    decreases MaxPages(pages) - j
  {
    if j <= MaxPages(pages) && PageAt(site, j).Fetched? {
      var quotes := parse(PageAt(site, j).containers);
      if quotes != [] && !(Limited(pages) && j >= pages.value) && PageAt(site, j).hasNext {
        QuotesWalkStopFrom(parse, site, pages, j + 1);
        assert Continues(parse, site, pages, j);
      }
    }
  }

  /**
   * What the quotes page loop returns and why it stopped: it walks pages 1, 2, ... while each
   * page loads, holds quotes, is below the requested count (or 100) and links to a next page;
   * it returns the quotes of every page it kept, in page order, and never raises.
   */
  lemma {:induction false} QuotesPagination(parse: Parser, site: seq<Page<QuoteDiv>>, pages: Option<int>)
    ensures var w := QuotesWalk(parse, site, 1, pages);
      && w.outcome == Ok(QuotesOfPages(parse, site, 1, Gathered(w)))
      && w.fetched <= (if MaxPages(pages) > 0 then MaxPages(pages) else 0)
      && (forall p :: 1 <= p < w.fetched ==> Continues(parse, site, pages, p))
      && (w.stop == FetchFailed ==> PageAt(site, w.fetched).FetchError?)
      && (w.stop == EmptyPage ==> PageAt(site, w.fetched).Fetched? && parse(PageAt(site, w.fetched).containers) == [])
      && (w.stop == PageLimit ==> Limited(pages) && w.fetched == pages.value)
      && (w.stop == NoNextLink ==>
            PageAt(site, w.fetched).Fetched? && !PageAt(site, w.fetched).hasNext
            && !(Limited(pages) && w.fetched >= pages.value))
      && (w.stop == PastCap ==> w.fetched == (if MaxPages(pages) > 0 then MaxPages(pages) else 0))
      && w.stop != Raised
  {
    QuotesWalkOutcomeFrom(parse, site, pages, 1);
    QuotesWalkCount(parse, site, pages, 1);
    QuotesWalkStopFrom(parse, site, pages, 1);
  }

  // ---------------------------------------------------------------- what the export promises

  /** Every record of `rs` has the quote shape. */
  predicate AllQuotes(rs: seq<Record>)
  {
    forall i :: 0 <= i < |rs| ==> IsQuoteRecord(rs[i])
  }

  /** Whatever the quotes page loop (or `parse`) returns has the quote shape. */
  lemma {:induction false} QuotesWalkShape(site: seq<Page<QuoteDiv>>, pages: Option<int>, j: int)
    ensures QuotesWalk(ParseQuotes, site, j, pages).outcome.Ok?
    ensures AllQuotes(QuotesWalk(ParseQuotes, site, j, pages).outcome.value)
    decreases MaxPages(pages) - j
  {
    var w := QuotesWalk(ParseQuotes, site, j, pages).outcome;
    if j <= MaxPages(pages) && PageAt(site, j).Fetched? {
      var quotes := ParseQuotes(PageAt(site, j).containers);
      assert AllQuotes(quotes);
      if quotes == [] || (Limited(pages) && j >= pages.value) || !PageAt(site, j).hasNext {
        assert w == Ok(quotes);
      } else {
        QuotesWalkShape(site, pages, j + 1);
        var rest := QuotesWalk(ParseQuotes, site, j + 1, pages).outcome;
        assert w == Prepend(quotes, rest);
        AllQuotesConcat(quotes, rest.value);
      }
    } else {
      assert w == Ok([]);
    }
  }

  /** Two runs of quote records together are quote records. */
  lemma {:induction false} AllQuotesConcat(a: seq<Record>, b: seq<Record>)
    requires AllQuotes(a) && AllQuotes(b)
    ensures AllQuotes(a + b)
  {
    forall i | 0 <= i < |a + b| ensures IsQuoteRecord((a + b)[i]) {
      if i < |a| {
        assert (a + b)[i] == a[i];
      } else {
        assert (a + b)[i] == b[i - |a|];
      }
    }
  }

  /** The flattened copy of a quote record: the same four keys, the tags joined into one string. */
  lemma {:induction false} FlattenQuoteRecord(q: Record)
    requires IsQuoteRecord(q)
    ensures FlattenQuote(q).Ok?
    ensures FlattenQuote(q).value
      == q[..3] + [Entry("tags", Str(Join(Strings(q[3].val.items), TagSeparator)))]
  {
    QuoteKeysDistinct(q);
    assert Keys(q)[3] == q[3].key;
    LookupAt(q, 3);
    var t := Str(JoinTags(q[3].val).value);
    PutAt(q, 3, t);
    assert q[3 := Entry("tags", t)] == q[..3] + [Entry("tags", t)];
  }

  /** A record with the quote keys has distinct keys. */
  lemma {:induction false} QuoteKeysDistinct(r: Record)
    requires Keys(r) == QuoteFields
    ensures DistinctKeys(r)
  {
    forall a, b | 0 <= a < b < |r| ensures r[a].key != r[b].key {
      assert r[a].key == QuoteFields[a] && r[b].key == QuoteFields[b];
    }
  }

  /** A parsed quote flattens to a record with the quote keys whose values are its CSV row. */
  lemma {:induction false} FlatQuoteRow(q: Record)
    requires IsQuoteRecord(q)
    ensures FlattenQuote(q).Ok?
    ensures Keys(FlattenQuote(q).value) == QuoteFields
    ensures Values(FlattenQuote(q).value)
      == [q[0].val, q[1].val, q[2].val, Str(JoinTags(q[3].val).value)]
  {
    FlattenQuoteRecord(q);
    var f := FlattenQuote(q).value;
    var tags := Str(Join(Strings(q[3].val.items), TagSeparator));
    assert f == q[..3] + [Entry("tags", tags)];
    assert f[0] == q[0] && f[1] == q[1] && f[2] == q[2] && f[3] == Entry("tags", tags);
    var ks := Keys(q);
    assert ks[0] == q[0].key && ks[1] == q[1].key && ks[2] == q[2].key;
    FourEntries(f);
  }

  /**
   * Quote records export to CSV without raising: no quotes give the empty text, and
   * otherwise the header is the four quote keys and each row is the quote's text, author,
   * author URL and its tags joined by ", ".
   */
  lemma {:induction false} QuotesCsvLayout(quotes: seq<Record>)
    requires AllQuotes(quotes)
    ensures QuotesCsv(quotes).Ok?
    ensures quotes == [] ==> QuotesCsv(quotes).value == EmptyCsv
    ensures quotes != [] ==> (QuotesCsv(quotes).value.Table?
      && QuotesCsv(quotes).value.header == QuoteFields
      && |QuotesCsv(quotes).value.rows| == |quotes|
      && forall i :: 0 <= i < |quotes| ==> (QuotesCsv(quotes).value.rows[i]
        == [quotes[i][0].val, quotes[i][1].val, quotes[i][2].val, Str(JoinTags(quotes[i][3].val).value)]))
  {
    if quotes != [] {
      forall i | 0 <= i < |quotes| ensures FlattenQuote(quotes[i]).Ok? {
        FlatQuoteRow(quotes[i]);
      }
      var flat := Flattened(quotes).value;
      FlattenedRecords(quotes);
      forall i | 0 <= i < |quotes|
        ensures Keys(flat[i]) == QuoteFields
        ensures Values(flat[i]) == [quotes[i][0].val, quotes[i][1].val, quotes[i][2].val, Str(JoinTags(quotes[i][3].val).value)]
      {
        FlatQuoteRow(quotes[i]);
      }
      QuoteKeysDistinct(flat[0]);
      CsvRoundTrip(flat);
      assert QuotesCsv(quotes) == ToCsv(flat);
    }
  }

  /**
   * The csv branch of `get` for quotes from the page loop: it never raises; no quotes give
   * the empty document, and otherwise the quote fields head the table and each quote's row
   * is its text, author, author URL and joined tags, in order.
   */
  lemma {:induction false} QuotesCsvExport(quotes: seq<Record>)
    requires AllQuotes(quotes)
    ensures QuotesExport("csv", quotes).Ok? && QuotesExport("csv", quotes).value.CsvText?
    ensures quotes == [] ==> QuotesExport("csv", quotes) == Ok(CsvText(EmptyCsv))
    ensures quotes != [] ==> (QuotesExport("csv", quotes).value.csv.Table?
      && QuotesExport("csv", quotes).value.csv.header == QuoteFields
      && |QuotesExport("csv", quotes).value.csv.rows| == |quotes|
      && forall i :: 0 <= i < |quotes| ==> (QuotesExport("csv", quotes).value.csv.rows[i]
        == [quotes[i][0].val, quotes[i][1].val, quotes[i][2].val, Str(JoinTags(quotes[i][3].val).value)]))
  {
    QuotesCsvLayout(quotes);
  }
}
