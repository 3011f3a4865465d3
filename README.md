# Web Data Extractor: a verified model of the scraping core

This project models, in Dafny, the deterministic core of the Web Data Extractor scrapers.

- **BooksScraper** walks the category pages of books.toscrape.com. It turns each `article.product_pod` card into a book record: title, price text, parsed price, star rating, stock flag and URL.
- **QuotesScraper** walks quotes.toscrape.com, optionally filtered by a normalised tag. It turns each `div.quote` into a record of text, author, author URL and tags.
- **OscarsScraper** asks the scrapethissite.com AJAX endpoint for the films of one ceremony year, or of every year from 2010 to 2015. It cleans each film into five fields.

Each scraper exports what it gathered as JSON, as CSV (header from the first record's keys) or as a spreadsheet. Any other format name falls back to JSON.

Three more pieces are modelled:
- **`BaseScraper`** holds the session headers and the optional proxy, builds per-request headers, and bounds the number of fetch attempts. Its `run` gathers the items of every URL and swallows per-URL failures.
- **`DataPipeline`** runs its processors as a left fold.
- **The command line's `format_output`** formats the books.

## How the model is built

The network and the HTML parser are replaced by inputs:
- A site is a sequence of `Page`s. Each page is either `FetchError` (a request exception, which is also what any page past the end gives) or `Fetched(containers, hasNext)`.
- A container is a record of optional sub-elements. Each element has its text, its attribute map and its class list.
- The Oscars endpoint is a function from a year to `RequestFailed` or the decoded film list.
- `BaseScraper.run` gets, per URL, the answers to successive fetch attempts, and a parse function.

Python exceptions that escape a call are `Err` values of `Result`. Dicts are entry sequences in insertion order.

How each kind of source code is modelled:
- **Page loops** (`get`, `run`, `process`, `parse`, the tag flattening) are methods with loops. Each is proved equal to a specification function:
  - `CategoryWalk` for books and `QuotesWalk` for quotes. These also report how many pages were fetched and which exit fired, so the order of the exits is observable.
  - `FilmsOfYears` for Oscars, `Harvest` for `run`, and `Apply` for the pipeline.
- **Page-loop properties** are lemmas about those functions: concatenation of pages in order, the stop rules, the bounds on fetched pages, and how errors propagate.
- **Field normalisers** are functions whose contracts state the field-level promises.
- **`BaseScraper` and `DataPipeline`** are classes, because their fields are assigned. The three scrapers never change their settings after construction, so they are datatypes built by constructor functions.

Behaviour of the code that the model keeps:
- **Quotes stop order.** The quotes loop checks the page limit before the "next" link, so a last page that reaches the limit and has no next link stops on the limit.
- **No category resolver.** The books category is used verbatim, with only `books_1` as the default. No name-to-slug lookup exists, so an unknown category is never rejected.
- **Errors that escape `get`.** Request exceptions are swallowed page by page or year by year, but two other errors leave `get`:
  - a price token `float()` cannot convert (`ValueError`);
  - a film that is not an object or has a non-string title (`AttributeError`).
- **Tag joining.** The quotes exporters join each record's `tags` and raise `TypeError` when that is not a list of strings. Records from `_parse_quote` always carry a list of strings, so this can only happen when the exporters are given records built elsewhere.
- **Unknown formats.** An unknown output format is not an error: every exporter falls back to JSON.
- **No retry in the live scrapers.** Only `BaseScraper.fetch` retries. The three site scrapers fetch once per page or year.

## Model

| member | source | states |
|---|---|---|
| Text.StripShape | src/scrapers/oscars_scraper.py:114 | `strip` keeps one contiguous slice of the input; everything cut off on either side is in the stripped set, and neither end of a non-empty result is |
| Text.StripIdempotent | src/scrapers/quotes_scraper.py:53 | stripping a character set twice is stripping it once |
| Text.StripEmptyIff | src/scrapers/quotes_scraper.py:122-123 | a strip is empty exactly when every character is in the stripped set |
| Text.LowerStrip | src/scrapers/quotes_scraper.py:53 | lower-casing commutes with stripping whitespace |
| Text.IntRoundTrip | src/scrapers/oscars_scraper.py:82 | `str(n)` read back as a decimal gives `n` again, so the year in a URL or message is recoverable |
| Records.UpdateLookup | src/scrapers/base.py:24 | after `d.update(u)` a key of `u` finds its value in `u` and every other key what it found in `d` |
| Records.PutAt | src/scrapers/quotes_scraper.py:173-174 | assigning an existing key of a copy replaces that entry in place and changes nothing else |
| Export.ToCsv | src/scrapers/books_scraper.py:204-221 | no records give the empty document; otherwise the header is the first record's keys and there is one row per record in order, and a record with a key outside the header raises |
| Export.CsvRoundTrip | src/scrapers/oscars_scraper.py:121-138 | records sharing one key list export to rows that are their values, and reading a row back under the header gives the record |
| Export.Dispatch | src/scrapers/books_scraper.py:287-292 | csv exports CSV, excel a workbook of the records, and every other format JSON |
| Books.NewScraper | src/scrapers/books_scraper.py:62 | a missing or empty category becomes `books_1`; any other is kept verbatim |
| Books.BuildUrlPages | src/scrapers/books_scraper.py:37-75 | `BuildUrl` fills the category template with `str(page)`, and different pages give different URLs |
| Books.PriceToken | src/scrapers/books_scraper.py:166 | no token exactly when no digit or dot occurs; otherwise the leftmost maximal run of digits and dots |
| Books.ToFloat | src/scrapers/books_scraper.py:168 | the token converts exactly when it has a digit and at most one dot, otherwise a `ValueError`; the number is non-negative and, shifted left by the count of fraction digits, equals the number its digits spell |
| Books.ToFloatWhole | src/scrapers/books_scraper.py:168 | `float(str(n))` is `n` |
| Books.ToFloatWholeFrac | src/scrapers/books_scraper.py:168 | `float(str(w) + "." + str(f))` is `w` plus `f` divided by ten once per digit of `f` |
| Books.ParsePrice | src/scrapers/books_scraper.py:154-169 | `None` for a missing or empty price or one without a digit or dot; a `ValueError` exactly for a malformed token; otherwise the non-negative number `float` gives the price token |
| Books.ParsePricePence | src/scrapers/books_scraper.py:154-169 | a price written as "£", the pounds, a dot and two pence digits parses to the price in pence divided by 100 |
| Books.ParsePriceExamples | src/scrapers/books_scraper.py:154-169 | "£51.77" gives 51.77, "N/A" and a missing price give `None`, "1.2.3" raises |
| Books.FirstRating | src/scrapers/books_scraper.py:39-45 | a rating exactly when some class is a rating word; it is the first such class's value, in 1..5 |
| Books.ParseRating | src/scrapers/books_scraper.py:171-187 | a missing element gives `None`; otherwise the first rating word among the classes; any rating is in 1..5 |
| Books.ParseAvailability | src/scrapers/books_scraper.py:189-202 | true exactly when the element exists and its lower-cased text contains "in stock" |
| Books.ParseBook | src/scrapers/books_scraper.py:116-152 | the six book keys in order; title and url `None` without `h3 a`; price text as found; `price_float` is the parsed price and `rating` the parsed rating, each `None` when absent; stock from the availability text; the record exists exactly when the price parses, and the price error otherwise |
| Books.ParseAll | src/scrapers/books_scraper.py:98-114 | every card parses exactly when the page does, one record per card |
| Books.ParseAllRecords | src/scrapers/books_scraper.py:110-112 | the page's records are the cards' records in document order |
| Books.ParseAllFirstError | src/scrapers/books_scraper.py:110-112 | the first card whose price raises decides the page's exception |
| Books.Parse | src/scrapers/books_scraper.py:98-114 | the append loop returns `ParseAll` |
| Books.CollectPages | src/scrapers/books_scraper.py:259-283 | the page loop, for any card parser, returns the outcome of `CategoryWalk` from page 1 (`Get` passes `ParseAll`) |
| Books.Get | src/scrapers/books_scraper.py:239-292 | given HTML is parsed without fetching, else the walk's books; the result is exported by format, and an exception propagates |
| Books.BooksPagination | src/scrapers/books_scraper.py:261-283 | when pages 1..k are good and page k+1 is empty, fails or lies past the limit, the result is pages 1..k concatenated in order, with the pages fetched and the exit that fired |
| Books.BooksParseErrorEscapes | src/scrapers/books_scraper.py:264-283 | a price error on page k after good pages leaves the loop as that exception, since it is not a request exception |
| Books.BooksFetchBound | src/scrapers/books_scraper.py:261-263 | at most `pages` pages are fetched, at most 100 without a page count, and none for a negative count |
| Books.ParsedBooks | src/scrapers/books_scraper.py:145-152 | every parsed record has the book shape |
| Books.WalkShapeFrom | src/scrapers/books_scraper.py:263-279 | a walk whose pages parse to book records gathers only book records |
| Books.BookRecordsCsv | src/scrapers/books_scraper.py:204-221 | books export to CSV without error: empty for none, else the book fields as header and each book's values as its row |
| Books.BooksCsvLayout | src/scrapers/books_scraper.py:287-288 | what the walk gathers is all books and exports to CSV without error |
| Quotes.NormalizeTag | src/scrapers/quotes_scraper.py:53 | a missing or empty tag is no tag; otherwise the lower-cased, stripped tag, with no capital letter and no whitespace at its ends |
| Quotes.NormalizeTagIdempotent | src/scrapers/quotes_scraper.py:53 | normalising again keeps a non-empty normalised tag; the empty tag left by a whitespace-only tag becomes no tag (`if tag` is false for it), and no tag stays no tag |
| Quotes.NewScraper | src/scrapers/quotes_scraper.py:38-55 | the stored tag is the normalised tag; pages and format are kept |
| Quotes.BuildUrlPages | src/scrapers/quotes_scraper.py:57-68 | `BuildUrl` gives different pages different URLs |
| Quotes.WhitespaceTagIsUntagged | src/scrapers/quotes_scraper.py:53-68 | a whitespace-only tag is stored as "" and gives the untagged URL |
| Quotes.QuoteText | src/scrapers/quotes_scraper.py:119-123 | `None` exactly without a text span; otherwise the text stripped of quotation marks at both ends, which by `Text.StripShape` is the one middle slice of the text with only marks cut off either side; it neither starts nor ends with a mark, and is empty only when the text was all marks |
| Quotes.TagTexts | src/scrapers/quotes_scraper.py:133-135 | one tag text per tag element, in document order |
| Quotes.ParseQuote | src/scrapers/quotes_scraper.py:109-142 | the four quote keys in order, with text, author, author URL (`None` when missing) and the tag list |
| Quotes.Parse | src/scrapers/quotes_scraper.py:91-107 | the append loop gives one record per `div.quote`, in order |
| Quotes.CollectPages | src/scrapers/quotes_scraper.py:226-251 | the page loop never raises and returns what `QuotesWalk` gathers from page 1 |
| Quotes.QuotesPagination | src/scrapers/quotes_scraper.py:228-251 | the result is pages 1..k in order; every earlier page continued; at most the page count or 100 pages; each exit's reason holds of the last page, and a stop for a missing next link happens only below the page limit, since the limit is checked first |
| Quotes.QuotesWalkShape | src/scrapers/quotes_scraper.py:230-247 | the walk always succeeds and gathers only quote records |
| Quotes.JoinTags | src/scrapers/quotes_scraper.py:174 | a list of strings joins with ", "; a list with a non-string or a scalar raises `TypeError` |
| Quotes.FlattenQuote | src/scrapers/quotes_scraper.py:172-175 | the copy keeps its keys and entries except `tags`, which becomes the joined string; no `tags` key raises `KeyError` |
| Quotes.FlattenQuoteRecord | src/scrapers/quotes_scraper.py:172-175 | a parsed quote flattens to its first three entries and the joined tags |
| Quotes.Flattened | src/scrapers/quotes_scraper.py:171-175 | all flatten exactly when each does, and then there is one copy per quote |
| Quotes.FlattenedRecords | src/scrapers/quotes_scraper.py:171-175 | the i-th flattened copy is the i-th quote flattened |
| Quotes.FlattenQuotes | src/scrapers/quotes_scraper.py:195-199 | the copy-and-append loop returns `Flattened` |
| Quotes.QuotesCsvLayout | src/scrapers/quotes_scraper.py:157-181 | empty for no quotes, else the quote fields as header and a row of text, author, URL and joined tags per quote |
| Quotes.QuotesExport | src/scrapers/quotes_scraper.py:253-260 | excel exports the flattened quotes; csv of nothing is empty, and csv of quotes is the CSV of the flattened quotes or the flattening error; every other format is JSON |
| Quotes.QuotesCsvExport | src/scrapers/quotes_scraper.py:157-181 | the csv export of parsed quotes (`QuotesCsv`) never raises: empty for none, else the quote fields as header and one row of text, author, URL and joined tags per quote, in order |
| Quotes.ExportQuotes | src/scrapers/quotes_scraper.py:253-260 | the dispatch returns `QuotesExport` |
| Quotes.Get | src/scrapers/quotes_scraper.py:206-260 | given HTML is parsed without fetching, else the walk's quotes; the result is exported by format |
| Oscars.ValidateYear | src/scrapers/oscars_scraper.py:57-71 | no error exactly for 2010..2015; otherwise a `ValueError` naming the year and listing the available years |
| Oscars.AvailableTextIs | src/scrapers/oscars_scraper.py:67 | the list in the message is "2010, 2011, 2012, 2013, 2014, 2015" |
| Oscars.NewScraper | src/scrapers/oscars_scraper.py:37-55 | construction succeeds exactly for no year or an available year, and fails with the validation error otherwise |
| Oscars.YearsToFetchAvailable | src/scrapers/oscars_scraper.py:171 | `YearsToFetch` of a constructed scraper is `[year]` or all six years in order, and only available years |
| Oscars.BuildUrlYears | src/scrapers/oscars_scraper.py:73-82 | `BuildUrl` starts with the base URL, and different years give different URLs |
| Oscars.CleanFilm | src/scrapers/oscars_scraper.py:104-119 | cleaning succeeds exactly for an object whose title is absent or a string; a non-object raises `AttributeError` about `get` |
| Oscars.CleanFilmRecord | src/scrapers/oscars_scraper.py:113-119 | the five film keys in order; title stripped (default ""); year, awards, nominations and best_picture as given, or `None`, 0, 0 and `False` |
| Oscars.CleanFilmIdempotent | src/scrapers/oscars_scraper.py:104-119 | cleaning a cleaned film changes nothing |
| Oscars.CleanAll | src/scrapers/oscars_scraper.py:176 | all clean exactly when each does, one record per film |
| Oscars.CleanAllRecords | src/scrapers/oscars_scraper.py:176 | the cleaned films are the films' cleaned records, in order |
| Oscars.Get | src/scrapers/oscars_scraper.py:156-189 | the year loop returns `FilmsOfYears` of the years to fetch, exported by format |
| Oscars.FilmsOfYearsConcat | src/scrapers/oscars_scraper.py:173-180 | without a cleaning error, the result is every year's cleaned films in year order, with failed years contributing nothing |
| Oscars.FilmsOfYearsRaises | src/scrapers/oscars_scraper.py:173-180 | the first year whose films cannot be cleaned ends `get` with that exception |
| Oscars.FilmsOfYearsKeys | src/scrapers/oscars_scraper.py:173-177 | every gathered film has exactly the film keys |
| Oscars.FilmsCsvLayout | src/scrapers/oscars_scraper.py:121-138 | gathered films export to CSV: empty for none, else the film fields as header and each film's values as its row |
| Base.AttemptLimit | src/scrapers/base.py:37-40 | at least one attempt and never fewer than `MAX_RETRIES`, exactly `MAX_RETRIES` when it is positive |
| Base.FirstFrom | src/scrapers/base.py:37-50 | `FetchWithRetry` (the first success among the allowed attempts) gives a document exactly when some allowed attempt succeeds, and then the first successful one |
| Base.DefaultAttempts | config/settings.py:38 | with the default setting a fetch succeeds exactly when one of the first three attempts does |
| Base.HarvestAppend | src/scrapers/base.py:62-73 | running two URL lists in turn gathers both harvests in order |
| Base.HarvestSkipsFailure | src/scrapers/base.py:66-72 | a URL whose fetch gives up or whose parse raises adds nothing; earlier items are kept and later URLs still scraped |
| Base.SessionHasDefaults | src/scrapers/base.py:23-24 | the session sends every default header with its default value |
| Base.BaseScraper.constructor | src/scrapers/base.py:22-29 | headers are the library's updated with the defaults; proxies are set for http and https alike only when a proxy URL is set |
| Base.BaseScraper.GetHeaders | src/scrapers/base.py:31-35 | without random User-Agents the headers are the defaults with no User-Agent; with them, every default in order plus the given User-Agent |
| Base.BaseScraper.Fetch | src/scrapers/base.py:37-50 | the first successful attempt's document, after at least one and at most the allowed attempts, all earlier ones failed; a give-up only after every allowed attempt |
| Base.BaseScraper.Run | src/scrapers/base.py:62-73 | the URL loop returns `Harvest`: each URL's parsed items, in URL order |
| Pipeline.ApplySnoc | src/pipelines/data_pipeline.py:12-23 | after adding a processor, processing applies it to what the earlier processors produced |
| Pipeline.ApplyConcat | src/pipelines/data_pipeline.py:17-23 | processing with two processor lists in turn is processing with their concatenation |
| Pipeline.ApplyThree | src/pipelines/data_pipeline.py:17-23 | three processors run as `p3(p2(p1(data)))` |
| Pipeline.DataPipeline.constructor | src/pipelines/data_pipeline.py:9-10 | a new pipeline has no processors, so processing returns its input |
| Pipeline.DataPipeline.AddProcessor | src/pipelines/data_pipeline.py:12-15 | the processor is appended at the end and the same pipeline is returned |
| Pipeline.DataPipeline.Process | src/pipelines/data_pipeline.py:17-23 | the loop returns the processors' left fold over the data and changes no field |
| Cli.FormatOutput | main.py:70-106 | empty input gives "[]" for json and "" otherwise, writing nothing; a file is written exactly for non-empty input and excel; any other non-empty case matches the shared dispatch, so unknown formats are JSON |
| Cli.BooksCsvOutput | main.py:89-94 | scraped books format as CSV with the book fields as header and each book's values as a row, in order |
| Cli.SavedMessageInjective | main.py:104 | the excel confirmation names the count: different counts give different messages |

## Left out

- Network I/O. Covers `requests` sessions and `get`, `raise_for_status`, `response.json`, timeouts and the request delay. Pages, years and fetch attempts are inputs instead.
- HTML parsing. BeautifulSoup selection and `get_text(strip=True)` are replaced by containers of elements that already hold their text, attributes and classes. `_has_next_page` is the page's `hasNext` flag.
- Text serialisation. The text `json.dumps` writes, the cell quoting `csv.DictWriter` applies, and the bytes `pandas` writes to a spreadsheet are library code. Payloads hold the records or rows instead.
- Books.ToFloat: the price is the exact decimal value of the token, not an IEEE double, and the model does not capture rounding.
- Books.ToFloat: Python's `float()` also accepts tokens such as "1e5" or "inf". Those never come out of the digit-and-dot match, so they are not modelled.
- Books.PriceToken: digits are ASCII `0`-`9` only. The pattern `[\d.]` on a Python string also matches every other Unicode decimal digit, which `float()` reads too, so a price such as "£٥١.٧٧" is 51.77 in the source but has only the token "." here and raises `ValueError`.
- Text.Lower: lower-casing covers ASCII letters only. Python's full Unicode case mapping is not modelled.
- Oscars.CleanFilm: the film list must be a JSON array. A body that decodes to something else is not modelled, and a body that is not JSON counts as a failed request.
- Oscars.CleanFilm: dict lookups find the first entry with a key. Decoded JSON objects with repeated keys are not modelled.
- The tenacity backoff delays between attempts are timing only. The User-Agent generator's randomness becomes a parameter of `GetHeaders`.
- `close`, `__enter__` and `__exit__` of `BaseScraper` only manage the session. `get_urls` and `parse` are abstract, so they become parameters of `Run`.
- Base.BaseScraper.constructor: the session header store is case-insensitive, but this model matches header names exactly. The library's own default header names already match `DEFAULT_HEADERS` in case.
- Pipeline.DataPipeline.Process: processors are total functions on values here. Three things are not modelled:
  - a processor that raises;
  - the debug log line, whose message reads `processor.__name__` before logging, so a callable without `__name__` (a `functools.partial`, an object with `__call__`) raises `AttributeError` at any log level;
  - aliasing: the first processor receives the caller's own list, so a processor that changes it in place also changes the caller's data.
- `run_cli`, `parse_args` and `main` in main.py are argument parsing and printing. `run_cli` passes an argument that `BooksScraper.get` does not accept.
- Logging, the FastAPI routers and app, the Pydantic schemas, the environment loading in the settings, and the file export helper do no scraping logic.
