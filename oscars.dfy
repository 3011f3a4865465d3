/** The scrapethissite.com Oscar-films scraper: one JSON request per ceremony year. */
module Oscars {
  import opened Results
  import opened Text
  import opened Records
  import opened Export

  const BaseUrl: string := "https://www.scrapethissite.com/pages/ajax-javascript/"

  /** The ceremony years the site serves, in order. */
  const AvailableYears: seq<int> := [2010, 2011, 2012, 2013, 2014, 2015]

  /** The keys of every cleaned film record, in order. */
  const FilmFields: seq<string> := ["title", "year", "awards", "nominations", "best_picture"]

  /** The scraper's settings; nothing changes them after construction. */
  datatype OscarsScraper = OscarsScraper(year: Option<int>, outputFormat: string)

  /** The available years as the error message lists them. */
  function AvailableText(): string
  {
    Join(seq(|AvailableYears|, i requires 0 <= i < |AvailableYears| => IntToDecimal(AvailableYears[i])), ", ")
  }

  /**
   * `_validate_year`: nothing for an available year; otherwise the `ValueError` that names the
   * year and lists the available ones.
   */
  function ValidateYear(year: int): (r: Option<PyError>)
    ensures r.None? <==> year in AvailableYears
    ensures r.None? <==> 2010 <= year <= 2015
    ensures r.Some? ==> r.value == ValueError("Niepoprawny rok: " + IntToDecimal(year) + ". Dost\U{0119}pne: " + AvailableText())
  {
    assert 2010 <= year <= 2015 ==> AvailableYears[year - 2010] == year;
    if year in AvailableYears then None
    else Some(ValueError("Niepoprawny rok: " + IntToDecimal(year) + ". Dost\U{0119}pne: " + AvailableText()))
  }

  /** The error message lists the six years, comma-separated and in order. */
  lemma {:induction false} AvailableTextIs()
    ensures AvailableText() == "2010" + ", " + "2011" + ", " + "2012" + ", " + "2013" + ", " + "2014" + ", " + "2015"
  {
    var ds := seq(|AvailableYears|, i requires 0 <= i < |AvailableYears| => IntToDecimal(AvailableYears[i]));
    YearDecimal(2010);
    YearDecimal(2011);
    YearDecimal(2012);
    YearDecimal(2013);
    YearDecimal(2014);
    YearDecimal(2015);
    assert ds[0] == "2010" && ds[1] == "2011" && ds[2] == "2012";
    assert ds[3] == "2013" && ds[4] == "2014" && ds[5] == "2015";
    JoinSix(ds, ", ");
  }

  /** Joining six items spells out every item and separator. */
  lemma {:induction false} JoinSix(ds: seq<string>, sep: string)
    requires |ds| == 6
    ensures Join(ds, sep) == ds[0] + sep + ds[1] + sep + ds[2] + sep + ds[3] + sep + ds[4] + sep + ds[5]
  {
    assert Join(ds[5..], sep) == ds[5];
    assert Join(ds[4..], sep) == ds[4] + sep + ds[5] by { assert ds[4..][1..] == ds[5..]; }
    assert Join(ds[3..], sep) == ds[3] + sep + Join(ds[4..], sep) by { assert ds[3..][1..] == ds[4..]; }
    assert Join(ds[2..], sep) == ds[2] + sep + Join(ds[3..], sep) by { assert ds[2..][1..] == ds[3..]; }
    assert Join(ds[1..], sep) == ds[1] + sep + Join(ds[2..], sep) by { assert ds[1..][1..] == ds[2..]; }
  }

  /** `str(y)` for an available year: "201" and the last digit. */
  lemma {:induction false} YearDecimal(y: int)
    requires 2010 <= y <= 2015
    ensures IntToDecimal(y) == "201" + [DigitChar(y - 2010)]
  {
    assert NatToDecimal(201) == "201" by {
      assert NatToDecimal(20) == "20" by {
        assert NatToDecimal(2) == "2";
      }
    }
    assert NatToDecimal(y) == NatToDecimal(y / 10) + [DigitChar(y % 10)];
  }

  /** `OscarsScraper(year, output_format)`: a given year must be available, or construction raises. */
  function NewScraper(year: Option<int>, outputFormat: string): (r: Result<OscarsScraper>)
    ensures r.Ok? <==> year.None? || year.value in AvailableYears
    ensures r.Ok? ==> r.value == OscarsScraper(year, outputFormat)
    ensures r.Err? ==> r.error == ValidateYear(year.value).value
  {
    if year.Some? && ValidateYear(year.value).Some? then Err(ValidateYear(year.value).value)
    else Ok(OscarsScraper(year, outputFormat))
  }

  /** `[self.year] if self.year else AVAILABLE_YEARS`. */
  function YearsToFetch(s: OscarsScraper): seq<int>
  {
    if s.year.Some? && s.year.value != 0 then [s.year.value] else AvailableYears
  }

  /** A constructed scraper asks only for available years: its own year, or all six. */
  lemma {:induction false} YearsToFetchAvailable(year: Option<int>, outputFormat: string)
    requires NewScraper(year, outputFormat).Ok?
    ensures var years := YearsToFetch(NewScraper(year, outputFormat).value);
      && (forall i :: 0 <= i < |years| ==> years[i] in AvailableYears)
      && (year.Some? ==> years == [year.value])
      && (year.None? ==> years == AvailableYears)
  {
  }

  /** `build_url(year)`. */
  function BuildUrl(year: int): string
  {
    BaseUrl + "?ajax=true&year=" + IntToDecimal(year)
  }

  /** The year's URL is the AJAX endpoint with the year as query, and different years have different URLs. */
  lemma {:induction false} BuildUrlYears(p: int, q: int)
    ensures BuildUrl(p)[..|BaseUrl|] == BaseUrl
    ensures BuildUrl(p) == BuildUrl(q) ==> p == q
  {
    if BuildUrl(p) == BuildUrl(q) {
      MiddleCancel(BaseUrl + "?ajax=true&year=", IntToDecimal(p), IntToDecimal(q), "");
      IntToDecimalInjective(p, q);
    }
  }

  /** The answer to one year's request: a request error (including a body that is not JSON), or the decoded film list. */
  datatype YearResponse = RequestFailed | Films(films: seq<Value>)

  /** Python's name for the type of a decoded JSON value. */
  function TypeName(v: Value): string
  {
    match v
    case Null => "NoneType"
    case Bool(_) => "bool"
    case Int(_) => "int"
    case Real(_) => "float"
    case Str(_) => "str"
    case Arr(_) => "list"
    case Obj(_) => "dict"
  }

  /**
   * `_clean_film`: a film object becomes the five film keys, the title stripped of whitespace
   * and missing counts defaulting to 0 and `False`; a film that is not an object, or whose
   * title is present but not a string, raises `AttributeError`.
   */
  function CleanFilm(film: Value): (r: Result<Record>)
    ensures r.Ok? <==> film.Obj? && (Lookup(film.entries, "title").None? || Lookup(film.entries, "title").value.Str?)
    ensures !film.Obj? ==> r == Err(AttributeError("'" + TypeName(film) + "' object has no attribute 'get'"))
    ensures r.Err? ==> r.error.AttributeError?
  {
    match film
    case Obj(entries) =>
      var title := GetOr(entries, "title", Str(""));
      if title.Str? then
        Ok([Entry("title", Str(Strip(title.s, Whitespace))),
            Entry("year", GetOr(entries, "year", Null)),
            Entry("awards", GetOr(entries, "awards", Int(0))),
            Entry("nominations", GetOr(entries, "nominations", Int(0))),
            Entry("best_picture", GetOr(entries, "best_picture", Bool(false)))])
      else
        Err(AttributeError("'" + TypeName(title) + "' object has no attribute 'strip'"))
    case _ => Err(AttributeError("'" + TypeName(film) + "' object has no attribute 'get'"))
  }

  /**
   * A cleaned film has the five film keys in order: the title without surrounding
   * whitespace, the year as given (or `None`), and the counts and flag as given or defaulted.
   */
  lemma {:induction false} CleanFilmRecord(film: Value)
    requires CleanFilm(film).Ok?
    ensures Keys(CleanFilm(film).value) == FilmFields
    ensures var r := CleanFilm(film).value;
      && r[0].val == Str(Strip(GetOr(film.entries, "title", Str("")).s, Whitespace))
      && r[1].val == GetOr(film.entries, "year", Null)
      && r[2].val == GetOr(film.entries, "awards", Int(0))
      && r[3].val == GetOr(film.entries, "nominations", Int(0))
      && r[4].val == GetOr(film.entries, "best_picture", Bool(false))
  {
    var entries := film.entries;
    var title := GetOr(entries, "title", Str(""));
    assert title.Str?;
    var r := [Entry("title", Str(Strip(title.s, Whitespace))),
              Entry("year", GetOr(entries, "year", Null)),
              Entry("awards", GetOr(entries, "awards", Int(0))),
              Entry("nominations", GetOr(entries, "nominations", Int(0))),
              Entry("best_picture", GetOr(entries, "best_picture", Bool(false)))];
    assert CleanFilm(film) == Ok(r);
    FiveKeys(r);
  }

  /** A record keyed by the film fields is those fields paired with its own values. */
  lemma {:induction false} FilmFieldsRecord(c: Record)
    requires Keys(c) == FilmFields
    ensures c == [Entry("title", c[0].val), Entry("year", c[1].val), Entry("awards", c[2].val),
                  Entry("nominations", c[3].val), Entry("best_picture", c[4].val)]
  {
    assert |c| == 5;
    assert c[0].key == "title" && c[1].key == "year" && c[2].key == "awards";
    assert c[3].key == "nominations" && c[4].key == "best_picture";
  }

  /** Cleaning a record keyed by the film fields keeps every value but re-strips the title. */
  lemma {:induction false} CleanFilmFields(c: Record)
    requires Keys(c) == FilmFields && c[0].val.Str?
    ensures CleanFilm(Obj(c))
      == Ok([Entry("title", Str(Strip(c[0].val.s, Whitespace))), Entry("year", c[1].val),
             Entry("awards", c[2].val), Entry("nominations", c[3].val), Entry("best_picture", c[4].val)])
  {
    FilmFieldsDistinct(c);
    assert c[0].key == "title" && c[1].key == "year" && c[2].key == "awards";
    assert c[3].key == "nominations" && c[4].key == "best_picture";
    LookupAt(c, 0);
    LookupAt(c, 1);
    LookupAt(c, 2);
    LookupAt(c, 3);
    LookupAt(c, 4);
  }

  /** Cleaning a cleaned film changes nothing. */
  lemma {:induction false} CleanFilmIdempotent(film: Value)
    requires CleanFilm(film).Ok?
    ensures CleanFilm(Obj(CleanFilm(film).value)) == CleanFilm(film)
  {
    var c := CleanFilm(film).value;
    CleanFilmRecord(film);
    StripIdempotent(GetOr(film.entries, "title", Str("")).s, Whitespace);
    CleanFilmFields(c);
    FilmFieldsRecord(c);
  }

  /** A record keyed by the film fields has distinct keys. */
  lemma {:induction false} FilmFieldsDistinct(c: Record)
    requires Keys(c) == FilmFields
    ensures DistinctKeys(c)
  {
    forall a, b | 0 <= a < b < |c| ensures c[a].key != c[b].key {
      assert c[a].key == FilmFields[a] && c[b].key == FilmFields[b];
    }
  }

  /** `[self._clean_film(f) for f in films]`: every film cleaned, in order, or the first exception. */
  function CleanAll(films: seq<Value>): (r: Result<seq<Record>>)
    ensures r.Ok? <==> forall i :: 0 <= i < |films| ==> CleanFilm(films[i]).Ok?
    ensures r.Ok? ==> |r.value| == |films|
  {
    if films == [] then Ok([])
    else
      match CleanFilm(films[0])
      case Err(e) => Err(e)
      case Ok(c) =>
        var rest := CleanAll(films[1..]);
        CleanAllCons(films, rest.Ok?);
        Prepend([c], rest)
  }

  /** The films after the first all clean exactly when all of them do, given the first does. */
  lemma {:induction false} CleanAllCons(films: seq<Value>, restOk: bool)
    requires films != [] && CleanFilm(films[0]).Ok?
    requires restOk <==> forall i :: 0 <= i < |films| - 1 ==> CleanFilm(films[1..][i]).Ok?
    ensures restOk <==> forall i :: 0 <= i < |films| ==> CleanFilm(films[i]).Ok?
  {
    assert forall i :: 1 <= i < |films| ==> films[i] == films[1..][i - 1];
  }

  /** The cleaned films are the films' cleaned records, one by one. */
  lemma {:induction false} CleanAllRecords(films: seq<Value>)
    requires CleanAll(films).Ok?
    ensures forall i :: 0 <= i < |films| ==> CleanAll(films).value[i] == CleanFilm(films[i]).value
  {
    if films != [] {
      var t := films[1..];
      CleanAllRecords(t);
      forall i | 1 <= i < |films| ensures CleanAll(films).value[i] == CleanFilm(films[i]).value {
        assert films[i] == t[i - 1];
      }
    }
  }

  /**
   * The films `get` gathers for `years`: a failed request skips its year, a film that cannot
   * be cleaned aborts with its exception, and the years' films are kept in year order.
   */
  function FilmsOfYears(api: int -> YearResponse, years: seq<int>): Result<seq<Record>>
  {
    if years == [] then Ok([])
    else
      match api(years[0])
      case RequestFailed => FilmsOfYears(api, years[1..])
      case Films(films) =>
        match CleanAll(films)
        case Err(e) => Err(e)
        case Ok(cleaned) => Prepend(cleaned, FilmsOfYears(api, years[1..]))
  }

  /** `get`: loop over the years, then export in the scraper's format (JSON for any unknown format). */
  method Get(s: OscarsScraper, api: int -> YearResponse) returns (r: Result<Payload>)
    ensures r == ExportOutcome(s.outputFormat, FilmsOfYears(api, YearsToFetch(s)))
  {
    var allFilms: seq<Record> := [];
    var years := YearsToFetch(s);
    assert years[0..] == years;
    PrependNothing(FilmsOfYears(api, years));
    for i := 0 to |years|
      invariant FilmsOfYears(api, years) == Prepend(allFilms, FilmsOfYears(api, years[i..]))
    {
      assert years[i..][1..] == years[i + 1..];
      var response := api(years[i]);
      if response.Films? {
        var cleaned := CleanAll(response.films);
        if cleaned.Err? {
          return Err(cleaned.error);
        }
        PrependTwice(allFilms, cleaned.value, FilmsOfYears(api, years[i + 1..]));
        allFilms := allFilms + cleaned.value;
      }
    }
    assert years[|years|..] == [];
    PrependEmpty(allFilms);
    r := Dispatch(s.outputFormat, allFilms);
  }

  // ---------------------------------------------------------------- what `get` promises

  /** The year's films once cleaned, or none when its request failed. */
  function YearFilms(api: int -> YearResponse, year: int): seq<Record>
  {
    if api(year).Films? && CleanAll(api(year).films).Ok? then CleanAll(api(year).films).value else []
  }

  /** No film of the year raises when cleaned. */
  predicate Cleanable(api: int -> YearResponse, year: int)
  {
    api(year).RequestFailed? || CleanAll(api(year).films).Ok?
  }

  /**
   * When no film raises, `get` gathers the films of each year in the order of the years, a
   * failed year contributing nothing.
   */
  lemma {:induction false} FilmsOfYearsConcat(api: int -> YearResponse, years: seq<int>)
    requires forall i :: 0 <= i < |years| ==> Cleanable(api, years[i])
    ensures FilmsOfYears(api, years) == Ok(Concat(YearParts(api, years)))
  {
    if years != [] {
      var tail := years[1..];
      assert forall i :: 0 <= i < |tail| ==> tail[i] == years[i + 1];
      FilmsOfYearsConcat(api, tail);
      FilmsOfYearsStep(api, years);
      ConcatCons(YearFilms(api, years[0]), YearParts(api, tail));
    }
  }

  /** A first year that cleans contributes its films in front of the rest's. */
  lemma {:induction false} FilmsOfYearsStep(api: int -> YearResponse, years: seq<int>)
    requires years != [] && Cleanable(api, years[0]) && FilmsOfYears(api, years[1..]).Ok?
    ensures FilmsOfYears(api, years) == Ok(YearFilms(api, years[0]) + FilmsOfYears(api, years[1..]).value)
  {
    if api(years[0]).RequestFailed? {
      assert [] + FilmsOfYears(api, years[1..]).value == FilmsOfYears(api, years[1..]).value;
    }
  }

  /** Each year's cleaned films, one list per year, in year order. */
  function YearParts(api: int -> YearResponse, years: seq<int>): (parts: seq<seq<Record>>)
    ensures |parts| == |years|
  {
    if years == [] then [] else [YearFilms(api, years[0])] + YearParts(api, years[1..])
  }

  /** A film that cannot be cleaned, in the first year whose films cannot all be cleaned, leaves `get` as an exception. */
  lemma {:induction false} FilmsOfYearsRaises(api: int -> YearResponse, years: seq<int>, k: int)
    requires 0 <= k < |years|
    requires forall i :: 0 <= i < k ==> Cleanable(api, years[i])
    requires !Cleanable(api, years[k])
    ensures FilmsOfYears(api, years) == Err(CleanAll(api(years[k]).films).error)
  {
    if k > 0 {
      assert forall i :: 0 <= i < k - 1 ==> years[1..][i] == years[i + 1];
      FilmsOfYearsRaises(api, years[1..], k - 1);
      assert Cleanable(api, years[0]);
    }
  }

  /** Every record `get` gathers has the five film keys. */
  lemma {:induction false} FilmsOfYearsKeys(api: int -> YearResponse, years: seq<int>)
    requires FilmsOfYears(api, years).Ok?
    ensures forall i :: 0 <= i < |FilmsOfYears(api, years).value| ==> Keys(FilmsOfYears(api, years).value[i]) == FilmFields
  {
    if years != [] {
      FilmsOfYearsKeys(api, years[1..]);
      var response := api(years[0]);
      if response.Films? {
        var cleaned := CleanAll(response.films).value;
        CleanAllRecords(response.films);
        var rest := FilmsOfYears(api, years[1..]).value;
        forall i | 0 <= i < |cleaned + rest| ensures Keys((cleaned + rest)[i]) == FilmFields {
          if i < |cleaned| {
            assert (cleaned + rest)[i] == CleanFilm(response.films[i]).value;
            CleanFilmRecord(response.films[i]);
          } else {
            assert (cleaned + rest)[i] == rest[i - |cleaned|];
          }
        }
      }
    }
  }

  /**
   * CSV export of the gathered films never raises: no films give the empty document, and
   * otherwise the header is the five film keys and each film's row is its values, in order.
   */
  lemma {:induction false} FilmsCsvLayout(api: int -> YearResponse, years: seq<int>)
    requires FilmsOfYears(api, years).Ok?
    ensures var films := FilmsOfYears(api, years).value;
      && ToCsv(films).Ok?
      && (films == [] ==> ToCsv(films).value == EmptyCsv)
      && (films != [] ==> (ToCsv(films).value.Table? && ToCsv(films).value.header == FilmFields
            && forall i :: 0 <= i < |films| ==> ToCsv(films).value.rows[i] == Values(films[i])))
  {
    var films := FilmsOfYears(api, years).value;
    FilmsOfYearsKeys(api, years);
    if films != [] {
      FilmFieldsDistinct(films[0]);
      CsvRoundTrip(films);
    }
  }
}
