/**
 * `BaseScraper`: the shared session settings (default headers, an optional proxy, a
 * random User-Agent switch), a fetch retried a bounded number of times, and `run`, which
 * scrapes every URL of a generator and keeps whatever succeeded.
 */
module Base {
  import opened Results
  import opened Records

  /** `DEFAULT_HEADERS` from the settings: sent with every request. */
  const DefaultHeaders: Record := [
    Entry("Accept", Str("text/html,application/xhtml+xml,application/xml;q=0.9,*/*;q=0.8")),
    Entry("Accept-Language", Str("en-US,en;q=0.5")),
    Entry("Accept-Encoding", Str("gzip, deflate")),
    Entry("Connection", Str("keep-alive"))
  ]

  /** The default headers never set a User-Agent. */
  lemma {:induction false} UserAgentNotDefault()
    ensures UserAgentKey !in Keys(DefaultHeaders)
  {
    assert Keys(DefaultHeaders) == ["Accept", "Accept-Language", "Accept-Encoding", "Connection"];
  }

  /** The default `MAX_RETRIES` when the environment does not set one. */
  const MaxRetries: int := 3

  const UserAgentKey: string := "User-Agent"

  /** `if PROXY_URL:` — a proxy is configured when the variable is set and not empty. */
  predicate ProxySet(proxyUrl: Option<string>)
  {
    proxyUrl.Some? && proxyUrl.value != ""
  }

  /** The session's proxies when one is configured: the same URL for both schemes. */
  function ProxyMap(url: string): map<string, string>
  {
    map["http" := url, "https" := url]
  }

  /** With a proxy configured, plain and secure requests both go through it, and nothing else is set. */
  lemma {:induction false} ProxyMapBoth(url: string)
    ensures ProxyMap(url).Keys == {"http", "https"}
    ensures ProxyMap(url)["http"] == url && ProxyMap(url)["https"] == url
  {
  }

  /** tenacity's `stop_after_attempt(n)`: the first attempt always runs, and no more than `n` do. */
  function AttemptLimit(maxRetries: int): (n: nat)
    ensures n >= 1 && n >= maxRetries
    ensures maxRetries >= 1 ==> n == maxRetries
  {
    if maxRetries < 1 then 1 else maxRetries
  }

  /**
   * What the network answers to attempt `i` (from 0) at one URL: a parsed document, or a
   * failure (a connection error or an HTTP error status). Attempts past the scripted ones fail.
   */
  function AttemptAt<D>(net: seq<Option<D>>, i: nat): Option<D>
  {
    if i < |net| then net[i] else None
  }

  /** The first document answered by attempts `i` up to (not including) `limit`. */
  function FirstFrom<D>(net: seq<Option<D>>, i: nat, limit: nat): (r: Option<D>)
    ensures r.Some? <==> exists j :: i <= j < limit && AttemptAt(net, j).Some?
    ensures r.Some? ==> exists j :: (i <= j < limit && r == AttemptAt(net, j)
                                     && forall l :: i <= l < j ==> AttemptAt(net, l).None?)
    decreases limit - i
  {
    if i >= limit then None
    else if AttemptAt(net, i).Some? then AttemptAt(net, i)
    else FirstFrom(net, i + 1, limit)
  }

  /** `fetch` under its retry decorator: the first success among the allowed attempts, or a give-up. */
  function FetchWithRetry<D>(net: seq<Option<D>>, maxRetries: int): Option<D>
  {
    FirstFrom(net, 0, AttemptLimit(maxRetries))
  }

  /** What one URL contributes to `run`: the parsed items, or nothing when fetching or parsing raised. */
  function Scraped<D>(net: seq<Option<D>>, parse: D -> Result<seq<Record>>, maxRetries: int): seq<Record>
  {
    match FetchWithRetry(net, maxRetries)
    case None => []
    case Some(doc) => if parse(doc).Ok? then parse(doc).value else []
  }

  /** `run` over the URLs `urls`: each URL's contribution, in URL order. */
  function Harvest<D>(urls: seq<string>, net: string -> seq<Option<D>>, parse: D -> Result<seq<Record>>,
                      maxRetries: int): seq<Record>
  {
    if urls == [] then []
    else Harvest(urls[..|urls| - 1], net, parse, maxRetries) + Scraped(net(urls[|urls| - 1]), parse, maxRetries)
  }

  /** Scraping two runs of URLs one after the other gives both harvests, in order. */
  lemma {:induction false} HarvestAppend<D>(a: seq<string>, b: seq<string>, net: string -> seq<Option<D>>,
                                            parse: D -> Result<seq<Record>>, maxRetries: int)
    ensures Harvest(a + b, net, parse, maxRetries)
         == Harvest(a, net, parse, maxRetries) + Harvest(b, net, parse, maxRetries)
    decreases |b|
  {
    if b == [] {
      assert a + b == a;
    } else {
      var b' := b[..|b| - 1];
      var last := Scraped(net(b[|b| - 1]), parse, maxRetries);
      assert (a + b)[..|a + b| - 1] == a + b';
      assert (a + b)[|a + b| - 1] == b[|b| - 1];
      assert Harvest(a + b, net, parse, maxRetries) == Harvest(a + b', net, parse, maxRetries) + last;
      assert Harvest(b, net, parse, maxRetries) == Harvest(b', net, parse, maxRetries) + last;
      HarvestAppend(a, b', net, parse, maxRetries);
    }
  }

  /**
   * A URL whose fetch gives up or whose parse raises is skipped: the URLs before it keep
   * their items and the URLs after it are still scraped.
   */
  lemma {:induction false} HarvestSkipsFailure<D>(before: seq<string>, url: string, after: seq<string>,
                               net: string -> seq<Option<D>>, parse: D -> Result<seq<Record>>, maxRetries: int)
    requires FetchWithRetry(net(url), maxRetries).None?
      || parse(FetchWithRetry(net(url), maxRetries).value).Err?
    ensures Harvest(before + [url] + after, net, parse, maxRetries)
         == Harvest(before, net, parse, maxRetries) + Harvest(after, net, parse, maxRetries)
  {
    var b := before + [url];
    HarvestAppend(b, after, net, parse, maxRetries);
    assert b[..|b| - 1] == before && b[|b| - 1] == url;
    assert Harvest(b, net, parse, maxRetries) == Harvest(before, net, parse, maxRetries) + Scraped(net(url), parse, maxRetries);
    assert Scraped(net(url), parse, maxRetries) == [];
    assert Harvest(before, net, parse, maxRetries) + [] == Harvest(before, net, parse, maxRetries);
  }

  class BaseScraper {
    /** The session's headers: the library's defaults updated with `DEFAULT_HEADERS`. */
    var sessionHeaders: Record
    /** The session's proxies: none, or the one proxy for both schemes. */
    var proxies: map<string, string>
    var useRandomUa: bool
    /** Whether a User-Agent generator was created (`self.ua` is not `None`). */
    var hasUa: bool

    /**
     * `BaseScraper(use_random_ua)`. `libraryHeaders` are the headers a fresh session starts
     * with; `proxyUrl` is the `PROXY_URL` setting.
     */
    constructor(useRandomUa: bool, proxyUrl: Option<string>, libraryHeaders: Record)
      ensures sessionHeaders == Update(libraryHeaders, DefaultHeaders)
      ensures this.useRandomUa == useRandomUa && hasUa == useRandomUa
      ensures ProxySet(proxyUrl) ==> proxies == ProxyMap(proxyUrl.value)
      ensures !ProxySet(proxyUrl) ==> proxies == map[]
    {
      sessionHeaders := Update(libraryHeaders, DefaultHeaders);
      this.useRandomUa := useRandomUa;
      hasUa := useRandomUa;
      if ProxySet(proxyUrl) {
        proxies := ProxyMap(proxyUrl.value);
      } else {
        proxies := map[];
      }
    }

    /**
     * `_get_headers`: a copy of the default headers, with the User-Agent `userAgent` (the
     * generator's pick) added when random User-Agents are on. The defaults stay untouched.
     */
    method GetHeaders(userAgent: string) returns (headers: Record)
      ensures !(useRandomUa && hasUa) ==> headers == DefaultHeaders && UserAgentKey !in Keys(headers)
      ensures useRandomUa && hasUa ==>
        && Keys(headers) == Keys(DefaultHeaders) + [UserAgentKey]
        && headers[..|DefaultHeaders|] == DefaultHeaders
        && Lookup(headers, UserAgentKey) == Some(Str(userAgent))
    {
      headers := DefaultHeaders;
      if useRandomUa && hasUa {
        var entry := Entry(UserAgentKey, Str(userAgent));
        UserAgentNotDefault();
        headers := Put(headers, UserAgentKey, Str(userAgent));
        KeysSnoc(DefaultHeaders, entry);
        assert (DefaultHeaders + [entry])[..|DefaultHeaders|] == DefaultHeaders;
      } else {
        UserAgentNotDefault();
      }
    }

    /**
     * `fetch` with its retry decorator. `net` holds what the network answers to each
     * attempt in turn. Attempts stop at the first success or once `maxRetries` attempts
     * (at least one) have failed, in which case the fetch gives up.
     */
    method Fetch<D>(net: seq<Option<D>>, maxRetries: int) returns (doc: Option<D>, attempts: nat)
      ensures doc == FetchWithRetry(net, maxRetries)
      ensures 1 <= attempts <= AttemptLimit(maxRetries)
      ensures doc.Some? ==> doc == AttemptAt(net, attempts - 1)
      ensures doc.None? ==> attempts == AttemptLimit(maxRetries)
      ensures forall j :: 0 <= j < attempts - 1 ==> AttemptAt(net, j).None?
    {
      var limit := AttemptLimit(maxRetries);
      doc := AttemptAt(net, 0);
      attempts := 1;
      while doc.None? && attempts < limit
        invariant 1 <= attempts <= limit
        invariant doc == AttemptAt(net, attempts - 1)
        invariant forall j :: 0 <= j < attempts - 1 ==> AttemptAt(net, j).None?
        invariant FirstFrom(net, 0, limit) == if doc.Some? then doc else FirstFrom(net, attempts, limit)
        decreases limit - attempts
      {
        doc := AttemptAt(net, attempts);
        attempts := attempts + 1;
      }
    }

    /**
     * `run`: every URL fetched (with retries) and parsed in turn; the items of each success
     * are appended, and any exception for a URL is swallowed.
     */
    method Run<D>(urls: seq<string>, net: string -> seq<Option<D>>, parse: D -> Result<seq<Record>>,
                  maxRetries: int) returns (all: seq<Record>)
      ensures all == Harvest(urls, net, parse, maxRetries)
    {
      all := [];
      for i := 0 to |urls|
        invariant all == Harvest(urls[..i], net, parse, maxRetries)
      {
        assert urls[..i + 1][..i] == urls[..i];
        var doc, _ := Fetch(net(urls[i]), maxRetries);
        if doc.Some? {
          var data := parse(doc.value);
          if data.Ok? {
            all := all + data.value;
          }
        }
      }
      assert urls[..|urls|] == urls;
    }
  }

  /** With the default setting, a fetch makes at most three attempts. */
  lemma {:induction false} DefaultAttempts<D>(net: seq<Option<D>>)
    ensures AttemptLimit(MaxRetries) == 3
    ensures FetchWithRetry(net, MaxRetries).Some? <==> exists j :: 0 <= j < 3 && AttemptAt(net, j).Some?
  {
  }

  /**
   * A fresh session sends every default header with its default value, whatever the
   * library started it with.
   */
  lemma {:induction false} SessionHasDefaults(libraryHeaders: Record, k: string)
    requires k in Keys(DefaultHeaders)
    ensures Lookup(Update(libraryHeaders, DefaultHeaders), k) == Lookup(DefaultHeaders, k)
  {
    assert Keys(DefaultHeaders) == ["Accept", "Accept-Language", "Accept-Encoding", "Connection"];
    UpdateLookup(libraryHeaders, DefaultHeaders, k);
  }
}
