/**
 * What a scraper sees of a remote site once fetching and HTML parsing are abstracted:
 * elements with their text, attributes and classes, and numbered pages that either failed
 * to load or hold a sequence of record containers.
 */
module Site {
  import opened Results
  import opened Records

  /**
   * One HTML element as the selectors return it: `text` is what `get_text(strip=True)`
   * gives, `attrs` its single-valued attributes, `classes` its `class` tokens in order.
   */
  datatype Element = Element(text: string, attrs: map<string, string>, classes: seq<string>)

  /** `element.get(name)`: the attribute value, or `None` when the attribute is absent. */
  function Attr(e: Element, name: string): (v: Option<string>)
    ensures v.Some? <==> name in e.attrs
    ensures v.Some? ==> v.value == e.attrs[name]
  {
    if name in e.attrs then Some(e.attrs[name]) else None
  }

  /**
   * The outcome of fetching one listing page: a request error (a 404 past the last page,
   * a timeout, a refused connection), or the page's record containers in document order
   * and whether it shows a "next" link.
   */
  datatype Page<C> = FetchError | Fetched(containers: seq<C>, hasNext: bool)

  /** Page `n` (counting from 1) of a site whose existing pages are `site`; past the end is a 404. */
  function PageAt<C>(site: seq<Page<C>>, n: int): (p: Page<C>)
    ensures (n < 1 || n > |site|) ==> p == FetchError
  {
    if 1 <= n <= |site| then site[n - 1] else FetchError
  }

  /** The page ceiling used when no page count was requested. */
  const SafetyCap: int := 100

  /** `if self.pages`: a page count was requested (Python treats `None` and `0` as false). */
  predicate Limited(pages: Option<int>)
  {
    pages.Some? && pages.value != 0
  }

  /** `max_pages = self.pages if self.pages else 100`. */
  function MaxPages(pages: Option<int>): (m: int)
    ensures Limited(pages) ==> m == pages.value
    ensures !Limited(pages) ==> m == SafetyCap
  {
    if Limited(pages) then pages.value else SafetyCap
  }

  /** Which of the page loop's exits was taken. */
  datatype Stop =
    | FetchFailed   // the fetch raised a request exception
    | EmptyPage     // the page parsed to no records
    | PageLimit     // the requested page count was reached
    | NoNextLink    // the page has no "next" link
    | PastCap       // the loop condition `page <= max_pages` failed
    | Raised        // an exception other than a request exception left the loop

  /** A run of a page loop: what it returns (or raises), how many pages it fetched, why it stopped. */
  datatype Walk = Walk(outcome: Result<seq<Record>>, fetched: nat, stop: Stop)
}
