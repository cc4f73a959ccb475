/**
 * The search and page fetch of the console variant (main.py): `web_search`,
 * which returns the API's items list (filtered by site when asked) and
 * degrades to `[]` on a request failure, and `retrieve_content`, which
 * truncates a page's extracted text to a character budget.
 */
module ConsoleSearch {
  import opened Wrappers
  import opened Text
  import opened Lists

  /** One entry of the API's "items" array: its "link" and "snippet" keys, None when absent. */
  datatype ResultItem = ResultItem(link: Option<string>, snippet: Option<string>)

  /** A `RequestException` from `requests.get` or `raise_for_status`, or a JSON body whose "items" key may be absent. */
  datatype ApiResponse = RequestFailed | Answered(items: Option<seq<ResultItem>>)

  /**
   * What `web_search` does: return a list, fall off its end and so return
   * None, or let the `KeyError` of `result["link"]` escape (it is not a
   * `RequestException`, so the function's handler does not catch it).
   */
  datatype SearchOutcome = Items(items: seq<ResultItem>) | ReturnedNone | LinkKeyError

  /** The default `max_tokens` for page text (TRUNCATE_SCRAPED_CONTENT). */
  const TruncateScrapedContent: int := 75000

  /** Characters per token in the truncation budget. */
  const CharsPerToken: int := 4

  /** `site_filter in result["link"]` for an item that has a link. */
  predicate LinkContains(item: ResultItem, site: string) {
    item.link.Some? && Contains(item.link.value, site)
  }

  /** The site test as a value, so that the comprehension and the lemmas use the same one. */
  function SiteTest(site: string): ResultItem -> bool {
    (item: ResultItem) => LinkContains(item, site)
  }

  /** Whether the comprehension reaches an item without a "link" key, which raises `KeyError`. */
  predicate SomeLinkMissing(items: seq<ResultItem>) {
    exists i | 0 <= i < |items| :: items[i].link.None?
  }

  /** `web_search` of main.py, given the outcome of the HTTP call. */
  function WebSearch(resp: ApiResponse, siteFilter: Option<string>): (r: SearchOutcome)
    ensures r.ReturnedNone? <==> resp.Answered? && resp.items.None?
    ensures r.Items? && resp.Answered? ==> |r.items| <= |resp.items.value|
  {
    match resp
    case RequestFailed => Items([])
    case Answered(None) => ReturnedNone
    case Answered(Some(items)) =>
      if siteFilter.None? then Items(items)
      else if SomeLinkMissing(items) then LinkKeyError
      else Items(Filter(items, SiteTest(siteFilter.value)))
  }

  /**
   * Without a filter the items come back unchanged; with one, the search
   * returns a list exactly when every item has a link, and that list is the
   * order-preserving sublist of the items whose link contains the filter,
   * each kept as often as it occurs (empty when none matches). A request
   * failure gives `[]`, a body without "items" gives None.
   */
  lemma WebSearchContract(resp: ApiResponse, siteFilter: Option<string>)
    ensures resp.RequestFailed? ==> WebSearch(resp, siteFilter) == Items([])
    ensures resp.Answered? && resp.items.None? ==> WebSearch(resp, siteFilter) == ReturnedNone
    ensures resp.Answered? && resp.items.Some? && siteFilter.None? ==>
              WebSearch(resp, siteFilter) == Items(resp.items.value)
    ensures WebSearch(resp, siteFilter).Items? && siteFilter.Some? && resp.Answered? ==>
              var r := WebSearch(resp, siteFilter).items;
              && IsSubsequence(r, resp.items.value)
              && (forall i :: 0 <= i < |r| ==> r[i].link.Some? && Contains(r[i].link.value, siteFilter.value))
              && (forall it :: it in resp.items.value && LinkContains(it, siteFilter.value) ==> it in r)
              && (forall it :: multiset(r)[it] == if LinkContains(it, siteFilter.value) then multiset(resp.items.value)[it] else 0)
    ensures resp.Answered? && resp.items.Some? && siteFilter.Some? ==>
              (WebSearch(resp, siteFilter).Items? <==> !SomeLinkMissing(resp.items.value))
  {
    if resp.Answered? && resp.items.Some? && siteFilter.Some? && !SomeLinkMissing(resp.items.value) {
      var items, test := resp.items.value, SiteTest(siteFilter.value);
      FilterIsSubsequence(items, test);
      FilterAllPass(items, test);
      forall it | it in items && LinkContains(it, siteFilter.value) ensures it in Filter(items, test) {
        FilterMembership(items, test, it);
      }
      forall it ensures multiset(Filter(items, test))[it] == if LinkContains(it, siteFilter.value) then multiset(items)[it] else 0 {
        FilterMultiplicity(items, test, it);
      }
    }
  }

  /** With a filter, an item without a link makes the search raise instead of returning. */
  lemma WebSearchRaisesOnMissingLink(items: seq<ResultItem>, site: string)
    requires SomeLinkMissing(items)
    ensures WebSearch(Answered(Some(items)), Some(site)) == LinkKeyError
  {
  }

  /**
   * `retrieve_content`, given the page's extracted text (None when the
   * request raised): the first `max_tokens * 4` characters of the text.
   */
  function RetrieveContent(extracted: Option<string>, maxTokens: int): (r: Option<string>)
    ensures r.None? <==> extracted.None?
    ensures r.Some? ==> IsPrefix(r.value, extracted.value)
    ensures r.Some? && 0 <= maxTokens ==>
              |r.value| == if maxTokens * CharsPerToken <= |extracted.value| then maxTokens * CharsPerToken else |extracted.value|
  {
    match extracted
    case None => None
    case Some(text) => Some(PyPrefix(text, maxTokens * CharsPerToken))
  }

  /** With the default budget a page keeps at most 300000 characters, and shorter pages are kept whole. */
  lemma DefaultTruncation(text: string)
    ensures |RetrieveContent(Some(text), TruncateScrapedContent).value| <= 300000
    ensures |text| <= 300000 ==> RetrieveContent(Some(text), TruncateScrapedContent) == Some(text)
  {
    assert text[..|text|] == text;
  }
}
