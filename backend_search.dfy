/**
 * The web search of the streaming backend (backend/main.py, `web_search`):
 * the request's result count, the degrade-to-empty error policy, the site
 * filter, the denylist of domains that block automated fetching, and the
 * reduction of the result items to a set of links.
 */
module BackendSearch {
  import opened Wrappers
  import opened Text
  import opened Lists

  /** One entry of the search API's "items" array; `link` is None when the entry has no "link" key. */
  datatype SearchItem = SearchItem(link: Option<string>)

  /**
   * What the HTTP call produced: a `RequestException` (transport failure or
   * `raise_for_status`), or a JSON body whose "items" key may be absent.
   */
  datatype SearchResponse = RequestFailed | Answered(items: Option<seq<SearchItem>>)

  /** The query parameters that depend on the caller: the query text and the result count `num`. */
  datatype SearchRequest = SearchRequest(query: string, num: int)

  const MaxResultsPerCall: int := 10
  const DefaultSearchDepth: int := 10
  const ProblematicDomains: seq<string> := ["twitter.com", "x.com"]

  /** The parameters sent to the search API: `num` is the requested depth, capped at 10. */
  function BuildRequest(query: string, searchDepth: int): (req: SearchRequest)
    ensures req.query == query
    ensures req.num <= MaxResultsPerCall
    ensures req.num == searchDepth || req.num == MaxResultsPerCall
    ensures searchDepth <= MaxResultsPerCall ==> req.num == searchDepth
  {
    SearchRequest(query, if searchDepth < MaxResultsPerCall then searchDepth else MaxResultsPerCall)
  }

  /** The tool searches with the default depth, so it asks for the most results one call allows. */
  lemma DefaultDepthRequest(query: string)
    ensures BuildRequest(query, DefaultSearchDepth) == SearchRequest(query, MaxResultsPerCall)
  {
  }

  /** `resp.json().get("items", [])`. */
  function ResponseItems(resp: SearchResponse): seq<SearchItem>
    requires resp.Answered?
  {
    resp.items.GetOr([])
  }

  /** Python's `if site_filter:`: None and the empty string both switch the filter off. */
  predicate SiteFilterActive(siteFilter: Option<string>) {
    siteFilter.Some? && siteFilter.value != ""
  }

  /** `"link" in it and site_filter in it["link"]`. */
  predicate LinkMatchesSite(item: SearchItem, site: string) {
    item.link.Some? && Contains(item.link.value, site)
  }

  /** The site test as a value, so that the comprehension and the lemmas use the same one. */
  function MatchesSite(site: string): SearchItem -> bool {
    (item: SearchItem) => LinkMatchesSite(item, site)
  }

  /** `any(domain in link.lower() for domain in problematic_urls)`: a plain substring test. */
  predicate IsProblematic(link: string) {
    exists k | 0 <= k < |ProblematicDomains| :: Contains(Lower(link), ProblematicDomains[k])
  }

  /** The second comprehension's condition: the item has a link and it is not denylisted. */
  predicate Fetchable(item: SearchItem) {
    item.link.Some? && !IsProblematic(item.link.value)
  }

  /** The items left after both comprehensions, in the API's order. */
  function KeptItems(resp: SearchResponse, siteFilter: Option<string>): (kept: seq<SearchItem>)
    requires resp.Answered?
    ensures forall i :: 0 <= i < |kept| ==> Fetchable(kept[i])
  {
    var items := ResponseItems(resp);
    var bySite := if SiteFilterActive(siteFilter) then Filter(items, MatchesSite(siteFilter.value)) else items;
    FilterAllPass(bySite, Fetchable);
    Filter(bySite, Fetchable)
  }

  /** `web_search`: the set of links the search keeps; empty when the request failed. */
  function WebSearch(resp: SearchResponse, siteFilter: Option<string>): (links: set<string>)
    ensures forall link :: link in links ==> !IsProblematic(link)
  {
    match resp
    case RequestFailed => {}
    case Answered(_) =>
      var kept := KeptItems(resp, siteFilter);
      set item | item in kept && item.link.Some? :: item.link.value
  }

  /** Every link that occurs in the response's items. */
  function InputLinks(resp: SearchResponse): set<string> {
    match resp
    case RequestFailed => {}
    case Answered(_) =>
      set item | item in ResponseItems(resp) && item.link.Some? :: item.link.value
  }

  /** Whether a link passes both filters. */
  predicate Admitted(link: string, siteFilter: Option<string>) {
    && (SiteFilterActive(siteFilter) ==> Contains(link, siteFilter.value))
    && !IsProblematic(link)
  }

  /**
   * The returned links are exactly the input links that pass the site filter
   * and are not denylisted.
   */
  lemma WebSearchMembership(resp: SearchResponse, siteFilter: Option<string>, link: string)
    ensures link in WebSearch(resp, siteFilter) <==> link in InputLinks(resp) && Admitted(link, siteFilter)
  {
    if resp.Answered? {
      var items := ResponseItems(resp);
      var bySite := if SiteFilterActive(siteFilter) then Filter(items, MatchesSite(siteFilter.value)) else items;
      var item := SearchItem(Some(link));
      FilterMembership(bySite, Fetchable, item);
      if SiteFilterActive(siteFilter) {
        FilterMembership(items, MatchesSite(siteFilter.value), item);
      }
      if link in WebSearch(resp, siteFilter) {
        var it :| it in KeptItems(resp, siteFilter) && it.link.Some? && it.link.value == link;
        assert it == item;
      }
      if link in InputLinks(resp) {
        var it :| it in items && it.link.Some? && it.link.value == link;
        assert it == item;
      }
    }
  }

  /** The same fact as one set equation: an independent definition of `web_search`. */
  lemma WebSearchIsFilteredLinks(resp: SearchResponse, siteFilter: Option<string>)
    ensures WebSearch(resp, siteFilter) == set link | link in InputLinks(resp) && Admitted(link, siteFilter)
  {
    forall link | link in WebSearch(resp, siteFilter) || link in InputLinks(resp) {
      WebSearchMembership(resp, siteFilter, link);
    }
  }

  /**
   * The properties the denylist and the site filter promise: every returned
   * link comes from the input, contains the active site filter, and has no
   * denylisted domain in its lower-cased form.
   */
  lemma WebSearchSound(resp: SearchResponse, siteFilter: Option<string>)
    ensures WebSearch(resp, siteFilter) <= InputLinks(resp)
    ensures forall link :: link in WebSearch(resp, siteFilter) ==> !IsProblematic(link)
    ensures SiteFilterActive(siteFilter) ==>
              forall link :: link in WebSearch(resp, siteFilter) ==> Contains(link, siteFilter.value)
  {
    forall link | link in WebSearch(resp, siteFilter) {
      WebSearchMembership(resp, siteFilter, link);
    }
  }

  /** A failed request degrades to the empty set, and so does a body without items. */
  lemma WebSearchDegradesToEmpty(resp: SearchResponse, siteFilter: Option<string>)
    requires resp.RequestFailed? || resp.items.None?
    ensures WebSearch(resp, siteFilter) == {}
  {
    if resp.Answered? {
      assert ResponseItems(resp) == [];
      assert KeptItems(resp, siteFilter) == [];
    }
  }

  /**
   * The denylist test is a bare substring search: any link with "x.com"
   * anywhere in it is denylisted, whatever surrounds it.
   */
  lemma SubstringDenylist(before: string, after: string)
    ensures IsProblematic(before + "x.com" + after)
  {
    var link := before + "x.com" + after;
    LowerAppend(before + "x.com", after);
    LowerAppend(before, "x.com");
    assert Lower("x.com") == "x.com";
    ContainsAtStart("x.com", Lower(after));
    ContainsInSuffix(Lower(before), "x.com" + Lower(after), "x.com");
    assert Lower(link) == Lower(before) + ("x.com" + Lower(after));
    assert ProblematicDomains[1] == "x.com";
  }

  /** So a dropbox.com link is never returned, although the denylist was not meant to cover dropbox.com. */
  lemma DropboxLinkIsDropped(siteFilter: Option<string>)
    ensures WebSearch(Answered(Some([SearchItem(Some("https://www.dropbox.com/s/report.pdf"))])), siteFilter) == {}
  {
    var dropbox := "https://www.dropbox.com/s/report.pdf";
    SubstringDenylist("https://www.dropbo", "/s/report.pdf");
    assert "https://www.dropbo" + "x.com" + "/s/report.pdf" == dropbox;
    var resp := Answered(Some([SearchItem(Some(dropbox))]));
    forall link | link in WebSearch(resp, siteFilter) ensures false {
      WebSearchMembership(resp, siteFilter, link);
    }
  }
}
