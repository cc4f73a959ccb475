/**
 * The evidence pipeline of the console variant (main.py): numbering and
 * skipping in `get_search_results`, the text format `retrieve_web_results`
 * writes for each record, and its wrapping of any exception as "Error: ...".
 */
module ConsoleEvidence {
  import opened Wrappers
  import opened Text
  import opened ConsoleSearch

  /** The dictionary `get_search_results` builds for a fetched item. */
  datatype SearchRecord = SearchRecord(order: nat, link: string, title: string, summary: Option<string>)

  const ErrorPrefix: string := "Error: "
  /** `str(e)` of the `TypeError` raised by `enumerate(None)`. */
  const NoneNotIterable: string := "'NoneType' object is not iterable"
  /** `str(e)` of `KeyError('link')`. */
  const MissingLinkKey: string := "'link'"
  const OrderLabel: string := "Search order: "
  const RuleWidth: nat := 80

  /**
   * The page text `retrieve_content` returns for an item: None when the item
   * has no link (`requests.get(None)` raises `MissingSchema`, a
   * `RequestException`) or when `fetch` reports a failed request.
   */
  function PageContent(item: ResultItem, fetch: string -> Option<string>): (r: Option<string>)
    ensures item.link.None? ==> r.None?
    ensures r.Some? ==> |r.value| <= TruncateScrapedContent * CharsPerToken
  {
    match item.link
    case None => None
    case Some(url) => RetrieveContent(fetch(url), TruncateScrapedContent)
  }

  /** The record of a fetched item at 1-based position `order`. */
  function RecordFor(item: ResultItem, order: nat, fetch: string -> Option<string>, summarize: string -> Option<string>): SearchRecord
    requires PageContent(item, fetch).Some?
  {
    SearchRecord(order, item.link.value, item.snippet.GetOr(""), summarize(PageContent(item, fetch).value))
  }

  /** The records for `items`: one per item whose page was fetched, numbered by its position in `items`. */
  function SearchResults(items: seq<ResultItem>, fetch: string -> Option<string>, summarize: string -> Option<string>): (r: seq<SearchRecord>)
    ensures |r| <= |items|
    decreases |items|
  {
    if items == [] then []
    else
      var n := |items| - 1;
      SearchResults(items[..n], fetch, summarize) +
        (if PageContent(items[n], fetch).Some? then [RecordFor(items[n], n + 1, fetch, summarize)] else [])
  }

  /** The `for idx, item in enumerate(search_items, start=1)` loop of `get_search_results`. */
  method GetSearchResults(items: seq<ResultItem>, fetch: string -> Option<string>, summarize: string -> Option<string>)
    returns (results: seq<SearchRecord>)
    ensures results == SearchResults(items, fetch, summarize)
  {
    results := [];
    for i := 0 to |items|
      invariant results == SearchResults(items[..i], fetch, summarize)
    {
      assert items[..i + 1][..i] == items[..i];
      var idx := i + 1;
      var item := items[i];
      var webContent := PageContent(item, fetch);
      if webContent.Some? {
        var summary := summarize(webContent.value);
        results := results + [SearchRecord(idx, item.link.value, item.snippet.GetOr(""), summary)];
      }
    }
    assert items[..|items|] == items;
  }

  /**
   * What the numbering promises: at most one record per item; each record's
   * order is the 1-based position of a fetched item and carries that item's
   * link, snippet and summary.
   */
  lemma {:induction false} SearchResultsRecords(items: seq<ResultItem>, fetch: string -> Option<string>, summarize: string -> Option<string>)
    ensures var r := SearchResults(items, fetch, summarize);
      && |r| <= |items|
      && (forall i :: 0 <= i < |r| ==>
            && 1 <= r[i].order <= |items|
            && PageContent(items[r[i].order - 1], fetch).Some?
            && r[i] == RecordFor(items[r[i].order - 1], r[i].order, fetch, summarize))
    decreases |items|
  {
    if items != [] {
      var n := |items| - 1;
      var init := items[..n];
      SearchResultsRecords(init, fetch, summarize);
      var r0 := SearchResults(init, fetch, summarize);
      var r := SearchResults(items, fetch, summarize);
      forall i | 0 <= i < |r|
        ensures 1 <= r[i].order <= |items|
        ensures PageContent(items[r[i].order - 1], fetch).Some?
        ensures r[i] == RecordFor(items[r[i].order - 1], r[i].order, fetch, summarize)
      {
        if i < |r0| {
          assert r[i] == r0[i];
          assert items[r0[i].order - 1] == init[r0[i].order - 1];
        }
      }
    }
  }

  /** Orders strictly increase along the results; items skipped leave gaps. */
  lemma {:induction false} SearchResultsIncreasing(items: seq<ResultItem>, fetch: string -> Option<string>, summarize: string -> Option<string>)
    ensures var r := SearchResults(items, fetch, summarize);
      forall i, j :: 0 <= i < j < |r| ==> r[i].order < r[j].order
    decreases |items|
  {
    if items != [] {
      var n := |items| - 1;
      var init := items[..n];
      SearchResultsIncreasing(init, fetch, summarize);
      SearchResultsRecords(init, fetch, summarize);
      var r0 := SearchResults(init, fetch, summarize);
      var r := SearchResults(items, fetch, summarize);
      forall i, j | 0 <= i < j < |r| ensures r[i].order < r[j].order {
        assert r[i] == r0[i];
        if j < |r0| {
          assert r[j] == r0[j];
        }
      }
    }
  }

  /** The orders that occur in a list of records. */
  function Orders(records: seq<SearchRecord>): set<nat> {
    set i | 0 <= i < |records| :: records[i].order
  }

  lemma OrdersSnoc(records: seq<SearchRecord>, last: SearchRecord)
    ensures Orders(records + [last]) == Orders(records) + {last.order}
  {
    var r := records + [last];
    forall o | o in Orders(r) ensures o in Orders(records) + {last.order} {
      var i :| 0 <= i < |r| && r[i].order == o;
      if i < |records| {
        assert records[i].order == o;
      }
    }
    forall o | o in Orders(records) ensures o in Orders(r) {
      var i :| 0 <= i < |records| && records[i].order == o;
      assert r[i].order == o;
    }
    assert r[|records|].order == last.order;
  }

  /** An item gets a record exactly when its page was fetched; otherwise it is skipped. */
  lemma {:induction false} SearchResultsPresence(items: seq<ResultItem>, fetch: string -> Option<string>, summarize: string -> Option<string>)
    ensures forall k :: 0 <= k < |items| ==>
              (PageContent(items[k], fetch).Some? <==> k + 1 in Orders(SearchResults(items, fetch, summarize)))
    decreases |items|
  {
    if items != [] {
      var n := |items| - 1;
      var init := items[..n];
      SearchResultsPresence(init, fetch, summarize);
      SearchResultsRecords(init, fetch, summarize);
      var r0 := SearchResults(init, fetch, summarize);
      var r := SearchResults(items, fetch, summarize);
      var extra := if PageContent(items[n], fetch).Some? then {n + 1} else {};
      if PageContent(items[n], fetch).Some? {
        var rec := RecordFor(items[n], n + 1, fetch, summarize);
        assert r == r0 + [rec];
        OrdersSnoc(r0, rec);
      } else {
        assert r == r0 + [];
        assert r == r0;
      }
      assert Orders(r) == Orders(r0) + extra;
      assert n + 1 !in Orders(r0);
      forall k | 0 <= k < n ensures items[k] == init[k] {
      }
    }
  }

  /** `f"{value}"` for a value that may be None. */
  function Rendered(value: Option<string>): string {
    value.GetOr("None")
  }

  function OrderLine(record: SearchRecord): string { OrderLabel + NatToString(record.order) + "\n" }
  function LinkLine(record: SearchRecord): string { "Link: " + record.link + "\n" }
  function SnippetLine(record: SearchRecord): string { "Snippet: " + record.title + "\n" }
  function SummaryLine(record: SearchRecord): string { "Summary: " + Rendered(record.summary) + "\n" }
  function RuleLine(): string { Repeat('-', RuleWidth) + "\n" }

  /** The five lines written for one record. */
  function RecordBlock(record: SearchRecord): string {
    OrderLine(record) + LinkLine(record) + SnippetLine(record) + SummaryLine(record) + RuleLine()
  }

  /** The blocks of the records, in order. */
  function Blocks(records: seq<SearchRecord>): (blocks: seq<string>)
    ensures |blocks| == |records|
    ensures forall i :: 0 <= i < |records| ==> blocks[i] == RecordBlock(records[i])
  {
    seq(|records|, i requires 0 <= i < |records| => RecordBlock(records[i]))
  }

  /** The text of `web_results.md` for `records`: one block per record, in order. */
  function EvidenceText(records: seq<SearchRecord>): string {
    Concat(Blocks(records))
  }

  /**
   * The writing loop of `retrieve_web_results` and the read that follows it:
   * the file holds the blocks in order, and reading it back in text mode
   * turns every "\r\n" and lone "\r" into "\n".
   */
  method WriteWebResults(records: seq<SearchRecord>) returns (fileContent: string)
    ensures fileContent == UniversalNewlines(EvidenceText(records))
  {
    var written := "";
    for i := 0 to |records|
      invariant written == EvidenceText(records[..i])
    {
      assert Blocks(records[..i + 1]) == Blocks(records[..i]) + [RecordBlock(records[i])];
      assert (Blocks(records[..i]) + [RecordBlock(records[i])])[..i] == Blocks(records[..i]);
      var item := records[i];
      ghost var before := written;
      written := written + OrderLine(item);
      written := written + LinkLine(item);
      written := written + SnippetLine(item);
      written := written + SummaryLine(item);
      written := written + RuleLine();
      assert written == before + RecordBlock(item);
    }
    assert records[..|records|] == records;
    fileContent := UniversalNewlines(written);
  }

  /** The block of a concatenation of record lists is the concatenation of their blocks. */
  lemma EvidenceTextAppend(a: seq<SearchRecord>, b: seq<SearchRecord>)
    ensures EvidenceText(a + b) == EvidenceText(a) + EvidenceText(b)
  {
    assert Blocks(a + b) == Blocks(a) + Blocks(b);
    ConcatAppend(Blocks(a), Blocks(b));
  }

  /** Records appear in result order: the k-th block follows the blocks of the records before it. */
  lemma BlockAt(records: seq<SearchRecord>, k: nat)
    requires k < |records|
    ensures EvidenceText(records[..k + 1]) == EvidenceText(records[..k]) + RecordBlock(records[k])
    ensures EvidenceText(records) == EvidenceText(records[..k + 1]) + EvidenceText(records[k + 1..])
  {
    assert EvidenceText(records) == EvidenceText(records[..k + 1]) + EvidenceText(records[k + 1..]) by {
      assert records == records[..k + 1] + records[k + 1..];
      EvidenceTextAppend(records[..k + 1], records[k + 1..]);
    }
    BlockSnoc(records, k);
  }

  lemma BlockSnoc(records: seq<SearchRecord>, k: nat)
    requires k < |records|
    ensures EvidenceText(records[..k + 1]) == EvidenceText(records[..k]) + RecordBlock(records[k])
  {
    var blocks := Blocks(records[..k + 1]);
    assert blocks[..k] == Blocks(records[..k]);
  }

  /** Each block ends with the 80-character rule and a newline. */
  lemma BlockEndsWithRule(record: SearchRecord)
    ensures var b := RecordBlock(record);
      |b| > RuleWidth && b[|b| - RuleWidth - 1..] == Repeat('-', RuleWidth) + "\n"
  {
  }

  /** Reads the order back from a block: the digits after "Search order: ". */
  function OrderOfBlock(block: string): Option<nat> {
    if IsPrefix(OrderLabel, block) then Some(ParseNat(LeadingDigits(block[|OrderLabel|..]))) else None
  }

  /** The order line round-trips: reading a block back gives the record's order. */
  lemma OrderRoundTrip(record: SearchRecord)
    ensures OrderOfBlock(RecordBlock(record)) == Some(record.order)
  {
    var digits := NatToString(record.order);
    var rest := "\n" + LinkLine(record) + SnippetLine(record) + SummaryLine(record) + RuleLine();
    NatToStringRoundTrip(record.order);
    LeadingDigitsOf(digits, rest);
    assert RecordBlock(record) == OrderLabel + (digits + rest);
    assert RecordBlock(record)[|OrderLabel|..] == digits + rest;
  }

  /** Every block starts with its order line. */
  lemma BlockStartsWithOrder(record: SearchRecord)
    ensures IsPrefix(OrderLabel, RecordBlock(record))
  {
    var rest := NatToString(record.order) + "\n" + LinkLine(record) + SnippetLine(record) + SummaryLine(record) + RuleLine();
    assert RecordBlock(record) == OrderLabel + rest;
    assert (OrderLabel + rest)[..|OrderLabel|] == OrderLabel;
  }

  /** Evidence text is empty exactly when there are no records; otherwise it starts with the first order line. */
  lemma EvidenceTextStart(records: seq<SearchRecord>)
    ensures EvidenceText(records) == "" <==> records == []
    ensures records != [] ==> IsPrefix(OrderLabel, EvidenceText(records))
  {
    if records != [] {
      BlockStartsWithOrder(records[0]);
      ConcatStartsWith(Blocks(records), OrderLabel);
    } else {
      assert Blocks(records) == [];
    }
  }

  /** No field of the record holds a carriage return. */
  predicate CleanRecord(record: SearchRecord) {
    NoCarriageReturn(record.link) && NoCarriageReturn(record.title) && NoCarriageReturn(Rendered(record.summary))
  }

  lemma BlockNoCarriageReturn(record: SearchRecord)
    requires CleanRecord(record)
    ensures NoCarriageReturn(RecordBlock(record))
  {
    NatToStringRoundTrip(record.order);
    var digits := NatToString(record.order);
    assert NoCarriageReturn(digits) by {
      assert forall i :: 0 <= i < |digits| ==> IsDigit(digits[i]);
    }
    NoCarriageReturnAppend(OrderLabel, digits);
    NoCarriageReturnAppend(OrderLabel + digits, "\n");
    NoCarriageReturnAppend("Link: ", record.link);
    NoCarriageReturnAppend("Link: " + record.link, "\n");
    NoCarriageReturnAppend("Snippet: ", record.title);
    NoCarriageReturnAppend("Snippet: " + record.title, "\n");
    NoCarriageReturnAppend("Summary: ", Rendered(record.summary));
    NoCarriageReturnAppend("Summary: " + Rendered(record.summary), "\n");
    NoCarriageReturnAppend(Repeat('-', RuleWidth), "\n");
    NoCarriageReturnAppend(OrderLine(record), LinkLine(record));
    NoCarriageReturnAppend(OrderLine(record) + LinkLine(record), SnippetLine(record));
    NoCarriageReturnAppend(OrderLine(record) + LinkLine(record) + SnippetLine(record), SummaryLine(record));
    NoCarriageReturnAppend(OrderLine(record) + LinkLine(record) + SnippetLine(record) + SummaryLine(record), RuleLine());
  }

  /** When no field holds a carriage return, the file reads back exactly as written. */
  lemma ReadBackClean(records: seq<SearchRecord>)
    requires forall i :: 0 <= i < |records| ==> CleanRecord(records[i])
    ensures UniversalNewlines(EvidenceText(records)) == EvidenceText(records)
  {
    var blocks := Blocks(records);
    forall i | 0 <= i < |blocks| ensures NoCarriageReturn(blocks[i]) {
      BlockNoCarriageReturn(records[i]);
    }
    ConcatNoCarriageReturn(blocks);
    UniversalNewlinesClean(EvidenceText(records));
  }

  /** The order line survives the read-back: a read-back block still gives the record's order. */
  lemma ReadBackOrderRoundTrip(record: SearchRecord)
    ensures OrderOfBlock(UniversalNewlines(RecordBlock(record))) == Some(record.order)
  {
    var digits := NatToString(record.order);
    var tail := LinkLine(record) + SnippetLine(record) + SummaryLine(record) + RuleLine();
    NatToStringRoundTrip(record.order);
    assert NoCarriageReturn(OrderLabel + digits + "\n") by {
      assert forall i :: 0 <= i < |digits| ==> IsDigit(digits[i]);
    }
    assert RecordBlock(record) == (OrderLabel + digits + "\n") + tail;
    UniversalNewlinesCleanPrefix(OrderLabel + digits + "\n", tail);
    var back := UniversalNewlines(RecordBlock(record));
    var rest := "\n" + UniversalNewlines(tail);
    assert back == OrderLabel + (digits + rest);
    LeadingDigitsOf(digits, rest);
    assert back[|OrderLabel|..] == digits + rest;
  }

  /** The text read back is empty exactly when there are no records; otherwise it starts with the first order line. */
  lemma ReadBackStart(records: seq<SearchRecord>)
    ensures UniversalNewlines(EvidenceText(records)) == "" <==> records == []
    ensures records != [] ==> IsPrefix(OrderLabel, UniversalNewlines(EvidenceText(records)))
  {
    EvidenceTextStart(records);
    if records != [] {
      var text := EvidenceText(records);
      assert text == OrderLabel + text[|OrderLabel|..];
      UniversalNewlinesCleanPrefix(OrderLabel, text[|OrderLabel|..]);
    }
  }

  /**
   * `retrieve_web_results`, given the outcome of the query-generation call
   * (its text, or the text of the exception it raised), the search response,
   * the page fetcher and the summarizer.
   */
  function RetrieveWebResultsText(
    query: Result<string, string>, resp: ApiResponse,
    fetch: string -> Option<string>, summarize: string -> Option<string>): string
  {
    match query
    case Failure(message) => ErrorPrefix + message
    case Success(_) =>
      match WebSearch(resp, None)
      case Items(items) => UniversalNewlines(EvidenceText(SearchResults(items, fetch, summarize)))
      case ReturnedNone => ErrorPrefix + NoneNotIterable
      case LinkKeyError => ErrorPrefix + MissingLinkKey
  }

  method RetrieveWebResults(
    query: Result<string, string>, resp: ApiResponse,
    fetch: string -> Option<string>, summarize: string -> Option<string>) returns (text: string)
    ensures text == RetrieveWebResultsText(query, resp, fetch, summarize)
  {
    if query.Failure? {
      return ErrorPrefix + query.error;
    }
    var outcome := WebSearch(resp, None);
    match outcome {
      case Items(items) =>
        var records := GetSearchResults(items, fetch, summarize);
        text := WriteWebResults(records);
      case ReturnedNone =>
        text := ErrorPrefix + NoneNotIterable;
      case LinkKeyError =>
        text := ErrorPrefix + MissingLinkKey;
    }
  }

  /** A body without "items" is reported as an error, not as empty evidence. */
  lemma RetrieveWebResultsWithoutItemsKey(query: string, fetch: string -> Option<string>, summarize: string -> Option<string>)
    ensures RetrieveWebResultsText(Success(query), Answered(None), fetch, summarize) == ErrorPrefix + NoneNotIterable
  {
  }

  /**
   * Exceptions never escape: the result starts with "Error: " exactly when
   * query generation failed or the search came back without items; a
   * request failure yields empty evidence text, not an error.
   */
  lemma RetrieveWebResultsErrors(
    query: Result<string, string>, resp: ApiResponse,
    fetch: string -> Option<string>, summarize: string -> Option<string>)
    ensures var text := RetrieveWebResultsText(query, resp, fetch, summarize);
      IsPrefix(ErrorPrefix, text) <==> query.Failure? || (resp.Answered? && resp.items.None?)
    ensures query.Success? && resp.RequestFailed? ==> RetrieveWebResultsText(query, resp, fetch, summarize) == ""
  {
    var text := RetrieveWebResultsText(query, resp, fetch, summarize);
    if query.Success? && WebSearch(resp, None).Items? {
      var records := SearchResults(WebSearch(resp, None).items, fetch, summarize);
      ReadBackStart(records);
      if records != [] {
        assert text[0] == 'S' && ErrorPrefix[0] == 'E';
      }
    }
  }
}
