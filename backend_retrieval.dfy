/**
 * The retrieval tool of the streaming backend (backend/main.py,
 * `retrieve_webpage_content`): the sentinel for an empty search, and the
 * evidence text assembled section by section from the loaded documents.
 */
module BackendRetrieval {
  import opened Wrappers
  import opened Text
  import opened BackendSearch

  /**
   * A loaded and converted page: `metadata["source"]` (None when the key is
   * absent) and `page_content` after the HTML-to-Markdown transforms, which
   * the model treats as an opaque string.
   */
  datatype Document = Document(source: Option<string>, content: string)

  const NoUrlsSentinel: string := "No URLs found from web search."

  /** The first `+=` of the loop body: `Source: <source or N/A>` and a blank line. */
  function SourceHeader(doc: Document): string {
    "Source: " + doc.source.GetOr("N/A") + "\n\n"
  }

  /** The second `+=`: the page content, a blank line, a rule and a blank line. */
  function ContentBlock(doc: Document): string {
    doc.content + "\n\n---\n\n"
  }

  function Section(doc: Document): string {
    SourceHeader(doc) + ContentBlock(doc)
  }

  /** The sections of the documents, in order. */
  function SectionTexts(docs: seq<Document>): (texts: seq<string>)
    ensures |texts| == |docs|
    ensures forall i :: 0 <= i < |docs| ==> texts[i] == Section(docs[i])
  {
    seq(|docs|, i requires 0 <= i < |docs| => Section(docs[i]))
  }

  /** The evidence text for `docs`: one section per document, in order. */
  function Sections(docs: seq<Document>): string {
    Concat(SectionTexts(docs))
  }

  /** The `for doc in converted_docs` loop that builds `output_str`. */
  method AssembleEvidence(docs: seq<Document>) returns (output: string)
    ensures output == Sections(docs)
  {
    output := "";
    for i := 0 to |docs|
      invariant output == Sections(docs[..i])
    {
      assert SectionTexts(docs[..i + 1]) == SectionTexts(docs[..i]) + [Section(docs[i])];
      assert (SectionTexts(docs[..i]) + [Section(docs[i])])[..i] == SectionTexts(docs[..i]);
      output := output + SourceHeader(docs[i]);
      output := output + ContentBlock(docs[i]);
    }
    assert docs[..|docs|] == docs;
  }

  /** The evidence text of a concatenation is the concatenation of the evidence texts. */
  lemma SectionsAppend(a: seq<Document>, b: seq<Document>)
    ensures Sections(a + b) == Sections(a) + Sections(b)
  {
    assert SectionTexts(a + b) == SectionTexts(a) + SectionTexts(b);
    ConcatAppend(SectionTexts(a), SectionTexts(b));
  }

  /**
   * In document order: the k-th section sits right after the sections of the
   * documents before it and right before those of the documents after it.
   */
  lemma SectionAt(docs: seq<Document>, k: nat)
    requires k < |docs|
    ensures Sections(docs[..k + 1]) == Sections(docs[..k]) + Section(docs[k])
    ensures Sections(docs) == Sections(docs[..k + 1]) + Sections(docs[k + 1..])
  {
    assert Sections(docs) == Sections(docs[..k + 1]) + Sections(docs[k + 1..]) by {
      assert docs == docs[..k + 1] + docs[k + 1..];
      SectionsAppend(docs[..k + 1], docs[k + 1..]);
    }
    SectionsSnoc(docs, k);
  }

  lemma SectionsSnoc(docs: seq<Document>, k: nat)
    requires k < |docs|
    ensures Sections(docs[..k + 1]) == Sections(docs[..k]) + Section(docs[k])
  {
    var texts := SectionTexts(docs[..k + 1]);
    assert texts[..k] == SectionTexts(docs[..k]);
  }

  /** A non-empty list of documents gives text that starts with "Source: ". */
  lemma SectionsStartWithSource(docs: seq<Document>)
    requires docs != []
    ensures IsPrefix("Source: ", Sections(docs))
  {
    var rest := docs[0].source.GetOr("N/A") + "\n\n" + ContentBlock(docs[0]);
    assert Section(docs[0]) == "Source: " + rest;
    assert ("Source: " + rest)[..|"Source: "|] == "Source: ";
    ConcatStartsWith(SectionTexts(docs), "Source: ");
  }

  /**
   * The documents `aload` returns when every URL loads: one per URL, in list
   * order, its source metadata set to that URL.
   */
  function LoadedDocuments(urls: seq<string>, load: string -> Option<string>): (docs: seq<Document>)
    requires forall i :: 0 <= i < |urls| ==> load(urls[i]).Some?
    ensures |docs| == |urls|
  {
    seq(|urls|, i requires 0 <= i < |urls| => Document(Some(urls[i]), load(urls[i]).value))
  }

  /**
   * Each URL of the list heads its own section, in list order: the k-th URL's
   * section, with that URL as its source and its loaded page as its content,
   * follows the sections of the URLs before it.
   */
  lemma LoadedSectionAt(urls: seq<string>, load: string -> Option<string>, k: nat)
    requires forall i :: 0 <= i < |urls| ==> load(urls[i]).Some?
    requires k < |urls|
    ensures var docs := LoadedDocuments(urls, load);
      Sections(docs[..k + 1]) == Sections(docs[..k]) + "Source: " + urls[k] + "\n\n" + load(urls[k]).value + "\n\n---\n\n"
  {
    var docs := LoadedDocuments(urls, load);
    SectionsSnoc(docs, k);
    assert docs[k] == Document(Some(urls[k]), load(urls[k]).value);
  }

  predicate Distinct(s: seq<string>) {
    forall i, j :: 0 <= i < j < |s| ==> s[i] != s[j]
  }

  /** `list(urls)`: the set's elements once each, in an order Python leaves unspecified. */
  method ListOfSet(urls: set<string>) returns (list: seq<string>)
    ensures (set u | u in list) == urls
    ensures Distinct(list)
  {
    list := [];
    var rest := urls;
    while rest != {}
      invariant rest <= urls
      invariant (set u | u in list) + rest == urls
      invariant forall u :: u in list ==> u !in rest
      invariant Distinct(list)
      decreases rest
    {
      var u :| u in rest;
      list := list + [u];
      rest := rest - {u};
    }
  }

  /**
   * `retrieve_webpage_content`: search with the default depth and no site
   * filter, then either the sentinel or one section per found URL. `load`
   * stands for fetching a URL and converting its main content; None means
   * the loader raised for that URL. Nothing in the tool catches that, so the
   * whole tool call raises, which the result None stands for.
   */
  method RetrieveWebpageContent(resp: SearchResponse, load: string -> Option<string>)
    returns (urlsList: seq<string>, output: Option<string>)
    ensures (set u | u in urlsList) == WebSearch(resp, None) && Distinct(urlsList)
    ensures WebSearch(resp, None) == {} ==> output == Some(NoUrlsSentinel)
    ensures output.None? <==> exists u :: u in WebSearch(resp, None) && load(u).None?
    ensures output.Some? && WebSearch(resp, None) != {} ==>
              (forall i :: 0 <= i < |urlsList| ==> load(urlsList[i]).Some?) &&
              output.value == Sections(LoadedDocuments(urlsList, load))
    ensures output.Some? ==> output.value != ""
    ensures output == Some(NoUrlsSentinel) <==> WebSearch(resp, None) == {}
  {
    var urls := WebSearch(resp, None);
    if urls == {} {
      urlsList := [];
      output := Some(NoUrlsSentinel);
      return;
    }
    urlsList := ListOfSet(urls);
    assert urlsList != [] by {
      var u :| u in urls;
      assert u in (set v | v in urlsList);
    }
    if exists u :: u in urls && load(u).None? {
      output := None;
      return;
    }
    assert forall i :: 0 <= i < |urlsList| ==> urlsList[i] in urls;
    var docs := LoadedDocuments(urlsList, load);
    var text := AssembleEvidence(docs);
    SectionsStartWithSource(docs);
    assert text[0] == 'S' && NoUrlsSentinel[0] == 'N';
    output := Some(text);
  }
}
