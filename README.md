# Web search tool calling: a verified model of the evidence pipeline and conversation store

The repository is a research assistant that answers questions with the help of a web-search
tool. It has two variants:

- **backend/main.py** is a streaming web service. Its tool, `retrieve_webpage_content`, runs a
  Google Custom Search (`web_search`), drops denylisted domains, loads the pages and joins their
  main content into one evidence text. A process-wide dictionary keeps one message history per
  conversation. Each turn streams the model's answer, appends the user message and the answer
  to the history, and clears the history once it grows past 20 messages.
- **main.py** is a console script. Its tool, `retrieve_web_results`, searches (`web_search`),
  fetches and truncates each page (`retrieve_content`), and numbers the fetched pages by their
  search position (`get_search_results`). It writes one fixed-format record per page and turns
  any exception into `"Error: ..."`.

This project models the data handling around the network and model calls. The outcome of each
call is an input to the model:

- the search API's answer is a datatype: a request failure, or a body whose `"items"` key may be
  absent;
- loading and converting a page is a function from URL to optional text, None meaning the
  loader raised (backend); fetching and extracting a page is a function from URL to optional
  text, None meaning the request raised (console);
- the summarizer is a function from page text to an optional summary;
- the model's token stream is a sequence of stream events, plus a flag that says whether the
  stream raises after them.

Modules, one per component:

- `BackendSearch`: the backend's `web_search`.
- `BackendRetrieval`: the backend's `retrieve_webpage_content`.
- `BackendConversations`: the conversation store (`conversation_history`,
  `get_conversation_history`, the tail of `stream_tokens`, `clear_chat`, `get_chat_history`).
  It is a class that holds a `map<string, seq<Message>>`.
- `ConsoleSearch`: `web_search` and `retrieve_content` of main.py.
- `ConsoleEvidence`: `get_search_results` and `retrieve_web_results` of main.py.
- `Wrappers`, `Text`, `Lists`: Option/Result, the Python string operations used (substring
  test, ASCII `lower()`, slicing, `str(int)`), and list comprehensions with a condition.

Behaviour of the code worth knowing, each shown by a lemma:

- `CommitTurn` appends first and clears afterwards, so a turn that crosses the cap leaves the
  history empty (`FullHistoryIsCleared`).
- The denylist is a substring test on the lower-cased link, so a dropbox.com link is dropped
  (`SubstringDenylist`, `DropboxLinkIsDropped`).
- Only the backend has a no-results sentinel. In the console tool a failed request, an empty
  `items` list or no fetched page gives empty text, and a body without `"items"` gives
  `Error: 'NoneType' object is not iterable` (`RetrieveWebResultsErrors`,
  `RetrieveWebResultsWithoutItemsKey`).
- The console tool returns the file as read back in text mode, where `"\r\n"` and a lone
  `"\r"` become `"\n"`. A snippet or summary holding a carriage return therefore comes back
  changed (`CrLfReadBack`, `ReadBackClean`).

## Model

| member | source | states |
|---|---|---|
| `BackendSearch.BuildRequest` | backend/main.py:39-44 | The query is passed through. The `num` parameter is the requested depth capped at 10, so it never exceeds 10. |
| `BackendSearch.DefaultDepthRequest` | backend/main.py:34-44 | With the default depth of 10 the request asks for exactly 10 results. |
| `BackendSearch.WebSearch` | backend/main.py:46-61 | No returned link is denylisted, whatever the response and the filter. |
| `BackendSearch.WebSearchDegradesToEmpty` | backend/main.py:46-52 | A request exception gives the empty set rather than an error. A body without `"items"` also gives the empty set. |
| `BackendSearch.WebSearchMembership` | backend/main.py:54-61 | A link is returned if and only if some input item carries it, it contains the active site filter, and its lower-cased form contains no denylisted domain. Items without a link contribute nothing. An empty filter string counts as no filter. |
| `BackendSearch.WebSearchIsFilteredLinks` | backend/main.py:54-61 | The returned set equals an independent definition: the set of input links that pass both filters. |
| `BackendSearch.WebSearchSound` | backend/main.py:54-61 | The returned set is a subset of the input links. No returned link is denylisted. With a site filter, every returned link contains it. |
| `BackendSearch.SubstringDenylist` | backend/main.py:57-59 | Any link with `x.com` anywhere in it is denylisted, whatever surrounds it. |
| `BackendSearch.DropboxLinkIsDropped` | backend/main.py:57-61 | A search that returns only a dropbox.com link yields the empty set, with or without a site filter. |
| `BackendRetrieval.AssembleEvidence` | backend/main.py:90-93 | The `+=` loop yields exactly the in-order join of one section per document. Each section is `Source: <source or N/A>`, a blank line, the content, a blank line, `---` and a blank line. |
| `BackendRetrieval.SectionsAppend` | backend/main.py:90-93 | The text for two document lists joined is the text of the first followed by the text of the second. |
| `BackendRetrieval.SectionsSnoc` | backend/main.py:91-93 | Adding one document to the end adds exactly that document's section to the end. |
| `BackendRetrieval.SectionAt` | backend/main.py:90-93 | Order is kept: the k-th document's section comes right after the sections of the documents before it and right before those after it. |
| `BackendRetrieval.SectionsStartWithSource` | backend/main.py:92 | For a non-empty document list, the text starts with `Source: `. |
| `BackendRetrieval.LoadedSectionAt` | backend/main.py:77-93 | When every URL loads, the section of the k-th URL of `list(urls)` has that URL as its source and that page as its content, and it comes right after the sections of the URLs before it. |
| `BackendRetrieval.ListOfSet` | backend/main.py:77 | `list(urls)` holds every URL of the set exactly once, in an unspecified order. |
| `BackendRetrieval.RetrieveWebpageContent` | backend/main.py:65-97 | The search runs with no site filter. No URLs gives exactly `No URLs found from web search.`. The tool call raises if and only if the loader raises for some found URL. Otherwise the result is the sections of the loaded pages of `list(urls)`. A returned text is never empty, and it equals the sentinel if and only if no URL was found. |
| `BackendConversations.Fragments` | backend/main.py:226-231 | The fragments the stream yields, in event order: at most one per event. |
| `BackendConversations.FragmentsAreChunkContents` | backend/main.py:226-231 | Every yielded fragment is non-empty and is the content of some model stream chunk. |
| `BackendConversations.AccumulateStream` | backend/main.py:224-231 | The fragments yielded are the non-empty chunk contents, in event order. `full_response` is their join, so each fragment is exactly the piece appended. |
| `BackendConversations.CommitTurn` | backend/main.py:233-238 | A turn either grows the history by exactly the user message and the answer, or leaves it empty. It is emptied if and only if the appended length would exceed 20. |
| `BackendConversations.CommitTurnPreservesWellFormed` | backend/main.py:233-238 | A history of at most 20 messages that alternates user and answer is still such a history after a turn. |
| `BackendConversations.FullHistoryIsCleared` | backend/main.py:236-237 | A history of 19 or more messages is empty after one more turn, not two messages long. |
| `BackendConversations.RunTurns` | backend/main.py:233-238 | Turn after turn, a history within the cap and alternating user and answer stays so. |
| `BackendConversations.RunTurnsLength` | backend/main.py:233-238 | If a history holds m whole turns (m at most 10), then after n more turns it holds 2·((m+n) mod 11) messages. |
| `BackendConversations.RunTurnsBounded` | backend/main.py:233-238 | A conversation that starts empty is cleared on every eleventh turn and never holds more than 20 messages. |
| `BackendConversations.Serialize` | backend/main.py:271-274 | One entry per message, in order. Each entry's class name and content read back as exactly that message. |
| `BackendConversations.SerializeRoundTrip` | backend/main.py:271-274 | Reading the serialized list back gives the history, so the response determines every message and its class. |
| `BackendConversations.SerializeAlternates` | backend/main.py:271-274 | For a stored history the type names alternate, `HumanMessage` at even positions and `AIMessage` at odd ones. |
| `BackendConversations.ConversationStore.constructor` | backend/main.py:175 | The store starts as an empty dictionary. |
| `BackendConversations.ConversationStore.GetConversationHistory` | backend/main.py:210-214 | Afterwards the id is present. An existing history comes back unchanged with the map untouched. A new id maps to an empty list and no other id changes. The store invariant (every history within the cap and alternating) is kept. |
| `BackendConversations.ConversationStore.StreamTokens` | backend/main.py:216-238 | The fragments and the answer are as in the stream loop. When the stream completes, the conversation's entry becomes the commit of its previous history (or of an empty one) with this turn. When the stream raises, the fragments before it stay sent, the entry keeps its previous history or the empty one the lookup created, and nothing is committed. Every other conversation is untouched, and the store invariant is kept. |
| `BackendConversations.ConversationStore.ClearChat` | backend/main.py:255-264 | A present id is removed and the reply is `Conversation deleted.`. An absent id gives `Unable to find conversation.` and leaves the map unchanged. Either way the id is absent afterwards. |
| `BackendConversations.ConversationStore.GetChatHistory` | backend/main.py:267-274 | A known id gives that id and the serialized history, which reads back as the stored messages; under the store invariant the type names alternate starting with `HumanMessage`. An unknown id gives None, which stands for the uncaught `KeyError` of the direct lookup and so a server error, not a not-found reply. |
| `ConsoleSearch.WebSearch` | main.py:41-74 | None is returned exactly when the body has no `"items"`. A returned list is never longer than the items. |
| `ConsoleSearch.WebSearchContract` | main.py:41-74 | A request exception gives `[]`. A body without `"items"` gives None. Without a filter the items come back unchanged. With a filter a list comes back if and only if every item has a link. That list is an order-preserving sublist of the items that holds each item whose link contains the filter exactly as many times as the items do, and no other item. |
| `ConsoleSearch.WebSearchRaisesOnMissingLink` | main.py:52-58 | With a filter, an item without `"link"` raises `KeyError` out of the function, because only `RequestException` is caught. |
| `ConsoleSearch.RetrieveContent` | main.py:77-93 | None exactly when the fetch raised. Otherwise the result is a prefix of the extracted text of length `min(max_tokens*4, len(text))`, using Python's slice semantics. |
| `ConsoleSearch.DefaultTruncation` | main.py:77-90 | With the default `max_tokens` of 75000, at most 300000 characters are kept, and shorter pages are kept whole. |
| `ConsoleEvidence.PageContent` | main.py:117-121 | An item without a link gets no page, since `requests.get(None)` raises a `RequestException`. A page that is fetched keeps at most 300000 characters. |
| `ConsoleEvidence.SearchResults` | main.py:114-135 | The numbering specification: at most one record per item. |
| `ConsoleEvidence.GetSearchResults` | main.py:114-135 | The enumerate loop yields exactly the records of the numbering specification. |
| `ConsoleEvidence.SearchResultsRecords` | main.py:116-134 | There are no more records than items. Each record's order is the 1-based position of an item whose page was fetched. The record carries that item's link, its snippet (or `""`) and the summarizer's result. |
| `ConsoleEvidence.SearchResultsIncreasing` | main.py:116-134 | Orders strictly increase along the results. Skipped items leave gaps. |
| `ConsoleEvidence.SearchResultsPresence` | main.py:117-134 | An item has a record if and only if its page content is present. It is skipped when its link is missing or the fetch failed. |
| `ConsoleEvidence.WriteWebResults` | main.py:166-180 | The file is written as the in-order join of one block per record, and the returned content is that text as read back in text mode, with `"\r\n"` and lone `"\r"` turned into `"\n"`. |
| `Text.UniversalNewlines` | main.py:177-178 | The text read back holds no carriage return, and it is empty exactly when the file is. |
| `Text.UniversalNewlinesClean` | main.py:177-178 | Text without a carriage return reads back unchanged. |
| `Text.CrLfReadBack` | main.py:177-178 | `"a\r\nb"` reads back as `"a\nb"`, so the round trip is not the identity. |
| `ConsoleEvidence.ReadBackClean` | main.py:166-178 | When no link, snippet or summary holds a carriage return, the file reads back exactly as written. |
| `ConsoleEvidence.ReadBackOrderRoundTrip` | main.py:169-178 | The order line survives the read-back: the digits after `Search order: ` in a read-back block give the record's order. |
| `ConsoleEvidence.ReadBackStart` | main.py:166-178 | The text read back is empty if and only if there are no records. Otherwise it starts with `Search order: `. |
| `ConsoleEvidence.RecordBlock` | main.py:167-173 | The five lines written for one record: order, link, snippet, summary (`None` when the summarizer gave none) and the rule. Its shape is stated by `BlockStartsWithOrder`, `OrderRoundTrip` and `BlockEndsWithRule`. |
| `ConsoleEvidence.EvidenceText` | main.py:166-173 | The text the writing loop produces: the blocks of the records, in order. Its shape is stated by `EvidenceTextAppend`, `BlockAt` and `EvidenceTextStart`. |
| `ConsoleEvidence.EvidenceTextAppend` | main.py:167-173 | The text for two record lists joined is the text of the first followed by the text of the second. |
| `ConsoleEvidence.BlockSnoc` | main.py:167-173 | Adding one record to the end adds exactly that record's block to the end. |
| `ConsoleEvidence.BlockAt` | main.py:167-173 | The k-th record's block comes right after the blocks of the records before it. |
| `ConsoleEvidence.BlockStartsWithOrder` | main.py:169 | Each block starts with `Search order: `. |
| `ConsoleEvidence.OrderRoundTrip` | main.py:169 | Reading the digits after `Search order: ` in a block gives back the record's order. |
| `ConsoleEvidence.BlockEndsWithRule` | main.py:173 | Each block ends with 80 `-` characters and a newline. |
| `ConsoleEvidence.EvidenceTextStart` | main.py:166-173 | The text is empty if and only if there are no records. Otherwise it starts with `Search order: `. |
| `ConsoleEvidence.RetrieveWebResults` | main.py:139-184 | The result matches the specification function. The query-generation failure path gives `"Error: " + str(e)`, and a body without items gives `"Error: 'NoneType' object is not iterable"`. Otherwise the result is the evidence text of the numbered records of the search's items, as read back from the file. |
| `ConsoleEvidence.RetrieveWebResultsText` | main.py:139-184 | The tool's result for each outcome of query generation and search; `RetrieveWebResults` is proved equal to it and `RetrieveWebResultsErrors` states its error cases. |
| `ConsoleEvidence.RetrieveWebResultsWithoutItemsKey` | main.py:51-70 | A body without `"items"` makes `web_search` return None, so the tool returns `Error: 'NoneType' object is not iterable` rather than empty text. |
| `ConsoleEvidence.RetrieveWebResultsErrors` | main.py:139-184 | No exception escapes. The result starts with `Error: ` if and only if query generation failed or the search body had no items. A failed search request gives empty text. |

## Left out

- HTTP calls (`requests.get`, `AsyncHtmlLoader.aload`), their retries, timeouts and the
  concurrency of the bulk load: all I/O, so their outcomes are inputs, failures included. Page outcomes are functions of the URL,
  so two fetches of the same URL within one call agree.
- HTML parsing and Markdown conversion (BeautifulSoup, Markdownify): foreign libraries. A
  page's extracted or converted text is an opaque string.
- All language-model calls and the agent machinery (`init_chat_model`,
  `create_tool_calling_agent`, `AgentExecutor` with `max_iterations=3`, `client.chat.complete`,
  `summarize_content`): foreign code. Its results are inputs (a query outcome, the summarizer
  function, the stream events). The iteration cap lives inside LangChain and is not modelled.
- `main()` in main.py, which dispatches the tool by name after `json.loads`: a single call
  around foreign APIs.
- FastAPI routing, CORS, `uuid4` id generation, `StreamingResponse` and async iteration:
  transport and concurrency. Turns on the same id that run at the same time are not modelled;
  each method runs alone. A client that disconnects mid-stream has the same effect on the store
  as a stream that raises, which `StreamTokens` models.
- The `except Exception` branch of `clear_chat`: nothing in its body can raise on a dictionary
  of strings.
- The file writes and reads of `web_results.md` as I/O: the text written and the
  universal-newline translation of the read are modelled. Writing assumes a POSIX line
  separator (`"\n"` is written as is), and file-system errors are not modelled. The backend's
  copy of its output into `web_results.md` is a side effect nothing reads back.
- The search query text and the request's credentials: they reach the HTTP call, and the query
  also reaches the summarizer's prompt. That dependence is absorbed by the `summarize` input.
  `BuildRequest` models the part of the request that is computed.
- `BackendRetrieval.RetrieveWebpageContent`: when the loader raises, only the fact that the tool
  call raises is modelled, not the exception's type or message, nor how the agent reports it.
- `BackendSearch.WebSearchMembership`: `str.lower()` is modelled on ASCII letters only. Other
  Unicode case mappings are not covered.
- The commented-out `summarize_web_content` (dead code) and the frontend files (React UI state).
