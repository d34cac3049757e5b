# CDP support chatbot — a Dafny model of its core

The system answers "how do I …" questions about four Customer Data Platforms:
Segment, mParticle, Lytics and Zeotap. It has four parts:

- scrapers save documentation pages as JSON records;
- an ingestion step splits each saved record into chunks and stores them in one vector collection per CDP;
- a per-CDP QA model retrieves chunks and composes an answer, either with an LLM or with a fixed template;
- an HTTP handler routes each question.

The handler rejects a blank question, diverts off-topic questions, and answers cross-CDP comparisons from a fixed table. Otherwise it asks one CDP's model or all of them.

This project models the deterministic rules under that glue and proves properties of them.

| file | module | models |
|---|---|---|
| `wrappers.dfy` | `Wrappers` | `Option` |
| `text.dfy` | `Text` | Python string semantics used by the code (see below) |
| `qa_model.dfy` | `QAModel` | `backend/models/qa_model.py` |
| `api.dfy` | `Api` | `backend/api/main.py` |
| `document_processor.dfy` | `DocumentProcessing` | `backend/processors/document_processor.py` |
| `scrapers.dfy` | `Scrapers` | `backend/scrapers/base_scraper.py`, `backend/scrapers/segment_scraper.py` |

## Python semantics in `Text`

- `lower()` and `capitalize()` change ASCII letters only.
- `strip()` removes the ASCII characters Python's `str.isspace` accepts: tab through carriage return, `\x1c`–`\x1f`, and space.
- `sub in s` is a substring test.
- `s.replace(pat, rep)` replaces every non-overlapping occurrence, scanning left to right.
- `sep.join(xs)` and `str(n)` for natural numbers are modelled exactly.

## How the code's collaborators are modelled

- **QA answering.**
  - The vector search is a function `search: string -> QueryResult`. Embeddings and similarity are not modelled.
  - The Groq chat completion is `llm: (string, string) -> Option<string>`; `None` means the call raised.
- **The HTTP handler.**
  - The loaded models are the sequence `loaded`, the insertion order of `qa_models`.
  - Calling a model is `ask: (string, string) -> Outcome`, where `Outcome` is an answer or `Raised`.
  - On a direct route (dropdown or named CDP) nothing catches a raise, so the model answers with an HTTP 500 error.
  - `startup_event`'s vector-store load is `load: string -> bool`; `false` stands for "missing" and for "raised".
- **Ingestion.**
  - The text splitter is `split: string -> seq<string>`.
  - A data directory is the list of `(name, decoded JSON)` pairs `os.listdir` yields, in that order.
  - An entry's decoded JSON is `Malformed` (a `JSONDecodeError`) or an object with string fields.
  - The Chroma client is the field `collections: map<string, seq<Entry>>` of the `DocumentProcessor` class. `collection.add` appends to it.
- **Scrapers.**
  - `requests.get` followed by BeautifulSoup parsing and content extraction is `fetch: string -> Fetch`. `Fetch` is a page (status, `<title>` string, extracted text, link targets) or `FetchError`, which stands for `requests.get` raising (`backend/scrapers/segment_scraper.py:42`).
  - `urljoin(base_url, href)` is `join: string -> string`.
  - The files a scraper writes are its field `files: map<string, Article>`, keyed by path.

## Behaviour worth knowing

- **A missing key aborts ingestion.** The file loop catches only `json.JSONDecodeError` (`backend/processors/document_processor.py:83`).
  - A record without `content` raises `KeyError`. So does a record with at least one chunk but without `source`, `title` or `url`.
  - The error escapes `process_cdp_docs` and `process_all_cdps`. Chunks added before it stay in the collection.
  - In the model this is the `Raised`/`AllRaised` outcome, proved in `RunStopsAtError`.
- **`process_cdp_docs` returns the collection.** It only prints the number of documents processed. The model returns `Processed(count)`, and the collection is the processor's state.
- **The how-to topic loses every `?`** (`backend/models/qa_model.py:118`). So for the model whose `cdp_name` is "segment" (the lower-case key `startup_event` passes), "How do I set up a source?" gives "Here's how to set up a source in segment:" and then the context. This is proved in `HowToTopicClean` and `SimpleAnswerHowTo`.
- **Loading at startup.** `load(c)` in `Api.Startup` stands for `DocumentProcessor.LoadVectorstore(c).Some?` together with the QA model's construction not raising (`backend/api/main.py:119-126`).

## Model

| member | source | states |
|---|---|---|
| QAModel.NewModel | backend/models/qa_model.py:9-23 | The model keeps its CDP name. A Groq client exists exactly when `GROQ_API_KEY` is set and non-empty. |
| QAModel.ContextEmptyIff | backend/models/qa_model.py:40-46 | The context is the chunks joined by blank lines. It is empty exactly when no chunk came back, or only one empty chunk did. |
| QAModel.ContextHoldsEveryChunk | backend/models/qa_model.py:43-44 | Every retrieved chunk occurs in the context. |
| QAModel.Urls | backend/models/qa_model.py:55-59 | A URL is collected exactly when some non-empty metadata entry has a `url` key with that value. |
| QAModel.Dedup | backend/models/qa_model.py:55 | `list(set(xs))` has no duplicates and exactly the members of `xs`. |
| QAModel.Sources | backend/models/qa_model.py:55-59 | The sources have no duplicates and are exactly the `url` values of the non-empty metadata entries that have one. |
| QAModel.IsHowToIff | backend/models/qa_model.py:113-114 | A question is how-to iff one of the eight keywords occurs in its lower-case form (both directions). |
| QAModel.HowToTopicClean | backend/models/qa_model.py:118 | The topic, after removing "how do i ", then "how to ", then "?" from the lower-case question, has no `?` and no upper-case letter. |
| QAModel.SimpleAnswerHowTo | backend/models/qa_model.py:116-119 | A how-to template answer is "Here's how to " + topic + " in {cdp}:\n\n" + context. The topic holds no `?`. |
| QAModel.SimpleAnswerInformational | backend/models/qa_model.py:120-122 | Any other template answer is "Based on the {cdp} documentation, here's information about " + the question without `?` + ":\n\n" + context. |
| QAModel.EmptyContextNotFound | backend/models/qa_model.py:66-69 | With an empty context the Groq path gives "I couldn't find specific information about {question} in the {cdp} documentation.", whatever the LLM would say. So does the template path at lines 109-110. |
| QAModel.GroqFailureFallsBack | backend/models/qa_model.py:86-105 | When the Groq call raises, the answer is the template answer on the same question and context. |
| QAModel.AnswerQuestion | backend/models/qa_model.py:25-64 | The search runs on the stripped question. Sources have no duplicates and hold exactly the metadata URLs. An empty context yields the "couldn't find" message for the stripped question. |
| QAModel.AnswerUsesStrippedQuestion | backend/models/qa_model.py:28-52 | The question is stripped once. Answering `q` and answering `strip(q)` give the same result. |
| Api.LoadedCdps | backend/api/main.py:116-126 | The registered CDPs are exactly the supported CDPs whose store loads, in order, without duplicates. |
| Api.Startup | backend/api/main.py:116-126 | The startup loop registers exactly `LoadedCdps` of the supported list: no duplicates, and a CDP is registered iff it is supported and loads. |
| Text.FirstContained | backend/api/main.py:175 | `next(...)` finds the first key that occurs in the text, and `None` iff no key occurs. |
| Text.MentionsSome | backend/api/main.py:158 | Some CDP is mentioned iff some name occurs in the question. |
| Text.MentionsTwo | backend/api/main.py:158-159 | More than one CDP is mentioned iff names at two different positions occur. |
| Api.HandleComparison | backend/api/main.py:57-102 | A comparison is always answered, and never with sources. |
| Api.TopicFound | backend/api/main.py:81-84 | "audience creation" is looked for before "data integration"; otherwise no topic. |
| Api.ComparisonTopic | backend/api/main.py:81-97 | "audience creation" gives its summary ("Comparing Audience Creation Approaches:"), a blank line and its table. "data integration" does the same with its own summary and table. Otherwise the reply is "CDP Comparison Overview:\n\n" with the integration table. |
| Api.DetailLinesFour | backend/api/main.py:96-97 | A four-row table prints as four "Name: detail" lines joined by "\n", in table order. |
| Api.TablesInCdpOrder | backend/api/main.py:59-78 | Both tables list Segment, mParticle, Lytics and Zeotap, in that order. |
| Api.RetainedSpec | backend/api/main.py:190-199 | The query-all loop keeps exactly the useful answers. Each kept pair is a model's non-"couldn't find" answer, and every such model has a kept pair. Models that raise are dropped. |
| Api.QueryAllModels | backend/api/main.py:186-213 | The loop and the two slices compute `QueryAllReply`: the kept answers decide the reply. |
| Api.AskQuestion | backend/api/main.py:139-213 | The handler computes `Ask`: the routes in the handler's order, with the query-all loop. |
| Api.BlankRoute | backend/api/main.py:141-142 | The handler rejects the question iff it is empty or whitespace only once stripped. |
| Api.Only400WhenRejected | backend/api/main.py:139-213 | A 400 error is returned by the blank check and by no other branch. |
| Api.RejectsBlankFirst | backend/api/main.py:141-142 | The result is a 400 error iff the question is empty or whitespace only. |
| Api.OffTopicBeforeComparison | backend/api/main.py:147-152 | A non-blank question with an off-topic word gets the fixed redirect message with no sources, even if it is also a comparison. |
| Api.ComparisonRoute | backend/api/main.py:154-162 | The comparison route is taken iff the question is not blank and not off-topic, has a comparison word, and names two different CDPs. |
| Api.ComparisonReply | backend/api/main.py:154-162 | On the comparison route the reply is the comparison table's answer, with no sources. |
| Api.DropdownBeatsMention | backend/api/main.py:164-172 | A usable dropdown choice (not empty, not "all", loaded) decides the route before any CDP named in the question. |
| Api.FirstMentionBeatsQueryAll | backend/api/main.py:174-183 | Otherwise the first supported CDP named in the question decides. Its model answers when it is loaded; otherwise all models are queried. |
| Api.NotFoundIsDropped | backend/api/main.py:195 | A QA model's "couldn't find" answer is never kept by the query-all loop. |
| Api.ReplyOpening | backend/api/main.py:201-211 | With nothing kept the reply is the fixed sorry message with no sources. With something kept it opens with "From ". |
| Api.QueryAllSorry | backend/api/main.py:201-204 | When no model gives a useful answer, the reply is the fixed sorry message with no sources. Otherwise it opens with "From ". |
| Api.QueryAllShowsFirstTwo | backend/api/main.py:206-211 | At most two "From {Cdp}:\n" sections are shown, for the first two kept answers, joined by "\n\n". |
| Api.RetainedAppend | backend/api/main.py:190-197 | The kept answers of `a + b` are those of `a` followed by those of `b`: the loop keeps model order. |
| Api.RetainedNone | backend/api/main.py:190-199 | Models with no useful answer contribute nothing. |
| Api.RetainedFirst | backend/api/main.py:190-197 | The first model with a useful answer gives the first kept answer. The rest come from the models after it. |
| Api.QueryAllShowsOnlyUseful | backend/api/main.py:190-211 | When exactly one model gives a useful answer, its section alone is shown. |
| Api.QueryAllShowsFirstUseful | backend/api/main.py:190-211 | The sections shown are those of the first two useful models, in model order, joined by "\n\n". |
| Api.AllSourcesSpec | backend/api/main.py:197 | The collected sources are exactly the sources of the kept answers. |
| Api.AllSourcesAppend | backend/api/main.py:197 | `extend` concatenates sources in kept-answer order. |
| Api.SourcesInModelOrder | backend/api/main.py:190-197 | The collected sources of earlier models come before those of later models. |
| Api.ReplySources | backend/api/main.py:197-212 | For any kept answers, the sources are the first min(5, all) collected sources, in order. Each is cited by a kept answer, and with at most 5 in all every cited source is kept. |
| Api.QueryAllSources | backend/api/main.py:197-212 | The reply's sources are the first min(5, all) of the collected sources, in order. Each is from a kept answer, including answers beyond the two shown. With at most 5 in all, none is lost. |
| DocumentProcessing.ClassifyIff | backend/processors/document_processor.py:76-77 | A chunk is 'how_to' iff one of the five markers occurs in its lower-case text (both directions). |
| DocumentProcessing.ChunkIdInjective | backend/processors/document_processor.py:79 | Within one CDP, an id `{cdp}_{doc}_{i}` determines both numbers. |
| DocumentProcessing.DocumentEntriesSpec | backend/processors/document_processor.py:59-80 | A document raises iff `content` is missing, or it has a chunk and lacks `source`, `title` or `url`. Otherwise chunk `i` gets id `{cdp}_{doc}_{i}`, its own text, `chunk_id = i`, `total_chunks` = the number of chunks, its `doc_type`, and the record's metadata copied verbatim. |
| DocumentProcessing.RunStopsAtError | backend/processors/document_processor.py:48-84 | Once a `KeyError` escapes, no later file is read and nothing more is added. |
| DocumentProcessing.RunIgnoresUnparsed | backend/processors/document_processor.py:44-49 | Files without the ".json" suffix, and files that fail to decode, change nothing: the run equals the run over the files that parse. |
| DocumentProcessing.RunCountsParsedFiles | backend/processors/document_processor.py:82-84 | The counter advances once per processed document. Without an error it equals the number of files that parse, and it never exceeds that number. |
| DocumentProcessing.RunIdsDistinct | backend/processors/document_processor.py:79-82 | Every id added in one run comes from a counted document, and no two ids are equal. |
| DocumentProcessing.IngestAllKeys | backend/processors/document_processor.py:93-98 | Without an error, the result is keyed by exactly the names of the listed directories. |
| DocumentProcessing.IngestAllFrame | backend/processors/document_processor.py:93-98 | Collections of CDPs that are not listed are left as they were. |
| DocumentProcessing.DocumentProcessor.constructor | backend/processors/document_processor.py:21-22 | The processor opens the persistent store as it is. |
| DocumentProcessing.DocumentProcessor.LoadVectorstore | backend/processors/document_processor.py:102-108 | The result is the named collection, or `None` exactly when it does not exist. |
| DocumentProcessing.DocumentProcessor.AddDocument | backend/processors/document_processor.py:59-80 | The chunk loop appends exactly the document's entries, or nothing when a key is missing. It returns that key. |
| DocumentProcessing.DocumentProcessor.AddFiles | backend/processors/document_processor.py:43-87 | The file loop appends exactly the run's entries to the CDP's collection and returns the run's count, or the key that raised. |
| DocumentProcessing.DocumentProcessor.ProcessCdpDocs | backend/processors/document_processor.py:30-87 | A missing directory returns None and leaves every collection untouched. Otherwise the collection is created if needed and grows by exactly the run's entries; no other collection changes. |
| DocumentProcessing.DocumentProcessor.ProcessAllCdps | backend/processors/document_processor.py:89-100 | Listed directories are processed in order, and only directories are processed. The store and result are `IngestAll`'s. |
| Scrapers.CleanFilename | backend/scrapers/base_scraper.py:18-20 | The file name always ends with ".json"; before it is the rewritten URL. |
| Scrapers.CleanFilenameSafe | backend/scrapers/base_scraper.py:20 | Before its ".json" suffix a file name holds no '/' and no ':'. |
| Scrapers.CleanFilenameKeepsPlainNames | backend/scrapers/base_scraper.py:20 | A URL with no '/' and no ':' becomes itself + ".json". |
| Scrapers.CleanFilenameRewrites | backend/scrapers/base_scraper.py:20 | For a URL with no scheme to drop, the name is the URL with every '/' and every ':' turned into '_', and nothing else changed. |
| Text.ReplaceOneChar | backend/scrapers/base_scraper.py:20 | `replace` of one character by one character rewrites that character at every position and keeps all others. |
| Scrapers.CleanFilenameSegmentRoot | backend/scrapers/base_scraper.py:20 | "https://segment.com/docs/" is saved as "segment.com_docs_.json". |
| Scrapers.CleanFilenameDropsScheme | backend/scrapers/base_scraper.py:20 | "https://" is removed first and "http://" after it. So `u`, "https://" + `u` and "http://" + `u` get the same file name. |
| Scrapers.MakeArticle | backend/scrapers/base_scraper.py:24-29 | The record copies `url` and `content` verbatim and sets `source` to the CDP name. The title becomes "Untitled" exactly when it is missing, empty or itself "Untitled"; otherwise it is kept. |
| Scrapers.PathJoin | backend/scrapers/base_scraper.py:31 | `os.path.join` gives an absolute second part as is; otherwise the result starts with the directory and ends with the name. |
| Scrapers.BaseScraper.constructor | backend/scrapers/base_scraper.py:8-16 | The output directory is `output_dir/cdp_name`, `visited_urls` is empty, and nothing is written yet. |
| Scrapers.BaseScraper.SaveContent | backend/scrapers/base_scraper.py:22-35 | The record is written at `output_dir/clean_filename(url)`, replacing any file there. Nothing else changes. |
| Scrapers.BaseScraper.Scrape | backend/scrapers/base_scraper.py:37-39 | The base `scrape` always raises `NotImplementedError`. |
| Scrapers.SegmentScraper.constructor | backend/scrapers/segment_scraper.py:7-12 | The Segment scraper starts at "https://segment.com/docs/", named "segment", writing to `output_dir/segment`. |
| Scrapers.SegmentScraper.Scrape | backend/scrapers/segment_scraper.py:30-69 | The loop returns `Crawl`'s count from `[base_url]`. It leaves `visited_urls` as `Crawl`'s visited set and the files as written by `Crawl`'s saves, in order. |
| Scrapers.SegmentScraper.EnqueueLinks | backend/scrapers/segment_scraper.py:57-63 | The link loop computes `Enqueue` on the page's links. |
| Scrapers.EnqueueAppends | backend/scrapers/segment_scraper.py:58-63 | The queue keeps its contents in front. Each URL appended is the join of a '/docs/' link and is not visited. |
| Scrapers.EnqueueTakesLinks | backend/scrapers/segment_scraper.py:58-63 | Every '/docs/' link whose URL is not visited ends up in the queue. |
| Scrapers.EnqueueNoDup | backend/scrapers/segment_scraper.py:62-63 | The queue never holds a URL twice. |
| Scrapers.VisitSkipsVisited | backend/scrapers/segment_scraper.py:37-38 | A URL already visited is dropped from the queue, and the outcome does not depend on the fetch. |
| Scrapers.VisitMarksVisited | backend/scrapers/segment_scraper.py:42-47 | The head URL becomes visited exactly when it was not visited and its fetch returned, whatever the status. |
| Scrapers.VisitFifo | backend/scrapers/segment_scraper.py:35-63 | `pop(0)`, then appends only: the rest of the queue stays in front. |
| Scrapers.VisitIgnoresFailedPages | backend/scrapers/segment_scraper.py:45-47 | A non-200 page is neither saved nor mined for links. |
| Scrapers.VisitFollowsLinks | backend/scrapers/segment_scraper.py:53-63 | A 200 page's links are enqueued even when its content is empty. The counter advances, and the page is saved, exactly when the content is non-empty. |
| Scrapers.VisitKeepsSound | backend/scrapers/segment_scraper.py:34-66 | One pass keeps the loop invariant. The queue has no duplicates, the counter equals the number of saves, and saved URLs are visited and distinct. Every save came from a 200 page with content. |
| Scrapers.CrawlStops | backend/scrapers/segment_scraper.py:34 | The loop ends with an empty queue or with `max_pages` pages saved. |
| Scrapers.CrawlPageBound | backend/scrapers/segment_scraper.py:34-55 | `page_count` never passes `max_pages` unless it started past it. |
| Scrapers.CrawlGrows | backend/scrapers/segment_scraper.py:43-55 | URLs never leave the visited set, and earlier saves are kept in order. |
| Scrapers.CrawlKeepsSound | backend/scrapers/segment_scraper.py:34-66 | The whole loop keeps the invariant of `VisitKeepsSound`. |
| Scrapers.ScrapeFacts | backend/scrapers/segment_scraper.py:31-69 | From `[base_url]`, the returned count equals the number of saves and is 0 or at most `max_pages`. Every save came from a distinct 200 page with content, and `visited_urls` only grows. |

## Left out

- Embeddings, the Chroma similarity search and `n_results=5`: floating-point vectors behind foreign calls, so search results are the parameter `search`.
- The Groq prompt text, model name and sampling parameters: an external service, reduced to success (text) or failure.
- FastAPI routing, CORS, the pydantic schemas, `GET /` and `GET /cdps`: framework plumbing.
- The file-system side of `startup_event`, `load_vectorstore` and the `os.makedirs` calls: I/O.
- The internals of LangChain's text splitter: a foreign library, so `split` is a parameter. The 1000/200 splitter built in `DocumentProcessor.__init__` is never used by `process_cdp_docs`, and the 500/50 splitter's settings are not modelled.
- Exceptions other than those named above: an undecodable file's `UnicodeDecodeError`, failing `collection.add` or `json.dump` calls, and JSON values that are not strings. They are not modelled.
- Chroma's handling of an `add` whose id already exists in the collection (a second ingestion run reuses `{cdp}_0_0`, …): the model appends. `RunIdsDistinct` speaks of one run only.
- Collections and Chroma objects are assumed truthy: `if vectorstore:` and `if collection:` are taken as "exists".
- `Dedup`: `list(set(...))` has no specified order. The model keeps first occurrences. Its contracts promise only "no duplicates" and "the same members", which holds in any order.
- `SegmentScraper.Scrape`: the Python loop need not terminate on an unbounded web. The model requires a finite ghost set `universe` holding every URL `join` can produce and the start URL, and that set only bounds the crawl.
- `fetch` folds `requests.get`, BeautifulSoup parsing, `extract_content` and link extraction into one value per URL. So the model assumes a URL's page is the same on every fetch.
- `print` logging throughout: it has no effect on state.
- `SegmentScraper.Scrape`: an exception raised after `requests.get` returned (`backend/scrapers/segment_scraper.py:43-63`) is not modelled. Such exceptions come from BeautifulSoup parsing, `extract_content`, `save_content`'s `open` (a file name that is too long, say) or `urljoin`. In the code the URL then stays visited, the page is not saved or counted, and its links may be only partly enqueued. `FetchError` leaves the URL unvisited, which matches only a raising `requests.get`.
- frontend/src (the React UI), backend/run_scrapers.py and backend/scrapers/__init__.py: presentation and orchestration.
