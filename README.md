# EORA retail helper: a Dafny model of the RAG pipeline core

This project models the deterministic core of the EORA assistant. The
assistant answers questions about EORA's projects by retrieval-augmented
generation. It covers:

- **EoraRAGChain** (core/rag_chain.py):
  - `load_documents` merges file chunks and crawled pages, then rebuilds the vector store;
  - `search_relevant_docs` returns `[]` without a store;
  - `generate_answer` checks and sanitises the query, retrieves, falls back or builds the level's prompt, and checks the response;
  - the numbered reference context and the three prompt templates.
- **Validators** (utils/validation.py): query checks in their fixed order, the sanitiser, the response, source, document-content and metadata checks.
- **WebCrawler** (utils/web_crawler.py):
  - the frontier loop of `crawl_site` (FIFO frontier, growing visited set, page budget);
  - `is_valid_url`;
  - the text normalisation of `crawl_page`;
  - the None and `[]` fallbacks of `crawl_page` and `get_links`.
- **FileLoader** (utils/file_loader.py):
  - the size/overlap defaults;
  - dispatch on the lowercased suffix;
  - metadata stamping;
  - the whitelisted directory walk.
- **Error translation** (utils/error_handler.py with core/exceptions.py):
  - `handle_errors` and its four specialisations;
  - `log_and_raise`, `safe_execute` and the log line format.
- **The page's text logic** (app.py): `format_sources`, the answer trailer and the source display name.

External capabilities are parameters: records of functions that the model calls but does not define.
- The network is `Crawler.Network`. It holds the page fetch with title and text extraction, link extraction with `urljoin`, and `urlparse(...).netloc`.
- The file system is `Loader.FileSystem`. It holds `os.path.exists`, `os.walk`, the document readers and the text splitter.
- FAISS, the embeddings and the chat model are `RagChain.Services`.

An exception is modelled as a value: `Errors.Outcome` is either `Returned(v)` or `Raised(e)`. The domain exceptions of core/exceptions.py are the datatype `Errors.DomainError`. Any other exception is `Foreign(name)`.

The imperative parts are classes with loops:
- `Crawler.WebCrawler.CrawlSite`;
- `Loader.FileLoader.LoadDirectory` / `LoadEntry` / `StampChunks`;
- `RagChain.EoraRAGChain.LoadDocuments` / `PrepareContextWithReferences`.

Each of them is proved equal to a specification function, and the lemmas are stated about those functions.

Where the code and the tests disagree, the model follows the code:
- tests/test_file_loader.py:73-81 expects an unsupported suffix to raise; `load_file` returns `[]`.
- The crawler has no retries, no seed-URL file and no minimum-content filter.
- The crawler expands links from every crawled page, not only from the base page.

## Model

| member | source | states |
|---|---|---|
| Errors.HandleErrors | utils/error_handler.py:15-38 | A decorated call returns exactly when the function returns, with the same value. A domain exception is re-raised unchanged. Any other exception becomes the target type with the message "Ошибка в {name}: {e}". |
| Errors.HandleErrorsDomainOnly | utils/error_handler.py:28-34 | With a domain target type, only domain exceptions ever escape, and each is either the target type or the original exception. |
| Errors.HandleErrorsConvertsOnce | utils/error_handler.py:31-34 | Stacking a second handler on top of a domain-typed one changes nothing: a foreign error is converted once. |
| Errors.DefaultNeverReturned | utils/error_handler.py:15-36 | `default_return` is never substituted: a decorated call yields it only if the function itself returned it. |
| Errors.HandleDocumentLoadErrors | utils/error_handler.py:41-44 | Returns pass through, only domain errors escape, and foreign ones become DocumentLoadError. |
| Errors.HandleVectorStoreErrors | utils/error_handler.py:46-49 | As above, with VectorStoreError. |
| Errors.HandleLLMErrors | utils/error_handler.py:51-54 | As above, with LLMError. |
| Errors.HandleWebCrawlerErrors | utils/error_handler.py:56-60 | As above, with WebCrawlerError. |
| Errors.LogAndRaise | utils/error_handler.py:66-75 | The exception raised is the error itself when it is a domain error; otherwise it has the given type and the message "{context}: {error}". |
| Errors.SafeExecute | utils/error_handler.py:89-96 | The result of the single call when it returns, the default when it raises. |
| Errors.LogMessage | utils/error_handler.py:77-87 | "context: message" when the context is non-empty, else the bare message. |
| Settings.OrDefault | utils/file_loader.py:19-22 | Python's `x or default`: an explicit non-zero value is kept; None and 0 give the default. |
| Validation.ValidateQuery | utils/validation.py:8-32 | Returns True exactly when the query is not blank, has at least 3 stripped characters and at most 1000 raw characters, and matches none of the five dangerous patterns. Each failure raises its own message, in the source's order: empty, too short (stripped length), too long (raw length), dangerous. |
| Validation.ValidateComplexityLevel | utils/validation.py:34-42 | Returns True exactly for "easy", "medium" and "hard"; otherwise raises the invalid-level ValueError. |
| Validation.SanitizeQuery | utils/validation.py:44-51 | The output has no `< > " '`, and its only whitespace characters are plain blanks. |
| Validation.CollapseSeparates | utils/validation.py:47 | `re.sub(r"\s+", " ", …)`: a whitespace run of any length and kind between text ending and text starting with a visible character becomes exactly one blank, and the two sides are collapsed independently. |
| Validation.SanitizeSeparates | utils/validation.py:47-51 | Two trimmed, quote-free phrases separated by any whitespace run sanitise to the two phrases' sanitised forms joined by one blank. |
| Validation.SanitizeKeepsVisible | utils/validation.py:44-51 | Sanitising deletes only whitespace and the four quote characters: every other character survives, in order. |
| Validation.SanitizeTidyWithoutQuotes | utils/validation.py:47-50 | A query without quote characters comes out with no whitespace at either end and no two adjacent blanks. |
| Validation.SanitizeNotIdempotent | utils/validation.py:47-51 | Deleting quotes after collapsing can re-create a leading blank: "< b" becomes " b", which sanitises to "b". |
| Validation.ValidateResponse | utils/validation.py:57-75 | Returns True exactly for a record with string `answer`, list `sources` and string `complexity_level`. The first missing field, in the order answer, sources, complexity_level, is reported before any type error. |
| Validation.ValidateSources | utils/validation.py:77-87 | Accepts exactly the lists whose every entry is a dict with source_file, url or title, including the empty list. Otherwise it raises at a rejected index. |
| Validation.ValidateSourcesReportsFirst | utils/validation.py:80-87 | The index reported is the first rejected one. |
| Validation.ValidateDocumentContent | utils/validation.py:93-105 | True exactly when the content is not blank, has at least 10 stripped characters and at most 100000 raw characters. |
| Validation.ValidateMetadata | utils/validation.py:107-116 | Accepts exactly dicts carrying source_file or url; a non-dict raises the "must be a dict" message. |
| Validation.MetadataImpliesSource | utils/validation.py:77-116 | Metadata accepted by validate_metadata is accepted by validate_sources. The converse fails: title alone passes validate_sources but not validate_metadata. |
| Crawler.SplitLines | utils/web_crawler.py:37 | The pieces contain no line break, and an empty text has no lines (Python's `splitlines`). |
| Crawler.SplitLinesJoined | utils/web_crawler.py:37 | `splitlines` loses only the boundaries: the lines written one after another are the text with every line boundary removed. |
| Crawler.NormalizeTextTidy | utils/web_crawler.py:36-39 | The extracted text is tidy: no line breaks, no whitespace at either end, no two adjacent blanks. |
| Crawler.NormalizeTextKeepsText | utils/web_crawler.py:36-39 | The normalisation only moves whitespace: every non-whitespace character of the page text survives, in order, and the result is empty exactly when the page text is all whitespace. |
| Crawler.NormalizeChunk | utils/web_crawler.py:36-39 | A text that is already one trimmed line with no double blank comes out unchanged. |
| Crawler.SplitTwoLines | utils/web_crawler.py:37 | Two such lines around any single splitlines boundary, "\r" and "\u2028" included, split into exactly those two lines. |
| Crawler.NormalizeTwoLines | utils/web_crawler.py:36-39 | A line boundary between two such lines becomes exactly one blank: the result is the first line, " ", the second. |
| Crawler.DoubleBlankSeparates | utils/web_crawler.py:38 | A line is split on the double blank and its empty pieces dropped: two non-empty, trimmed, one-line chunks without a double blank, joined by "  ", come back as exactly those two chunks. |
| Crawler.CrawlPage | utils/web_crawler.py:22-50 | None exactly when the fetch fails. Otherwise the record has the requested url, the fetched page's title stripped (or "" when the page has none), tidy content holding exactly the page text's non-whitespace characters in order, and metadata {"source": "web", "url", "title"} with that same title. |
| Crawler.PageFrom | utils/web_crawler.py:30-46 | The record built from a parsed page: the url, the page's title stripped or "" without a title tag, metadata {"source": "web", "url", "title"} carrying that title, and tidy content with the page text's non-whitespace characters in order. |
| Crawler.StrippedTitle | utils/web_crawler.py:31 | "" without a title tag; otherwise the title with no whitespace at either end, keeping every non-whitespace character in order, and empty exactly when the title is all whitespace. |
| Crawler.IsValidUrl | utils/web_crawler.py:74-84 | True exactly when the netloc equals the base's, the URL is not yet visited, and the lowercased URL contains none of .pdf .jpg .png .gif .css .js anywhere. |
| Crawler.ExtensionMatchesAnywhere | utils/web_crawler.py:80-83 | The extension test is a substring test on the lowercased URL: "data.json" (contains ".js") and "Photo.JPG?size=2" are refused. |
| Crawler.GetLinks | utils/web_crawler.py:52-72 | [] when link extraction fails; otherwise only links of the page, and each passes is_valid_url. |
| Crawler.FilterLinks | utils/web_crawler.py:62-68 | Keeps only valid links, and every valid link; a list of valid links is kept whole. |
| Crawler.FilterLinksAppend | utils/web_crawler.py:61-66 | The filter keeps document order and duplicates: filtering a concatenation filters each part, and a single link is kept exactly when it is valid. |
| Crawler.Step | utils/web_crawler.py:92-104 | One loop iteration: either no page is added and the frontier shrinks, or exactly one page is appended at the end. |
| Crawler.StepIsFifo | utils/web_crawler.py:91-104 | The frontier is a FIFO queue: the front URL is popped and marked visited; a page is recorded exactly when the URL was unvisited and crawl_page succeeded, and only then are that page's valid links appended at the back. |
| Crawler.CrawlBudget | utils/web_crawler.py:91 | crawl_site returns at most max_pages records, and none when max_pages <= 0. |
| Crawler.CrawlFetchesOnce | utils/web_crawler.py:94-99 | Within one crawl_site the fetched URLs are distinct and none was visited before the call. The visited set only grows: afterwards it is the old set plus exactly the fetched URLs. |
| Crawler.RepeatCrawlFetchesNothing | utils/web_crawler.py:94-96 | The visited set persists across calls: when the base URL is already visited, a later crawl_site fetches nothing and returns []. |
| Crawler.CrawlRecordsSuccesses | utils/web_crawler.py:97-104 | The records are exactly the successful fetches, in fetch order; failures consume a visited entry but no budget. |
| Crawler.SuccessesAreRecords | utils/web_crawler.py:41-46 | Every record carries the URL it was fetched from and metadata with source "web". |
| Crawler.CrawlStaysOnSite | utils/web_crawler.py:89-104 | Apart from the seed, every fetched URL passed is_valid_url: it is on the base host and has no excluded extension. |
| Crawler.WebCrawler.CrawlSite | utils/web_crawler.py:86-108 | The loop's pages and final visited set are those of the specification function Crawl, started from the frontier [base_url] and the current visited set. |
| Loader.RFind | utils/file_loader.py:40 | The last occurrence of a character, or none. |
| Loader.SuffixShape | utils/file_loader.py:27 | pathlib's suffix is empty or a dot followed by dot-free characters, taken from the end of the file name. |
| Loader.SuffixOfName | utils/file_loader.py:27 | For a slash-free stem, the suffix of stem + ext is ext whenever ext is a dot followed by at least one character, none of them a dot or a slash. |
| Loader.DotFileHasNoSuffix | utils/file_loader.py:27 | A dot file such as ".txt" (a dot, then dot-free, slash-free characters) has no suffix. |
| Loader.Basename | utils/file_loader.py:45 | The basename is the whole slash-free tail of the path: when it is shorter than the path, a slash comes right before it. |
| Loader.JoinedBasename | utils/file_loader.py:60-62 | The basename of os.path.join(root, file) is the file name. |
| Loader.ReaderFor | utils/file_loader.py:27-39 | Dispatch: .pdf gives PDF; .docx and .doc give Word; .html and .htm give HTML; .txt gives UTF-8 text; anything else, nothing. |
| Loader.UpperCaseSuffixDispatches | utils/file_loader.py:27 | The suffix is lowercased before dispatch: any slash-free stem + ".PDF", such as "REPORT.PDF", is read as a PDF. |
| Loader.Stamp | utils/file_loader.py:44-46 | One stamped chunk per split chunk, in order. |
| Loader.StampOverwrites | utils/file_loader.py:44-46 | source_file becomes the basename and file_path the path, overwriting earlier values; content and every other key are kept. |
| Loader.LoadFileOutcomes | utils/file_loader.py:25-52 | load_file never raises. When the lowercased suffix selects a reader and both reading and splitting succeed, it returns the split chunks, stamped; in every other case it returns []. |
| Loader.LoadFileKeepsChunks | utils/file_loader.py:41-48 | A file that reads and splits returns one chunk per split chunk, with its content kept and source_file and file_path set; a non-empty split is never lost. |
| Loader.UnsupportedGivesNothing | utils/file_loader.py:38-39 | An unsupported suffix gives [] rather than an exception: any slash-free stem + ".xyz" loads as [], whatever the file system holds. |
| Loader.WalkChunksAppend | utils/file_loader.py:56-66 | The directory result is the concatenation of per-directory results in walk order. |
| Loader.EntryChunksAppend | utils/file_loader.py:60-64 | Within one directory, the result is the concatenation of per-file results in listing order. |
| Loader.OnlyAdmittedContribute | utils/file_loader.py:61 | Files outside the six-extension whitelist contribute nothing. |
| Loader.SilentFileSkipped | utils/file_loader.py:50-64 | A failing file contributes nothing and does not stop the walk. |
| Loader.FileLoader.constructor | utils/file_loader.py:16-23 | chunk_size and chunk_overlap are the explicit values, or the configuration's when None or 0. |
| Loader.FileLoader.LoadFile | utils/file_loader.py:25-52 | Equals the load_file specification function LoadFileResult. |
| Loader.FileLoader.StampChunks | utils/file_loader.py:44-46 | The in-place stamping loop yields Stamp of the split chunks. |
| Loader.FileLoader.LoadDirectory | utils/file_loader.py:54-66 | The nested walk loop yields WalkChunks over os.walk with the whitelist and load_file. |
| Loader.FileLoader.LoadListed | utils/file_loader.py:61-64 | One listed file adds load_file's result on the joined path when its name is whitelisted, and nothing otherwise. |
| Loader.FileLoader.LoadEntry | utils/file_loader.py:58-64 | The inner loop over one directory's files yields EntryChunks. |
| RagChain.PromptsShareInstruction | core/rag_chain.py:142-169 | All three templates begin with the "use only the given information" instruction. |
| RagChain.PromptsShareSlots | core/rag_chain.py:142-169 | Whatever the level, the template ends with the shared context/question/answer tail. |
| RagChain.MediumPromptAsksForSources | core/rag_chain.py:151-159 | The medium template, and every message filled from it, contains the request "Источники: [1], [2], ..." right after the base instruction and the words that introduce it. |
| RagChain.HardPromptAsksForInlineReferences | core/rag_chain.py:161-169 | The hard template, and every message filled from it, contains "[1], [2]" right after the base instruction and the request for inline references. |
| RagChain.FormatMessagesFillsTemplate | core/rag_chain.py:119-120 | The message is the template text with its {context} and {question} slots replaced by the context and the question. |
| RagChain.FormatMessagesCarries | core/rag_chain.py:119-120 | The filled prompt holds the instruction, then the context and the question verbatim at fixed offsets, and ends with "Ответ:". |
| RagChain.SourceNameChoice | core/rag_chain.py:136-138 | A block names its document's source_file if present, else its url, else "Источник i". |
| RagChain.ContextBlockAt | core/rag_chain.py:132-140 | Block i of the context sits at its join offset and reads "[i+1] (name):\n" + content, with the name SourceNameChoice describes. Blocks follow one another in document order, separated by a blank line. |
| RagChain.LabelsDistinct | core/rag_chain.py:135-138 | No two blocks carry the same label. |
| RagChain.EasyContextHoldsContents | core/rag_chain.py:106-107 | The easy context holds every document's content verbatim at its join offset. |
| RagChain.SearchProperties | core/rag_chain.py:73-79 | Without a store, every query gives []. With one, a k of None or 0 means SEARCH_K, and any other k is passed on. |
| RagChain.EoraRAGChain.SearchRelevantDocs | core/rag_chain.py:73-79 | [] while no store has been built; with a store and no k, similarity_search with SEARCH_K. |
| RagChain.ValidationComesFirst | core/rag_chain.py:81-88 | A rejected query or level surfaces as LLMError("Ошибка в generate_answer: …"), whatever the store and the model would do. |
| RagChain.EmptyQueryIsLLMError | core/rag_chain.py:81-87 | An empty question gives LLMError with the "query is empty" message. |
| RagChain.NoDocsFallback | core/rag_chain.py:93-101 | With no store or no hits, a valid question gets the fixed apology, no sources and its own level back. |
| RagChain.AnswerFromDocs | core/rag_chain.py:103-130 | A successful model call yields the record of the model's string answer, the docs' metadata in order and the level, and every source passed validate_sources. |
| RagChain.SuccessShape | core/rag_chain.py:89-130 | On success, sources are the retrieved docs' metadata in retrieval order, one per doc. The model was asked with the level's prompt over the level's context and the sanitised question. |
| RagChain.Pipeline | core/rag_chain.py:87-130 | The steps of generate_answer in order. A returned record means every check passed, and it is well formed with the requested level. |
| RagChain.GenerateAnswerOutcome | core/rag_chain.py:81-130 | Whatever generate_answer raises is a domain error. Every record it returns passes validate_response and echoes the requested level. |
| RagChain.EoraRAGChain.GenerateAnswer | core/rag_chain.py:81-130 | On the chain's store: raises only domain errors, and a returned record is well formed with the requested level. |
| RagChain.EoraRAGChain.PrepareContextWithReferences | core/rag_chain.py:132-140 | The loop yields ContextWithReferences, the blocks joined by "\n\n". |
| RagChain.WebDocumentsKeepsPages | core/rag_chain.py:52-57 | Pages with content become documents one for one, in crawl order, with their content and metadata. |
| RagChain.WebDocumentsFromPages | core/rag_chain.py:52-57 | Every web document comes from a crawled page with non-empty content. |
| RagChain.EoraRAGChain.AppendWebDocuments | core/rag_chain.py:52-57 | The page loop appends exactly WebDocuments of the crawl, after what was already merged. |
| RagChain.LoadOutcome | core/rag_chain.py:33-71 | load_documents raises only domain errors, and returns 0 or the length of the merged list. |
| RagChain.LoadOrder | core/rag_chain.py:37-71 | With the flag defined: file chunks come first, then web documents only when crawling. An empty merge returns 0, and a merge whose store builds returns its length. With no pages (a failed crawl), the merge is the file chunks. |
| RagChain.ShippedLoadAlwaysRaises | core/rag_chain.py:45-59 | With the shipped configuration every call raises DocumentLoadError("Ошибка в load_documents: type object 'Config' has no attribute 'ENABLE_WEB_CRAWLING'"). |
| RagChain.DefinedFlagLoadsFiles | core/rag_chain.py:37-68 | With the flag defined, a file-only load of one chunk returns 1. |
| RagChain.EoraRAGChain.constructor | core/rag_chain.py:23-31 | A new chain has no documents and no store; its loader uses the configuration's sizes and its crawler the default base URL with nothing visited. |
| RagChain.EoraRAGChain.LoadDocuments | core/rag_chain.py:33-71 | The result is LoadOutcome of the file chunks, when the path exists, and of the crawl, when it runs. documents and the store are replaced wholesale exactly when a non-zero count is returned, and are otherwise untouched. The crawler's visited set advances only when the crawl runs. |
| RagChain.EoraRAGChain.BuildStore | core/rag_chain.py:62-71 | An empty merge returns 0 and changes nothing. A store that fails to build raises through the handler and changes nothing. Otherwise both fields are replaced. |
| App.MediumTrailerLabels | app.py:53-54 | The medium trailer starts with "\n\nИсточники: ", has label [k+1] at its join offset for every source k, and ends with the last label. |
| App.FormatSourcesCountsOnly | app.py:48-54 | The output depends only on the number of sources, not on their contents. |
| App.FormatSourcesLevels | app.py:45-56 | easy always gives "". Other non-medium levels, hard included, give "" once the sources are dicts. A non-dict source makes every level except easy raise AttributeError, because `.get` runs before the level test. |
| App.ValidatedSourcesFormat | app.py:43-56 | Sources that passed validate_sources never make format_sources raise. |
| App.FormattedAnswerKeepsAnswer | app.py:162-166 | The answer is shown first and unchanged. The trailer is appended only for medium with a non-empty source list. |
| App.ExpanderLines | app.py:178-185 | One line "**[i]** name" per source, in order, or an error exactly when a source is not a dict. |
| App.ExpanderMatchesContext | app.py:178-185 | Source k is shown under the same label [k+1] as its context block. It has the same name when it has a source_file or url; otherwise the expander says "Неизвестный источник" where the context says "Источник k+1". |
| Text.Strip | utils/validation.py:14 | Python's str.strip(): the result is the input minus its leading and trailing whitespace. |

## Left out

- Logging: the logger calls are not modelled. Only the text of a log line is, in `Errors.LogMessage`.
- Timing, sleeping and performance monitoring are not modelled: utils/performance.py, `time.sleep(delay)` in the crawler, `measure_time` and `with_performance_monitoring`. The decorators pass results and exceptions through, and the function name they preserve is the one used in the error messages.
- The Streamlit UI of app.py is not modelled: widgets, caching and session state. Only `format_sources`, the trailer rule and the display-name rule are.
- HTTP, HTML parsing, `urljoin` and `urlparse` are oracles in `Crawler.Network`. Reference resolution (section 5.2 of RFC 3986) and authority extraction (section 3.2 of RFC 3986) are not modelled.
- The document readers, the text splitter, FAISS, the embeddings and the chat model are oracles.
- Loader.FileLoader.constructor: `RecursiveCharacterTextSplitter(...)` at utils/file_loader.py:19-23 raises ValueError from its own constructor when the overlap exceeds the size (for example `FileLoader(chunk_size=100)` with the configured overlap of 200), so `FileLoader(...)` itself raises. The model's constructor always succeeds and does not capture that exception; such sizes reach the split oracle, whose failure makes every file load as [].
- All oracles are deterministic functions: a repeated call with the same arguments gives the same answer.
- utils/file_loader.py:17 imports `config.Config` rather than `core.config.Config`; the model gives it the same values.
- core/config.py's environment reading and `Config.validate` are not modelled: a `Settings.Config` value holds the class attributes. core/llm_providers.py is not part of this model.
- Validation.ContainsDangerous: regex `\w` is approximated by ASCII letters, digits, `_` and Cyrillic letters, and IGNORECASE by ASCII folding plus the few non-ASCII characters Python folds onto ASCII letters.
- Values.Display: a list or dict is rendered as "[...]" or "{...}", not as Python's full repr. Key order of dicts is not modelled.
- Loader.FileLoader.StampChunks: the source mutates each chunk's metadata dict in place. The model builds new values, so aliasing between the splitter's output and other holders of those dicts is not captured.
- RagChain.EoraRAGChain.SearchRelevantDocs: the store's truthiness is taken to be its presence. A FAISS object is always truthy.
- RagChain.EoraRAGChain.LoadDocuments: crawl_site cannot raise in the model, because its per-page failures are already caught. The `safe_execute` default therefore only appears through `RagChain.LoadOrder`'s empty-pages case.
- Crawler.NormalizeText: the result is fixed exactly only for one or two clean lines (`Crawler.NormalizeChunk`, `Crawler.NormalizeTwoLines`) and around a double blank (`Crawler.DoubleBlankSeparates`). For a general page, `Crawler.NormalizeTextTidy` and `Crawler.NormalizeTextKeepsText` fix it only up to which whitespace characters fall where, between and inside chunks: a tab or U+00A0 inside a line is kept by the source, and no lemma states that for a general page.
- rag_chain.py at the repository root is a stub with empty methods and is not part of this model.

## Findings

| source | as written | input that shows it | evidently intended | confidence | as-written member | corrected member |
|---|---|---|---|---|---|---|
| core/rag_chain.py:45-59 | `load_documents` reads `Config.ENABLE_WEB_CRAWLING`, which core/config.py never defines. Both branches read it: line 45 when include_web is true, line 59 otherwise. The AttributeError is wrapped into DocumentLoadError. | `load_documents("./test_data", include_web=False)` with one file chunk. tests/test_rag_chain.py:99-124 expects 1 but gets DocumentLoadError. | The flag is a defined boolean, and the call returns the number of merged documents. | not executed | RagChain.ShippedLoadAlwaysRaises | RagChain.DefinedFlagLoadsFiles |
