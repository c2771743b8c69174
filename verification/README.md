# LiteResearch retrieval pipeline and request handling, in Dafny

This project models the deterministic core of LiteResearch, a research-report
generator. A user query is split into sub-queries. Each sub-query is searched
(Tavily, with DuckDuckGo as fallback). The result pages are scraped and
whitespace-normalised, short pages are dropped, and a context compressor reduces
the pages to a few source blocks. The contexts are then joined and handed to the
report writer. The model also covers the front end's input validation and the
prompt decisions (task composition, builder choice, reference and tone text).

Every outside service is an oracle: a function value passed in by the caller.
These are the two search APIs, HTTP fetching with HTML extraction, the
embedding-based compressor and each language-model call. Python exceptions are
`Result.Failure` or `Option.None`. Python's `str.strip`, `str.splitlines`,
`str.split(sep)`, `str.join` and `str(int)` are modelled exactly in `PyStr`,
with the whitespace and line-boundary character tables of Python's `str`.

Modules:

- `Wrappers`: `Option` and `Result`.
- `PyStr`: Python string operations and their laws.
- `Constants`: the numeric constants of `constants.py`.
- `ResearchEnums`: report types, sources and tones.
- `WebRetriever`: search, scraping, the scrape coordinator, documents and context formatting.
- `ResearchPrompts`: task composition, the search-queries prompt, builder and reference choice, the tone sentence.
- `LiteResearcher`: construction, the research phase and the report phase.
- `LiteResearchApp`: the request handler.

Where the project's prose description and its code disagree, the model follows
the code:

- An empty Tavily result list raises `TavilyAPIError` and is re-raised. The description says it falls back to DuckDuckGo; the code does not.
- A failing sub-query pipeline makes the whole research phase fail, because `asyncio.gather` is called without `return_exceptions`. The description suggests degrading that sub-query to an empty context.
- A missing Tavily API key raises at construction, so it fails the sub-query too.
- The sub-query prompt is modelled as the code composes it. For a detailed or subtopic report it asks about "None - <query>" (see Findings).
- A sub-query pipeline whose every scrape fails gives an empty context; the compression retriever does not consult the embeddings filter when it has no documents.
- `construct_subtopics` is not validated against its schema. A subtopic without `"task"` makes the detailed report raise `KeyError` after the introduction and before any subtopic report.

## Model

| member | source | states |
|---|---|---|
| WebRetriever.ApiKey | backend/literesearch/web_retriever.py:51-54 | A key is found exactly when the `tavily_api_key` header or the `TAVILY_API_KEY` variable is non-empty. A non-empty header wins. Otherwise the error is `TavilyAPIError` with the fixed message. |
| WebRetriever.NewTavilySearch | backend/literesearch/web_retriever.py:36-42 | Constructing the search fails exactly when no key is found, with the key lookup's error; otherwise it keeps the query and the key. |
| WebRetriever.MapTavilyHits | backend/literesearch/web_retriever.py:73 | Mapping succeeds exactly when every entry has both `url` and `content`; the result is one `{href, body}` per entry, in order. |
| WebRetriever.SearchOutcomes | backend/literesearch/web_retriever.py:63-88 | `search` fails only when the primary returns an empty or missing list, with "no results". A usable primary answer maps one to one and in order. Any other primary failure returns DuckDuckGo's list as is, or `[]` when DuckDuckGo raises. |
| WebRetriever.EmptyPrimaryIgnoresFallback | backend/literesearch/web_retriever.py:70-75 | An empty primary answer fails whatever the fallback would have answered. |
| WebRetriever.Scrape | backend/literesearch/web_retriever.py:132-158 | A request exception, an HTTP 4xx/5xx status, a Content-Type containing `application/pdf` (any case) or a parse failure each give `""`. |
| WebRetriever.ScrapeOfPage | backend/literesearch/web_retriever.py:132-171 | A fetched, non-error, non-PDF, parsed page gives the normalisation of its elements' texts, each followed by a newline. The output keeps those texts' visible characters in document order, and each output line is a fragment. |
| WebRetriever.FragmentsAreFragments | backend/literesearch/web_retriever.py:149-151 | Every fragment from the strip/split/strip/filter pipeline is non-empty and stripped, with no line boundary and no double space. |
| WebRetriever.NormalizedLines | backend/literesearch/web_retriever.py:149-151 | Splitting the normalised text into lines gives back exactly the fragments, in order. Each one is non-empty with no whitespace at either end. |
| WebRetriever.NormalizeKeepsText | backend/literesearch/web_retriever.py:149-151 | Normalisation changes only whitespace: the non-whitespace characters of input and output are equal. |
| WebRetriever.NormalizeIdempotent | backend/literesearch/web_retriever.py:149-151 | Normalising normalised text changes nothing. |
| WebRetriever.ExtractDataFromLink | backend/literesearch/web_retriever.py:217-227 | The URL is kept. The content is present exactly when the scraper returned text of at least the minimum length, and then it is that text unchanged. |
| WebRetriever.RunScraperIsFilter | backend/literesearch/web_retriever.py:200-205 | Mapping then dropping `None` equals a per-URL filter in input order. |
| WebRetriever.RunScraperSpec | backend/literesearch/web_retriever.py:194-205 | Kept URLs form a subsequence of the input. Each kept page holds exactly what its scraper returned, of at least the minimum length (100 unless configured). |
| WebRetriever.RunScraperAppend | backend/literesearch/web_retriever.py:200-205 | Scraping `a + b` gives the pages of `a` followed by the pages of `b`. |
| WebRetriever.FailingUrlIsIsolated | backend/literesearch/web_retriever.py:217-227 | A URL whose scraper raises only removes that URL's page; every other page is unchanged. |
| WebRetriever.BeautifulSoupPages | backend/literesearch/web_retriever.py:125-227 | With the default scraper, every returned page was fetched with a non-error, non-PDF, parsed response. Its content is that page's normalised text, at least the minimum length long. |
| WebRetriever.RelevantDocumentsRoundTrip | backend/literesearch/web_retriever.py:254-263 | One document per page, in order. The page's content and URL can be read back, and the title is `""`. |
| WebRetriever.PrettyPrintDocsSpec | backend/literesearch/web_retriever.py:317-323 | The output is the first `min(top_n, n)` documents' `Source/Title/Content` blocks, in order, joined by `"\n"`. It is `""` for no documents or a non-positive `top_n`. |
| WebRetriever.PrettyPrintIgnoresExtraDocs | backend/literesearch/web_retriever.py:317-323 | Documents past the cap never affect the output. |
| WebRetriever.GetContextSpec | backend/literesearch/web_retriever.py:290-335 | With no scraped pages, `get_context` gives `""` and the filter is not asked. With pages, it fails exactly when the embeddings filter raises. Otherwise it renders the survivors capped with its own `max_results`, never the constructor's, and gives `""` when nothing survives. |
| WebRetriever.NoPagesNoContext | backend/literesearch/web_retriever.py:290-335 | With no scraped pages, `get_context` gives `""` whatever the embeddings filter would have done. |
| WebRetriever.RunScraperEmpty | backend/literesearch/web_retriever.py:217-227 | `Scraper.run` returns no pages exactly when every URL's scrape raises or returns too little. |
| ResearchEnums.ToneFromValue | backend/literesearch/research_enums.py:25-42 | A tone found for a string has exactly that string as its value. |
| ResearchEnums.ToneValueRoundTrip | backend/literesearch/research_enums.py:25-42 | `Tone(tone.value)` is the tone itself for every one of the fifteen tones. |
| ResearchEnums.ToneValueInjective | backend/literesearch/research_enums.py:25-42 | Distinct tones have distinct values. |
| ResearchPrompts.SearchTaskAsWrittenLeaksNone | backend/literesearch/research_prompts.py:39-42 | As written, a detailed report with no parent query asks about "None - AI" rather than "AI". |
| ResearchPrompts.SearchTaskAsWrittenWithoutParent | backend/literesearch/research_prompts.py:39-42 | With no parent query, a detailed or subtopic report asks about `"None - " + question`, which differs from the corrected task. Every other type asks about the question. |
| ResearchPrompts.SearchTask | backend/literesearch/research_prompts.py:39-42 | The composed task always ends with the question. |
| ResearchPrompts.SearchTaskSpec | backend/literesearch/research_prompts.py:39-42 | Without a parent, or for a type other than detailed or subtopic, the task is the question. With a parent it agrees with the code as written. |
| ResearchPrompts.TaskOfPrompt | backend/literesearch/research_prompts.py:44-48 | A task read back from a prompt renders to that same prompt. |
| ResearchPrompts.SearchQueriesPromptRoundTrip | backend/literesearch/research_prompts.py:44-48 | Reading the task out of the rendered prompt gives the task back, so the prompt carries its task losslessly. |
| ResearchPrompts.SearchQueriesPromptMentions | backend/literesearch/research_prompts.py:36-48 | The prompt contains the quoted task and the decimal `max_iterations`, and those digits read back as that number. |
| ResearchPrompts.ReportBuilderFor | backend/literesearch/research_prompts.py:195-202 | A registered type selects the builder registered under it; any other type selects the research-report builder. |
| ResearchPrompts.ReportBuilderRoundTrip | backend/literesearch/research_prompts.py:196-201 | Each of the four builders is selected by its own key. |
| ResearchPrompts.UnregisteredTypesUseReportPrompt | backend/literesearch/research_prompts.py:202 | `detailed_report` and `custom_report` select the research-report builder. |
| ResearchPrompts.ReportReferencesDiffer | backend/literesearch/research_prompts.py:59-71 | The web and non-web reference instructions of the report prompt differ. |
| ResearchPrompts.ResourceReferencesDiffer | backend/literesearch/research_prompts.py:100-104 | The web and non-web reference instructions of the resource prompt differ. |
| ResearchPrompts.ReferenceChoice | backend/literesearch/research_prompts.py:59-104 | In both builders, two sources get the same instruction exactly when both or neither are `"web"`, and the URL instruction is chosen exactly for `"web"`. |
| ResearchPrompts.ToneSentence | backend/literesearch/research_prompts.py:73 | The tone sentence is empty exactly when there is no tone. |
| ResearchPrompts.ToneSentenceRoundTrip | backend/literesearch/research_prompts.py:73 | The sentence contains the tone's value, and the tone reads back from the sentence (no tone from the empty one). |
| LiteResearcher.New | backend/literesearch/literesearcher.py:61-87 | Construction fails with `ValueError("Query content cannot be empty")` exactly when the query is all whitespace. Otherwise the stored query is `query.strip()`: non-empty, stripped, with the same visible text. Report type, source, tone, agent and role are kept, and the context starts empty. |
| LiteResearcher.NewOverrides | backend/literesearch/literesearcher.py:82-87 | A given limit replaces the configured one, and `None` keeps it; no other configuration field changes. |
| LiteResearcher.NewIsStable | backend/literesearch/literesearcher.py:62-65 | Constructing again from the stored query gives the same researcher. |
| LiteResearcher.ResolveAgent | backend/literesearch/literesearcher.py:143-144 | After resolution the agent and role are set, and nothing else in the researcher changes. |
| LiteResearcher.ResolveAgentSpec | backend/literesearch/literesearcher.py:143-144 | If both agent and role are set, they are kept and the chooser is never consulted. Otherwise the chooser's pair replaces both, or its exception fails the run. |
| LiteResearcher.GetSubQueries | backend/literesearch/literesearcher.py:147-149 | The request fails exactly when the model call raises. A parsed list is returned as it is, and an unparseable reply gives the query as the only sub-query. |
| LiteResearcher.SubQueriesPromptSpec | backend/literesearch/literesearcher.py:147-149 | The sub-query prompt names `max_iterations`. Its task is `"None - " + query` for a detailed or subtopic report, which is not the corrected prompt, and the query itself for every other type. |
| LiteResearcher.Hrefs | backend/literesearch/literesearcher.py:119 | One URL per search result, its `href`, in result order. |
| LiteResearcher.ProcessSubQuerySpec | backend/literesearch/literesearcher.py:100-132 | A pipeline fails with the missing-key error when the environment has no key, with "no results" when the primary search returned nothing, and with a compression failure when some page was scraped and the embeddings filter raises; in no other case. When every scrape fails it returns `""`. Otherwise it returns the first 5 compressed blocks of pages scraped from exactly the result URLs. The call's position does not matter. |
| LiteResearcher.PlanCalls | backend/literesearch/literesearcher.py:161-164 | Task i is sub-query i with index i+1 and the total count. |
| LiteResearcher.AllOkSuccess | backend/literesearch/literesearcher.py:161-165 | A sequential gather succeeds exactly when every task succeeds, with one result per task in order. |
| LiteResearcher.AllOkFailure | backend/literesearch/literesearcher.py:165 | A failed gather reports the error of the first failing task; all earlier tasks succeeded. |
| LiteResearcher.AllOkCongruent | backend/literesearch/literesearcher.py:161-165 | A gather depends only on the task results of its own elements. |
| LiteResearcher.ConductResearchSpec | backend/literesearch/literesearcher.py:134-169 | The stored contexts match the sub-queries one for one, in order, each from its own pipeline. The phase fails exactly when some pipeline fails, with the first such error. Nothing but agent, role and context changes. |
| LiteResearcher.DetailedReportSpec | backend/literesearch/literesearcher.py:179-216 | A detailed report is the introduction, `"\n\n"`, and the subtopic reports in order joined by `"\n\n"`. The subtopics are constructed from the query, the joined context and the configured `max_subtopics`. Every request gets the newline-joined context, the query as main topic and all subtopics' tasks as existing headers. A failing introduction fails the report. After it, a subtopic without `"task"` fails the report with `KeyError`, before any subtopic report. Otherwise it fails exactly when some subtopic request fails. |
| LiteResearcher.SubtopicLimitReachesOracle | backend/literesearch/literesearcher.py:186 | The configured `max_subtopics` reaches the report through the subtopic request: a different limit gives the report the oracle would give when asked under that limit. |
| LiteResearcher.TaskNames | backend/literesearch/literesearcher.py:196-209 | The subtopics' tasks are read in order, one per entry. Reading fails exactly when some entry has no `"task"`. |
| LiteResearcher.SingleReportSpec | backend/literesearch/literesearcher.py:217-229 | Any other report type makes exactly one request, with the query, the joined context and its own type, and returns the answer unchanged. |
| LiteResearcher.RunSpec | backend/literesearch/literesearcher.py:234-242 | A failed research phase fails the run without consulting the report writer. On success the agent was resolved, the sub-queries obtained and every pipeline succeeded. The report phase then runs on the resolved researcher with the pipelines' contexts, one per sub-query in order. |
| LiteResearchApp.ValidateIsFirstFailure | frontend/literesearch_app.py:161-179 | The reported check fails and every earlier check passes. Nothing is reported exactly when all checks pass. |
| LiteResearchApp.ValidateAccepts | frontend/literesearch_app.py:161-179 | A request is accepted exactly when the stripped query has at least 3 characters, iterations and subtopics are in 1..10 and search results are in 1..20. |
| LiteResearchApp.RejectionMessages | frontend/literesearch_app.py:158-179 | For each failing check, the handler shows that check's exact message, with its bounds written out. |
| LiteResearchApp.RunResearch | frontend/literesearch_app.py:212-238 | An unknown tone value or a blank query gives `None`, not an exception. |
| LiteResearchApp.RejectedRequests | frontend/literesearch_app.py:158-179 | A rejected request shows the first failing check's message, starts no research and keeps the session. |
| LiteResearchApp.AcceptedRequestsBuild | frontend/literesearch_app.py:197-225 | An accepted request always builds a researcher with the stripped query and the three limits unchanged. A tone offered by the selection box is always valid. |
| LiteResearchApp.AcceptedRequestsStore | frontend/literesearch_app.py:197-209 | An accepted request runs research. Only a non-empty report replaces the stored one. |
| LiteResearchApp.RunResearchOutcome | frontend/literesearch_app.py:212-238 | For an accepted request and a valid tone, the result is the driver's report on success and `None` on any failure. |
| PyStr.Strip | backend/literesearch/web_retriever.py:149 | `strip()` gives a slice of its input with only whitespace before and after it, itself with no whitespace at either end. It keeps the visible text, fixes stripped strings and gives `""` exactly for all-whitespace input. |
| PyStr.SplitLinesKeepsText | backend/literesearch/web_retriever.py:149 | `splitlines()` keeps every non-whitespace character, in order. |
| PyStr.SplitLinesRejoin | backend/literesearch/web_retriever.py:149 | `splitlines()` removes exactly the line boundaries: putting each line's boundary back after it rebuilds the input. |
| PyStr.LineEndsAreBoundaries | backend/literesearch/web_retriever.py:149 | Each removed boundary is one line-break character or `"\r\n"`. Only the last line may end at the end of the input instead. |
| PyStr.SplitLinesJoin | backend/literesearch/web_retriever.py:151 | Non-empty lines without boundaries, joined by `"\n"`, split back into the same lines. |
| PyStr.JoinSplit | backend/literesearch/web_retriever.py:150 | `sep.join(s.split(sep)) == s`. |
| PyStr.NatToStringRoundTrip | backend/literesearch/research_prompts.py:45 | `int(str(n)) == n` for the decimal rendering of `max_iterations`. |

## Left out

- Network and parsing internals. HTTP sessions, the user agent, the timeout (`DEFAULT_TIMEOUT` or 4), `lxml` and `from_encoding` are folded into the `fetch` oracle. It returns the response status, Content-Type and the text of each `p`/`h1`..`h5` element after `script` and `style` removal. A parse exception is `page = None`.
- Tavily client details. `search_depth="basic"` and DuckDuckGo's `region="wt-wt"` are fixed arguments inside the provider oracles. A DuckDuckGo hit is assumed to carry `href` and `body`; one without `href` would raise `KeyError` in `process_sub_query`, and that is not modelled.
- Concurrency. The thread pool's worker count and the `asyncio.Semaphore` limit are not modelled. Both pools are sequential maps, since both return results in input order.
- Gather error choice. When several sub-queries fail, the model reports the lowest-index error; the real `gather` reports whichever raises first in time.
- The embedding filter and the text splitter (chunk size 500, overlap 100, similarity threshold 0.38) are floating-point library code. They are the `compress` oracle from (query, documents) to the surviving documents. It may also raise, for example when the embedding service answers with an HTTP error; that failure propagates out of the run.
- The language-model calls are oracles: `choose_agent` (with its retries and JSON fallback), `construct_subtopics`, `get_report_introduction` and `generate_report`. `construct_subtopics` catches its own exceptions and then returns its `subtopics` argument (`[]` here), so its oracle never fails. Its oracle receives the query, the joined context and `max_subtopics`. Each entry it returns is modelled only by its `"task"` field or the absence of one. An entry that is not an object at all raises `TypeError` rather than `KeyError`; the model does not tell these apart. The parser does not check the schema, so a `"subtopics"` value that is not a list (`null`, a number, a boolean) is returned as is. `len(subtopics)` then raises `TypeError` before the introduction is requested; the oracle always returns a list, so this failure is not modelled.
- Of `get_sub_queries`, the prompt text it composes and the fallback to `[query]` on an unparseable reply are modelled. A JSON reply that is not a list of strings is not distinguished.
- LiteResearcher.SubQueriesPromptSpec: the role and the prompt go through `ChatPromptTemplate` (backend/literesearch/literesearch_agent.py:143-157), which reads braces as template syntax. A `{name}` in the query or role makes the request raise `KeyError`. `{{` and `}}` become single braces, and `{question}` is replaced by the query. The model's prompt is the message actually sent only when the query and the role contain no braces.
- Prompt wording. Only the search-queries prompt, the reference instructions and the tone sentence are exact. The other builders' text, `date.today()`/`datetime.now()` and the `", tone=..."` suffix the agent appends are not modelled.
- ResearchPrompts.ToneSentence: the agent's `generate_report` never passes a tone to `generate_report_prompt`, so in a real run that sentence is always empty. The model states the function on its own.
- WebRetriever.GetRetriever: `get_retriever` returns Tavily on both branches, so its result carries no information and the function has no contract.
- Configuration loading from the environment and files, logging, verbose callbacks, session identifiers and monitoring.
- Streamlit rendering, the spinner and the progress area.
- `str.lower()` covers ASCII letters only. No other character lowers into a letter of `application/pdf` as a single character, so the PDF test is unaffected.

## Findings

| source | as written | input that shows it | evidently intended | confidence | as-written member | corrected member |
|---|---|---|---|---|---|---|
| backend/literesearch/research_prompts.py:39-42 | The research phase passes `parent_query=None`. For `detailed_report` the task is `f"{parent_query} - {question}"`, so the prompt asks about the literal text "None - …" (literesearcher.py:147-149). | query "AI", report type `detailed_report` | without a parent query the task is the question itself | medium (not executed) | ResearchPrompts.SearchTaskAsWritten with ResearchPrompts.SearchTaskAsWrittenLeaksNone | ResearchPrompts.SearchTask with ResearchPrompts.SearchTaskSpec |
