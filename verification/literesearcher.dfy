/** The research driver: constructing a researcher, the research phase (agent choice,
    sub-queries, one retrieval pipeline per sub-query) and the report phase. Every
    language-model call and every network service is an oracle in `Services`; the
    asynchronous `gather` over sub-queries is a sequential map, since it returns its
    results in task order. */
module LiteResearcher {
  import opened Wrappers
  import opened PyStr
  import Constants
  import opened ResearchEnums
  import opened WebRetriever
  import opened ResearchPrompts

  // ===========================================================================
  // Configuration and construction
  // ===========================================================================

  /** The configuration values the driver reads. */
  datatype Config = Config(
    retriever: string,
    maxIterations: int,
    maxSubtopics: int,
    maxSearchResultsPerQuery: int,
    scraper: ScraperConfig)

  /** The configuration with every environment variable unset. */
  const DEFAULT_CONFIG := Config(
    "tavily",
    Constants.DEFAULT_MAX_ITERATIONS,
    Constants.DEFAULT_MAX_SUBTOPICS,
    Constants.DEFAULT_MAX_SEARCH_RESULTS_PER_QUERY,
    ScraperConfig(Constants.MIN_CONTENT_LENGTH, Constants.DEFAULT_MAX_WORKERS, Constants.DEFAULT_TIMEOUT))

  /** The failure modes of a research run: the constructor's `ValueError`, a
      `TavilyAPIError` out of a search, an exception out of a language-model call
      or out of the embeddings filter, or the `KeyError` of a subtopic without a task. */
  datatype ResearchError =
    | ValueError(message: string)
    | SearchFailed(error: SearchError)
    | ServiceFailed(stage: Stage)
    | MissingKey(key: string)

  /** The outside calls that can raise: the language-model calls and the embeddings filter. */
  datatype Stage = ChooseAgentStage | SubQueriesStage | CompressStage | IntroductionStage | ReportStage

  const EMPTY_QUERY_MESSAGE := "Query content cannot be empty"

  /** The state of a `LiteResearcher` that the research and report phases read and write. */
  datatype Researcher = Researcher(
    query: string,
    reportType: string,
    reportSource: string,
    tone: Tone,
    cfg: Config,
    agent: Option<string>,
    role: Option<string>,
    context: seq<string>)

  /** `LiteResearcher.__init__`: rejects a query that is empty or only whitespace,
      stores the stripped query, and overrides the three limits that were given. */
  function New(query: string, reportType: string, reportSource: string, tone: Tone, cfg: Config,
               agent: Option<string>, role: Option<string>,
               maxIterations: Option<int>, maxSubtopics: Option<int>, maxSearchResultsPerQuery: Option<int>)
    : (r: Result<Researcher, ResearchError>)
    ensures r.Success? <==> !AllSpace(query)
    ensures r.Failure? ==> r.error == ValueError(EMPTY_QUERY_MESSAGE)
    ensures r.Success? ==> r.value.query != [] && IsStripped(r.value.query) && NonSpace(r.value.query) == NonSpace(query)
    ensures r.Success? ==> r.value.query == Strip(query)
    ensures r.Success? ==> r.value.context == [] && r.value.agent == agent && r.value.role == role
    ensures r.Success? ==> r.value.reportType == reportType && r.value.reportSource == reportSource && r.value.tone == tone
  {
    var q := Strip(query);
    if query == [] || q == [] then Failure(ValueError(EMPTY_QUERY_MESSAGE))
    else
      var c := cfg.(maxIterations := maxIterations.GetOr(cfg.maxIterations),
                    maxSubtopics := maxSubtopics.GetOr(cfg.maxSubtopics),
                    maxSearchResultsPerQuery := maxSearchResultsPerQuery.GetOr(cfg.maxSearchResultsPerQuery));
      Success(Researcher(q, reportType, reportSource, tone, c, agent, role, []))
  }

  /** A limit passed to the constructor replaces the configured one; a limit left at
      `None` keeps the configured value; nothing else in the configuration changes. */
  lemma NewOverrides(query: string, reportType: string, reportSource: string, tone: Tone, cfg: Config,
                     agent: Option<string>, role: Option<string>,
                     maxIterations: Option<int>, maxSubtopics: Option<int>, maxSearchResultsPerQuery: Option<int>)
    requires !AllSpace(query)
    ensures var c := New(query, reportType, reportSource, tone, cfg, agent, role,
                         maxIterations, maxSubtopics, maxSearchResultsPerQuery).value.cfg;
            && (maxIterations.Some? ==> c.maxIterations == maxIterations.value)
            && (maxIterations.None? ==> c.maxIterations == cfg.maxIterations)
            && (maxSubtopics.Some? ==> c.maxSubtopics == maxSubtopics.value)
            && (maxSubtopics.None? ==> c.maxSubtopics == cfg.maxSubtopics)
            && (maxSearchResultsPerQuery.Some? ==> c.maxSearchResultsPerQuery == maxSearchResultsPerQuery.value)
            && (maxSearchResultsPerQuery.None? ==> c.maxSearchResultsPerQuery == cfg.maxSearchResultsPerQuery)
            && c.(maxIterations := cfg.maxIterations, maxSubtopics := cfg.maxSubtopics,
                  maxSearchResultsPerQuery := cfg.maxSearchResultsPerQuery) == cfg
  {
  }

  /** Constructing twice from the stored query gives the same researcher: the
      stored query is a fixed point of the validation. */
  lemma NewIsStable(query: string, reportType: string, reportSource: string, tone: Tone, cfg: Config,
                    agent: Option<string>, role: Option<string>)
    requires !AllSpace(query)
    ensures var r := New(query, reportType, reportSource, tone, cfg, agent, role, None, None, None).value;
            New(r.query, reportType, reportSource, tone, cfg, agent, role, None, None, None) == Success(r)
  {
    var q := Strip(query);
    StripIdempotent(query);
  }

  // ===========================================================================
  // Services
  // ===========================================================================

  /** What the sub-query call of the language model yields: a parsed JSON list, a
      reply that is not JSON, or an exception. */
  datatype SubQueryReply = QueriesParsed(queries: seq<string>) | QueriesUnparseable | QueriesRaised

  /** One request to the report writer: the arguments `generate_report` receives. */
  datatype ReportCall = ReportCall(
    task: string,
    context: string,
    role: Option<string>,
    reportType: string,
    tone: Tone,
    reportSource: string,
    mainTopic: string,
    existingHeaders: seq<string>)

  /** The outside world. `None` from an oracle stands for an exception. The subtopic
      oracle is asked with the task, the research data and the subtopic limit; it never
      raises, and each entry it returns is the entry's `"task"` field, `None` when the
      entry has no such key. */
  datatype Services = Services(
    env: map<string, string>,
    search: SearchProviders,
    fetch: string -> FetchOutcome,
    compress: Compressor,
    chooseAgent: string -> Option<(string, string)>,
    subQueries: (string, string) -> SubQueryReply,
    subtopics: (string, string, int) -> seq<Option<string>>,
    introduction: (string, string, Option<string>) -> Option<string>,
    report: ReportCall -> Option<string>)

  /** An oracle's answer, with an exception mapped to the stage that raised. */
  function OrFail<T>(o: Option<T>, stage: Stage): (r: Result<T, ResearchError>)
    ensures r.Success? <==> o.Some?
    ensures r.Success? ==> r.value == o.value
    ensures r.Failure? ==> r.error == ServiceFailed(stage)
  {
    match o
    case Some(v) => Success(v)
    case None => Failure(ServiceFailed(stage))
  }

  // ===========================================================================
  // The research phase
  // ===========================================================================

  /** The agent is chosen unless both the agent and its role are already set. */
  predicate NeedsAgent(r: Researcher) {
    !(Truthy(r.agent) && Truthy(r.role))
  }

  function ResolveAgent(r: Researcher, chooseAgent: string -> Option<(string, string)>): (res: Result<Researcher, ResearchError>)
    ensures res.Success? ==> res.value.role.Some? && res.value.agent.Some?
    ensures res.Success? ==> res.value.(agent := r.agent, role := r.role) == r
  {
    if NeedsAgent(r) then
      match chooseAgent(r.query)
      case None => Failure(ServiceFailed(ChooseAgentStage))
      case Some(choice) => Success(r.(agent := Some(choice.0), role := Some(choice.1)))
    else Success(r)
  }

  /** A researcher whose agent and role are both set keeps them and never consults
      the chooser; otherwise the chooser's answer replaces both. */
  lemma ResolveAgentSpec(r: Researcher, choose1: string -> Option<(string, string)>, choose2: string -> Option<(string, string)>)
    ensures !NeedsAgent(r) ==> ResolveAgent(r, choose1) == ResolveAgent(r, choose2) == Success(r)
    ensures NeedsAgent(r) && choose1(r.query).Some? ==>
              ResolveAgent(r, choose1).Success?
              && ResolveAgent(r, choose1).value.agent == Some(choose1(r.query).value.0)
              && ResolveAgent(r, choose1).value.role == Some(choose1(r.query).value.1)
    ensures NeedsAgent(r) && choose1(r.query).None? ==>
              ResolveAgent(r, choose1) == Failure(ServiceFailed(ChooseAgentStage))
  {
  }

  /** The human prompt of the sub-query request: the search-queries prompt for the
      researcher's own query, passed with no parent query. */
  function SubQueriesPrompt(r: Researcher): string {
    SearchQueriesPrompt(SearchTaskAsWritten(r.query, None, r.reportType), r.cfg.maxIterations)
  }

  /** The system prompt of the sub-query request: the role, or "None" when it is unset. */
  function SubQueriesRole(r: Researcher): string {
    FormatOptional(r.role) + "\n\n"
  }

  /** `get_sub_queries(self.query, self.role, self.cfg, None, self.report_type)`: the call
      fails only when the language model raises; a parsed list is returned as it is,
      and a reply that is not JSON falls back to the query itself. */
  function GetSubQueries(r: Researcher, subQueries: (string, string) -> SubQueryReply): (res: Result<seq<string>, ResearchError>)
    ensures res.Failure? <==> subQueries(SubQueriesRole(r), SubQueriesPrompt(r)).QueriesRaised?
    ensures res.Failure? ==> res.error == ServiceFailed(SubQueriesStage)
    ensures subQueries(SubQueriesRole(r), SubQueriesPrompt(r)).QueriesParsed? ==>
              res == Success(subQueries(SubQueriesRole(r), SubQueriesPrompt(r)).queries)
    ensures subQueries(SubQueriesRole(r), SubQueriesPrompt(r)).QueriesUnparseable? ==> res == Success([r.query])
  {
    match subQueries(SubQueriesRole(r), SubQueriesPrompt(r))
    case QueriesParsed(qs) => Success(qs)
    case QueriesUnparseable => Success([r.query])
    case QueriesRaised => Failure(ServiceFailed(SubQueriesStage))
  }

  /** The sub-query prompt asks for `max_iterations` queries about the researcher's
      query. For a detailed or subtopic report the missing parent query is rendered,
      so the task asked about is "None - " followed by the query, which is not what the
      corrected task would ask; for every other report type the task is the query. */
  lemma SubQueriesPromptSpec(r: Researcher)
    requires r.cfg.maxIterations >= 0
    ensures UsesParentQuery(r.reportType) ==>
              TaskOfPrompt(SubQueriesPrompt(r), r.cfg.maxIterations) == Some("None - " + r.query)
    ensures !UsesParentQuery(r.reportType) ==>
              TaskOfPrompt(SubQueriesPrompt(r), r.cfg.maxIterations) == Some(r.query)
    ensures UsesParentQuery(r.reportType) ==>
              SubQueriesPrompt(r) != SearchQueriesPrompt(SearchTask(r.query, None, r.reportType), r.cfg.maxIterations)
    ensures Contains(SubQueriesPrompt(r), NatToString(r.cfg.maxIterations))
  {
    var task := SearchTaskAsWritten(r.query, None, r.reportType);
    var corrected := SearchTask(r.query, None, r.reportType);
    SearchTaskAsWrittenWithoutParent(r.query, r.reportType);
    SearchQueriesPromptRoundTrip(task, r.cfg.maxIterations);
    SearchQueriesPromptRoundTrip(corrected, r.cfg.maxIterations);
    SearchQueriesPromptMentions(task, r.cfg.maxIterations);
  }

  /** One scheduled sub-query: the query, its 1-based position and the number of
      sub-queries. The position and total only feed progress messages. */
  datatype SubQueryCall = SubQueryCall(subQuery: string, index: int, total: int)

  /** The tasks handed to `gather`, in order. */
  function PlanCalls(subQueries: seq<string>): (calls: seq<SubQueryCall>)
    ensures |calls| == |subQueries|
    ensures forall i :: 0 <= i < |calls| ==> calls[i] == SubQueryCall(subQueries[i], i + 1, |subQueries|)
  {
    seq(|subQueries|, i requires 0 <= i < |subQueries| => SubQueryCall(subQueries[i], i + 1, |subQueries|))
  }

  /** The `href` of each search result, in order. */
  function Hrefs(hits: seq<SearchHit>): (urls: seq<string>)
    ensures |urls| == |hits|
    ensures forall k :: 0 <= k < |hits| ==> urls[k] == hits[k].href
  {
    if hits == [] then [] else [hits[0].href] + Hrefs(hits[1..])
  }

  /** `process_sub_query`: search with the configured cap (no request headers, so the
      key comes from the environment), scrape every result URL with the default
      scraper, and render the compressed documents with the default cap of 5. An
      exception of the embeddings filter is not caught. */
  function ProcessSubQuery(cfg: Config, call: SubQueryCall, services: Services): Result<string, ResearchError> {
    match NewTavilySearch(call.subQuery, map[], services.env, DEFAULT_TOPIC)
    case Failure(e) => Failure(SearchFailed(e))
    case Success(ts) =>
      match Search(ts, cfg.maxSearchResultsPerQuery, services.search)
      case Failure(e) => Failure(SearchFailed(e))
      case Success(hits) =>
        var pages := RunScraper(Hrefs(hits), BeautifulSoupAttempt(services.fetch), Some(cfg.scraper));
        var compressor := ContextCompressor(pages, DEFAULT_CONTEXT_MAX_RESULTS);
        OrFail(GetContext(compressor, call.subQuery, DEFAULT_CONTEXT_MAX_RESULTS, services.compress), CompressStage)
  }

  /** What one sub-query's pipeline produces. It fails when no API key is in the
      environment, when the primary search returned no results, or when some page was
      scraped and the embeddings filter raises, and in no other case. When every
      scrape fails the context is empty and the filter is not consulted. Otherwise the
      context is the rendering of at most 5 compressed documents drawn from pages
      scraped from exactly the result URLs, in result order. The position of the call
      does not matter. */
  lemma ProcessSubQuerySpec(cfg: Config, call: SubQueryCall, services: Services)
    ensures var r := ProcessSubQuery(cfg, call, services);
            && (!Truthy(Lookup(services.env, TAVILY_KEY_ENV)) ==> r == Failure(SearchFailed(TavilyApiError(MISSING_KEY_MESSAGE))))
            && (Truthy(Lookup(services.env, TAVILY_KEY_ENV)) ==>
                  var primary := services.search.tavily(call.subQuery, cfg.maxSearchResultsPerQuery, DEFAULT_TOPIC);
                  var ts := NewTavilySearch(call.subQuery, map[], services.env, DEFAULT_TOPIC);
                  && ts.Success?
                  && (primary.TavilyReturned? && TavilySources(primary) == [] ==>
                        r == Failure(SearchFailed(TavilyApiError(NO_RESULTS_MESSAGE))))
                  && (!(primary.TavilyReturned? && TavilySources(primary) == []) ==>
                        var hits := Search(ts.value, cfg.maxSearchResultsPerQuery, services.search);
                        && hits.Success?
                        && (NonePass(Hrefs(hits.value), BeautifulSoupAttempt(services.fetch), cfg.scraper.minContentLength) ==>
                              r == Success(""))
                        && (var pages := RunScraper(Hrefs(hits.value), BeautifulSoupAttempt(services.fetch), Some(cfg.scraper));
                            var survivors := services.compress(call.subQuery, RelevantDocuments(pages));
                            && (pages == [] ==> r == Success(""))
                            && (pages != [] && survivors.None? ==> r == Failure(ServiceFailed(CompressStage)))
                            && (pages != [] && survivors.Some? ==>
                                  r == Success(Join(Blocks(survivors.value[..Cap(DEFAULT_CONTEXT_MAX_RESULTS, |survivors.value|)]), "\n"))))))
            && r == ProcessSubQuery(cfg, call.(index := 0, total := 0), services)
  {
    var ts := NewTavilySearch(call.subQuery, map[], services.env, DEFAULT_TOPIC);
    if ts.Success? {
      SearchOutcomes(ts.value, cfg.maxSearchResultsPerQuery, services.search);
      var hits := Search(ts.value, cfg.maxSearchResultsPerQuery, services.search);
      if hits.Success? {
        var pages := RunScraper(Hrefs(hits.value), BeautifulSoupAttempt(services.fetch), Some(cfg.scraper));
        RunScraperEmpty(Hrefs(hits.value), BeautifulSoupAttempt(services.fetch), Some(cfg.scraper));
        GetContextSpec(ContextCompressor(pages, DEFAULT_CONTEXT_MAX_RESULTS), call.subQuery,
                       DEFAULT_CONTEXT_MAX_RESULTS, services.compress, DEFAULT_CONTEXT_MAX_RESULTS);
      }
    }
  }

  /** Runs `f` on every element in order and collects the results; the first failure
      ends the run. This is `asyncio.gather` without `return_exceptions`, and also the
      sequential loop over subtopics. */
  function AllOk<T, U, E>(f: T -> Result<U, E>, xs: seq<T>): Result<seq<U>, E>
    decreases |xs|
  {
    if xs == [] then Success([])
    else match f(xs[0])
      case Failure(e) => Failure(e)
      case Success(y) =>
        match AllOk(f, xs[1..])
        case Failure(e) => Failure(e)
        case Success(ys) => Success([y] + ys)
  }

  /** Success exactly when every element succeeds, with one result per element in order. */
  lemma {:induction false} AllOkSuccess<T, U, E>(f: T -> Result<U, E>, xs: seq<T>)
    ensures AllOk(f, xs).Success? <==> forall k :: 0 <= k < |xs| ==> f(xs[k]).Success?
    ensures AllOk(f, xs).Success? ==>
              |AllOk(f, xs).value| == |xs| && forall k :: 0 <= k < |xs| ==> AllOk(f, xs).value[k] == f(xs[k]).value
    decreases |xs|
  {
    if xs != [] {
      AllOkSuccess(f, xs[1..]);
      if f(xs[0]).Success? && AllOk(f, xs[1..]).Success? {
        var ys := AllOk(f, xs[1..]).value;
        assert AllOk(f, xs).value == [f(xs[0]).value] + ys;
        forall k | 0 < k < |xs| ensures AllOk(f, xs).value[k] == f(xs[k]).value {
          assert xs[k] == xs[1..][k - 1];
        }
      }
      if !(forall k :: 0 <= k < |xs[1..]| ==> f(xs[1..][k]).Success?) {
        var k :| 0 <= k < |xs[1..]| && !f(xs[1..][k]).Success?;
        assert xs[1..][k] == xs[k + 1];
      }
    }
  }

  /** On failure the error is that of the first failing element. */
  lemma {:induction false} AllOkFailure<T, U, E>(f: T -> Result<U, E>, xs: seq<T>)
    ensures AllOk(f, xs).Failure? ==>
              exists j :: 0 <= j < |xs| && f(xs[j]).Failure? && AllOk(f, xs).error == f(xs[j]).error
                          && forall k :: 0 <= k < j ==> f(xs[k]).Success?
    decreases |xs|
  {
    if xs != [] && AllOk(f, xs).Failure? && f(xs[0]).Success? {
      AllOkFailure(f, xs[1..]);
      var j :| 0 <= j < |xs[1..]| && f(xs[1..][j]).Failure? && AllOk(f, xs[1..]).error == f(xs[1..][j]).error
               && forall k :: 0 <= k < j ==> f(xs[1..][k]).Success?;
      assert xs[j + 1] == xs[1..][j];
      forall k | 0 <= k < j + 1 ensures f(xs[k]).Success? {
        if k > 0 {
          assert xs[k] == xs[1..][k - 1];
        }
      }
    }
  }

  /** `conduct_research`: choose the agent if needed, obtain the sub-queries, and
      run one pipeline per sub-query; the contexts are stored on the researcher. */
  function ConductResearch(r: Researcher, services: Services): Result<Researcher, ResearchError> {
    match ResolveAgent(r, services.chooseAgent)
    case Failure(e) => Failure(e)
    case Success(r1) =>
      match GetSubQueries(r1, services.subQueries)
      case Failure(e) => Failure(e)
      case Success(sq) =>
        var cfg := r1.cfg;
        match AllOk((c: SubQueryCall) => ProcessSubQuery(cfg, c, services), PlanCalls(sq))
        case Failure(e) => Failure(e)
        case Success(ctx) => Success(r1.(context := ctx))
  }

  /** The research phase stores one context per sub-query, entry i being the
      pipeline's result for sub-query i called as number i+1 of all of them; it fails
      exactly when some pipeline fails, with the first failing sub-query's error; and
      it changes nothing but the agent, the role and the context. */
  lemma ConductResearchSpec(r: Researcher, services: Services)
    requires ResolveAgent(r, services.chooseAgent).Success?
    requires GetSubQueries(ResolveAgent(r, services.chooseAgent).value, services.subQueries).Success?
    ensures var r1 := ResolveAgent(r, services.chooseAgent).value;
            var sq := GetSubQueries(r1, services.subQueries).value;
            var res := ConductResearch(r, services);
            && (res.Success? <==> forall i :: 0 <= i < |sq| ==>
                  ProcessSubQuery(r1.cfg, SubQueryCall(sq[i], i + 1, |sq|), services).Success?)
            && (res.Success? ==>
                  && |res.value.context| == |sq|
                  && (forall i :: 0 <= i < |sq| ==>
                        res.value.context[i] == ProcessSubQuery(r1.cfg, SubQueryCall(sq[i], i + 1, |sq|), services).value)
                  && res.value.(agent := r.agent, role := r.role, context := r.context) == r)
            && (res.Failure? ==>
                  exists j :: (0 <= j < |sq|
                    && ProcessSubQuery(r1.cfg, SubQueryCall(sq[j], j + 1, |sq|), services).Failure?
                    && res.error == ProcessSubQuery(r1.cfg, SubQueryCall(sq[j], j + 1, |sq|), services).error
                    && forall i :: 0 <= i < j ==> ProcessSubQuery(r1.cfg, SubQueryCall(sq[i], i + 1, |sq|), services).Success?))
  {
    var r1 := ResolveAgent(r, services.chooseAgent).value;
    var sq := GetSubQueries(r1, services.subQueries).value;
    var cfg := r1.cfg;
    var f := (c: SubQueryCall) => ProcessSubQuery(cfg, c, services);
    var calls := PlanCalls(sq);
    assert ConductResearch(r, services) ==
      match AllOk(f, calls)
      case Failure(e) => Failure(e)
      case Success(ctx) => Success(r1.(context := ctx));
    AllOkSuccess(f, calls);
    AllOkFailure(f, calls);
    assert forall i :: 0 <= i < |calls| ==> f(calls[i]) == ProcessSubQuery(cfg, SubQueryCall(sq[i], i + 1, |sq|), services);
  }

  // ===========================================================================
  // The report phase
  // ===========================================================================

  const PARAGRAPH_BREAK := "\n\n"

  /** The key every subtopic entry is read through. */
  const TASK_KEY := "task"

  /** The `"task"` fields of the subtopic entries in order, or `None` when some entry
      lacks one (the first `subtopic["task"]` then raises `KeyError`). */
  function TaskNames(entries: seq<Option<string>>): (tasks: Option<seq<string>>)
    ensures tasks.Some? <==> forall k :: 0 <= k < |entries| ==> entries[k].Some?
    ensures tasks.Some? ==>
              |tasks.value| == |entries| && forall k :: 0 <= k < |entries| ==> tasks.value[k] == entries[k].value
  {
    if entries == [] then Some([])
    else match entries[0]
      case None => None
      case Some(t) =>
        match TaskNames(entries[1..])
        case None => None
        case Some(rest) => Some([t] + rest)
  }

  /** The request for one subtopic of a detailed report. */
  function SubtopicCall(r: Researcher, task: string, tasks: seq<string>, fullContext: string): ReportCall {
    ReportCall(task, fullContext, r.role, SUBTOPIC_REPORT, r.tone, r.reportSource, r.query, tasks)
  }

  /** The single request of every other report type. */
  function MainCall(r: Researcher, fullContext: string): ReportCall {
    ReportCall(r.query, fullContext, r.role, r.reportType, r.tone, r.reportSource, "", [])
  }

  /** `generate_report`. */
  function GenerateReport(r: Researcher, services: Services): Result<string, ResearchError> {
    var full := Join(r.context, "\n");
    if r.reportType == DETAILED_REPORT then
      var entries := services.subtopics(r.query, full, r.cfg.maxSubtopics);
      match OrFail(services.introduction(r.query, full, r.role), IntroductionStage)
      case Failure(e) => Failure(e)
      case Success(intro) =>
        match TaskNames(entries)
        case None => Failure(MissingKey(TASK_KEY))
        case Some(tasks) =>
          match AllOk((t: string) => OrFail(services.report(SubtopicCall(r, t, tasks, full)), ReportStage), tasks)
          case Failure(e) => Failure(e)
          case Success(reports) => Success(intro + PARAGRAPH_BREAK + Join(reports, PARAGRAPH_BREAK))
    else OrFail(services.report(MainCall(r, full)), ReportStage)
  }

  /** A detailed report is the introduction, a blank line, and the subtopic reports in
      subtopic order separated by blank lines. The subtopics are those constructed for
      the query and the whole context under the configured `max_subtopics`. Every
      subtopic request carries the whole
      context, the query as main topic and every subtopic's task as an existing
      header. The report fails when the introduction fails; then, when some subtopic
      entry has no task, with a `KeyError` before any subtopic report; then when any
      subtopic report fails, with the first such error. */
  lemma DetailedReportSpec(r: Researcher, services: Services)
    requires r.reportType == DETAILED_REPORT
    ensures var full := Join(r.context, "\n");
            var entries := services.subtopics(r.query, full, r.cfg.maxSubtopics);
            var intro := services.introduction(r.query, full, r.role);
            var res := GenerateReport(r, services);
            && (intro.None? ==> res == Failure(ServiceFailed(IntroductionStage)))
            && (intro.Some? && (exists k :: 0 <= k < |entries| && entries[k].None?) ==> res == Failure(MissingKey("task")))
            && (res.Success? ==> forall k :: 0 <= k < |entries| ==> entries[k].Some?)
            && ((forall k :: 0 <= k < |entries| ==> entries[k].Some?) ==>
                  var tasks := seq(|entries|, i requires 0 <= i < |entries| => entries[i].value);
                  && (res.Success? <==>
                        (intro.Some?
                         && forall i :: 0 <= i < |tasks| ==> services.report(SubtopicCall(r, tasks[i], tasks, full)).Some?))
                  && (res.Success? ==>
                        var reports := seq(|tasks|, i requires 0 <= i < |tasks| => services.report(SubtopicCall(r, tasks[i], tasks, full)).value);
                        res.value == intro.value + PARAGRAPH_BREAK + Join(reports, PARAGRAPH_BREAK))
                  && (intro.Some? && res.Failure? ==> res.error == ServiceFailed(ReportStage))
                  && forall i :: 0 <= i < |tasks| ==>
                       var call := SubtopicCall(r, tasks[i], tasks, full);
                       call.context == full && call.mainTopic == r.query && call.existingHeaders == tasks
                       && call.task == tasks[i] && call.reportType == SUBTOPIC_REPORT)
  {
    var full := Join(r.context, "\n");
    var entries := services.subtopics(r.query, full, r.cfg.maxSubtopics);
    var named := TaskNames(entries);
    if named.Some? {
      var tasks := named.value;
      assert tasks == seq(|entries|, i requires 0 <= i < |entries| => entries[i].value);
      var f := (t: string) => OrFail(services.report(SubtopicCall(r, t, tasks, full)), ReportStage);
      AllOkSuccess(f, tasks);
      AllOkFailure(f, tasks);
      if GenerateReport(r, services).Success? {
        assert AllOk(f, tasks).Success?;
        forall i | 0 <= i < |tasks| ensures services.report(SubtopicCall(r, tasks[i], tasks, full)).Some? {
          assert f(tasks[i]).Success?;
        }
        var reports := seq(|tasks|, i requires 0 <= i < |tasks| => services.report(SubtopicCall(r, tasks[i], tasks, full)).value);
        var got := AllOk(f, tasks).value;
        forall i | 0 <= i < |tasks| ensures got[i] == reports[i] {
          assert got[i] == f(tasks[i]).value;
        }
        assert got == reports;
      }
    }
  }

  /** The configured `max_subtopics` acts on the report only as the limit the subtopic
      oracle is asked under: changing it is the same as asking the oracle with the new
      limit. */
  lemma SubtopicLimitReachesOracle(r: Researcher, services: Services, n: int)
    ensures GenerateReport(r.(cfg := r.cfg.(maxSubtopics := n)), services)
            == GenerateReport(r, services.(subtopics := (q: string, c: string, m: int) => services.subtopics(q, c, n)))
  {
    var r' := r.(cfg := r.cfg.(maxSubtopics := n));
    var s' := services.(subtopics := (q: string, c: string, m: int) => services.subtopics(q, c, n));
    var full := Join(r.context, "\n");
    var tasks := TaskNames(services.subtopics(r.query, full, n));
    if r.reportType == DETAILED_REPORT && tasks.Some? {
      var f := (t: string) => OrFail(services.report(SubtopicCall(r', t, tasks.value, full)), ReportStage);
      var g := (t: string) => OrFail(s'.report(SubtopicCall(r, t, tasks.value, full)), ReportStage);
      forall k | 0 <= k < |tasks.value| ensures f(tasks.value[k]) == g(tasks.value[k]) {
        assert SubtopicCall(r', tasks.value[k], tasks.value, full) == SubtopicCall(r, tasks.value[k], tasks.value, full);
      }
      AllOkCongruent(f, g, tasks.value);
    }
  }

  /** Every other report type makes exactly one request, for the query with the whole
      context and the researcher's own report type, and returns its answer unchanged. */
  lemma SingleReportSpec(r: Researcher, services: Services)
    requires r.reportType != DETAILED_REPORT
    ensures var call := MainCall(r, Join(r.context, "\n"));
            && call.task == r.query && call.reportType == r.reportType
            && call.context == Join(r.context, "\n")
            && GenerateReport(r, services) == OrFail(services.report(call), ReportStage)
            && (services.report(call).Some? ==> GenerateReport(r, services) == Success(services.report(call).value))
  {
  }

  /** `run`: the research phase, then the report phase on the stored contexts. */
  function Run(r: Researcher, services: Services): (res: Result<string, ResearchError>) {
    match ConductResearch(r, services)
    case Failure(e) => Failure(e)
    case Success(r1) => GenerateReport(r1, services)
  }

  /** A run fails as soon as the research phase fails and never reaches the report
      writer. Otherwise the agent was resolved, the sub-queries were obtained and every
      pipeline succeeded, and the report phase runs on the resolved researcher whose
      context is the pipelines' contexts, one per sub-query in order. */
  lemma RunSpec(r: Researcher, services: Services, other: ReportCall -> Option<string>)
    ensures ConductResearch(r, services).Failure? ==>
              Run(r, services) == Failure(ConductResearch(r, services).error)
              && Run(r, services.(report := other)) == Run(r, services)
    ensures ConductResearch(r, services).Success? ==>
              var r1 := ResolveAgent(r, services.chooseAgent);
              && r1.Success?
              && var sq := GetSubQueries(r1.value, services.subQueries);
                 && sq.Success?
                 && (forall i :: 0 <= i < |sq.value| ==>
                       ProcessSubQuery(r1.value.cfg, SubQueryCall(sq.value[i], i + 1, |sq.value|), services).Success?)
                 && Run(r, services) == GenerateReport(
                      r1.value.(context := seq(|sq.value|, i requires 0 <= i < |sq.value| =>
                        ProcessSubQuery(r1.value.cfg, SubQueryCall(sq.value[i], i + 1, |sq.value|), services).value)),
                      services)
  {
    var s2 := services.(report := other);
    var r1 := ResolveAgent(r, services.chooseAgent);
    if r1.Success? {
      var sq := GetSubQueries(r1.value, services.subQueries);
      if sq.Success? {
        var cfg := r1.value.cfg;
        AllOkCongruent((c: SubQueryCall) => ProcessSubQuery(cfg, c, services),
                       (c: SubQueryCall) => ProcessSubQuery(cfg, c, s2), PlanCalls(sq.value));
        ConductResearchSpec(r, services);
        var res := ConductResearch(r, services);
        if res.Success? {
          var ctx := seq(|sq.value|, i requires 0 <= i < |sq.value| =>
            ProcessSubQuery(cfg, SubQueryCall(sq.value[i], i + 1, |sq.value|), services).value);
          assert res.value.context == ctx;
          assert res.value == r1.value.(context := ctx);
        }
      }
    }
  }

  lemma {:induction false} AllOkCongruent<T, U, E>(f: T -> Result<U, E>, g: T -> Result<U, E>, xs: seq<T>)
    requires forall k :: 0 <= k < |xs| ==> f(xs[k]) == g(xs[k])
    ensures AllOk(f, xs) == AllOk(g, xs)
    decreases |xs|
  {
    if xs != [] {
      assert forall k :: 0 <= k < |xs[1..]| ==> xs[1..][k] == xs[k + 1];
      AllOkCongruent(f, g, xs[1..]);
    }
  }
}
