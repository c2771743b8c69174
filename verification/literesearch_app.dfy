/** The request handler of the web front end: the ordered input checks run before
    any research, the conversion of every research failure into "no report", and the
    rule that only a non-empty report replaces the stored one. Rendering is not
    modelled. */
module LiteResearchApp {
  import opened Wrappers
  import opened PyStr
  import Constants
  import opened ResearchEnums
  import opened LiteResearcher

  // ===========================================================================
  // Validation
  // ===========================================================================

  /** The form as submitted. The query may be missing (`None`); the tone is the
      tone's value as shown in the selection box. */
  datatype Request = Request(
    query: Option<string>,
    tone: string,
    reportType: string,
    maxIterations: int,
    maxSubtopics: int,
    maxSearchResultsPerQuery: int)

  /** The five input checks, in the order they run. */
  datatype Check = EmptyTopic | TopicTooShort | IterationsOutOfRange | SubtopicsOutOfRange | SearchResultsOutOfRange

  /** A check's position in the sequence of checks. */
  function Rank(c: Check): nat {
    match c
    case EmptyTopic => 0
    case TopicTooShort => 1
    case IterationsOutOfRange => 2
    case SubtopicsOutOfRange => 3
    case SearchResultsOutOfRange => 4
  }

  /** The error message each check shows. */
  function Message(c: Check): string {
    match c
    case EmptyTopic => "Please enter a research topic before starting research"
    case TopicTooShort =>
      "Research topic must be at least " + IntToString(Constants.MIN_QUERY_LENGTH) + " characters"
    case IterationsOutOfRange =>
      "Max sub-queries must be between " + IntToString(Constants.MIN_ITERATIONS) + "-" + IntToString(Constants.MAX_ITERATIONS_LIMIT)
    case SubtopicsOutOfRange =>
      "Max subtopics must be between " + IntToString(Constants.MIN_SUBTOPICS) + "-" + IntToString(Constants.MAX_SUBTOPICS_LIMIT)
    case SearchResultsOutOfRange =>
      "Max search results per query must be between " + IntToString(Constants.MIN_SEARCH_RESULTS) + "-" + IntToString(Constants.MAX_SEARCH_RESULTS_LIMIT)
  }

  predicate OutOfRange(x: int, lo: int, hi: int) {
    x < lo || x > hi
  }

  /** Whether a check, taken on its own, rejects the request. */
  predicate Fails(req: Request, c: Check) {
    match c
    case EmptyTopic => req.query.None? || req.query.value == [] || Strip(req.query.value) == []
    case TopicTooShort => req.query.Some? && |Strip(req.query.value)| < Constants.MIN_QUERY_LENGTH
    case IterationsOutOfRange => OutOfRange(req.maxIterations, Constants.MIN_ITERATIONS, Constants.MAX_ITERATIONS_LIMIT)
    case SubtopicsOutOfRange => OutOfRange(req.maxSubtopics, Constants.MIN_SUBTOPICS, Constants.MAX_SUBTOPICS_LIMIT)
    case SearchResultsOutOfRange =>
      OutOfRange(req.maxSearchResultsPerQuery, Constants.MIN_SEARCH_RESULTS, Constants.MAX_SEARCH_RESULTS_LIMIT)
  }

  /** The validation block of `handle_research_request`: the first failing check, if any. */
  function Validate(req: Request): Option<Check> {
    if req.query.None? || req.query.value == [] || Strip(req.query.value) == [] then Some(EmptyTopic)
    else if |Strip(req.query.value)| < Constants.MIN_QUERY_LENGTH then Some(TopicTooShort)
    else if req.maxIterations < Constants.MIN_ITERATIONS || req.maxIterations > Constants.MAX_ITERATIONS_LIMIT then
      Some(IterationsOutOfRange)
    else if req.maxSubtopics < Constants.MIN_SUBTOPICS || req.maxSubtopics > Constants.MAX_SUBTOPICS_LIMIT then
      Some(SubtopicsOutOfRange)
    else if req.maxSearchResultsPerQuery < Constants.MIN_SEARCH_RESULTS
         || req.maxSearchResultsPerQuery > Constants.MAX_SEARCH_RESULTS_LIMIT then
      Some(SearchResultsOutOfRange)
    else None
  }

  /** The checks run in a fixed order and the first one that fails is the one
      reported: the reported check fails and every earlier check passes, and nothing is
      reported exactly when every check passes. */
  lemma ValidateIsFirstFailure(req: Request)
    ensures Validate(req).Some? ==>
              Fails(req, Validate(req).value)
              && forall c :: Rank(c) < Rank(Validate(req).value) ==> !Fails(req, c)
    ensures Validate(req).None? <==> forall c :: !Fails(req, c)
  {
    if Validate(req).None? {
      forall c ensures !Fails(req, c) {
        match c
        case EmptyTopic =>
        case TopicTooShort =>
        case IterationsOutOfRange =>
        case SubtopicsOutOfRange =>
        case SearchResultsOutOfRange =>
      }
    }
  }

  /** A request is accepted exactly when its stripped query has at least three
      characters and the three limits lie within 1..10, 1..10 and 1..20. */
  lemma ValidateAccepts(req: Request)
    ensures Validate(req).None? <==>
              && req.query.Some? && |Strip(req.query.value)| >= 3
              && 1 <= req.maxIterations <= 10
              && 1 <= req.maxSubtopics <= 10
              && 1 <= req.maxSearchResultsPerQuery <= 20
  {
  }

  lemma MessageDigits()
    ensures IntToString(1) == "1" && IntToString(3) == "3"
    ensures IntToString(10) == "10" && IntToString(20) == "20"
  {
    assert NatToString(10) == NatToString(1) + [DigitChar(0)];
    assert NatToString(20) == NatToString(2) + [DigitChar(0)];
  }

  /** The messages, spelled out, with the bounds the checks use. */
  lemma MessagesSpelledOut()
    ensures Message(TopicTooShort) == "Research topic must be at least 3 characters"
    ensures Message(IterationsOutOfRange) == "Max sub-queries must be between 1-10"
    ensures Message(SubtopicsOutOfRange) == "Max subtopics must be between 1-10"
    ensures Message(SearchResultsOutOfRange) == "Max search results per query must be between 1-20"
  {
    MessageDigits();
  }

  // ===========================================================================
  // Running research and storing the report
  // ===========================================================================

  /** `run_research`: the tone is looked up by value and the researcher is built and
      run; a `ValueError` (an unknown tone value, an empty query) or any other exception
      becomes `None`. */
  function RunResearch(query: string, reportType: string, tone: string,
                       maxIterations: int, maxSubtopics: int, maxSearchResultsPerQuery: int,
                       cfg: Config, services: Services): (report: Option<string>)
    ensures ToneFromValue(tone).None? ==> report.None?
    ensures AllSpace(query) ==> report.None?
  {
    match ToneFromValue(tone)
    case None => None
    case Some(t) =>
      match New(query, reportType, WEB_SOURCE, t, cfg, None, None,
                Some(maxIterations), Some(maxSubtopics), Some(maxSearchResultsPerQuery))
      case Failure(_) => None
      case Success(r) =>
        match Run(r, services)
        case Failure(_) => None
        case Success(report) => Some(report)
  }

  /** What the page shows after a request: one validation message, or the outcome of
      the research run. */
  datatype Outcome = Rejected(check: Check, message: string) | Researched(report: Option<string>)

  /** The session state the handler writes: the last generated report. */
  datatype Session = Session(generatedReport: Option<string>)

  /** `handle_research_request`. */
  function HandleResearchRequest(req: Request, cfg: Config, services: Services, session: Session): (Outcome, Session) {
    match Validate(req)
    case Some(c) => (Rejected(c, Message(c)), session)
    case None =>
      var report := RunResearch(Strip(req.query.value), req.reportType, req.tone,
                                req.maxIterations, req.maxSubtopics, req.maxSearchResultsPerQuery, cfg, services);
      (Researched(report), if Truthy(report) then Session(report) else session)
  }

  /** The message a rejected request shows, spelled out for each check. */
  lemma RejectionMessages(req: Request, cfg: Config, services: Services, session: Session)
    ensures Validate(req) == Some(EmptyTopic) ==>
              HandleResearchRequest(req, cfg, services, session).0
                == Rejected(EmptyTopic, "Please enter a research topic before starting research")
    ensures Validate(req) == Some(TopicTooShort) ==>
              HandleResearchRequest(req, cfg, services, session).0
                == Rejected(TopicTooShort, "Research topic must be at least 3 characters")
    ensures Validate(req) == Some(IterationsOutOfRange) ==>
              HandleResearchRequest(req, cfg, services, session).0
                == Rejected(IterationsOutOfRange, "Max sub-queries must be between 1-10")
    ensures Validate(req) == Some(SubtopicsOutOfRange) ==>
              HandleResearchRequest(req, cfg, services, session).0
                == Rejected(SubtopicsOutOfRange, "Max subtopics must be between 1-10")
    ensures Validate(req) == Some(SearchResultsOutOfRange) ==>
              HandleResearchRequest(req, cfg, services, session).0
                == Rejected(SearchResultsOutOfRange, "Max search results per query must be between 1-20")
  {
    MessagesSpelledOut();
  }

  /** A rejected request shows exactly the first failing check's message, starts no
      research (the outcome is the same whatever the services are) and leaves the
      session alone. */
  lemma RejectedRequests(req: Request, cfg: Config, services: Services, other: Services, session: Session)
    requires Validate(req).Some?
    ensures var out := HandleResearchRequest(req, cfg, services, session);
            && out.0 == Rejected(Validate(req).value, Message(Validate(req).value))
            && out.1 == session
            && HandleResearchRequest(req, cfg, other, session) == out
  {
  }

  /** An accepted request always builds a researcher: the query it passes is the
      stripped query, which the constructor keeps unchanged, and the three limits
      reach the configuration unchanged. A tone chosen from the selection box is always
      a valid tone value. */
  lemma AcceptedRequestsBuild(req: Request, cfg: Config, t: Tone)
    requires Validate(req).None?
    ensures var q := Strip(req.query.value);
            var r := New(q, req.reportType, WEB_SOURCE, t, cfg, None, None,
                         Some(req.maxIterations), Some(req.maxSubtopics), Some(req.maxSearchResultsPerQuery));
            && r.Success?
            && r.value.query == q
            && r.value.cfg.maxIterations == req.maxIterations
            && r.value.cfg.maxSubtopics == req.maxSubtopics
            && r.value.cfg.maxSearchResultsPerQuery == req.maxSearchResultsPerQuery
    ensures ToneFromValue(ToneValue(t)) == Some(t)
  {
    var q := Strip(req.query.value);
    StripIdempotent(req.query.value);
    assert !AllSpace(q);
    ToneValueRoundTrip(t);
  }

  /** An accepted request runs research and replaces the stored report only with a
      non-empty one; an empty or missing report leaves the previous one in place. */
  lemma AcceptedRequestsStore(req: Request, cfg: Config, services: Services, session: Session)
    requires Validate(req).None?
    ensures var out := HandleResearchRequest(req, cfg, services, session);
            && out.0.Researched?
            && (Truthy(out.0.report) ==> out.1.generatedReport == out.0.report)
            && (!Truthy(out.0.report) ==> out.1 == session)
  {
  }

  /** With a valid tone and an accepted query, the run's result is the research
      driver's report when it succeeds and `None` when any stage fails. */
  lemma RunResearchOutcome(req: Request, cfg: Config, services: Services, t: Tone)
    requires Validate(req).None?
    ensures var q := Strip(req.query.value);
            var r := New(q, req.reportType, WEB_SOURCE, t, cfg, None, None,
                         Some(req.maxIterations), Some(req.maxSubtopics), Some(req.maxSearchResultsPerQuery)).value;
            var report := RunResearch(q, req.reportType, ToneValue(t), req.maxIterations, req.maxSubtopics,
                                      req.maxSearchResultsPerQuery, cfg, services);
            && (Run(r, services).Success? ==> report == Some(Run(r, services).value))
            && (Run(r, services).Failure? ==> report.None?)
  {
    AcceptedRequestsBuild(req, cfg, t);
  }
}
