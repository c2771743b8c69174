/** The decisions taken while prompts are assembled: the task a search-queries prompt
    asks about, the rendered search-queries prompt, which report builder a report type
    selects, which reference instruction a report source selects, and the tone
    sentence. The long fixed instructions of the report builders are not modelled. */
module ResearchPrompts {
  import opened Wrappers
  import opened PyStr
  import opened ResearchEnums

  // ===========================================================================
  // The task of a search-queries prompt
  // ===========================================================================

  /** Report types whose task names the parent query in front of the question. */
  predicate UsesParentQuery(reportType: string) {
    reportType == DETAILED_REPORT || reportType == SUBTOPIC_REPORT
  }

  /** Python's `f"{x}"` for an optional string: `None` renders as the word "None". */
  function FormatOptional(o: Option<string>): string {
    match o
    case Some(s) => s
    case None => "None"
  }

  const TASK_SEPARATOR := " - "

  /** The task exactly as `generate_search_queries_prompt` composes it. The only
      caller passes `parent_query=None`, so a detailed report asks about
      "None - <question>". */
  function SearchTaskAsWritten(question: string, parentQuery: Option<string>, reportType: string): string {
    if UsesParentQuery(reportType) then FormatOptional(parentQuery) + TASK_SEPARATOR + question
    else question
  }

  /** The literal word "None" leaks into the task of a top-level detailed report. */
  lemma SearchTaskAsWrittenLeaksNone()
    ensures SearchTaskAsWritten("AI", None, DETAILED_REPORT) == "None - AI"
    ensures SearchTaskAsWritten("AI", None, DETAILED_REPORT) != "AI"
  {
  }

  /** Without a parent query, a detailed or subtopic report asks about "None - " followed
      by the question, which differs from the corrected task; every other report type
      asks about the question itself. */
  lemma SearchTaskAsWrittenWithoutParent(question: string, reportType: string)
    ensures UsesParentQuery(reportType) ==>
              && SearchTaskAsWritten(question, None, reportType) == "None - " + question
              && SearchTaskAsWritten(question, None, reportType) != SearchTask(question, None, reportType)
    ensures !UsesParentQuery(reportType) ==> SearchTaskAsWritten(question, None, reportType) == question
  {
    if UsesParentQuery(reportType) {
      assert |SearchTask(question, None, reportType)| == |question|;
    }
  }

  /** The task as evidently intended: the parent query is prefixed only when there is one. */
  function SearchTask(question: string, parentQuery: Option<string>, reportType: string): (task: string)
    ensures |task| >= |question| && task[|task| - |question|..] == question
  {
    if UsesParentQuery(reportType) && parentQuery.Some? then parentQuery.value + TASK_SEPARATOR + question
    else question
  }

  /** The corrected task never mentions a missing parent: without a parent query, or
      for any other report type, the task is the question itself; with one, it agrees
      with the code as written. */
  lemma SearchTaskSpec(question: string, parentQuery: Option<string>, reportType: string)
    ensures parentQuery.None? || !UsesParentQuery(reportType) ==> SearchTask(question, parentQuery, reportType) == question
    ensures parentQuery.Some? ==>
              SearchTask(question, parentQuery, reportType) == SearchTaskAsWritten(question, parentQuery, reportType)
    ensures !UsesParentQuery(reportType) ==>
              SearchTask(question, parentQuery, reportType) == SearchTaskAsWritten(question, parentQuery, reportType)
  {
  }

  // ===========================================================================
  // The search-queries prompt
  // ===========================================================================

  const QUERIES_HEAD := "Please generate "
  const QUERIES_MIDDLE := " Google search queries for online searching to form an objective opinion on the following task: "
  const QUERIES_TAIL := "\nYou must respond with a list of strings in the following format: [\"query1\", \"query2\", \"query3\"].\nThe response should only contain the list."
  const DEFAULT_QUERY_COUNT := 5

  /** `"` + task + `"`. */
  function Quoted(s: string): string {
    "\"" + s + "\""
  }

  /** Everything in front of the quoted task. */
  function QueriesPreamble(maxIterations: int): string {
    QUERIES_HEAD + IntToString(maxIterations) + QUERIES_MIDDLE
  }

  /** `generate_search_queries_prompt` for an already composed task. */
  function SearchQueriesPrompt(task: string, maxIterations: int): string {
    QueriesPreamble(maxIterations) + Quoted(task) + QUERIES_TAIL
  }

  /** Reads the task back out of a prompt for a known query count. */
  function TaskOfPrompt(prompt: string, maxIterations: int): (r: Option<string>)
    ensures r.Some? ==> QueriesPreamble(maxIterations) + "\"" + r.value + "\"" + QUERIES_TAIL == prompt
  {
    var pre := QueriesPreamble(maxIterations);
    var r := Unframe(prompt, pre + "\"", "\"" + QUERIES_TAIL);
    if r.Some? then
      Reassociate(pre, "\"", r.value, "\"", QUERIES_TAIL);
      r
    else r
  }

  lemma Reassociate(a: string, b: string, c: string, d: string, e: string)
    ensures (a + b) + c + (d + e) == a + b + c + d + e
  {
  }

  /** The prompt carries its task losslessly: reading it back gives the task, so
      different tasks give different prompts. */
  lemma SearchQueriesPromptRoundTrip(task: string, maxIterations: int)
    ensures TaskOfPrompt(SearchQueriesPrompt(task, maxIterations), maxIterations) == Some(task)
  {
    QuotedFrame(QueriesPreamble(maxIterations), task, QUERIES_TAIL);
  }

  lemma QuotedFrame(pre: string, task: string, post: string)
    ensures Unframe(pre + Quoted(task) + post, pre + "\"", "\"" + post) == Some(task)
  {
    assert pre + Quoted(task) + post == (pre + "\"") + task + ("\"" + post);
    UnframeFrame(pre + "\"", task, "\"" + post);
  }

  /** The prompt asks for `max_iterations` queries, written in decimal, and quotes the task. */
  lemma SearchQueriesPromptMentions(task: string, maxIterations: nat)
    ensures Contains(SearchQueriesPrompt(task, maxIterations), Quoted(task))
    ensures Contains(SearchQueriesPrompt(task, maxIterations), NatToString(maxIterations))
    ensures DigitsValue(NatToString(maxIterations)) == maxIterations
  {
    ContainsMiddle(QueriesPreamble(maxIterations), Quoted(task), QUERIES_TAIL);
    assert IntToString(maxIterations) == NatToString(maxIterations);
    NestedMiddle(QUERIES_HEAD, NatToString(maxIterations), QUERIES_MIDDLE, Quoted(task), QUERIES_TAIL);
    NatToStringRoundTrip(maxIterations);
  }

  lemma NestedMiddle(a: string, b: string, c: string, d: string, e: string)
    ensures Contains(a + b + c + d + e, b)
  {
    ContainsMiddle(a, b, c);
    ContainsWithin([], a + b + c, d + e, b);
    assert [] + (a + b + c) + (d + e) == a + b + c + d + e;
  }

  // ===========================================================================
  // Report builders
  // ===========================================================================

  /** The four prompt builders `get_report_by_type` can hand out. */
  datatype ReportBuilder = ReportPrompt | ResourceReportPrompt | OutlineReportPrompt | SubtopicReportPrompt

  /** The report type a builder is registered under. */
  function BuilderKey(b: ReportBuilder): string {
    match b
    case ReportPrompt => RESEARCH_REPORT
    case ResourceReportPrompt => RESOURCE_REPORT
    case OutlineReportPrompt => OUTLINE_REPORT
    case SubtopicReportPrompt => SUBTOPIC_REPORT
  }

  predicate IsBuilderKey(reportType: string) {
    reportType == RESEARCH_REPORT || reportType == RESOURCE_REPORT
    || reportType == OUTLINE_REPORT || reportType == SUBTOPIC_REPORT
  }

  /** `get_report_by_type`: the registered builder, or the research-report builder
      for any unregistered type. */
  function ReportBuilderFor(reportType: string): (b: ReportBuilder)
    ensures IsBuilderKey(reportType) ==> BuilderKey(b) == reportType
    ensures !IsBuilderKey(reportType) ==> b == ReportPrompt
  {
    if reportType == RESOURCE_REPORT then ResourceReportPrompt
    else if reportType == OUTLINE_REPORT then OutlineReportPrompt
    else if reportType == SUBTOPIC_REPORT then SubtopicReportPrompt
    else ReportPrompt
  }

  /** Every builder is found under its own key, and each key names one builder. */
  lemma ReportBuilderRoundTrip(b: ReportBuilder)
    ensures IsBuilderKey(BuilderKey(b))
    ensures ReportBuilderFor(BuilderKey(b)) == b
  {
  }

  /** The types without a builder of their own fall back to the research report. */
  lemma UnregisteredTypesUseReportPrompt()
    ensures ReportBuilderFor(DETAILED_REPORT) == ReportPrompt
    ensures ReportBuilderFor(CUSTOM_REPORT) == ReportPrompt
  {
  }

  // ===========================================================================
  // Reference instructions and the tone sentence
  // ===========================================================================

  const REFERENCE_INDENT := "\n            "
  const REFERENCE_LEAD := "You must list all used source "
  const WEB_REFERENCE_WORD := "URLs"
  const WEB_REFERENCE_REST := " as references at the end of the report, ensuring no duplicate sources are added, with each source listed only once.\n            Each URL should be in hyperlink format: [Website Name](URL)\n            Additionally, you must include hyperlinks when citing relevant URLs in the report:\n\n            Example: Author, A. A. (Year, Month Day). Web Page Title. Website Name. [Website Name](URL)\n            "
  const DOCUMENT_REFERENCE_WORD := "document names"
  const DOCUMENT_REFERENCE_REST := " as references at the end of the report, ensuring no duplicate sources are added, with each source listed only once."

  /** The reference instruction of `generate_report_prompt` for web sources... */
  const REPORT_WEB_REFERENCE := REFERENCE_INDENT + REFERENCE_LEAD + WEB_REFERENCE_WORD + WEB_REFERENCE_REST
  /** ... and for every other source. */
  const REPORT_DOCUMENT_REFERENCE := REFERENCE_INDENT + REFERENCE_LEAD + DOCUMENT_REFERENCE_WORD + DOCUMENT_REFERENCE_REST + "\n        "

  /** The reference instruction of `generate_resource_report_prompt` for web sources... */
  const RESOURCE_WEB_REFERENCE := "You must include all relevant source URLs."
  /** ... and for every other source. */
  const RESOURCE_DOCUMENT_REFERENCE := REFERENCE_LEAD + DOCUMENT_REFERENCE_WORD + DOCUMENT_REFERENCE_REST

  predicate IsWebSource(reportSource: string) {
    reportSource == WEB_SOURCE
  }

  /** `reference_prompt` in `generate_report_prompt`. */
  function ReportReference(reportSource: string): string {
    if IsWebSource(reportSource) then REPORT_WEB_REFERENCE else REPORT_DOCUMENT_REFERENCE
  }

  /** `reference_prompt` in `generate_resource_report_prompt`. */
  function ResourceReference(reportSource: string): string {
    if IsWebSource(reportSource) then RESOURCE_WEB_REFERENCE else RESOURCE_DOCUMENT_REFERENCE
  }

  lemma ReportReferencesDiffer()
    ensures REPORT_WEB_REFERENCE != REPORT_DOCUMENT_REFERENCE
  {
    var k := |REFERENCE_INDENT + REFERENCE_LEAD|;
    assert REPORT_WEB_REFERENCE == (REFERENCE_INDENT + REFERENCE_LEAD) + WEB_REFERENCE_WORD + WEB_REFERENCE_REST;
    assert REPORT_DOCUMENT_REFERENCE
      == (REFERENCE_INDENT + REFERENCE_LEAD) + DOCUMENT_REFERENCE_WORD + (DOCUMENT_REFERENCE_REST + "\n        ");
    assert REPORT_WEB_REFERENCE[k] == WEB_REFERENCE_WORD[0] == 'U';
    assert REPORT_DOCUMENT_REFERENCE[k] == DOCUMENT_REFERENCE_WORD[0] == 'd';
  }

  lemma ResourceReferencesDiffer()
    ensures RESOURCE_WEB_REFERENCE != RESOURCE_DOCUMENT_REFERENCE
  {
    assert RESOURCE_WEB_REFERENCE[9] == 'i';
    assert RESOURCE_DOCUMENT_REFERENCE == REFERENCE_LEAD + (DOCUMENT_REFERENCE_WORD + DOCUMENT_REFERENCE_REST);
    assert RESOURCE_DOCUMENT_REFERENCE[9] == REFERENCE_LEAD[9] == 'l';
  }

  /** Both builders choose their reference instruction on one question only, whether
      the source is "web": two sources get the same instruction exactly when both
      or neither are "web", and only the web instruction asks for URLs. */
  lemma ReferenceChoice(s1: string, s2: string)
    ensures ReportReference(s1) == ReportReference(s2) <==> (IsWebSource(s1) <==> IsWebSource(s2))
    ensures ResourceReference(s1) == ResourceReference(s2) <==> (IsWebSource(s1) <==> IsWebSource(s2))
    ensures ReportReference(s1) == REPORT_WEB_REFERENCE <==> IsWebSource(s1)
    ensures ResourceReference(s1) == RESOURCE_WEB_REFERENCE <==> IsWebSource(s1)
  {
    ReportReferencesDiffer();
    ResourceReferencesDiffer();
  }

  const TONE_SENTENCE_HEAD := "Please write the report in a "
  const TONE_SENTENCE_TAIL := " tone."

  /** `tone_prompt`: empty without a tone, otherwise a sentence naming the tone's value. */
  function ToneSentence(tone: Option<Tone>): (s: string)
    ensures tone.None? <==> s == []
  {
    match tone
    case None => []
    case Some(t) => TONE_SENTENCE_HEAD + ToneValue(t) + TONE_SENTENCE_TAIL
  }

  /** Reads the tone back out of a tone sentence. */
  function ToneOfSentence(s: string): Option<Tone> {
    match Unframe(s, TONE_SENTENCE_HEAD, TONE_SENTENCE_TAIL)
    case Some(value) => ToneFromValue(value)
    case None => None
  }

  /** The tone sentence names exactly the chosen tone: it contains the tone's value,
      and the tone can be read back from it. */
  lemma ToneSentenceRoundTrip(tone: Option<Tone>)
    ensures ToneOfSentence(ToneSentence(tone)) == tone
    ensures tone.Some? ==> Contains(ToneSentence(tone), ToneValue(tone.value))
  {
    if tone.Some? {
      var t := tone.value;
      UnframeFrame(TONE_SENTENCE_HEAD, ToneValue(t), TONE_SENTENCE_TAIL);
      ToneValueRoundTrip(t);
      ContainsMiddle(TONE_SENTENCE_HEAD, ToneValue(t), TONE_SENTENCE_TAIL);
    }
  }
}
