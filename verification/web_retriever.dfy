/** The retrieval side of one sub-query: the Tavily search with its DuckDuckGo
    fallback, page scraping and text normalisation, the scrape coordinator with its
    length filter, and the formatting of compressed documents into one context string.
    Every outside service (the two search APIs, HTTP with HTML parsing, and the
    embedding-based compressor) is an oracle: a function value supplied by the caller. */
module WebRetriever {
  import opened Wrappers
  import opened PyStr
  import Constants

  // ===========================================================================
  // Search: API key, primary provider, fallback provider
  // ===========================================================================

  /** `TavilyAPIError`, the only error `TavilySearch` lets escape. */
  datatype SearchError = TavilyApiError(message: string)

  const TAVILY_KEY_HEADER := "tavily_api_key"
  const TAVILY_KEY_ENV := "TAVILY_API_KEY"
  const MISSING_KEY_MESSAGE := "Tavily API key not found. Please set TAVILY_API_KEY environment variable."
  const NO_RESULTS_MESSAGE := "Tavily API search found no results."
  const DEFAULT_TOPIC := "general"
  const DEFAULT_SEARCH_MAX_RESULTS := 7

  /** `m.get(k)`. */
  function Lookup(m: map<string, string>, k: string): Option<string> {
    if k in m then Some(m[k]) else None
  }

  /** `TavilySearch._get_api_key`: the request header wins over the environment
      variable; an empty value counts as missing. */
  function ApiKey(headers: map<string, string>, env: map<string, string>): (r: Result<string, SearchError>)
    ensures r.Success? <==> Truthy(Lookup(headers, TAVILY_KEY_HEADER)) || Truthy(Lookup(env, TAVILY_KEY_ENV))
    ensures Truthy(Lookup(headers, TAVILY_KEY_HEADER)) ==> r == Success(headers[TAVILY_KEY_HEADER])
    ensures !Truthy(Lookup(headers, TAVILY_KEY_HEADER)) && Truthy(Lookup(env, TAVILY_KEY_ENV)) ==>
              r == Success(env[TAVILY_KEY_ENV])
    ensures r.Failure? ==> r.error == TavilyApiError(MISSING_KEY_MESSAGE)
  {
    var fromHeader := Lookup(headers, TAVILY_KEY_HEADER);
    var key := if Truthy(fromHeader) then fromHeader else Lookup(env, TAVILY_KEY_ENV);
    if Truthy(key) then Success(key.value) else Failure(TavilyApiError(MISSING_KEY_MESSAGE))
  }

  /** One entry of Tavily's "results" list; a key may be missing. */
  datatype TavilyHit = TavilyHit(url: Option<string>, content: Option<string>)

  /** What the Tavily client does: return a response whose "results" key may be
      absent, or raise. */
  datatype TavilyResponse = TavilyReturned(results: Option<seq<TavilyHit>>) | TavilyRaised

  /** The uniform search result, `{"href": ..., "body": ...}`; DuckDuckGo's
      text search returns entries of this shape directly. */
  datatype SearchHit = SearchHit(href: string, body: string)

  datatype DdgResponse = DdgReturned(hits: seq<SearchHit>) | DdgRaised

  /** The two search back-ends: Tavily, called with (query, max_results, topic), and
      DuckDuckGo, called with (query, max_results). */
  datatype SearchProviders = SearchProviders(
    tavily: (string, int, string) -> TavilyResponse,
    ddg: (string, int) -> DdgResponse)

  /** A constructed `TavilySearch`; construction already resolved the API key. */
  datatype TavilySearch = TavilySearch(query: string, headers: map<string, string>, topic: string, apiKey: string)

  /** `TavilySearch(query, headers, topic)`: raises `TavilyAPIError` when no key is
      configured. */
  function NewTavilySearch(query: string, headers: map<string, string>, env: map<string, string>, topic: string)
    : (r: Result<TavilySearch, SearchError>)
    ensures r.Success? <==> ApiKey(headers, env).Success?
    ensures r.Success? ==> r.value.query == query && r.value.apiKey == ApiKey(headers, env).value
    ensures r.Failure? ==> r.error == ApiKey(headers, env).error
  {
    match ApiKey(headers, env)
    case Success(key) => Success(TavilySearch(query, headers, topic, key))
    case Failure(e) => Failure(e)
  }

  /** `[{"href": obj["url"], "body": obj["content"]} for obj in sources]`; `None`
      when some entry lacks a key (a `KeyError`). */
  function MapTavilyHits(sources: seq<TavilyHit>): (r: Option<seq<SearchHit>>)
    ensures r.Some? <==> forall k :: 0 <= k < |sources| ==> sources[k].url.Some? && sources[k].content.Some?
    ensures r.Some? ==> |r.value| == |sources|
    ensures r.Some? ==> forall k :: 0 <= k < |sources| ==>
              r.value[k] == SearchHit(sources[k].url.value, sources[k].content.value)
  {
    if sources == [] then Some([])
    else
      var h := sources[0];
      if h.url.None? || h.content.None? then None
      else match MapTavilyHits(sources[1..])
        case None => None
        case Some(rest) => Some([SearchHit(h.url.value, h.content.value)] + rest)
  }

  /** The DuckDuckGo fallback: its list as returned (possibly empty), or `[]` when
      it raises. */
  function DdgFallback(response: DdgResponse): seq<SearchHit> {
    match response
    case DdgReturned(hits) => hits
    case DdgRaised => []
  }

  /** `TavilySearch.search`. An empty or missing result list raises `TavilyAPIError`,
      which is re-raised without trying the fallback; any other failure of the primary
      path (the client raising, an entry without "url" or "content") falls back to
      DuckDuckGo with the same query and cap. */
  function Search(ts: TavilySearch, maxResults: int, providers: SearchProviders): (r: Result<seq<SearchHit>, SearchError>)
  {
    match providers.tavily(ts.query, maxResults, ts.topic)
    case TavilyRaised => Success(DdgFallback(providers.ddg(ts.query, maxResults)))
    case TavilyReturned(results) =>
      var sources := results.GetOr([]);
      if sources == [] then Failure(TavilyApiError(NO_RESULTS_MESSAGE))
      else match MapTavilyHits(sources)
        case Some(hits) => Success(hits)
        case None => Success(DdgFallback(providers.ddg(ts.query, maxResults)))
  }

  /** The sources Tavily reported for a response, `results.get("results", [])`. */
  function TavilySources(response: TavilyResponse): seq<TavilyHit> {
    if response.TavilyReturned? then response.results.GetOr([]) else []
  }

  /** The primary path succeeds: the client returned a non-empty list whose entries
      all carry "url" and "content". */
  predicate PrimarySucceeds(response: TavilyResponse) {
    && response.TavilyReturned?
    && TavilySources(response) != []
    && MapTavilyHits(TavilySources(response)).Some?
  }

  /** The error policy of `search`, case by case: a usable primary answer is mapped one
      to one and in order; an empty primary answer is the only failure and does not
      consult the fallback; every other primary failure yields the fallback's list,
      or `[]` when the fallback raises too. */
  lemma SearchOutcomes(ts: TavilySearch, maxResults: int, providers: SearchProviders)
    ensures var primary := providers.tavily(ts.query, maxResults, ts.topic);
            var sources := TavilySources(primary);
            var r := Search(ts, maxResults, providers);
            && (r.Failure? <==> primary.TavilyReturned? && sources == [])
            && (r.Failure? ==> r.error == TavilyApiError(NO_RESULTS_MESSAGE))
            && (PrimarySucceeds(primary) ==>
                  && r.Success? && |r.value| == |sources|
                  && forall k :: 0 <= k < |sources| ==>
                       r.value[k] == SearchHit(sources[k].url.value, sources[k].content.value))
            && (r.Success? && !PrimarySucceeds(primary) ==>
                  r.value == DdgFallback(providers.ddg(ts.query, maxResults)))
  {
  }

  /** Empty primary results are final: the outcome is the same whatever the
      fallback provider would have answered. */
  lemma EmptyPrimaryIgnoresFallback(ts: TavilySearch, maxResults: int, p1: SearchProviders, p2: SearchProviders)
    requires p1.tavily == p2.tavily
    requires TavilySources(p1.tavily(ts.query, maxResults, ts.topic)) == []
    requires p1.tavily(ts.query, maxResults, ts.topic).TavilyReturned?
    ensures Search(ts, maxResults, p1) == Search(ts, maxResults, p2)
    ensures Search(ts, maxResults, p1).Failure?
  {
  }

  /** Which provider class a retriever name selects. Only Tavily exists. */
  datatype RetrieverKind = TavilyRetriever

  /** `get_retriever`: every name, "tavily" or not, selects Tavily. */
  function GetRetriever(name: string): RetrieverKind {
    if name == "tavily" then TavilyRetriever else TavilyRetriever
  }

  // ===========================================================================
  // Scraping one page: HTTP outcome, extraction and whitespace normalisation
  // ===========================================================================

  /** An HTTP response as the scraper sees it: the status, the Content-Type header
      if present, and the parsed page: the text of each `p`, `h1`..`h5` element in
      document order after `script` and `style` were removed, or `None` when parsing
      raised. */
  datatype HttpResponse = HttpResponse(status: int, contentType: Option<string>, page: Option<seq<string>>)

  /** `session.get(link, timeout=...)`: a response, or a `RequestException`. */
  datatype FetchOutcome = RequestRaised | Responded(response: HttpResponse)

  /** `raise_for_status` raises for client and server errors. */
  predicate IsHttpError(status: int) {
    400 <= status < 600
  }

  const PDF_CONTENT_TYPE := "application/pdf"

  /** `"application/pdf" in response.headers.get("Content-Type", "").lower()`. */
  predicate IsPdf(contentType: Option<string>) {
    Contains(Lower(contentType.GetOr("")), PDF_CONTENT_TYPE)
  }

  /** `_get_content_from_url`: each element's text followed by a newline. */
  function ElementText(texts: seq<string>): string {
    if texts == [] then [] else texts[0] + "\n" + ElementText(texts[1..])
  }

  /** A fragment of normalised text: non-empty, no whitespace at either end, no line
      boundary and no double space inside. */
  predicate IsFragment(f: string) {
    f != [] && IsStripped(f) && NoLineBreak(f) && !Contains(f, "  ")
  }

  /** `phrase.strip()` for each phrase, keeping the non-empty ones. */
  function CleanPhrases(phrases: seq<string>): seq<string> {
    if phrases == [] then []
    else
      var p := Strip(phrases[0]);
      (if p == [] then [] else [p]) + CleanPhrases(phrases[1..])
  }

  /** The fragments of the scraper's generator pipeline: each line stripped, split on
      a double space, each phrase stripped again, empty ones dropped, in order. */
  function Fragments(lines: seq<string>): seq<string> {
    if lines == [] then []
    else CleanPhrases(Split(Strip(lines[0]), "  ")) + Fragments(lines[1..])
  }

  /** The post-processing in `BeautifulSoupScraper.scrape`. */
  function Normalize(raw: string): string {
    Join(Fragments(SplitLines(raw)), "\n")
  }

  /** `BeautifulSoupScraper.scrape`: every failure becomes the empty string. */
  function Scrape(outcome: FetchOutcome): (r: string)
    ensures outcome.RequestRaised? ==> r == []
    ensures outcome.Responded? && IsHttpError(outcome.response.status) ==> r == []
    ensures outcome.Responded? && IsPdf(outcome.response.contentType) ==> r == []
    ensures outcome.Responded? && outcome.response.page.None? ==> r == []
  {
    match outcome
    case RequestRaised => []
    case Responded(resp) =>
      if IsHttpError(resp.status) then []
      else if IsPdf(resp.contentType) then []
      else match resp.page
        case None => []
        case Some(texts) => Normalize(ElementText(texts))
  }

  // ---- Properties of the normalisation -------------------------------------

  lemma SliceKeepsNoBreak(s: string, i: int, j: int)
    requires 0 <= i <= j <= |s| && NoLineBreak(s)
    ensures NoLineBreak(s[i..j])
  {
    assert forall k :: 0 <= k < j - i ==> s[i..j][k] == s[i + k];
  }

  /** An occurrence inside a slice is an occurrence in the whole string. */
  lemma SliceOccurrence(s: string, i: int, j: int, sub: string)
    requires 0 <= i <= j <= |s|
    ensures Contains(s[i..j], sub) ==> Contains(s, sub)
  {
    var w := s[i..j];
    if Contains(w, sub) {
      var k :| 0 <= k <= |w| && IsAt(w, sub, k);
      var occ := s[i + k..i + k + |sub|];
      forall t | 0 <= t < |sub| ensures occ[t] == sub[t] {
        assert occ[t] == w[k + t] == w[k..k + |sub|][t];
      }
      assert occ == sub;
      assert IsAt(s, sub, i + k);
    }
  }

  lemma StripKeepsShape(s: string)
    ensures NoLineBreak(s) ==> NoLineBreak(Strip(s))
    ensures !Contains(s, "  ") ==> !Contains(Strip(s), "  ")
  {
    var l := StripLeft(s);
    StripLeftIsSuffix(s);
    StripRightIsPrefix(l);
    assert l == s[|s| - |l|..|s|];
    if NoLineBreak(s) {
      SliceKeepsNoBreak(s, |s| - |l|, |s|);
      SliceKeepsNoBreak(l, 0, |StripRight(l)|);
    }
    if !Contains(s, "  ") {
      SliceOccurrence(s, |s| - |l|, |s|, "  ");
      SliceOccurrence(l, 0, |StripRight(l)|, "  ");
    }
  }

  lemma {:induction false} SplitKeepsNoBreak(s: string, sep: string)
    requires |sep| > 0 && NoLineBreak(s)
    ensures forall k :: 0 <= k < |Split(s, sep)| ==> NoLineBreak(Split(s, sep)[k])
    decreases |s|
  {
    match Find(s, sep)
    case None =>
    case Some(i) =>
      var parts := Split(s, sep);
      var rest := Split(s[i + |sep|..], sep);
      assert parts == [s[..i]] + rest;
      SliceKeepsNoBreak(s, 0, i);
      SliceKeepsNoBreak(s, i + |sep|, |s|);
      assert s[i + |sep|..] == s[i + |sep|..|s|];
      SplitKeepsNoBreak(s[i + |sep|..], sep);
      forall k | 0 < k < |parts| ensures NoLineBreak(parts[k]) {
        assert parts[k] == rest[k - 1];
      }
  }

  /** Cleaning phrases without line boundaries or double spaces yields fragments. */
  lemma {:induction false} CleanPhrasesAreFragments(phrases: seq<string>)
    requires forall k :: 0 <= k < |phrases| ==> NoLineBreak(phrases[k]) && !Contains(phrases[k], "  ")
    ensures forall k :: 0 <= k < |CleanPhrases(phrases)| ==> IsFragment(CleanPhrases(phrases)[k])
    decreases |phrases|
  {
    if phrases != [] {
      StripKeepsShape(phrases[0]);
      CleanPhrasesAreFragments(phrases[1..]);
    }
  }

  predicate AllFragments(fs: seq<string>) {
    forall k :: 0 <= k < |fs| ==> IsFragment(fs[k])
  }

  lemma AllFragmentsAppend(a: seq<string>, b: seq<string>)
    requires AllFragments(a) && AllFragments(b)
    ensures AllFragments(a + b)
  {
    forall k | 0 <= k < |a + b| ensures IsFragment((a + b)[k]) {
      if k >= |a| {
        assert (a + b)[k] == b[k - |a|];
      }
    }
  }

  /** Every fragment is non-empty, stripped, and free of line boundaries and double spaces. */
  lemma {:induction false} FragmentsAreFragments(lines: seq<string>)
    requires forall k :: 0 <= k < |lines| ==> NoLineBreak(lines[k])
    ensures forall k :: 0 <= k < |Fragments(lines)| ==> IsFragment(Fragments(lines)[k])
    decreases |lines|
  {
    if lines != [] {
      var s := Strip(lines[0]);
      StripKeepsShape(lines[0]);
      SplitKeepsNoBreak(s, "  ");
      SplitPiecesAreSeparatorFree(s, "  ");
      CleanPhrasesAreFragments(Split(s, "  "));
      FragmentsAreFragments(lines[1..]);
      var head := CleanPhrases(Split(s, "  "));
      var tail := Fragments(lines[1..]);
      assert Fragments(lines) == head + tail;
      AllFragmentsAppend(head, tail);
    }
  }

  /** The lines of scraped text are exactly its fragments: splitting the output on
      line boundaries gives back non-empty, stripped lines in document order. */
  lemma NormalizedLines(raw: string)
    ensures var frags := Fragments(SplitLines(raw));
            && SplitLines(Normalize(raw)) == frags
            && forall k :: 0 <= k < |frags| ==> IsFragment(frags[k])
  {
    SplitLinesHaveNoBreaks(raw);
    FragmentsAreFragments(SplitLines(raw));
    SplitLinesJoin(Fragments(SplitLines(raw)));
  }

  lemma ConcatTextAppend(a: seq<string>, b: seq<string>)
    ensures NonSpace(Concat(a + b)) == NonSpace(Concat(a)) + NonSpace(Concat(b))
  {
    ConcatAppend(a, b);
    NonSpaceAppend(Concat(a), Concat(b));
  }

  lemma {:induction false} CleanPhrasesKeepText(phrases: seq<string>)
    ensures NonSpace(Concat(CleanPhrases(phrases))) == NonSpace(Concat(phrases))
    decreases |phrases|
  {
    if phrases != [] {
      var p := Strip(phrases[0]);
      var kept := if p == [] then [] else [p];
      CleanPhrasesKeepText(phrases[1..]);
      ConcatTextAppend(kept, CleanPhrases(phrases[1..]));
      ConcatCons(phrases[0], phrases[1..]);
      NonSpaceAppend(phrases[0], Concat(phrases[1..]));
      if p != [] {
        ConcatCons(p, []);
        assert p + [] == p;
      }
    }
  }

  lemma DoubleSpaceIsSpace()
    ensures AllSpace("  ")
  {
  }

  lemma SplitKeepsText(s: string)
    ensures NonSpace(Concat(Split(s, "  "))) == NonSpace(s)
  {
    JoinSplit(s, "  ");
    DoubleSpaceIsSpace();
    JoinKeepsText(Split(s, "  "), "  ");
  }

  lemma {:induction false} FragmentsKeepText(lines: seq<string>)
    ensures NonSpace(Concat(Fragments(lines))) == NonSpace(Concat(lines))
    decreases |lines|
  {
    if lines != [] {
      var s := Strip(lines[0]);
      var phrases := Split(s, "  ");
      FragmentsKeepText(lines[1..]);
      CleanPhrasesKeepText(phrases);
      SplitKeepsText(s);
      ConcatTextAppend(CleanPhrases(phrases), Fragments(lines[1..]));
      ConcatCons(lines[0], lines[1..]);
      NonSpaceAppend(lines[0], Concat(lines[1..]));
    }
  }

  /** Normalisation only rearranges whitespace: the non-whitespace characters of the
      output are those of the input, in the same order. */
  lemma NormalizeKeepsText(raw: string)
    ensures NonSpace(Normalize(raw)) == NonSpace(raw)
  {
    var frags := Fragments(SplitLines(raw));
    assert AllSpace("\n");
    JoinKeepsText(frags, "\n");
    FragmentsKeepText(SplitLines(raw));
    SplitLinesKeepsText(raw);
  }

  lemma {:induction false} FragmentsOfFragments(frags: seq<string>)
    requires forall k :: 0 <= k < |frags| ==> IsFragment(frags[k])
    ensures Fragments(frags) == frags
    decreases |frags|
  {
    if frags != [] {
      var f := frags[0];
      assert Strip(f) == f;
      SplitWithoutSeparator(f, "  ");
      assert CleanPhrases([f]) == [f] + CleanPhrases([]);
      FragmentsOfFragments(frags[1..]);
    }
  }

  /** Normalising already normalised text changes nothing. */
  lemma NormalizeIdempotent(raw: string)
    ensures Normalize(Normalize(raw)) == Normalize(raw)
  {
    var frags := Fragments(SplitLines(raw));
    NormalizedLines(raw);
    FragmentsOfFragments(frags);
  }

  lemma {:induction false} ElementTextKeepsText(texts: seq<string>)
    ensures NonSpace(ElementText(texts)) == NonSpace(Concat(texts))
    decreases |texts|
  {
    if texts != [] {
      ElementTextKeepsText(texts[1..]);
      assert AllSpace("\n");
      NonSpaceAcrossSpace(texts[0], "\n", ElementText(texts[1..]));
      ConcatCons(texts[0], texts[1..]);
      NonSpaceAppend(texts[0], Concat(texts[1..]));
    }
  }

  /** A page that is fetched, not an HTTP error, not a PDF and parsed yields the
      normalised text of its elements: each line a fragment, and the elements'
      visible text kept in document order. */
  lemma ScrapeOfPage(resp: HttpResponse)
    requires !IsHttpError(resp.status) && !IsPdf(resp.contentType) && resp.page.Some?
    ensures var r := Scrape(Responded(resp));
            && r == Normalize(ElementText(resp.page.value))
            && NonSpace(r) == NonSpace(Concat(resp.page.value))
            && forall k :: 0 <= k < |SplitLines(r)| ==> IsFragment(SplitLines(r)[k])
  {
    var raw := ElementText(resp.page.value);
    NormalizeKeepsText(raw);
    ElementTextKeepsText(resp.page.value);
    NormalizedLines(raw);
  }

  // ===========================================================================
  // The scrape coordinator
  // ===========================================================================

  /** What `scraper_class(link, session, config).scrape()` does: return text, or
      raise. */
  datatype ScrapeAttempt = Scraped(content: string) | ScrapeRaised

  /** The configuration values the scraper reads. */
  datatype ScraperConfig = ScraperConfig(minContentLength: int, maxWorkers: int, timeout: int)

  /** `{"url": link, "raw_content": ...}` with `None` for a dropped page. */
  datatype LinkData = LinkData(url: string, rawContent: Option<string>)

  /** A kept page: its URL and content. */
  datatype ScrapedPage = ScrapedPage(url: string, rawContent: string)

  /** `config.MIN_CONTENT_LENGTH if config else 100`. */
  function MinLength(cfg: Option<ScraperConfig>): int {
    match cfg
    case Some(c) => c.minContentLength
    case None => Constants.MIN_CONTENT_LENGTH
  }

  /** A page survives extraction when its scraper returned content of at least the
      minimum length. */
  predicate Passes(attempt: ScrapeAttempt, minLength: int) {
    attempt.Scraped? && |attempt.content| >= minLength
  }

  /** `Scraper._extract_data_from_link`. */
  function ExtractDataFromLink(link: string, attempt: ScrapeAttempt, minLength: int): (d: LinkData)
    ensures d.url == link
    ensures d.rawContent.Some? <==> Passes(attempt, minLength)
    ensures d.rawContent.Some? ==> d.rawContent.value == attempt.content
  {
    match attempt
    case ScrapeRaised => LinkData(link, None)
    case Scraped(content) =>
      if |content| < minLength then LinkData(link, None) else LinkData(link, Some(content))
  }

  /** The entries with content, in order (`[c for c in contents if c["raw_content"] is not None]`). */
  function KeepPresent(contents: seq<LinkData>): (pages: seq<ScrapedPage>)
    ensures |pages| <= |contents|
  {
    if contents == [] then []
    else
      var d := contents[0];
      (if d.rawContent.Some? then [ScrapedPage(d.url, d.rawContent.value)] else [])
        + KeepPresent(contents[1..])
  }

  /** `Scraper.run`. The thread pool's `map` returns results in input order, so the
      pool is a plain map over the URLs. */
  function RunScraper(urls: seq<string>, scraper: string -> ScrapeAttempt, cfg: Option<ScraperConfig>)
    : seq<ScrapedPage>
  {
    var contents := seq(|urls|, i requires 0 <= i < |urls| =>
      ExtractDataFromLink(urls[i], scraper(urls[i]), MinLength(cfg)));
    KeepPresent(contents)
  }

  /** The URLs of a list of pages. */
  function PageUrls(pages: seq<ScrapedPage>): (us: seq<string>)
    ensures |us| == |pages|
    ensures forall k :: 0 <= k < |pages| ==> us[k] == pages[k].url
  {
    if pages == [] then [] else [pages[0].url] + PageUrls(pages[1..])
  }

  /** `xs` is `ys` with some entries left out, order kept. */
  predicate IsSubsequence<T(==)>(xs: seq<T>, ys: seq<T>)
    decreases |ys|
  {
    if xs == [] then true
    else if ys == [] then false
    else if xs[0] == ys[0] then IsSubsequence(xs[1..], ys[1..])
    else IsSubsequence(xs, ys[1..])
  }

  /** The coordinator as a filter over the URLs, one URL at a time: the reference
      the thread-pool version must agree with. */
  function ScrapeEach(urls: seq<string>, scraper: string -> ScrapeAttempt, minLength: int): seq<ScrapedPage> {
    if urls == [] then []
    else
      var a := scraper(urls[0]);
      (if Passes(a, minLength) then [ScrapedPage(urls[0], a.content)] else [])
        + ScrapeEach(urls[1..], scraper, minLength)
  }

  lemma {:induction false} RunScraperIsFilter(urls: seq<string>, scraper: string -> ScrapeAttempt, cfg: Option<ScraperConfig>)
    ensures RunScraper(urls, scraper, cfg) == ScrapeEach(urls, scraper, MinLength(cfg))
    decreases |urls|
  {
    if urls != [] {
      var m := MinLength(cfg);
      var contents := seq(|urls|, i requires 0 <= i < |urls| => ExtractDataFromLink(urls[i], scraper(urls[i]), m));
      var rest := seq(|urls| - 1, i requires 0 <= i < |urls| - 1 => ExtractDataFromLink(urls[1..][i], scraper(urls[1..][i]), m));
      assert contents[1..] == rest;
      RunScraperIsFilter(urls[1..], scraper, cfg);
    }
  }

  /** No URL's scrape passes: each raised or returned too little. */
  predicate NonePass(urls: seq<string>, scraper: string -> ScrapeAttempt, minLength: int) {
    forall k :: 0 <= k < |urls| ==> !Passes(scraper(urls[k]), minLength)
  }

  lemma {:induction false} ScrapeEachEmpty(urls: seq<string>, scraper: string -> ScrapeAttempt, minLength: int)
    ensures ScrapeEach(urls, scraper, minLength) == [] <==> NonePass(urls, scraper, minLength)
    decreases |urls|
  {
    if urls != [] {
      ScrapeEachEmpty(urls[1..], scraper, minLength);
      if NonePass(urls[1..], scraper, minLength) && !Passes(scraper(urls[0]), minLength) {
        forall k | 0 <= k < |urls| ensures !Passes(scraper(urls[k]), minLength) {
          if k > 0 { assert urls[k] == urls[1..][k - 1]; }
        }
      }
      if NonePass(urls, scraper, minLength) {
        assert !Passes(scraper(urls[0]), minLength);
        forall k | 0 <= k < |urls[1..]| ensures !Passes(scraper(urls[1..][k]), minLength) {
          assert urls[1..][k] == urls[k + 1];
        }
      }
    }
  }

  /** `Scraper.run` returns no pages exactly when every URL's scrape fails. */
  lemma RunScraperEmpty(urls: seq<string>, scraper: string -> ScrapeAttempt, cfg: Option<ScraperConfig>)
    ensures RunScraper(urls, scraper, cfg) == [] <==> NonePass(urls, scraper, MinLength(cfg))
  {
    RunScraperIsFilter(urls, scraper, cfg);
    ScrapeEachEmpty(urls, scraper, MinLength(cfg));
  }

  /** What every kept page satisfies: its scraper returned exactly its content, and
      the content is at least the minimum length. */
  lemma {:induction false} ScrapeEachKeepsPassing(urls: seq<string>, scraper: string -> ScrapeAttempt, minLength: int)
    ensures forall k :: 0 <= k < |ScrapeEach(urls, scraper, minLength)| ==>
      var p := ScrapeEach(urls, scraper, minLength)[k];
      scraper(p.url) == Scraped(p.rawContent) && |p.rawContent| >= minLength
    decreases |urls|
  {
    if urls != [] {
      ScrapeEachKeepsPassing(urls[1..], scraper, minLength);
    }
  }

  lemma {:induction false} ScrapeEachIsSubsequence(urls: seq<string>, scraper: string -> ScrapeAttempt, minLength: int)
    ensures IsSubsequence(PageUrls(ScrapeEach(urls, scraper, minLength)), urls)
    decreases |urls|
  {
    if urls != [] {
      var rest := ScrapeEach(urls[1..], scraper, minLength);
      ScrapeEachIsSubsequence(urls[1..], scraper, minLength);
      if Passes(scraper(urls[0]), minLength) {
        var out := [ScrapedPage(urls[0], scraper(urls[0]).content)] + rest;
        assert out[1..] == rest;
        assert PageUrls(out)[1..] == PageUrls(rest);
      } else {
        assert ScrapeEach(urls, scraper, minLength) == rest;
        SubsequenceSkip(PageUrls(rest), urls);
      }
    }
  }

  lemma SubsequenceSkip<T>(xs: seq<T>, ys: seq<T>)
    requires ys != [] && IsSubsequence(xs, ys[1..])
    ensures IsSubsequence(xs, ys)
    decreases |ys|, |xs|
  {
    if xs != [] && xs[0] == ys[0] {
      SubsequenceTail(xs, ys[1..]);
    }
  }

  lemma SubsequenceTail<T>(xs: seq<T>, ys: seq<T>)
    requires xs != [] && IsSubsequence(xs, ys)
    ensures IsSubsequence(xs[1..], ys)
    decreases |ys|, |xs|
  {
    if ys != [] && xs[0] != ys[0] {
      SubsequenceTail(xs, ys[1..]);
      SubsequenceSkip(xs[1..], ys);
    } else if ys != [] {
      SubsequenceSkip(xs[1..], ys);
    }
  }

  /** `Scraper.run` returns one page per URL whose scrape passed, in input order:
      the kept URLs are a subsequence of the input, every kept page holds exactly what
      its scraper returned, and that content has at least the minimum length. */
  lemma RunScraperSpec(urls: seq<string>, scraper: string -> ScrapeAttempt, cfg: Option<ScraperConfig>)
    ensures var pages := RunScraper(urls, scraper, cfg);
            && IsSubsequence(PageUrls(pages), urls)
            && forall k :: 0 <= k < |pages| ==>
                 scraper(pages[k].url) == Scraped(pages[k].rawContent)
                 && |pages[k].rawContent| >= MinLength(cfg)
  {
    RunScraperIsFilter(urls, scraper, cfg);
    ScrapeEachKeepsPassing(urls, scraper, MinLength(cfg));
    ScrapeEachIsSubsequence(urls, scraper, MinLength(cfg));
  }

  /** Scraping a concatenation of URL lists is scraping each list: no URL's result
      depends on any other URL. */
  lemma {:induction false} ScrapeEachAppend(a: seq<string>, b: seq<string>, scraper: string -> ScrapeAttempt, m: int)
    ensures ScrapeEach(a + b, scraper, m) == ScrapeEach(a, scraper, m) + ScrapeEach(b, scraper, m)
    decreases |a|
  {
    if a == [] {
      assert a + b == b;
    } else {
      assert (a + b)[0] == a[0];
      assert (a + b)[1..] == a[1..] + b;
      var x := scraper(a[0]);
      var head := if Passes(x, m) then [ScrapedPage(a[0], x.content)] else [];
      assert ScrapeEach(a + b, scraper, m) == head + ScrapeEach(a[1..] + b, scraper, m);
      assert ScrapeEach(a, scraper, m) == head + ScrapeEach(a[1..], scraper, m);
      ScrapeEachAppend(a[1..], b, scraper, m);
    }
  }

  /** `Scraper.run` over a concatenation of URL lists is the concatenation of the runs. */
  lemma RunScraperAppend(a: seq<string>, b: seq<string>, scraper: string -> ScrapeAttempt, cfg: Option<ScraperConfig>)
    ensures RunScraper(a + b, scraper, cfg) == RunScraper(a, scraper, cfg) + RunScraper(b, scraper, cfg)
  {
    RunScraperIsFilter(a + b, scraper, cfg);
    RunScraperIsFilter(a, scraper, cfg);
    RunScraperIsFilter(b, scraper, cfg);
    ScrapeEachAppend(a, b, scraper, MinLength(cfg));
  }

  /** A single URL is kept exactly when its scrape passes. */
  lemma ScrapeEachSingle(u: string, scraper: string -> ScrapeAttempt, m: int)
    ensures ScrapeEach([u], scraper, m) ==
      if Passes(scraper(u), m) then [ScrapedPage(u, scraper(u).content)] else []
  {
    assert ScrapeEach([u], scraper, m) ==
      (if Passes(scraper(u), m) then [ScrapedPage(u, scraper(u).content)] else []) + ScrapeEach([], scraper, m);
  }

  /** Fault isolation: a URL whose scraper raises is missing from the result, and the
      other URLs' pages are exactly what they would have been had that URL succeeded. */
  lemma {:induction false} FailingUrlIsIsolated(urls: seq<string>, bad: string,
                                                good: string -> ScrapeAttempt, broken: string -> ScrapeAttempt,
                                                cfg: Option<ScraperConfig>)
    requires broken(bad) == ScrapeRaised
    requires forall u :: u != bad ==> broken(u) == good(u)
    ensures RunScraper(urls, broken, cfg) == WithoutUrl(RunScraper(urls, good, cfg), bad)
  {
    RunScraperIsFilter(urls, broken, cfg);
    RunScraperIsFilter(urls, good, cfg);
    ScrapeEachWithout(urls, bad, good, broken, MinLength(cfg));
  }

  /** The pages whose URL is not `bad`. */
  function WithoutUrl(pages: seq<ScrapedPage>, bad: string): seq<ScrapedPage> {
    if pages == [] then []
    else (if pages[0].url == bad then [] else [pages[0]]) + WithoutUrl(pages[1..], bad)
  }

  lemma {:induction false} ScrapeEachWithout(urls: seq<string>, bad: string,
                                             good: string -> ScrapeAttempt, broken: string -> ScrapeAttempt, m: int)
    requires broken(bad) == ScrapeRaised
    requires forall u :: u != bad ==> broken(u) == good(u)
    ensures ScrapeEach(urls, broken, m) == WithoutUrl(ScrapeEach(urls, good, m), bad)
    decreases |urls|
  {
    if urls != [] {
      ScrapeEachWithout(urls[1..], bad, good, broken, m);
      var rest := ScrapeEach(urls[1..], good, m);
      var u := urls[0];
      if Passes(good(u), m) {
        var out := [ScrapedPage(u, good(u).content)] + rest;
        assert out[1..] == rest;
        assert WithoutUrl(out, bad) == (if u == bad then [] else [out[0]]) + WithoutUrl(rest, bad);
      } else {
        assert ScrapeEach(urls, good, m) == rest;
        if rest != [] {
          assert WithoutUrl(rest, bad) == WithoutUrl(ScrapeEach(urls, good, m), bad);
        }
      }
    }
  }

  /** The scraper the coordinator uses by default: BeautifulSoup over one fetch. It
      never raises, since `scrape` turns every failure into "". */
  function BeautifulSoupAttempt(fetch: string -> FetchOutcome): string -> ScrapeAttempt {
    (url: string) => Scraped(Scrape(fetch(url)))
  }

  /** With the BeautifulSoup scraper, every page the coordinator returns carries the
      normalised text of a successfully fetched HTML page of at least the minimum length. */
  lemma BeautifulSoupPages(urls: seq<string>, fetch: string -> FetchOutcome, cfg: Option<ScraperConfig>)
    requires MinLength(cfg) > 0
    ensures var pages := RunScraper(urls, BeautifulSoupAttempt(fetch), cfg);
            forall k :: 0 <= k < |pages| ==>
              && fetch(pages[k].url).Responded?
              && !IsHttpError(fetch(pages[k].url).response.status)
              && !IsPdf(fetch(pages[k].url).response.contentType)
              && fetch(pages[k].url).response.page.Some?
              && pages[k].rawContent == Normalize(ElementText(fetch(pages[k].url).response.page.value))
              && |pages[k].rawContent| >= MinLength(cfg)
  {
    var pages := RunScraper(urls, BeautifulSoupAttempt(fetch), cfg);
    RunScraperSpec(urls, BeautifulSoupAttempt(fetch), cfg);
    forall k | 0 <= k < |pages|
      ensures fetch(pages[k].url).Responded?
      ensures !IsHttpError(fetch(pages[k].url).response.status)
      ensures !IsPdf(fetch(pages[k].url).response.contentType)
      ensures fetch(pages[k].url).response.page.Some?
      ensures pages[k].rawContent == Normalize(ElementText(fetch(pages[k].url).response.page.value))
    {
      assert BeautifulSoupAttempt(fetch)(pages[k].url) == Scraped(pages[k].rawContent);
      assert Scrape(fetch(pages[k].url)) == pages[k].rawContent;
    }
  }

  // ===========================================================================
  // Documents and the context compressor
  // ===========================================================================

  /** A LangChain `Document` with its "title" and "source" metadata. */
  datatype Document = Document(pageContent: string, title: string, source: string)

  /** `SearchAPIRetriever.get_relevant_documents`: one document per scraped page, in
      order; pages never carry a title, so the title is "". */
  function RelevantDocuments(pages: seq<ScrapedPage>): (docs: seq<Document>)
    ensures |docs| == |pages|
  {
    seq(|pages|, i requires 0 <= i < |pages| => Document(pages[i].rawContent, "", pages[i].url))
  }

  /** The page a document came from. */
  function PageOf(d: Document): ScrapedPage {
    ScrapedPage(d.source, d.pageContent)
  }

  /** The documents carry their pages unchanged: each page can be read back from its
      document, in the same position, and no document has a title. */
  lemma RelevantDocumentsRoundTrip(pages: seq<ScrapedPage>)
    ensures var docs := RelevantDocuments(pages);
            && (forall k :: 0 <= k < |pages| ==> PageOf(docs[k]) == pages[k] && docs[k].title == "")
  {
  }

  /** One rendered block: "Source: s\nTitle: t\nContent: c\n". */
  function Block(d: Document): string {
    "Source: " + d.source + "\nTitle: " + d.title + "\nContent: " + d.pageContent + "\n"
  }

  /** The blocks of `docs[start..]` whose index is below `topN`, as the generator
      `for i, d in enumerate(docs) if i < top_n` produces them. */
  function BlocksFrom(docs: seq<Document>, start: nat, topN: int): seq<string>
    requires start <= |docs|
    decreases |docs| - start
  {
    if start == |docs| then []
    else (if start < topN then [Block(docs[start])] else []) + BlocksFrom(docs, start + 1, topN)
  }

  /** `ContextCompressor.pretty_print_docs`. */
  function PrettyPrintDocs(docs: seq<Document>, topN: int): string {
    Join(BlocksFrom(docs, 0, topN), "\n")
  }

  /** How many documents a cap of `topN` lets through. */
  function Cap(topN: int, n: nat): (c: nat)
    ensures c <= n
    ensures topN <= 0 ==> c == 0
    ensures c <= topN || c == 0
  {
    if topN <= 0 then 0 else if topN < n then topN else n
  }

  /** The blocks of the first `|docs|` documents taken directly. */
  function Blocks(docs: seq<Document>): (bs: seq<string>)
    ensures |bs| == |docs|
    ensures forall k :: 0 <= k < |docs| ==> bs[k] == Block(docs[k])
  {
    seq(|docs|, i requires 0 <= i < |docs| => Block(docs[i]))
  }

  lemma {:induction false} BlocksFromIsPrefix(docs: seq<Document>, start: nat, topN: int)
    requires start <= |docs|
    ensures BlocksFrom(docs, start, topN) == Blocks(docs[start..start + Cap(topN - start, |docs| - start)])
    decreases |docs| - start
  {
    if start < |docs| {
      BlocksFromIsPrefix(docs, start + 1, topN);
      var c := Cap(topN - start, |docs| - start);
      var c' := Cap(topN - (start + 1), |docs| - (start + 1));
      if start < topN {
        assert c == c' + 1;
        var tail := Blocks(docs[start + 1..start + 1 + c']);
        assert Blocks(docs[start..start + c]) == [Block(docs[start])] + tail;
      } else {
        assert c == 0 && c' == 0;
      }
    }
  }

  /** `pretty_print_docs` renders the first `top_n` documents (all of them when there
      are fewer, none when `top_n` is not positive), in order, each as one block,
      joined by blank-line-producing newlines; documents past the cap never show. */
  lemma PrettyPrintDocsSpec(docs: seq<Document>, topN: int)
    ensures PrettyPrintDocs(docs, topN) == Join(Blocks(docs[..Cap(topN, |docs|)]), "\n")
    ensures docs == [] || topN <= 0 ==> PrettyPrintDocs(docs, topN) == ""
  {
    BlocksFromIsPrefix(docs, 0, topN);
    assert docs[0..Cap(topN, |docs|)] == docs[..Cap(topN, |docs|)];
  }

  /** Documents beyond the cap do not change the rendering. */
  lemma PrettyPrintIgnoresExtraDocs(docs: seq<Document>, more: seq<Document>, topN: int)
    requires topN <= |docs|
    ensures PrettyPrintDocs(docs + more, topN) == PrettyPrintDocs(docs, topN)
  {
    PrettyPrintDocsSpec(docs + more, topN);
    PrettyPrintDocsSpec(docs, topN);
    assert (docs + more)[..Cap(topN, |docs + more|)] == docs[..Cap(topN, |docs|)];
  }

  /** A constructed `ContextCompressor`: the scraped pages and its own `max_results`. */
  datatype ContextCompressor = ContextCompressor(documents: seq<ScrapedPage>, maxResults: int)

  const DEFAULT_CONTEXT_MAX_RESULTS := 5

  /** The splitter and embeddings filter of the contextual compression retriever:
      given the query and the retrieved documents, the documents that survive, or
      `None` when the filter raises (the embedding service answers with an HTTP error). */
  type Compressor = (string, seq<Document>) -> Option<seq<Document>>

  /** `ContextCompressor.get_context`: the compressor's surviving documents rendered
      with the method's own `max_results`; an exception of the filter propagates. The
      compression retriever does not consult the filter when the base retriever has no
      documents, so no scraped pages render as nothing. */
  function GetContext(cc: ContextCompressor, query: string, maxResults: int, compress: Compressor): Option<string> {
    if cc.documents == [] then Some(PrettyPrintDocs([], maxResults))
    else
      match compress(query, RelevantDocuments(cc.documents))
      case None => None
      case Some(survivors) => Some(PrettyPrintDocs(survivors, maxResults))
  }

  /** With no scraped pages, `get_context` gives `""` whatever the filter would do:
      the filter is never asked. */
  lemma NoPagesNoContext(cc: ContextCompressor, query: string, maxResults: int, compress: Compressor, other: Compressor)
    requires cc.documents == []
    ensures GetContext(cc, query, maxResults, compress) == Some("")
    ensures GetContext(cc, query, maxResults, other) == GetContext(cc, query, maxResults, compress)
  {
    PrettyPrintDocsSpec([], maxResults);
  }

  /** `get_context` gives `""` without consulting the filter when there are no pages,
      and otherwise fails exactly when the filter raises. When the filter answers it
      renders at most `max_results` surviving documents, capping with its own argument
      and never with the constructor's `max_results`, and renders nothing when none
      survive. */
  lemma GetContextSpec(cc: ContextCompressor, query: string, maxResults: int, compress: Compressor, otherCap: int)
    ensures cc.documents == [] ==> GetContext(cc, query, maxResults, compress) == Some("")
    ensures var survivors := compress(query, RelevantDocuments(cc.documents));
            && (GetContext(cc, query, maxResults, compress).Some? <==> cc.documents == [] || survivors.Some?)
            && (cc.documents != [] && survivors.Some? ==>
                  GetContext(cc, query, maxResults, compress)
                    == Some(Join(Blocks(survivors.value[..Cap(maxResults, |survivors.value|)]), "\n")))
            && GetContext(cc.(maxResults := otherCap), query, maxResults, compress)
                 == GetContext(cc, query, maxResults, compress)
            && (survivors == Some([]) ==> GetContext(cc, query, maxResults, compress) == Some(""))
  {
    var survivors := compress(query, RelevantDocuments(cc.documents));
    if cc.documents == [] {
      PrettyPrintDocsSpec([], maxResults);
    } else if survivors.Some? {
      PrettyPrintDocsSpec(survivors.value, maxResults);
    }
  }
}
