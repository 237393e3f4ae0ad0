/**
 * `GoogleScraper`: the scraper's settings, its fetch-strategy ladder, and
 * the imperative title extractor.
 *
 * The ladder is modelled as functions from the outside world to a `Run`:
 * the outcome `search` returns or raises, and the trace of the external
 * calls it made (driver start-ups, page navigation, `driver.quit()`, HTTP
 * GETs). Everything the code does not decide itself -- whether a browser
 * starts, whether the page loads, what each HTTP request answers, and the
 * `urllib.parse.quote_plus` encoding -- comes from a `World` value.
 */
module GoogleScraper {
  import opened Wrappers
  import opened Markup
  import opened Titles

  // ---------------------------------------------------------------------------
  // Settings
  // ---------------------------------------------------------------------------

  const DefaultUserAgent := "Mozilla/5.0 (Windows NT 10.0; Win64; x64) AppleWebKit/537.36 (KHTML, like Gecko) Chrome/120.0.0.0 Safari/537.36"
  const DefaultTimeout := 30
  const SearchEndpoint := "https://www.google.com/search"

  /** The fields `GoogleScraper.__init__` sets; nothing updates them afterwards. */
  datatype Scraper = Scraper(
    timeout: int,
    useSelenium: bool,
    chromePath: Option<string>,
    edgePath: Option<string>,
    userAgent: string,
    headers: map<string, string>)

  /** The browser-like header set sent with every direct request. */
  function BrowserHeaders(userAgent: string): map<string, string> {
    FixedHeaders["User-Agent" := userAgent]
  }

  /** The headers that do not depend on the user agent. */
  const FixedHeaders: map<string, string> :=
    map[
      "Accept" := "text/html,application/xhtml+xml,application/xml;q=0.9,image/avif,image/webp,*/*;q=0.8",
      "Accept-Language" := "en-US,en;q=0.5",
      "Accept-Encoding" := "gzip, deflate, br",
      "Connection" := "keep-alive",
      "Upgrade-Insecure-Requests" := "1",
      "Sec-Fetch-Dest" := "document",
      "Sec-Fetch-Mode" := "navigate",
      "Sec-Fetch-Site" := "none",
      "Sec-Fetch-User" := "?1",
      "Cache-Control" := "max-age=0",
      "Referer" := "https://www.google.com/"
    ]

  /**
   * `GoogleScraper(user_agent, timeout, use_selenium, chrome_path, edge_path)`.
   * `seleniumAvailable` is whether the Selenium imports at module load
   * succeeded. Selenium is used only when requested and available; a
   * missing or empty user agent is replaced by the default one, and the
   * header set carries the user agent chosen.
   */
  function NewScraper(
    seleniumAvailable: bool,
    userAgent: Option<string> := None,
    timeout: int := DefaultTimeout,
    useSelenium: bool := true,
    chromePath: Option<string> := None,
    edgePath: Option<string> := None): (s: Scraper)
    ensures s.useSelenium <==> useSelenium && seleniumAvailable
    ensures s.userAgent != ""
    ensures userAgent.Some? && userAgent.value != "" ==> s.userAgent == userAgent.value
    ensures userAgent.None? || userAgent.value == "" ==> s.userAgent == DefaultUserAgent
    ensures "User-Agent" in s.headers && s.headers["User-Agent"] == s.userAgent
    ensures s.headers == BrowserHeaders(s.userAgent)
    ensures s.timeout == timeout && s.chromePath == chromePath && s.edgePath == edgePath
  {
    var agent := if userAgent.None? || userAgent.value == "" then DefaultUserAgent else userAgent.value;
    Scraper(timeout, useSelenium && seleniumAvailable, chromePath, edgePath, agent, BrowserHeaders(agent))
  }

  // ---------------------------------------------------------------------------
  // The target URL
  // ---------------------------------------------------------------------------

  function DigitChar(d: nat): (c: char)
    requires d < 10
    ensures '0' <= c <= '9' && c as int - '0' as int == d
  {
    ('0' as int + d) as char
  }

  /** The number a run of decimal digits spells, most significant digit first. */
  function DecimalValue(s: string): nat
    requires forall i :: 0 <= i < |s| ==> '0' <= s[i] <= '9'
  {
    if s == [] then 0 else 10 * DecimalValue(s[..|s| - 1]) + (s[|s| - 1] as int - '0' as int)
  }

  /**
   * The decimal digits of `n`, as an f-string prints them: they spell `n`,
   * with no leading zero except in `"0"` itself.
   */
  function NatToString(n: nat): (r: string)
    ensures |r| > 0 && forall i :: 0 <= i < |r| ==> '0' <= r[i] <= '9'
    ensures DecimalValue(r) == n
    ensures r[0] != '0' || r == "0"
  {
    if n < 10 then
      var r := [DigitChar(n)];
      assert DecimalValue(r) == 10 * DecimalValue(r[..0]) + (r[0] as int - '0' as int);
      r
    else
      var prefix := NatToString(n / 10);
      var r := prefix + [DigitChar(n % 10)];
      assert r[..|r| - 1] == prefix;
      r
  }

  function IntToString(n: int): string {
    if n < 0 then "-" + NatToString(-n) else NatToString(n)
  }

  /** `f"https://www.google.com/search?q={escaped_query}&num={num_results}"` */
  function SearchUrl(escapedQuery: string, numResults: int): string {
    SearchEndpoint + "?q=" + escapedQuery + "&num=" + IntToString(numResults)
  }

  // ---------------------------------------------------------------------------
  // The outside world and the trace of external calls
  // ---------------------------------------------------------------------------

  datatype Browser = Chrome | Edge

  /** What `requests.get` answers: a response, or an exception before any response. */
  datatype HttpReply = Reply(status: int, text: string) | NoConnection

  /** Navigation, the wait for `div.g, div[jscontroller]` and `page_source`: all succeed, or one raises. */
  datatype PageLoad = Loaded(source: string) | LoadFailed

  datatype World = World(
    quotePlus: string -> string,  // urllib.parse.quote_plus
    chromeStarts: bool,           // webdriver.Chrome(...) and its set-up script succeed
    edgeStarts: bool,             // webdriver.Edge(...) and its set-up script succeed
    page: PageLoad,
    quitFails: bool,              // driver.quit() raises
    firstReply: HttpReply,        // the answer to the first HTTP GET of a search
    secondReply: HttpReply)       // the answer to the second one

  /** One call to the outside world. */
  datatype Event =
    | ChromeInit(started: bool)
    | EdgeInit(started: bool)
    | Navigate(browser: Browser, url: string)
    | Quit(browser: Browser)
    | HttpGet(url: string, headers: map<string, string>, timeout: int)

  /** What `search` raises when the direct request fails. */
  datatype FetchError = HttpStatus(code: int) | ConnectionFailed

  /** The outcome of a call -- the markup returned, or the error raised -- and the calls it made. */
  datatype Run = Run(outcome: Result<string, FetchError>, events: seq<Event>)

  /** A driver start-up: the driver, or `None`, and the start-up calls made. */
  datatype Init = Init(driver: Option<Browser>, events: seq<Event>)

  /** The number of HTTP GETs in a trace. */
  function Requests(events: seq<Event>): nat {
    if events == [] then 0 else (if events[0].HttpGet? then 1 else 0) + Requests(events[1..])
  }

  /** The number of `driver.quit()` calls in a trace. */
  function Quits(events: seq<Event>): nat {
    if events == [] then 0 else (if events[0].Quit? then 1 else 0) + Quits(events[1..])
  }

  /** Whether a trace starts a browser driver. */
  predicate StartsDriver(events: seq<Event>) {
    exists i :: 0 <= i < |events| && (events[i] == ChromeInit(true) || events[i] == EdgeInit(true))
  }

  /** The answer to the `k`-th HTTP GET of a search (counting from 0). */
  function NthReply(w: World, k: nat): HttpReply {
    if k == 0 then w.firstReply else w.secondReply
  }

  /** `response.raise_for_status()` raises for client (4xx) and server (5xx) errors only. */
  predicate IsErrorStatus(status: int) {
    400 <= status < 600
  }

  /** Whether a direct request with this answer raises. */
  predicate Raises(reply: HttpReply) {
    reply.NoConnection? || IsErrorStatus(reply.status)
  }

  // ---------------------------------------------------------------------------
  // Driver start-up
  // ---------------------------------------------------------------------------

  /** `_initialize_chrome`: a Chrome driver, or `None` when starting it raised. */
  function InitializeChrome(w: World): Init {
    Init(if w.chromeStarts then Some(Chrome) else None, [ChromeInit(w.chromeStarts)])
  }

  /** `_initialize_edge`: an Edge driver, or `None` when starting it raised. */
  function InitializeEdge(w: World): Init {
    Init(if w.edgeStarts then Some(Edge) else None, [EdgeInit(w.edgeStarts)])
  }

  /**
   * `_initialize_selenium`: Chrome first; Edge only when Chrome gave `None`.
   * The driver is Chrome when Chrome starts, Edge when only Edge starts, and
   * `None` when neither does.
   */
  function InitializeSelenium(w: World): (r: Init)
    ensures |r.events| > 0 && r.events[0] == ChromeInit(w.chromeStarts)
    ensures (exists i :: 0 <= i < |r.events| && r.events[i].EdgeInit?) <==> !w.chromeStarts
    ensures forall i :: 0 <= i < |r.events| ==> r.events[i].ChromeInit? || r.events[i].EdgeInit?
    ensures r.driver == Some(Chrome) <==> w.chromeStarts
    ensures r.driver == Some(Edge) <==> !w.chromeStarts && w.edgeStarts
    ensures r.driver.None? <==> !w.chromeStarts && !w.edgeStarts
  {
    var chrome := InitializeChrome(w);
    if chrome.driver.None? then
      var edge := InitializeEdge(w);
      var r := Init(edge.driver, chrome.events + edge.events);
      assert r.events[1].EdgeInit?;
      r
    else chrome
  }

  // ---------------------------------------------------------------------------
  // The two strategies and the ladder
  // ---------------------------------------------------------------------------

  /**
   * `_search_with_requests`: one GET of the search URL with the scraper's
   * headers and timeout; the body unless the status is 4xx or 5xx or the
   * connection failed, in which case the error propagates.
   */
  function SearchWithRequests(s: Scraper, query: string, numResults: int := 10, reply: HttpReply, w: World): (r: Run)
    ensures r.events == [HttpGet(SearchUrl(w.quotePlus(query), numResults), s.headers, s.timeout)]
    ensures r.outcome.Failure? <==> Raises(reply)
    ensures r.outcome.Success? ==> r.outcome.value == reply.text
  {
    var get := HttpGet(SearchUrl(w.quotePlus(query), numResults), s.headers, s.timeout);
    match reply
    case NoConnection => Run(Failure(ConnectionFailed), [get])
    case Reply(status, text) =>
      if IsErrorStatus(status) then Run(Failure(HttpStatus(status)), [get])
      else Run(Success(text), [get])
  }

  /**
   * Whether the body of `_search_with_selenium`'s `try` raises: no driver
   * started (`driver.get` on `None`), the page did not load, or `quit` raised.
   */
  predicate SeleniumRaises(w: World) {
    (!w.chromeStarts && !w.edgeStarts) || w.page.LoadFailed? || w.quitFails
  }

  /** `_search_with_selenium` after the calls `events`, falling back to a direct request. */
  function FallBack(s: Scraper, query: string, numResults: int, w: World, events: seq<Event>): Run {
    var direct := SearchWithRequests(s, query, numResults, w.firstReply, w);
    Run(direct.outcome, events + direct.events)
  }

  /**
   * `_search_with_selenium`: start a driver, load the search URL, read the
   * page source and quit; any exception on the way falls back to a direct
   * request, whose own errors propagate.
   */
  function SearchWithSelenium(s: Scraper, query: string, numResults: int := 10, w: World): Run {
    var init := InitializeSelenium(w);
    match init.driver
    case None => FallBack(s, query, numResults, w, init.events)
    case Some(browser) =>
      var navigated := init.events + [Navigate(browser, SearchUrl(w.quotePlus(query), numResults))];
      match w.page
      case LoadFailed => FallBack(s, query, numResults, w, navigated)
      case Loaded(source) =>
        if w.quitFails then FallBack(s, query, numResults, w, navigated + [Quit(browser)])
        else Run(Success(source), navigated + [Quit(browser)])
  }

  /**
   * `search`: the Selenium strategy when enabled; a direct request when it
   * is disabled, or when the Selenium strategy returned an empty page.
   */
  function Search(s: Scraper, query: string, numResults: int := 10, w: World): Run {
    if s.useSelenium then
      var viaBrowser := SearchWithSelenium(s, query, numResults, w);
      if viaBrowser.outcome.Success? && viaBrowser.outcome.value == "" then
        var direct := SearchWithRequests(s, query, numResults, NthReply(w, Requests(viaBrowser.events)), w);
        Run(direct.outcome, viaBrowser.events + direct.events)
      else viaBrowser
    else
      SearchWithRequests(s, query, numResults, w.firstReply, w)
  }

  // ---------------------------------------------------------------------------
  // Properties of the ladder
  // ---------------------------------------------------------------------------

  lemma {:induction false} RequestsConcat(a: seq<Event>, b: seq<Event>)
    ensures Requests(a + b) == Requests(a) + Requests(b)
  {
    if a == [] {
      assert a + b == b;
    } else {
      assert (a + b)[1..] == a[1..] + b;
      RequestsConcat(a[1..], b);
    }
  }

  lemma {:induction false} QuitsConcat(a: seq<Event>, b: seq<Event>)
    ensures Quits(a + b) == Quits(a) + Quits(b)
  {
    if a == [] {
      assert a + b == b;
    } else {
      assert (a + b)[1..] == a[1..] + b;
      QuitsConcat(a[1..], b);
    }
  }

  /** Start-up calls contain no GET and no quit. */
  lemma InitHasNoRequestsOrQuits(w: World)
    ensures Requests(InitializeSelenium(w).events) == 0
    ensures Quits(InitializeSelenium(w).events) == 0
  {
    var events := InitializeSelenium(w).events;
    if w.chromeStarts {
      assert events == [ChromeInit(true)] && events[1..] == [];
    } else {
      assert events == [ChromeInit(false), EdgeInit(w.edgeStarts)];
      assert events[1..] == [EdgeInit(w.edgeStarts)] && events[1..][1..] == [];
      assert Requests(events[1..]) == 0 && Quits(events[1..]) == 0;
    }
  }

  /**
   * What the Selenium strategy does: without an exception it returns the
   * page source and makes no request; with one, it returns exactly what a
   * direct request with the first answer returns, after one GET.
   */
  lemma SeleniumStrategyOutcome(s: Scraper, query: string, numResults: int, w: World)
    ensures var r := SearchWithSelenium(s, query, numResults, w);
            && (!SeleniumRaises(w) ==> r.outcome == Success(w.page.source) && Requests(r.events) == 0)
            && (SeleniumRaises(w) ==> r.outcome == SearchWithRequests(s, query, numResults, w.firstReply, w).outcome
                                        && Requests(r.events) == 1)
            && Quits(r.events) == (if w.page.Loaded? && (w.chromeStarts || w.edgeStarts) then 1 else 0)
            && (SeleniumRaises(w) ==> |r.events| > 0 && r.events[|r.events| - 1].HttpGet?)
  {
    var init := InitializeSelenium(w);
    InitHasNoRequestsOrQuits(w);
    var direct := SearchWithRequests(s, query, numResults, w.firstReply, w);
    assert Requests(direct.events) == 1 && Quits(direct.events) == 0;
    match init.driver
    case None =>
      RequestsConcat(init.events, direct.events);
      QuitsConcat(init.events, direct.events);
    case Some(browser) =>
      var nav := [Navigate(browser, SearchUrl(w.quotePlus(query), numResults))];
      var navigated := init.events + nav;
      RequestsConcat(init.events, nav);
      QuitsConcat(init.events, nav);
      RequestsConcat(navigated, [Quit(browser)]);
      QuitsConcat(navigated, [Quit(browser)]);
      RequestsConcat(navigated, direct.events);
      QuitsConcat(navigated, direct.events);
      RequestsConcat(navigated + [Quit(browser)], direct.events);
      QuitsConcat(navigated + [Quit(browser)], direct.events);
  }

  /** Every page the ladder opens and every request it sends targets the one search URL. */
  ghost predicate TargetsSearchUrl(events: seq<Event>, s: Scraper, url: string) {
    forall i :: 0 <= i < |events| ==>
      && (events[i].Navigate? ==> events[i].url == url)
      && (events[i].HttpGet? ==> events[i] == HttpGet(url, s.headers, s.timeout))
  }

  /**
   * Both strategies fetch `https://www.google.com/search?q=<quote_plus(query)>&num=<num_results>`,
   * and every direct request carries the scraper's headers and timeout.
   */
  lemma SearchTargetsOneUrl(s: Scraper, query: string, numResults: int, w: World)
    ensures TargetsSearchUrl(Search(s, query, numResults, w).events, s, SearchUrl(w.quotePlus(query), numResults))
  {
    var url := SearchUrl(w.quotePlus(query), numResults);
    var init := InitializeSelenium(w);
    assert TargetsSearchUrl(init.events, s, url);
    var first := SearchWithRequests(s, query, numResults, w.firstReply, w);
    var second := SearchWithRequests(s, query, numResults, w.secondReply, w);
    assert TargetsSearchUrl(first.events, s, url);
    assert TargetsSearchUrl(second.events, s, url);
    if s.useSelenium {
      var browser := SearchWithSelenium(s, query, numResults, w);
      assert TargetsSearchUrl(browser.events, s, url) by {
        match init.driver
        case None =>
          TargetsConcat(init.events, first.events, s, url);
        case Some(b) =>
          var navigated := init.events + [Navigate(b, url)];
          TargetsConcat(init.events, [Navigate(b, url)], s, url);
          TargetsConcat(navigated, [Quit(b)], s, url);
          TargetsConcat(navigated, first.events, s, url);
          TargetsConcat(navigated + [Quit(b)], first.events, s, url);
      }
      TargetsConcat(browser.events, first.events, s, url);
      TargetsConcat(browser.events, second.events, s, url);
    }
  }

  lemma TargetsConcat(a: seq<Event>, b: seq<Event>, s: Scraper, url: string)
    requires TargetsSearchUrl(a, s, url) && TargetsSearchUrl(b, s, url)
    ensures TargetsSearchUrl(a + b, s, url)
  {
    forall i | 0 <= i < |a + b|
      ensures ((a + b)[i].Navigate? ==> (a + b)[i].url == url)
      ensures ((a + b)[i].HttpGet? ==> (a + b)[i] == HttpGet(url, s.headers, s.timeout))
    {
      if i >= |a| {
        assert (a + b)[i] == b[i - |a|];
      }
    }
  }

  /**
   * Without Selenium (not requested, or not importable) `search` is one
   * direct request: it starts no driver and returns or raises what that
   * request does.
   */
  lemma DirectOnlyWithoutSelenium(s: Scraper, query: string, numResults: int, w: World)
    requires !s.useSelenium
    ensures var r := Search(s, query, numResults, w);
            && r.events == [HttpGet(SearchUrl(w.quotePlus(query), numResults), s.headers, s.timeout)]
            && !StartsDriver(r.events)
            && (r.outcome.Failure? <==> Raises(w.firstReply))
            && (r.outcome.Success? ==> r.outcome.value == w.firstReply.text)
  {
  }

  /** A scraper built where the Selenium imports failed never starts a driver. */
  lemma NoDriverWithoutSeleniumImports(
    query: string, numResults: int, w: World,
    userAgent: Option<string>, timeout: int, useSelenium: bool, chromePath: Option<string>, edgePath: Option<string>)
    ensures var s := NewScraper(false, userAgent, timeout, useSelenium, chromePath, edgePath);
            !StartsDriver(Search(s, query, numResults, w).events)
  {
    var s := NewScraper(false, userAgent, timeout, useSelenium, chromePath, edgePath);
    DirectOnlyWithoutSelenium(s, query, numResults, w);
  }

  /**
   * `search` sends at most two direct requests, and two exactly when the
   * Selenium strategy raised and its fallback request returned an empty body.
   */
  lemma AtMostTwoRequests(s: Scraper, query: string, numResults: int, w: World)
    ensures var n := Requests(Search(s, query, numResults, w).events);
            && (!(s.useSelenium && !SeleniumRaises(w)) ==> n >= 1)
            && n <= 2
            && (n == 2 <==> s.useSelenium && SeleniumRaises(w) && !Raises(w.firstReply) && w.firstReply.text == "")
  {
    SearchLadder(s, query, numResults, w);
  }

  /**
   * `driver.quit()` runs at most once, and only when a driver started and
   * the page source was read: a driver whose page fails to load is never
   * quit.
   */
  lemma QuitOnlyAfterPageSource(s: Scraper, query: string, numResults: int, w: World)
    ensures var q := Quits(Search(s, query, numResults, w).events);
            && q <= 1
            && (q == 1 <==> s.useSelenium && (w.chromeStarts || w.edgeStarts) && w.page.Loaded?)
  {
    SearchLadder(s, query, numResults, w);
  }

  /**
   * `search` raises exactly when its last direct request raises, with that
   * request's error, and makes no call after it: browser failures never
   * surface, direct-request failures always do.
   */
  lemma DirectErrorsPropagate(s: Scraper, query: string, numResults: int, w: World)
    ensures var r := Search(s, query, numResults, w);
            var n := Requests(r.events);
            && (r.outcome.Failure? <==> n > 0 && Raises(NthReply(w, n - 1)))
            && (r.outcome.Failure? ==> r.events[|r.events| - 1].HttpGet?)
  {
    SearchLadder(s, query, numResults, w);
  }

  /** An empty page is returned only as the body of a direct request, never from the browser. */
  lemma EmptyPageOnlyFromDirectRequest(s: Scraper, query: string, numResults: int, w: World)
    ensures var r := Search(s, query, numResults, w);
            var n := Requests(r.events);
            r.outcome == Success("") ==>
              && |r.events| > 0 && r.events[|r.events| - 1].HttpGet?
              && n > 0 && NthReply(w, n - 1).Reply? && !Raises(NthReply(w, n - 1))
              && NthReply(w, n - 1).text == ""
  {
    SearchLadder(s, query, numResults, w);
  }

  /**
   * The facts the ladder lemmas share: by case, how many requests `search`
   * sends, how many quits, and which answer decides the outcome.
   */
  lemma SearchLadder(s: Scraper, query: string, numResults: int, w: World)
    ensures var r := Search(s, query, numResults, w);
            var n := Requests(r.events);
            && (!s.useSelenium ==> n == 1 && Quits(r.events) == 0)
            && (s.useSelenium && !SeleniumRaises(w) ==>
                  if w.page.source == "" then n == 1 && r.outcome == SearchWithRequests(s, query, numResults, w.firstReply, w).outcome
                  else n == 0 && r.outcome == Success(w.page.source))
            && (s.useSelenium && SeleniumRaises(w) ==>
                  if !Raises(w.firstReply) && w.firstReply.text == "" then
                    n == 2 && r.outcome == SearchWithRequests(s, query, numResults, w.secondReply, w).outcome
                  else n == 1 && r.outcome == SearchWithRequests(s, query, numResults, w.firstReply, w).outcome)
            && (s.useSelenium ==> Quits(r.events) == (if w.page.Loaded? && (w.chromeStarts || w.edgeStarts) then 1 else 0))
            && (r.outcome.Failure? || r.outcome == Success("") ==> n > 0 && r.events[|r.events| - 1].HttpGet?)
  {
    if s.useSelenium {
      var browser := SearchWithSelenium(s, query, numResults, w);
      SeleniumStrategyOutcome(s, query, numResults, w);
      if browser.outcome.Success? && browser.outcome.value == "" {
        var direct := SearchWithRequests(s, query, numResults, NthReply(w, Requests(browser.events)), w);
        RequestsConcat(browser.events, direct.events);
        QuitsConcat(browser.events, direct.events);
      }
    }
  }

  /**
   * One might expect `search` never to return empty markup, since it falls
   * back when the browser yields an empty page; the code can still return
   * an empty page: here a browser that does not start, and a direct request
   * answered 200 with an empty body, then 200 with an empty body again.
   */
  lemma SearchMayReturnEmptyPage(s: Scraper, query: string, numResults: int, quotePlus: string -> string)
    requires s.useSelenium
    ensures Search(s, query, numResults, World(quotePlus, false, false, LoadFailed, false, Reply(200, ""), Reply(200, ""))).outcome
              == Success("")
  {
    var w := World(quotePlus, false, false, LoadFailed, false, Reply(200, ""), Reply(200, ""));
    SearchLadder(s, query, numResults, w);
  }

  /**
   * A browser whose wait for the results times out, followed by a healthy
   * direct request: `search` returns the direct request's body.
   */
  lemma RenderTimeoutFallsBackToDirect(s: Scraper, query: string, numResults: int, w: World)
    requires s.useSelenium && w.page.LoadFailed?
    requires w.firstReply.Reply? && 200 <= w.firstReply.status < 300 && w.firstReply.text != ""
    ensures Search(s, query, numResults, w).outcome == Success(w.firstReply.text)
  {
    SearchLadder(s, query, numResults, w);
  }

  // ---------------------------------------------------------------------------
  // The title extractor
  // ---------------------------------------------------------------------------

  /** Pass 1 of `extract_titles`: the stripped text of every heading that is not blank. */
  method CollectHeadingTitles(headings: seq<Node>) returns (titles: seq<string>)
    ensures titles == HeadingTitles(headings)
  {
    titles := [];
    for k := 0 to |headings|
      invariant titles == HeadingTitles(headings[..k])
    {
      HeadingTitlesSnoc(headings[..k], headings[k]);
      assert headings[..k + 1] == headings[..k] + [headings[k]];
      var text := Strip(TextOf(headings[k]));
      if text != "" {
        titles := titles + [text];
      }
    }
    assert headings[..|headings|] == headings;
  }

  /** Pass 2: appends the title of the first heading inside each result container, when not blank. */
  method CollectContainerTitles(titles0: seq<string>, results: seq<Node>) returns (titles: seq<string>)
    ensures titles == titles0 + ContainerTitles(results)
  {
    titles := titles0;
    for k := 0 to |results|
      invariant titles == titles0 + ContainerTitles(results[..k])
    {
      ContainerTitlesStep(results, k);
      var h3 := SelectOne(results[k], H3);
      if h3.Some? && Strip(TextOf(h3.value)) != "" {
        assert titles0 + (ContainerTitles(results[..k]) + [Strip(TextOf(h3.value))])
               == titles + [Strip(TextOf(h3.value))];
        titles := titles + [Strip(TextOf(h3.value))];
      }
    }
    assert results[..|results|] == results;
  }

  /** Pass 3: appends the title of the first heading inside each redirect anchor, unless already present. */
  method CollectAnchorTitles(titles0: seq<string>, anchors: seq<Node>) returns (titles: seq<string>)
    ensures titles == WithAnchorTitles(titles0, anchors)
  {
    titles := titles0;
    for k := 0 to |anchors|
      invariant titles == WithAnchorTitles(titles0, anchors[..k])
    {
      WithAnchorTitlesStep(titles0, anchors, k);
      var h3 := SelectOne(anchors[k], H3);
      if h3.Some? && Strip(TextOf(h3.value)) != "" && Strip(TextOf(h3.value)) !in titles {
        titles := titles + [Strip(TextOf(h3.value))];
      }
    }
    assert anchors[..|anchors|] == anchors;
  }

  /** The final loop: keeps each candidate longer than five characters, once. */
  method DropShortAndRepeated(titles: seq<string>) returns (cleanTitles: seq<string>)
    ensures cleanTitles == CleanTitles(titles)
  {
    cleanTitles := [];
    for k := 0 to |titles|
      invariant cleanTitles == CleanTitles(titles[..k])
    {
      assert titles[..k + 1][..k] == titles[..k];
      var title := titles[k];
      if title != "" && |title| > MinTitleLength && title !in cleanTitles {
        cleanTitles := cleanTitles + [title];
      }
    }
    assert titles[..|titles|] == titles;
  }

  /**
   * `extract_titles` on the parsed document `doc`: builds the candidate list
   * in three passes, then keeps each candidate longer than five characters
   * once. The result is the distinct `h3` titles longer than five characters,
   * in document order, each already stripped.
   */
  method ExtractTitles(doc: seq<Node>) returns (cleanTitles: seq<string>)
    ensures cleanTitles == ExtractedTitles(doc)
    ensures cleanTitles == CleanTitles(HeadingTitles(SelectAll(doc, H3)))
    ensures forall i, j :: 0 <= i < j < |cleanTitles| ==> cleanTitles[i] != cleanTitles[j]
    ensures forall t :: t in cleanTitles ==> |t| > MinTitleLength && Strip(t) == t
  {
    var titles := CollectHeadingTitles(SelectAll(doc, H3));
    titles := CollectContainerTitles(titles, SelectAll(doc, ResultContainer));
    titles := CollectAnchorTitles(titles, SelectAll(doc, RedirectAnchor));
    cleanTitles := DropShortAndRepeated(titles);
    ExtractedTitlesCharacterised(doc);
    ExtractedFromHeadingsAlone(doc);
  }
}
