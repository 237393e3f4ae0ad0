/**
 * `AgentScraper`: the library's entry point. It checks the LLM provider
 * when built, then answers title queries by searching once and choosing
 * between the LLM agent's answer and the direct extractor's.
 *
 * The LLM side is not modelled: what `TitleAgent(llm).process` answers for
 * a page is the parameter `process`, and the HTML parser is the parameter
 * `parse`. Each query returns a `Call`: the outcome (the answer, or the
 * search error that propagates) and the steps taken, in order.
 */
module AgentScraper {
  import opened Wrappers
  import opened Markup
  import opened Titles
  import opened GoogleScraper

  /** The only LLM provider the constructor accepts. */
  const SupportedProvider := "groq"

  /** The method tag of an answer taken from the direct extractor. */
  const DirectFallbackMethod := "direct (fallback)"

  /** The content type `extract_content` treats as its own. */
  const TitlesContent := "titles"

  /** The fields the constructor stores: the provider name and the search scraper. */
  datatype Agent = Agent(provider: string, scraper: Scraper)

  /** What the constructor raises. */
  datatype InitError = UnsupportedProvider(provider: string)

  /** The `ValueError` message. */
  function InitErrorMessage(e: InitError): string {
    "Unsupported LLM provider: " + e.provider
  }

  /**
   * `AgentScraper(llm_provider, llm_api_key, use_selenium, chrome_path, edge_path)`.
   * `configTimeout` is the `timeout` of the `Config` it builds and
   * `seleniumAvailable` whether the Selenium imports succeeded. Only the
   * `"groq"` provider is accepted; the scraper it builds always sends the
   * default desktop-Chrome user agent.
   */
  function NewAgent(
    provider: string := SupportedProvider,
    configTimeout: int,
    seleniumAvailable: bool,
    useSelenium: bool := true,
    chromePath: Option<string> := None,
    edgePath: Option<string> := None): (r: Result<Agent, InitError>)
    ensures r.Success? <==> provider == SupportedProvider
    ensures r.Failure? ==> r.error == UnsupportedProvider(provider)
    ensures r.Success? ==>
              && r.value.scraper.userAgent == DefaultUserAgent
              && "User-Agent" in r.value.scraper.headers
              && r.value.scraper.headers["User-Agent"] == DefaultUserAgent
              && r.value.scraper.timeout == configTimeout
              && (r.value.scraper.useSelenium <==> useSelenium && seleniumAvailable)
              && r.value.scraper.chromePath == chromePath
              && r.value.scraper.edgePath == edgePath
  {
    if provider == SupportedProvider then
      Success(Agent(provider, NewScraper(seleniumAvailable, Some(DefaultUserAgent), configTimeout, useSelenium, chromePath, edgePath)))
    else
      Failure(UnsupportedProvider(provider))
  }

  /**
   * `AgentScraper()` with every argument defaulted: the `"groq"` provider is
   * accepted, and the scraper uses Selenium when the imports succeeded.
   */
  lemma DefaultsAccepted(configTimeout: int, seleniumAvailable: bool)
    ensures var r := NewAgent(configTimeout := configTimeout, seleniumAvailable := seleniumAvailable);
            && r.Success? && r.value.provider == "groq"
            && (r.value.scraper.useSelenium <==> seleniumAvailable)
            && r.value.scraper.chromePath.None? && r.value.scraper.edgePath.None?
  {
  }

  /** A query with the default count asks for ten results. */
  lemma DefaultResultCount(a: Agent, query: string, w: World,
                           process: string -> AgentReport, parse: string -> seq<Node>)
    ensures var c := ExtractTitleAnswer(a, query, w := w, process := process, parse := parse);
            c.steps[0].Searched? && c.steps[0].numResults == 10
  {
  }

  // ---------------------------------------------------------------------------
  // Title queries
  // ---------------------------------------------------------------------------

  /**
   * The dictionary `TitleAgent.process` answers: its `titles` list and the
   * other entries, which are passed through untouched.
   */
  datatype AgentReport = AgentReport(titles: seq<string>, others: map<string, string>)

  /**
   * What `extract_titles` returns: the agent's dictionary, or the direct
   * extractor's, whose `method` entry is the field `strategy`.
   */
  datatype TitleAnswer =
    | FromAgent(report: AgentReport)
    | FromDirect(titles: seq<string>, count: int, strategy: string)

  /** The `titles` entry of an answer. */
  function AnswerTitles(a: TitleAnswer): seq<string> {
    match a
    case FromAgent(report) => report.titles
    case FromDirect(titles, _, _) => titles
  }

  /** What `extract_content` returns. */
  datatype ContentAnswer =
    | TitlesFallback(answer: TitleAnswer)
    | NotImplemented(message: string, titles: seq<string>)

  /** One step of a query. */
  datatype Step =
    | Searched(query: string, numResults: int, events: seq<Event>)
    | AgentProcessed(html: string)
    | DirectExtracted(html: string)

  datatype Call<T> = Call(outcome: Result<T, FetchError>, steps: seq<Step>)

  /** The number of searches among `steps`. */
  function Searches(steps: seq<Step>): nat {
    if steps == [] then 0 else (if steps[0].Searched? then 1 else 0) + Searches(steps[1..])
  }

  /**
   * `extract_titles(query, num_results)`: one search, whose error
   * propagates; the agent on the page; and, when the agent found no title,
   * the direct extractor, whose list is returned only when it is not empty.
   */
  function ExtractTitleAnswer(
    a: Agent, query: string, numResults: int := 10, w: World,
    process: string -> AgentReport, parse: string -> seq<Node>): Call<TitleAnswer>
  {
    var run := Search(a.scraper, query, numResults, w);
    var searched := Searched(query, numResults, run.events);
    match run.outcome
    case Failure(e) => Call(Failure(e), [searched])
    case Success(html) =>
      var report := process(html);
      if |report.titles| == 0 then
        var direct := ExtractedTitles(parse(html));
        var steps := [searched, AgentProcessed(html), DirectExtracted(html)];
        if direct != [] then Call(Success(FromDirect(direct, |direct|, DirectFallbackMethod)), steps)
        else Call(Success(FromAgent(report)), steps)
      else
        Call(Success(FromAgent(report)), [searched, AgentProcessed(html)])
  }

  /**
   * `extract_content(query, content_type, num_results)`: a first search,
   * whose page is not used but whose error propagates, then
   * `extract_titles` (with its own search, against the world `w2`).
   * Content types other than `"titles"` get the `extract_titles` answer
   * itself; `"titles"` gets a not-implemented message and its titles.
   */
  function ExtractContent(
    a: Agent, query: string, contentType: string, numResults: int := 10, w1: World, w2: World,
    process: string -> AgentReport, parse: string -> seq<Node>): Call<ContentAnswer>
  {
    var run := Search(a.scraper, query, numResults, w1);
    var searched := Searched(query, numResults, run.events);
    match run.outcome
    case Failure(e) => Call(Failure(e), [searched])
    case Success(_) =>
      var titles := ExtractTitleAnswer(a, query, numResults, w2, process, parse);
      var steps := [searched] + titles.steps;
      match titles.outcome
      case Failure(e) => Call(Failure(e), steps)
      case Success(answer) =>
        if contentType != TitlesContent then Call(Success(TitlesFallback(answer)), steps)
        else Call(Success(NotImplemented("Extraction of " + contentType + " is not yet implemented", AnswerTitles(answer))), steps)
  }

  // ---------------------------------------------------------------------------
  // Properties of the selection rule
  // ---------------------------------------------------------------------------

  /**
   * The answer comes from the direct extractor exactly when the agent found
   * no title and the extractor found some; it is then the extractor's
   * list, its length and the fallback tag, and otherwise the agent's
   * dictionary unchanged. The extractor runs only when the agent found
   * nothing; search errors propagate with nothing else run.
   */
  lemma TitleSelection(
    a: Agent, query: string, numResults: int, w: World,
    process: string -> AgentReport, parse: string -> seq<Node>)
    ensures var run := Search(a.scraper, query, numResults, w);
            var c := ExtractTitleAnswer(a, query, numResults, w, process, parse);
            match run.outcome
            case Failure(e) =>
              c.outcome == Failure(e) && |c.steps| == 1
            case Success(html) =>
              var report := process(html);
              var direct := ExtractedTitles(parse(html));
              && c.outcome.Success?
              && (c.outcome.value.FromDirect? <==> |report.titles| == 0 && direct != [])
              && (c.outcome.value.FromDirect? ==>
                    c.outcome.value == FromDirect(direct, |direct|, DirectFallbackMethod))
              && (c.outcome.value.FromAgent? ==> c.outcome.value.report == report)
              && (DirectExtracted(html) in c.steps <==> |report.titles| == 0)
  {
  }

  /** A non-empty agent answer is returned unchanged and the direct extractor never runs. */
  lemma AgentAnswerWins(
    a: Agent, query: string, numResults: int, w: World,
    process: string -> AgentReport, parse: string -> seq<Node>, html: string)
    requires Search(a.scraper, query, numResults, w).outcome == Success(html)
    requires |process(html).titles| > 0
    ensures var c := ExtractTitleAnswer(a, query, numResults, w, process, parse);
            && c.outcome == Success(FromAgent(process(html)))
            && forall k :: 0 <= k < |c.steps| ==> !c.steps[k].DirectExtracted?
  {
  }

  /**
   * When the agent and the extractor both find nothing, the agent's (empty)
   * answer is returned.
   */
  lemma EmptyAnswersKeepAgent(
    a: Agent, query: string, numResults: int, w: World,
    process: string -> AgentReport, parse: string -> seq<Node>, html: string)
    requires Search(a.scraper, query, numResults, w).outcome == Success(html)
    requires process(html).titles == [] && ExtractedTitles(parse(html)) == []
    ensures var c := ExtractTitleAnswer(a, query, numResults, w, process, parse);
            c.outcome == Success(FromAgent(process(html))) && AnswerTitles(c.outcome.value) == []
  {
  }

  /**
   * A fallback answer lists distinct stripped `h3` titles longer than five
   * characters, and its `count` is their number.
   */
  lemma DirectAnswerIsClean(
    a: Agent, query: string, numResults: int, w: World,
    process: string -> AgentReport, parse: string -> seq<Node>)
    requires ExtractTitleAnswer(a, query, numResults, w, process, parse).outcome.Success?
    requires ExtractTitleAnswer(a, query, numResults, w, process, parse).outcome.value.FromDirect?
    ensures var d := ExtractTitleAnswer(a, query, numResults, w, process, parse).outcome.value;
            && d.count == |d.titles| == |set t | t in d.titles| > 0
            && d.strategy == DirectFallbackMethod
            && forall t :: t in d.titles ==> |t| > MinTitleLength && Strip(t) == t
  {
    var run := Search(a.scraper, query, numResults, w);
    assert run.outcome.Success?;
    var html := run.outcome.value;
    var direct := ExtractedTitles(parse(html));
    assert ExtractTitleAnswer(a, query, numResults, w, process, parse).outcome.value
           == FromDirect(direct, |direct|, DirectFallbackMethod);
    ExtractedTitlesCharacterised(parse(html));
  }

  /** `extract_titles` searches exactly once, before anything else. */
  lemma SearchOnceFirst(
    a: Agent, query: string, numResults: int, w: World,
    process: string -> AgentReport, parse: string -> seq<Node>)
    ensures var c := ExtractTitleAnswer(a, query, numResults, w, process, parse);
            && |c.steps| > 0 && c.steps[0].Searched?
            && c.steps[0].query == query && c.steps[0].numResults == numResults
            && Searches(c.steps) == 1
  {
    var c := ExtractTitleAnswer(a, query, numResults, w, process, parse);
    var s := c.steps;
    if |s| == 1 {
      assert Searches(s) == 1 + Searches(s[1..]);
    } else if |s| == 2 {
      assert Searches(s) == 1 + Searches(s[1..]);
      assert Searches(s[1..]) == Searches(s[2..]);
    } else {
      assert Searches(s) == 1 + Searches(s[1..]);
      assert Searches(s[1..]) == Searches(s[2..]);
      assert Searches(s[2..]) == Searches(s[3..]);
    }
  }

  /**
   * `extract_content` routes by content type: anything but `"titles"` gets
   * exactly what `extract_titles` gets, `"titles"` a message naming the
   * type and the titles of that answer. Either way a first search runs
   * before `extract_titles`'s own search, and its error propagates.
   */
  lemma ContentRouting(
    a: Agent, query: string, contentType: string, numResults: int, w1: World, w2: World,
    process: string -> AgentReport, parse: string -> seq<Node>)
    ensures var first := Search(a.scraper, query, numResults, w1);
            var c := ExtractContent(a, query, contentType, numResults, w1, w2, process, parse);
            var t := ExtractTitleAnswer(a, query, numResults, w2, process, parse);
            && (first.outcome.Failure? ==> c.outcome == Failure(first.outcome.error))
            && (first.outcome.Success? ==>
                  && c.steps == [Searched(query, numResults, first.events)] + t.steps
                  && (t.outcome.Failure? ==> c.outcome == Failure(t.outcome.error))
                  && (t.outcome.Success? && contentType != TitlesContent ==>
                        c.outcome == Success(TitlesFallback(t.outcome.value)))
                  && (t.outcome.Success? && contentType == TitlesContent ==>
                        c.outcome == Success(NotImplemented("Extraction of titles is not yet implemented",
                                                            AnswerTitles(t.outcome.value)))))
  {
    assert "Extraction of " + TitlesContent + " is not yet implemented" == "Extraction of titles is not yet implemented";
  }

  /** When the first search succeeds, `extract_content` searches twice. */
  lemma ContentSearchesTwice(
    a: Agent, query: string, contentType: string, numResults: int, w1: World, w2: World,
    process: string -> AgentReport, parse: string -> seq<Node>)
    requires Search(a.scraper, query, numResults, w1).outcome.Success?
    ensures Searches(ExtractContent(a, query, contentType, numResults, w1, w2, process, parse).steps) == 2
  {
    var t := ExtractTitleAnswer(a, query, numResults, w2, process, parse);
    SearchOnceFirst(a, query, numResults, w2, process, parse);
    var s := ExtractContent(a, query, contentType, numResults, w1, w2, process, parse).steps;
    assert s[1..] == t.steps;
  }
}
