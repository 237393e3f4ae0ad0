# agentscraper in Dafny

A model of the scraping core of `agentscraper`, a Python library that
searches Google for a query and returns the result titles. It covers two
classes.

- `GoogleScraper` fetches the results page. It first tries a Selenium
  browser: Chrome, then Edge. Whenever the browser path raises, it falls
  back to a direct `requests.get` with browser-like headers. Its
  `extract_titles` method then pulls the titles out of the parsed page in
  three passes:
  1. every `h3`;
  2. the first `h3` of every `div.g`;
  3. the first `h3` of every `a[href^="/url"]`.

  A final loop keeps each candidate longer than five characters once.
- `AgentScraper` is the entry point. Its constructor accepts only the
  `groq` LLM provider. `extract_titles` searches once, asks the LLM agent
  for titles, and falls back to the direct extractor when the agent finds
  none. `extract_content` routes by content type.

Modules:

- `Wrappers`: `Option` and `Result`.
- `Markup`: a parsed HTML tree (`Node`), its text, Python's `str.strip`,
  document-order traversal, and the three CSS selectors the extractor uses,
  with BeautifulSoup's `find_all`/`select`/`select_one` semantics.
  Selection looks at the descendants of a tag, never the tag itself.
- `Titles`: the three passes and the final filter as functions. Each
  function recurses on the last element, so it gives the value of the
  corresponding loop after any number of iterations. The module also holds
  what they guarantee.
- `GoogleScraper`:
  - the scraper's settings (`NewScraper`);
  - the fetch ladder, as functions from a `World` to a `Run`;
  - the imperative title extractor (`GoogleScraper.ExtractTitles` and the four loop
    methods it calls), proved against `Titles.ExtractedTitles`.

  A `World` is everything the code does not decide itself: whether each
  browser starts, whether the page loads, whether `quit` raises, what the
  first and second HTTP GETs answer, and the `quote_plus` encoding. A
  `Run` is the value returned or the error raised, plus the trace of
  external calls.
- `AgentScraper`: the provider check, the agent-or-direct selection and
  the content routing. The LLM agent's answer (`process`) and the HTML
  parser (`parse`) are parameters.

Four behaviours of the code that one might not expect, and that the model
keeps as written:

- One might expect every non-2xx status to fail the direct request; the
  code calls `raise_for_status`, which raises only for 4xx and 5xx
  statuses, so a 1xx or 3xx response is returned as markup.
- One might expect the browser to be released on every path; the code
  calls `driver.quit()` only after the page source was read, so when
  navigation or the wait fails the driver is never quit.
- One might expect `search` never to return an empty page, since it falls
  back when the browser yields one; the code still returns an empty page
  when the direct request answers with an empty body and any status
  outside 400-599, or when the browser path yields an empty page and the
  second direct request answers with an empty body too
  (`GoogleScraper.SearchMayReturnEmptyPage`).
- `extract_content` runs one search whose page it discards, then
  `extract_titles` searches again (`AgentScraper.ContentSearchesTwice`).
  For the content type `"titles"` it answers a not-implemented message
  together with the titles.

## Model

| member | source | states |
|---|---|---|
| Markup.LeadingSpaces | agentscraper/scrapers/GoogleScraper.py:219 | the number of leading whitespace characters (Python's `isspace` set): all of them are whitespace and the next one is not |
| Markup.TrailingSpaces | agentscraper/scrapers/GoogleScraper.py:219 | the number of trailing whitespace characters: all whitespace, the one before them not |
| Markup.StripIsTrimmedInfix | agentscraper/scrapers/GoogleScraper.py:219-220 | `.strip()` yields the infix of its input between the leading and trailing whitespace, and that infix, when not empty, starts and ends with a non-space |
| Markup.StripTrimmed | agentscraper/scrapers/GoogleScraper.py:219-220 | a string without whitespace at either end is left unchanged by `.strip()` |
| Markup.StripIdempotent | agentscraper/scrapers/GoogleScraper.py:219-220 | stripping twice equals stripping once |
| Markup.Subtree | agentscraper/scrapers/GoogleScraper.py:218 | a node's subtree in document order starts with the node itself |
| Markup.SubtreeClosed | agentscraper/scrapers/GoogleScraper.py:223-233 | a node inside the subtree of a node inside `n`'s subtree is inside `n`'s subtree |
| Markup.DescendantsClosed | agentscraper/scrapers/GoogleScraper.py:223-233 | an `h3` below a selected `div.g` or anchor is itself a descendant of the document |
| Markup.Filter | agentscraper/scrapers/GoogleScraper.py:218 | selection keeps exactly the nodes that match the selector |
| Markup.SelectOne | agentscraper/scrapers/GoogleScraper.py:225 | `select_one` answers a matching descendant, and `None` exactly when no descendant matches |
| Markup.FilterHeadIsFirstMatch | agentscraper/scrapers/GoogleScraper.py:225 | the first node selection keeps is the first matching node |
| Markup.SelectOneIsFirst | agentscraper/scrapers/GoogleScraper.py:231 | `select_one` answers the first matching descendant in document order |
| Markup.TextOf | agentscraper/scrapers/GoogleScraper.py:219 | no contract of its own: `tag.text`, the character data below a node in document order |
| Markup.Strip | agentscraper/scrapers/GoogleScraper.py:219 | no contract of its own: `str.strip()`; `StripIsTrimmedInfix`, `StripTrimmed` and `StripIdempotent` carry its properties |
| Markup.Descendants | agentscraper/scrapers/GoogleScraper.py:218 | no contract of its own: every node below a forest in document order; `DescendantsClosed` carries its property |
| Markup.SelectAll | agentscraper/scrapers/GoogleScraper.py:218-230 | no contract of its own: `find_all`/`select` as `Filter` over `Descendants`, whose contracts carry its properties |
| Titles.TitleOf | agentscraper/scrapers/GoogleScraper.py:219 | no contract of its own: `heading.text.strip()` |
| Titles.HeadingTitles | agentscraper/scrapers/GoogleScraper.py:218-220 | no contract of its own: pass 1; `HeadingTitlesMembers` and `HeadingTitlesSnoc` carry its properties |
| Titles.ContainerTitles | agentscraper/scrapers/GoogleScraper.py:223-227 | no contract of its own: pass 2; `ContainerTitlesMembers` and `ContainerTitlesStep` carry its properties |
| Titles.WithAnchorTitles | agentscraper/scrapers/GoogleScraper.py:230-233 | no contract of its own: pass 3; `WithAnchorTitlesExtends` and `WithAnchorTitlesStep` carry its properties |
| Titles.Candidates | agentscraper/scrapers/GoogleScraper.py:214-233 | no contract of its own: the three passes in turn; `ExtractedFromHeadingsAlone` states what they add up to |
| Titles.CleanTitles | agentscraper/scrapers/GoogleScraper.py:236-239 | no contract of its own: the final loop; `CleanTitlesMembers`, `CleanTitlesKeepFirstSeenOrder` and `CleanTitlesIgnoresRepeats` carry its properties |
| Titles.ExtractedTitles | agentscraper/scrapers/GoogleScraper.py:204-241 | no contract of its own: `ExtractedTitlesCharacterised`, `ExtractedTitlesInDocumentOrder` and `NoHeadingsNoTitles` carry its properties |
| Titles.HeadingTitlesMembers | agentscraper/scrapers/GoogleScraper.py:218-220 | pass 1 collects exactly the non-blank stripped texts of the headings |
| Titles.HeadingTitlesSnoc | agentscraper/scrapers/GoogleScraper.py:218-220 | one more heading appends its title to pass 1 when that title is not blank |
| Titles.FirstHeadingTitle | agentscraper/scrapers/GoogleScraper.py:225-227 | the title taken from a container or anchor is never blank |
| Titles.ContainerTitlesStep | agentscraper/scrapers/GoogleScraper.py:223-227 | one more `div.g` appends at most its own first-heading title |
| Titles.ContainerTitlesMembers | agentscraper/scrapers/GoogleScraper.py:223-227 | every pass-2 title is the first-heading title of some `div.g` |
| Titles.WithAnchorTitlesStep | agentscraper/scrapers/GoogleScraper.py:230-233 | one more anchor appends its title unless it is blank or already collected |
| Titles.WithAnchorTitlesExtends | agentscraper/scrapers/GoogleScraper.py:230-233 | pass 3 keeps the earlier list as a prefix; it adds only anchor first-heading titles, none of them twice |
| Titles.CleanTitlesMembers | agentscraper/scrapers/GoogleScraper.py:236-239 | the filtered list holds exactly the candidates longer than five characters, with no repetition |
| Titles.FirstIndexOfPrefix | agentscraper/scrapers/GoogleScraper.py:236-239 | appending a candidate does not move an earlier candidate's first occurrence |
| Titles.FirstOccurrenceOfNewcomer | agentscraper/scrapers/GoogleScraper.py:236-239 | a candidate first seen at the end occurs after every earlier candidate's first occurrence |
| Titles.FirstSeenOrderExtends | agentscraper/scrapers/GoogleScraper.py:236-239 | one iteration of the final loop keeps the kept titles in first-occurrence order |
| Titles.CleanTitlesKeepFirstSeenOrder | agentscraper/scrapers/GoogleScraper.py:236-239 | the filtered list is ordered by each title's first occurrence among the candidates |
| Titles.CleanTitlesIgnoresRepeats | agentscraper/scrapers/GoogleScraper.py:236-239 | candidates already present change nothing in the filtered list |
| Titles.DistinctCardinality | agentscraper/scrapers/GoogleScraper.py:236-239 | a list without repetition is as long as its set of elements |
| Titles.NestedHeadingIsHeading | agentscraper/scrapers/GoogleScraper.py:218-233 | the first `h3` below any node of the page was already collected by pass 1 |
| Titles.ContainerTitlesAreHeadingTitles | agentscraper/scrapers/GoogleScraper.py:218-227 | pass 2 only yields titles pass 1 collected |
| Titles.AnchorTitlesAreHeadingTitles | agentscraper/scrapers/GoogleScraper.py:218-233 | pass 3 only adds titles pass 1 collected |
| Titles.CleanTitlesIgnoresLaterRepeats | agentscraper/scrapers/GoogleScraper.py:223-239 | later passes that only repeat earlier candidates leave the filtered list unchanged |
| Titles.ExtractedFromHeadingsAlone | agentscraper/scrapers/GoogleScraper.py:218-239 | the extractor's answer equals the filtered pass-1 list: passes 2 and 3 never change it |
| Titles.ExtractedTitlesCharacterised | agentscraper/scrapers/GoogleScraper.py:204-241 | a string is returned iff it is the stripped text of some `h3` and longer than five characters; no title twice (length equals set size); every title already stripped |
| Titles.ExtractedTitlesInDocumentOrder | agentscraper/scrapers/GoogleScraper.py:218-239 | the titles come in the order of their first occurrence among the page's headings |
| Titles.NoHeadingsNoTitles | agentscraper/scrapers/GoogleScraper.py:218-241 | a page without any `h3` yields the empty list, not an error |
| Titles.FilterConcat | agentscraper/scrapers/GoogleScraper.py:218 | selecting over two forests is selecting over each in turn |
| Titles.PlainHeadingSubtree | agentscraper/scrapers/GoogleScraper.py:218 | a bare `h3` selects as itself |
| Titles.PlainHeadingsSelected | agentscraper/scrapers/GoogleScraper.py:218 | any page of three bare headings selects exactly those headings, in order |
| Titles.PlainHeadingTitle | agentscraper/scrapers/GoogleScraper.py:219 | a bare heading's title is its text when that text has no surrounding whitespace |
| Titles.ThreeHeadingTitles | agentscraper/scrapers/GoogleScraper.py:218-220 | three headings with non-blank titles give those three titles in order |
| Titles.ShortAndRepeatedTitles | agentscraper/scrapers/GoogleScraper.py:218-220 | pass 1 on the headings "Short", "A Proper Title Here", "A Proper Title Here" collects all three titles in that order |
| Titles.ShortAndRepeatedFiltered | agentscraper/scrapers/GoogleScraper.py:236-239 | the final loop drops the five-character title and the repeat |
| Titles.ShortAndRepeatedHeadings | agentscraper/scrapers/GoogleScraper.py:204-241 | for that page the extractor answers `["A Proper Title Here"]` |
| GoogleScraper.NewScraper | agentscraper/scrapers/GoogleScraper.py:31-68 | Selenium is used iff requested and importable; a missing or empty user agent becomes the desktop-Chrome default; the headers are the browser-like table of lines 55-68 (`BrowserHeaders`) with `User-Agent` set to the chosen agent; timeout and browser paths are kept |
| GoogleScraper.BrowserHeaders | agentscraper/scrapers/GoogleScraper.py:55-68 | no contract of its own: the twelve-entry header table; `NewScraper` states the scraper carries it |
| GoogleScraper.DigitChar | agentscraper/scrapers/GoogleScraper.py:165 | a digit below ten is written as the decimal digit character of that value |
| GoogleScraper.NatToString | agentscraper/scrapers/GoogleScraper.py:165 | the `num` parameter is written as decimal digits that spell it (`DecimalValue(r) == n`), with no leading zero except in `"0"` |
| GoogleScraper.IntToString | agentscraper/scrapers/GoogleScraper.py:165 | no contract of its own: a negative count gets a `-` before the digits of `NatToString`, whose contract carries the value |
| GoogleScraper.SearchUrl | agentscraper/scrapers/GoogleScraper.py:164-165 | no contract of its own: the f-string URL; `SearchTargetsOneUrl` states that both strategies use it |
| GoogleScraper.InitializeChrome | agentscraper/scrapers/GoogleScraper.py:82-110 | no contract of its own: a Chrome driver or `None`; its properties are in `InitializeSelenium` and `InitHasNoRequestsOrQuits` |
| GoogleScraper.InitializeEdge | agentscraper/scrapers/GoogleScraper.py:112-140 | no contract of its own: an Edge driver or `None`; its properties are in `InitializeSelenium` and `InitHasNoRequestsOrQuits` |
| GoogleScraper.FallBack | agentscraper/scrapers/GoogleScraper.py:199-202 | no contract of its own: the `except` branch of `_search_with_selenium`; `SeleniumStrategyOutcome` states its effect |
| GoogleScraper.SearchWithSelenium | agentscraper/scrapers/GoogleScraper.py:175-202 | no contract of its own: `SeleniumStrategyOutcome` and `QuitOnlyAfterPageSource` carry its properties |
| GoogleScraper.Search | agentscraper/scrapers/GoogleScraper.py:142-160 | no contract of its own: `SearchLadder` and its corollaries (`AtMostTwoRequests`, `DirectErrorsPropagate`, `QuitOnlyAfterPageSource`, `SearchTargetsOneUrl`, `DirectOnlyWithoutSelenium`, `EmptyPageOnlyFromDirectRequest`) carry its properties |
| GoogleScraper.InitializeSelenium | agentscraper/scrapers/GoogleScraper.py:70-80 | Chrome is tried first, and Edge only when Chrome's start-up failed; the driver is the first browser that started, or `None` |
| GoogleScraper.SearchWithRequests | agentscraper/scrapers/GoogleScraper.py:162-173 | exactly one GET of the search URL with the scraper's headers and timeout; raises iff the connection failed or the status is 4xx/5xx; otherwise returns the body |
| GoogleScraper.RequestsConcat | agentscraper/scrapers/GoogleScraper.py:142-202 | counting requests distributes over concatenated traces |
| GoogleScraper.QuitsConcat | agentscraper/scrapers/GoogleScraper.py:142-202 | counting quits distributes over concatenated traces |
| GoogleScraper.InitHasNoRequestsOrQuits | agentscraper/scrapers/GoogleScraper.py:70-140 | starting a driver sends no HTTP request and quits nothing |
| GoogleScraper.SeleniumStrategyOutcome | agentscraper/scrapers/GoogleScraper.py:175-202 | without an exception the browser path returns the page source with no request; with one, it returns what one direct request returns; it quits once iff a driver started and the page loaded |
| GoogleScraper.SearchTargetsOneUrl | agentscraper/scrapers/GoogleScraper.py:162-181 | every navigation and every GET targets `https://www.google.com/search?q=<quote_plus(query)>&num=<n>`, and every GET carries the scraper's headers and timeout |
| GoogleScraper.DirectOnlyWithoutSelenium | agentscraper/scrapers/GoogleScraper.py:153-160 | with Selenium off, `search` is one direct request: no driver starts, and it raises or returns what that request does |
| GoogleScraper.NoDriverWithoutSeleniumImports | agentscraper/scrapers/GoogleScraper.py:43-45 | a scraper built where the Selenium imports failed, with any user agent, timeout, Selenium request and browser paths, never starts a driver |
| GoogleScraper.AtMostTwoRequests | agentscraper/scrapers/GoogleScraper.py:142-202 | `search` sends at most two direct requests, and two iff the browser path raised and its fallback answered an empty body with a status outside 400-599 |
| GoogleScraper.QuitOnlyAfterPageSource | agentscraper/scrapers/GoogleScraper.py:175-202 | `driver.quit()` runs at most once, iff a driver started and the page loaded; a failed page leaves the driver unquit |
| GoogleScraper.DirectErrorsPropagate | agentscraper/scrapers/GoogleScraper.py:142-202 | `search` raises iff its last direct request raised, and that request is its last call; browser failures never surface |
| GoogleScraper.EmptyPageOnlyFromDirectRequest | agentscraper/scrapers/GoogleScraper.py:153-160 | an empty page is only ever the body of a direct request: the last call is a GET, and the last reply answered an empty body with a status outside 400-599 |
| GoogleScraper.SearchLadder | agentscraper/scrapers/GoogleScraper.py:142-202 | case by case, how many requests and quits `search` makes and which answer decides its outcome |
| GoogleScraper.SearchMayReturnEmptyPage | agentscraper/scrapers/GoogleScraper.py:153-160 | with no browser and two empty 200 replies, `search` returns the empty page |
| GoogleScraper.RenderTimeoutFallsBackToDirect | agentscraper/scrapers/GoogleScraper.py:184-202 | a page that fails to render, followed by a healthy non-empty 2xx reply, yields that reply's body |
| GoogleScraper.CollectHeadingTitles | agentscraper/scrapers/GoogleScraper.py:218-220 | the first loop computes pass 1 |
| GoogleScraper.CollectContainerTitles | agentscraper/scrapers/GoogleScraper.py:223-227 | the second loop appends pass 2 |
| GoogleScraper.CollectAnchorTitles | agentscraper/scrapers/GoogleScraper.py:230-233 | the third loop computes pass 3 over the list so far |
| GoogleScraper.DropShortAndRepeated | agentscraper/scrapers/GoogleScraper.py:236-239 | the final loop computes the filtered list |
| GoogleScraper.ExtractTitles | agentscraper/scrapers/GoogleScraper.py:204-241 | `extract_titles` returns the filtered list of the `h3` titles: distinct, each longer than five characters and already stripped |
| AgentScraper.NewAgent | agentscraper/__init__.py:16-44 | succeeds iff the provider is `"groq"`, and fails otherwise with `UnsupportedProvider`; the scraper gets the default user agent, the config's timeout, Selenium iff requested and available, and the browser paths |
| AgentScraper.InitErrorMessage | agentscraper/__init__.py:35 | no contract of its own: the `ValueError` message naming the provider |
| AgentScraper.DefaultsAccepted | agentscraper/__init__.py:16-44 | `AgentScraper()` with every argument defaulted succeeds with the `"groq"` provider, no browser paths, and Selenium iff the imports succeeded |
| AgentScraper.DefaultResultCount | agentscraper/__init__.py:46-59 | `extract_titles(query)` searches for ten results |
| AgentScraper.ExtractTitleAnswer | agentscraper/__init__.py:46-78 | no contract of its own: `TitleSelection`, `AgentAnswerWins`, `EmptyAnswersKeepAgent`, `DirectAnswerIsClean` and `SearchOnceFirst` carry its properties |
| AgentScraper.ExtractContent | agentscraper/__init__.py:80-107 | no contract of its own: `ContentRouting` and `ContentSearchesTwice` carry its properties |
| AgentScraper.TitleSelection | agentscraper/__init__.py:46-78 | a search error propagates and nothing else runs; otherwise the answer is the direct one iff the agent found no title and the extractor found some; it is then `(direct, len(direct), "direct (fallback)")`, else the agent's dictionary unchanged; the extractor runs iff the agent found nothing |
| AgentScraper.AgentAnswerWins | agentscraper/__init__.py:64-78 | a non-empty agent answer is returned unchanged and direct extraction never runs |
| AgentScraper.EmptyAnswersKeepAgent | agentscraper/__init__.py:66-78 | when both find nothing, the agent's empty answer is returned |
| AgentScraper.DirectAnswerIsClean | agentscraper/__init__.py:66-75 | a fallback answer lists distinct, stripped titles longer than five characters; its count equals their number; its method is `"direct (fallback)"` |
| AgentScraper.SearchOnceFirst | agentscraper/__init__.py:57-64 | `extract_titles` searches exactly once, for the query and count it was given, before the agent runs |
| AgentScraper.ContentRouting | agentscraper/__init__.py:80-107 | a first search runs and its error propagates; then content types other than `"titles"` get exactly the `extract_titles` answer, and `"titles"` gets a message naming it plus that answer's titles |
| AgentScraper.ContentSearchesTwice | agentscraper/__init__.py:92-99 | once its first search succeeds, `extract_content` has searched twice |

## Left out

- Selenium driver construction: options, user-agent argument, headless flags, the webdriver-hiding script, `ChromeDriverManager`/`EdgeChromiumDriverManager` and the `os.path.exists` check on binary paths. The model only records whether each browser started (`World.chromeStarts`, `World.edgeStarts`).
- The random `time.sleep` delays before requests and after page load. They have no effect on results.
- Diagnostic `print` calls.
- The wait for `div.g, div[jscontroller]` and the reading of `page_source`. They are folded into one outcome, `World.page`: loaded with a source, or failed.
- HTML parsing (`BeautifulSoup(html, 'lxml')`). `GoogleScraper.ExtractTitles` takes the parsed document, and `AgentScraper` takes the parser as the parameter `parse`.
- `urllib.parse.quote_plus` is the parameter `World.quotePlus`.
- The `requests` library, including its own timeouts and exceptions. Every failure to get a response is `NoConnection`.
- `Config`, `GroqProvider` and `TitleAgent` are not part of this model. The config's timeout is the parameter `configTimeout`. The agent's answer for a page is the parameter `process`, a total function: `TitleAgent.process` is assumed never to raise, although in the code such an exception (an LLM or API failure) would propagate out of `extract_titles` before the direct fallback could run. Errors those constructors might raise are not modelled.
- Other entries of the agent's dictionary are kept as a string map. Their value types are not modelled.
- The Selenium imports at module load are the boolean `seleniumAvailable`.
- `setup.py` and `__version__`.
- AgentScraper.ExtractTitleAnswer: the two HTTP replies of each search are fixed per `World`, so `extract_content`'s two searches take two independent worlds.
- AgentScraper.NewAgent: `llm_api_key` is only passed to `Config` and is not modelled.
- AgentScraper.ExtractContent: `quote_plus` is part of each search's `World`, so the two searches could in principle encode the query differently; the library function is deterministic, which the model does not enforce.
- GoogleScraper.ExtractTitles: the three passes and the final loop are four methods called in turn rather than one body. The loops are the same.
