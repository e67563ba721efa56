# web-vuln-scanner: crawl and probe engine

This project models the engine of a small web vulnerability scanner. It has four parts:

- **A static crawler** (`core/crawler.py`). It fetches pages over HTTP breadth-first, up to a maximum
  depth and a page budget. It follows the same-domain links of each HTML page and drops URL fragments.
- **A crawler for single-page applications** (`core/dynamic_crawler.py`). It renders pages in a
  headless browser and keeps fragments, because client-side routes live there. It reads both
  `<a href>` and `routerlink` attributes.
- **A static reflected-XSS probe** (`scanners/xss.py`). Each query parameter gets each payload in
  turn. A payload that comes back verbatim in an HTML response is a finding, and it stops the
  probing of that parameter.
- **A rendered-DOM XSS probe** (`scanners/dynamic_xss.py`). It probes three surfaces in order:
  query parameters, a guessed `q` parameter on a `#/search` route, and up to five text fields.

Both crawlers and both probes report `ScanResult` records (`scanners/base.py`).

The two crawl loops share one model, `Frontier`. The loop state is:

- the log of every `(url, depth)` entry ever queued, plus a read position that stands for the
  FIFO queue;
- the `visited` set;
- the `discovered` map from URL to depth.

`Frontier.Step` is one pass of the `while` body and `Frontier.Run` is the whole loop.

The crawler classes keep `visited` and `discovered` as fields, as the source does. Their `Crawl`
methods keep a real queue and are proved equal to `Run` from the start state. The breadth-first
facts are lemmas about `Run`:

- the page budget holds;
- no URL is queued twice;
- every visited URL was discovered;
- depths stay between 1 and the maximum;
- the queue stays in level order.

Collaborators are parameters that Dafny does not interpret (module `Collaborators`):

- urllib's `urljoin`, `parse_qsl` and `urlencode`/`urlunparse`;
- BeautifulSoup's parse of a page into its anchors and `routerlink` values;
- the HTTP client (`get`, `same_domain`);
- the Playwright renderer;
- the Playwright browser page.

A call to the HTTP client's `get`, the renderer or the browser that raises is an absent value (`None`,
or `NavigationError`). The URL functions and `same_domain` are total, as "## Left out" says. The probes are
modelled like this:

- **Loops that stop at their first finding** are specified by `Wrappers.FirstSome`.
- **Attempts that may raise** are specified by `Wrappers.FirstHit`, and the result is gathered by
  `Wrappers.Gather`. In `scanners/dynamic_xss.py` a navigation error escapes `scan`, so it ends
  the whole scan as a `Failure`.

Each loop-bearing method of the source is a Dafny method whose `ensures` ties its result, or its
new state, to these functions.

Two behaviours of the code are worth noting:

- **Trailing slashes.** The single-page normaliser calls `url.rstrip("/")`, which removes every
  trailing `/`, not just one (`SpaCrawl.SpaNormalize`).
- **Probe errors.** In `scanners/dynamic_xss.py`, neither `_render_and_check` nor
  `_find_injectable_fields` catches a failed `page.goto`, and `scan` does not catch it either.
  A navigation error during probing therefore ends the scan (`DynamicXss.ScanSpec`,
  `DynamicXss.DynamicXssScanner.Scan`).

## Model

| member | source | states |
|---|---|---|
| ScanBase.ToDict | scanners/base.py:7-20 | the dictionary has exactly the keys url, vulnerability, severity and detail; `vulnerability` holds the vulnerability name and each other key holds the field of the same name, as the constructor stored it |
| ScanBase.ToDictInjective | scanners/base.py:14-20 | two results with the same dictionary are the same result: `to_dict` loses nothing |
| ScanBase.ToString | scanners/base.py:22-23 | the line starts with `[severity] `, ends with the detail, and is 10 characters longer than the four fields together |
| ScanBase.SeverityReadBack | scanners/base.py:22-23 | for a severity without `]`, the severity is what the line holds between its leading `[` and the first `]` |
| QueryParams.Keys | scanners/xss.py:36 | the keys of the query pairs, one per pair, in order |
| QueryParams.ReplaceParam | scanners/xss.py:20-25 | the pair list after the mutation has the same length and the same keys in the same order; pairs with key `param` carry the payload and all others keep their value |
| QueryParams.ReplaceAbsent | scanners/xss.py:20-25 | a parameter that does not occur leaves the pairs unchanged |
| QueryParams.ParamNames | scanners/xss.py:32-37 | the parameter names are strictly sorted and distinct, and are exactly the keys of the query |
| QueryParams.ParamNamesEmpty | scanners/xss.py:32-37 | there are no parameter names iff the query has no pairs |
| QueryParams.ParamNamesAfterReplace | scanners/xss.py:20-37 | mutating a value never changes the set of parameter names |
| StaticXss.ChangedUrlPairs | scanners/xss.py:16-30 | when urllib's query round trip holds, the probed URL's query is exactly the mutated pairs, with the same parameter names as the scanned URL |
| StaticXss.FirstReflectionSpec | scanners/xss.py:51-79 | the payload loop finds nothing iff no payload yields a finding; otherwise its finding is that of some payload, and every earlier payload yielded none |
| StaticXss.FirstReflectionSound | scanners/xss.py:54-79 | a finding comes from a listed payload whose request succeeded with an HTML response containing the payload verbatim; it is reported on the mutated URL with severity HIGH |
| StaticXss.FirstReflectionComplete | scanners/xss.py:51-79 | if some listed payload is reflected, the loop reports the first reflected payload, and no earlier payload is reflected |
| StaticXss.ScanWithoutParams | scanners/xss.py:43-46 | a URL without query pairs yields no findings |
| StaticXss.ScanFindings | scanners/xss.py:48-81 | there are no more findings than parameters, and each finding is that of a payload reflected on one of the URL's parameters |
| StaticXss.ScanOnePerParam | scanners/xss.py:48-81 | one finding per parameter: the findings come from strictly increasing positions in the sorted parameter list, the i-th being the first reflection found on its parameter, and every parameter on which some payload is reflected has its finding |
| StaticXss.ScanComplete | scanners/xss.py:48-81 | if any payload is reflected on a parameter, the scan reports a finding for that parameter, namely the one for its first reflected payload |
| StaticXss.XssScanner.constructor | scanners/xss.py:9-14 | the scanner keeps its client and the two static payloads |
| StaticXss.XssScanner.ChangeUrlWithPayload | scanners/xss.py:16-30 | the loop over the query pairs builds the URL whose query is the pairs with `param` set to the payload |
| StaticXss.XssScanner.ProbeParam | scanners/xss.py:51-79 | the payload loop, with its `continue`s and its `break`, returns the first reflection for the parameter |
| StaticXss.XssScanner.Scan | scanners/xss.py:39-81 | `scan` returns, in parameter order, the first reflection of each sorted parameter that has one |
| Crawl.Normalize | core/crawler.py:25-32 | the normalised URL holds no `#`; it is the URL itself, or the URL cut just before its first `#` |
| Crawl.NormalizeIdempotent | core/crawler.py:25-32 | normalising twice equals normalising once |
| Crawl.LinkOf | core/crawler.py:41-56 | an anchor gives no link when it has no `href` or an ignored target; a link it gives is in the domain, holds no `#`, and is the normalised `urljoin` of the stripped href; and an anchor whose stripped href is not ignored and whose normalised link is in the domain does give a link |
| Crawl.LinksSound | core/crawler.py:34-58 | the links are exactly what the anchors give, and each is in the domain and without a fragment |
| Crawl.LinksAppend | core/crawler.py:39-58 | links keep document order and are not de-duplicated: the links of two runs of anchors are the concatenation of their links |
| Crawl.Expand | core/crawler.py:83-94 | a failed request or a non-HTML response yields no links |
| Crawl.Crawler.constructor | core/crawler.py:17-23 | a new crawler starts with nothing visited and nothing discovered |
| Crawl.Crawler.ExtractLinks | core/crawler.py:34-58 | the anchor loop returns the links the anchors give, in document order |
| Crawl.Crawler.EnqueueAll | core/crawler.py:96-101 | the inner loop queues and records, at depth + 1, exactly the links that are new and within the depth bound |
| Crawl.Crawler.Visit | core/crawler.py:72-101 | one pass of the loop body is one `Frontier.Step` on the crawler's fields and queue |
| Crawl.Crawler.Crawl | core/crawler.py:60-103 | `crawl` runs the breadth-first loop from the normalised start URL recorded at depth 0; it only adds to `visited`, keeps within the page budget, and returns every visited URL exactly once |
| Frontier.EnqueueLinks | core/crawler.py:96-101 | the inner loop only appends to the queue; it never changes `visited` or an existing `discovered` entry |
| Frontier.Step | core/crawler.py:71-101 | one iteration pops one entry; `visited` gains at most the popped URL, and is unchanged only if nothing is queued; existing `discovered` entries are kept |
| Frontier.StepProgress | core/crawler.py:71-81 | each iteration either visits one new URL or only pops the queue |
| Frontier.StepLaw | core/crawler.py:72-101 | a popped entry already visited or too deep is dropped without a fetch; otherwise the URL is marked visited before the fetch, only new links from that page are queued at depth + 1 within the bound, and a fetch yielding nothing changes nothing else |
| Frontier.StartConsistent | core/crawler.py:65-69 | the start state queues the start URL once, recorded at depth 0 |
| Frontier.EnqueueLinksAppends | core/crawler.py:96-101 | every appended entry is a link of the page that was neither visited nor discovered, queued and recorded at depth + 1 within the bound; every newly discovered URL is among the appended entries |
| Frontier.EnqueueLinksComplete | core/crawler.py:96-101 | every link that is new and within the bound ends up discovered at depth + 1 |
| Frontier.EnqueueLinksConsistent | core/crawler.py:96-101 | the inner loop keeps the bookkeeping consistent: no URL is queued twice, and every queued or visited URL is discovered at its depth |
| Frontier.EnqueueLinksLevels | core/crawler.py:96-101 | entries appended at depth + 1 behind shallower ones keep the queue sorted by depth |
| Frontier.StepConsistent | core/crawler.py:71-101 | one iteration keeps the bookkeeping consistent |
| Frontier.StepLevels | core/crawler.py:71-101 | one iteration keeps the queue in breadth-first order: depths never decrease along the queue, and the queue spans at most two depths |
| Frontier.RunBudget | core/crawler.py:71 | a run never takes `visited` past `max_pages` (or past its size at the start) |
| Frontier.RunExtends | core/crawler.py:71-101 | a run stops only when the queue is empty or the budget is spent; it only adds to `visited` and to the queue log, and never changes a `discovered` entry |
| Frontier.RunConsistent | core/crawler.py:65-103 | a run keeps the bookkeeping consistent and the queue in breadth-first order |
| Frontier.RunDepths | core/crawler.py:74-101 | every queued entry has a depth between 1 and `max_depth`, and every newly visited URL was discovered at a depth within `max_depth` |
| Frontier.TwoChildren | core/crawler.py:60-103 | a start page linking to two leaf pages, with maximum depth 1, visits all three, recorded at depths 0, 1 and 1 |
| Frontier.ListOf | core/crawler.py:103 | `list(self.visited)` holds every visited URL exactly once |
| SpaCrawl.SpaNormalize | core/dynamic_crawler.py:34-40 | the result is a prefix of the URL with no trailing `/`, and everything removed is `/` |
| SpaCrawl.SpaNormalizeIdempotent | core/dynamic_crawler.py:34-40 | normalising twice equals normalising once |
| SpaCrawl.HrefToAbsolute | core/dynamic_crawler.py:42-61 | after stripping: a bare same-page anchor gives the empty string, and an href not starting with `#` is resolved with `urljoin` |
| SpaCrawl.RouteHref | core/dynamic_crawler.py:56-58 | a `#/` route keeps the current page up to its fragment and becomes the new fragment |
| SpaCrawl.AnchorLinkOf | core/dynamic_crawler.py:67-83 | a missing or empty href, or one starting with `javascript:` or `mailto:`, gives nothing; a link given is the normalised absolute form of the href, non-empty before normalisation, in the domain and without a trailing `/`; and any other href whose absolute form is non-empty and whose normalised form is in the domain does give a link |
| SpaCrawl.RouterLinkOf | core/dynamic_crawler.py:86-93 | an empty `routerlink` gives nothing; a link given is the normalised `urljoin` of the fragment-free current URL and the stripped path, and is in the domain; and a non-empty `routerlink` whose normalised link is in the domain does give a link |
| SpaCrawl.AnchorLinksMembers | core/dynamic_crawler.py:67-83 | the first loop's list holds exactly the links some anchor gives |
| SpaCrawl.RouterLinksMembers | core/dynamic_crawler.py:86-93 | the second loop's list holds exactly the links some `routerlink` gives |
| SpaCrawl.SpaLinksSpec | core/dynamic_crawler.py:63-96 | the page's links are strictly sorted without repeats, and are exactly the links some anchor or `routerlink` gives, each in the domain and without a trailing `/` |
| SpaCrawl.Expand | core/dynamic_crawler.py:117-125 | a failed render yields no links; otherwise the links are sorted |
| SpaCrawl.DynamicCrawler.constructor | core/dynamic_crawler.py:17-32 | a new crawler starts with nothing visited and nothing discovered |
| SpaCrawl.DynamicCrawler.CollectAnchorLinks | core/dynamic_crawler.py:67-83 | the anchor loop returns the anchors' links in document order |
| SpaCrawl.DynamicCrawler.CollectRouterLinks | core/dynamic_crawler.py:86-93 | the `routerlink` loop returns those links in document order |
| SpaCrawl.DynamicCrawler.ExtractLinks | core/dynamic_crawler.py:63-96 | `extract_links` returns the sorted, de-duplicated links of both loops |
| SpaCrawl.DynamicCrawler.EnqueueAll | core/dynamic_crawler.py:127-132 | the inner loop queues and records, at depth + 1, exactly the links that are new and within the depth bound |
| SpaCrawl.DynamicCrawler.Visit | core/dynamic_crawler.py:106-132 | one pass of the loop body is one `Frontier.Step` over rendered pages |
| SpaCrawl.DynamicCrawler.Crawl | core/dynamic_crawler.py:98-134 | `crawl` runs the breadth-first loop from the normalised start URL recorded at depth 0; it only adds to `visited`, keeps within the page budget, and returns every visited URL exactly once |
| DynamicXss.MutateQueryParam | scanners/dynamic_xss.py:45-55 | a URL without query pairs is returned unchanged |
| DynamicXss.MutatedPairs | scanners/dynamic_xss.py:45-55 | when urllib's query round trip holds, the mutated URL's query is exactly the pairs with `param` set to the payload, with the same parameter names |
| DynamicXss.QueryParamNames | scanners/dynamic_xss.py:57-59 | the names are strictly sorted and distinct and are exactly the query's keys; there are none iff the query is empty |
| DynamicXss.SpaGuess | scanners/dynamic_xss.py:61-77 | there is a guess iff the URL contains `#/search` |
| DynamicXss.SpaGuessOnlyFragment | scanners/dynamic_xss.py:69-77 | the guess keeps the part before the first `#`; its fragment gains `?q=payload`, or `&q=payload` when the fragment already has a `?` |
| DynamicXss.SpaGuessAppends | scanners/dynamic_xss.py:69-77 | the guess is the URL with `?q=payload` or `&q=payload` appended |
| DynamicXss.EscapeOne | scanners/dynamic_xss.py:88-94 | the escaping maps `&`, `<`, `>`, `"` and `'` to their entities and keeps every other character |
| DynamicXss.EscapeIsPerChar | scanners/dynamic_xss.py:88-94 | the chain of replacements, with `&` first, equals escaping each character on its own, so no entity is escaped twice |
| DynamicXss.EscapeRemovesSpecials | scanners/dynamic_xss.py:88-94 | the escaped payload holds no `<`, `>`, `"` or `'` |
| DynamicXss.EscapePlain | scanners/dynamic_xss.py:88-94 | a payload without special characters is its own escape |
| DynamicXss.LooksReflected | scanners/dynamic_xss.py:83-104 | a reflection is reported iff a reason is given |
| DynamicXss.ReflectionPriority | scanners/dynamic_xss.py:83-104 | a reflection is reported iff the raw or escaped payload occurs in the HTML or the visible text; the reason names the first match in the order raw in HTML, raw in text, escaped in HTML, escaped in text |
| DynamicXss.PlainPayloadReflection | scanners/dynamic_xss.py:83-104 | for a payload with nothing to escape, a reflection means a raw occurrence |
| DynamicXss.RenderAndCheck | scanners/dynamic_xss.py:110-130 | a failed navigation is an error for that URL; otherwise a non-empty reason is returned iff the rendered page shows the payload |
| DynamicXss.InjectAndCheck | scanners/dynamic_xss.py:191-245 | a failed navigation is an error; a field that cannot be filled gives nothing; otherwise a non-empty reason iff the submitted page shows the payload |
| DynamicXss.Locator | scanners/dynamic_xss.py:173-182 | a field is located by `#id` if it has an id, else by `[name='…']`, else by the selector that matched it, with the matching note |
| DynamicXss.Cap | scanners/dynamic_xss.py:184-185 | a prefix of the candidates: all of them when there are at most five, exactly the first five otherwise |
| DynamicXss.CandidatesSound | scanners/dynamic_xss.py:156-182 | every candidate is the locator of a visible, enabled field of a non-excluded type that one of the selectors matched |
| DynamicXss.CandidatesPrefix | scanners/dynamic_xss.py:156-185 | the targets of the first selectors are a prefix of the targets of all selectors |
| DynamicXss.InjectableFieldsSound | scanners/dynamic_xss.py:136-189 | a failed navigation is an error; otherwise there are at most five targets, each on the page asked for and each for a usable field a text selector matched |
| DynamicXss.QueryPhaseSound | scanners/dynamic_xss.py:254-269 | without query pairs, phase A finds nothing; it finds no more results than parameters, each rated HIGH, on a URL mutated with a payload, whose rendering shows that payload |
| DynamicXss.QueryPhaseOnePerParam | scanners/dynamic_xss.py:254-269 | when phase A completes, its findings come from strictly increasing positions in the sorted parameter list, each the first hit of the payload loop on its parameter, and every parameter whose loop hits has its finding |
| DynamicXss.QueryHitSound | scanners/dynamic_xss.py:256-269 | the first hit for a parameter is a sound query finding |
| DynamicXss.SpaPhaseSound | scanners/dynamic_xss.py:271-285 | without `#/search`, phase B neither navigates nor finds; a finding is on the guessed route of a payload whose rendering shows it |
| DynamicXss.SpaHitSound | scanners/dynamic_xss.py:271-285 | a route hit needs `#/search` and is a sound route finding |
| DynamicXss.FormPhaseSound | scanners/dynamic_xss.py:287-302 | phase C finds no more results than there are targets (at most five), each rated HIGH and on the scanned page, and each the hit of one of the page's injectable targets: a listed payload, typed into that field and submitted, whose submitted page shows it |
| DynamicXss.FormPhaseOnePerTarget | scanners/dynamic_xss.py:287-302 | when phase C completes, its findings come from strictly increasing positions in the target list, each the first hit of the payload loop on its target, and every target whose loop hits has its finding |
| DynamicXss.FormHitSound | scanners/dynamic_xss.py:290-302 | a field's first hit is rated HIGH and on the field's page, and comes from a listed payload that was typed into the field and submitted, and whose submitted page shows it |
| DynamicXss.ScanShape | scanners/dynamic_xss.py:251-304 | a completed scan returns the query findings, then the route finding if any, then the form findings, each part bounded as above and every finding rated HIGH |
| DynamicXss.ScanOnePerSurface | scanners/dynamic_xss.py:251-304 | in a completed scan, the query findings are one per parameter and the form findings one per target, as `QueryPhaseOnePerParam` and `FormPhaseOnePerTarget` state them |
| DynamicXss.DynamicXssScanner.constructor | scanners/dynamic_xss.py:31-39 | the scanner keeps its browser and the two DOM payloads |
| DynamicXss.DynamicXssScanner.TargetOf | scanners/dynamic_xss.py:158-182 | one field gives its locator iff it is visible, enabled and not of an excluded type |
| DynamicXss.DynamicXssScanner.AddSelectorTargets | scanners/dynamic_xss.py:156-185 | the inner loop either adds one selector's targets below the cap or stops with the first five candidates |
| DynamicXss.DynamicXssScanner.FindInjectableFields | scanners/dynamic_xss.py:136-189 | `_find_injectable_fields` returns the first five candidate targets, or the navigation error |
| DynamicXss.DynamicXssScanner.ProbeParam | scanners/dynamic_xss.py:257-269 | the payload loop for one parameter returns its first hit, or the error that ended it |
| DynamicXss.DynamicXssScanner.ProbeSpaRoute | scanners/dynamic_xss.py:271-285 | the route loop returns the first route hit, or the error that ended it |
| DynamicXss.DynamicXssScanner.ProbeTarget | scanners/dynamic_xss.py:291-302 | the payload loop for one field returns its first hit, or the error that ended it |
| DynamicXss.DynamicXssScanner.ScanQueryParams | scanners/dynamic_xss.py:254-269 | phase A gathers each parameter's first hit in sorted order; the first error ends it |
| DynamicXss.DynamicXssScanner.ScanTargets | scanners/dynamic_xss.py:289-302 | phase C gathers each target's first hit in order; the first error ends it |
| DynamicXss.DynamicXssScanner.ScanForms | scanners/dynamic_xss.py:287-302 | phase C over the injectable fields of the page |
| DynamicXss.DynamicXssScanner.Scan | scanners/dynamic_xss.py:251-304 | `scan` runs phases A, B and C in order and returns their findings, or the first navigation error |
| Wrappers.FirstSomeSpec | scanners/xss.py:51-79 | a loop that stops at its first hit finds nothing iff no entry is a hit; otherwise it finds an entry with only misses before it |
| Wrappers.FirstHitSpec | scanners/dynamic_xss.py:257-269 | with attempts that may raise, the loop ends in a miss iff every attempt misses; otherwise it ends on the first attempt that is a hit or an error |
| Wrappers.GatherSpec | scanners/dynamic_xss.py:254-269 | gathering succeeds iff no outcome is an error, and then holds exactly the hits |
| Strings.Strip | core/crawler.py:42 | `str.strip()`: the result is a contiguous slice of the input with only whitespace removed at either end, nothing left has whitespace at either end, and a string without whitespace at its ends is unchanged |
| Strings.RStripChar | core/dynamic_crawler.py:40 | `rstrip(c)` gives a prefix without a trailing `c`, and everything removed is `c` |
| Strings.SortedUnique | core/dynamic_crawler.py:96 | `sorted(set(xs))` is strictly sorted and holds exactly the members of `xs` |
| Strings.ContainsIffOccurs | scanners/xss.py:66 | Python's substring test holds iff the substring occurs at some position |
| Strings.AsciiLower | scanners/dynamic_xss.py:169 | lowercasing maps each character on its own and keeps the length |

## Left out

- Printing, the `wait_for_timeout` and `wait_until` pauses, and closing browser pages are not modelled. They affect no returned value.
- `main.py`, `core/http_client.py` and `core/js_renderer.py` are not part of this model. The HTTP client and the renderer are oracles, and a call that raises is `None`.
- urllib's `urljoin`, `parse_qsl` and `urlencode`/`urlunparse`, and BeautifulSoup's parsing, are uninterpreted functions. Only the round-trip law `QueryRoundTrips` is assumed, and only where a lemma states it as a precondition.
- urllib's `urljoin`, `urlparse`, `parse_qsl` and `urlencode`/`urlunparse` are assumed not to raise. In the source, a `ValueError` from them (for example on a malformed IPv6 host such as the href `//[x`) is caught nowhere. It escapes `_normalize_url`, `extract_links`, `same_domain`, `_change_url_with_payload` and `_mutate_query_param`, and ends the crawl or scan. The model has no such outcome.
- StaticXss.ChangedUrlPairs: holds only when urllib's query round trip holds, which urllib does not guarantee for every query (for example, `+` versus `%20`).
- DynamicXss.MutatedPairs: holds only when urllib's query round trip holds, for the same reason.
- Crawl.Normalize: models only the removal of the fragment, an empty one included. The other canonicalisations `urlunparse(urlparse(url))` performs, such as dropping an empty `?`, lowercasing the scheme or stripping surrounding whitespace, are left out.
- Strings.AsciiLower: lowercases ASCII letters only. Python's `str.lower()` also maps non-ASCII letters, such as the Kelvin sign to `k`, and the model does not.
- The browser calls `get_attribute`, `query_selector_all` and `page.content()` are oracles that do not raise. A failing `inner_text` gives the empty text, as the source's `except` does.
- `_inject_into_field_and_submit` is an oracle with three endings: navigation error, not filled, or submitted page. Its DOM interactions and their order are not modelled one by one. A field that never becomes visible, or a `fill` that fails, ends that attempt with no finding for that payload (the `NotFilled` outcome). A failing Enter press and a failing submit click are caught and ignored, so they do not change the outcome.
- StaticXss.ScanWithoutParams: states that there are no findings. It cannot state that no request is sent, because requests are pure oracles here.
- Frontier.Run: the shortest-depth property of breadth-first search is not proved. Level order of the queue and the depth bounds are proved instead.
- Crawl.Crawler.Crawl: integer widths are not an issue (Python integers are unbounded), and the order of `list(self.visited)` is left open, since Python's set order is unspecified.
