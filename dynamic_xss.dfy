/** scanners/dynamic_xss.py: the XSS probe for JavaScript-heavy sites. It looks for a payload,
    raw or HTML-escaped, in the rendered DOM and in the visible text, and probes three surfaces in
    turn: (A) query parameters, (B) a guessed `q` parameter on a `#/search` hash route and (C) up
    to five text fields, filled in and submitted. Navigation errors are not caught by the scanner:
    one ends the whole scan. */
module DynamicXss {
  import opened Wrappers
  import opened Strings
  import opened Collaborators
  import opened QueryParams
  import opened ScanBase

  const Payloads: seq<string> := ["XSS_TEST_1337<svg onload=alert(1337)>", "\"><svg onload=alert(1337)>"]

  const QueryVuln: string := "Potential XSS (DOM/Rendered Reflection)"
  const SpaVuln: string := "Potential XSS (SPA Route Param Reflection)"
  const FormVuln: string := "Potential XSS (Form/Input Reflection)"

  /** A text field to inject into: the page, a selector for the field, and how it was chosen. */
  datatype FormTarget = FormTarget(url: string, selector: string, note: string)

  /** A rendered page: its DOM HTML and the inner text of `body` (`None` when reading it raises). */
  datatype Page = Page(html: string, bodyText: Option<string>)

  /** What a page shows of an element matched by a field selector: `is_visible()` and
      `is_disabled()` (`None` when the call raises) and the `type`, `id` and `name` attributes. */
  datatype Field = Field(visible: Option<bool>, disabled: Option<bool>, typeAttr: Option<string>,
                         id: Option<string>, name: Option<string>)

  /** How an injection into a field ends: the navigation raised, the field never became visible
      or could not be filled (the source gives up with no reason), or the payload was submitted
      and the page is read back. */
  datatype Injection = NavigationError | NotFilled | Submitted(page: Page)

  /** The Playwright browser, as oracles. `load(url)` opens the page (`None` when `goto` raises);
      `fields(url)` opens it and answers `query_selector_all` for each selector; `inject` types a
      payload into a target, presses Enter and clicks a visible submit button. */
  datatype Browser = Browser(
    load: string -> Option<Page>,
    fields: string -> Option<string -> seq<Field>>,
    inject: (FormTarget, string) -> Injection)

  /** The exception that escapes `scan`: a navigation that failed. */
  datatype ScanError = NavigationFailed(url: string)

  // ---------------------------------------------------------------------------------------------
  // URL mutation
  // ---------------------------------------------------------------------------------------------

  /** `_mutate_query_param`: a URL without query pairs is returned as it is; otherwise the query
      is rebuilt from the pairs with every value of `param` replaced by `payload`. */
  function MutateQueryParam(lib: UrlLib, url: string, param: string, payload: string): (r: string)
    ensures lib.queryPairs(url) == [] ==> r == url
  {
    var params := lib.queryPairs(url);
    if params == [] then url else lib.withQuery(url, ReplaceParam(params, param, payload))
  }

  /** Under urllib's round trip the mutated URL carries the pairs of the original with `param`'s
      values replaced (count, keys and order kept), and so has the same parameters. */
  lemma MutatedPairs(lib: UrlLib, url: string, param: string, payload: string)
    requires QueryRoundTrips(lib)
    ensures lib.queryPairs(MutateQueryParam(lib, url, param, payload)) == ReplaceParam(lib.queryPairs(url), param, payload)
    ensures ParamNames(lib.queryPairs(MutateQueryParam(lib, url, param, payload))) == ParamNames(lib.queryPairs(url))
  {
    ParamNamesAfterReplace(lib.queryPairs(url), param, payload);
  }

  /** `_extract_query_params`: the distinct query keys in ascending order. */
  function QueryParamNames(lib: UrlLib, url: string): (r: seq<string>)
    ensures StrictlySorted(r) && Distinct(r)
    ensures forall k :: k in r <==> k in Keys(lib.queryPairs(url))
    ensures r == [] <==> lib.queryPairs(url) == []
  {
    ParamNamesEmpty(lib.queryPairs(url));
    ParamNames(lib.queryPairs(url))
  }

  /** A string containing `sub` contains every character of `sub`. */
  lemma ContainsChar(s: string, sub: string, i: nat)
    requires Contains(s, sub) && i < |sub|
    ensures sub[i] in s
  {
    ContainsIffOccurs(s, sub);
    var k :| 0 <= k <= |s| && sub <= s[k..];
    assert s[k..][i] == sub[i];
  }

  /** `_add_spa_search_param_guess`: nothing unless the URL contains `#/search`; otherwise the
      URL is split at its first `#` and `q` is added to the query inside the fragment, after `&`
      when the fragment already has a `?`. */
  function SpaGuess(url: string, payload: string): (r: Option<string>)
    ensures r.None? <==> !Contains(url, "#/search")
    ensures r.Some? ==> '#' in url
  {
    if !Contains(url, "#/search") then None
    else
      ContainsChar(url, "#/search", 0);
      var base := BeforeFirst(url, '#');
      var frag := AfterFirst(url, '#');
      Some(base + "#" + (frag + (if '?' in frag then "&" else "?") + "q=" + payload))
  }

  /** The guess changes only the fragment: the part before the first `#` is that of the URL, and
      the fragment gains `?q=payload`, or `&q=payload` when it already has a query. */
  lemma SpaGuessOnlyFragment(url: string, payload: string)
    requires Contains(url, "#/search")
    ensures var g := SpaGuess(url, payload).value;
      && '#' in g && BeforeFirst(g, '#') == BeforeFirst(url, '#')
      && AfterFirst(g, '#') == AfterFirst(url, '#') + (if '?' in AfterFirst(url, '#') then "&" else "?") + "q=" + payload
  {
    var g := SpaGuess(url, payload).value;
    var base := BeforeFirst(url, '#');
    var tail := AfterFirst(url, '#') + (if '?' in AfterFirst(url, '#') then "&" else "?") + "q=" + payload;
    assert g == base + ['#'] + tail;
    SplitAtFirst(base, tail, '#');
  }

  /** So the guess is the URL with `?q=payload` or `&q=payload` appended. */
  lemma SpaGuessAppends(url: string, payload: string)
    requires Contains(url, "#/search")
    ensures SpaGuess(url, payload).value == url + (if '?' in AfterFirst(url, '#') then "&" else "?") + "q=" + payload
  {
    var base := BeforeFirst(url, '#');
    var frag := AfterFirst(url, '#');
    var sep := if '?' in frag then "&" else "?";
    assert url == base + "#" + frag;
    JoinAssoc(base + "#", frag, sep, "q=", payload);
  }

  lemma JoinAssoc(a: string, b: string, c: string, d: string, e: string)
    ensures a + (b + c + d + e) == a + b + c + d + e
  {
  }

  // ---------------------------------------------------------------------------------------------
  // Reflection checks
  // ---------------------------------------------------------------------------------------------

  /** The entity table of the escape, in the order the replacements are applied. */
  const Entities: seq<(char, string)> :=
    [('&', "&amp;"), ('<', "&lt;"), ('>', "&gt;"), ('"', "&quot;"), ('\'', "&#x27;")]

  /** Chained `str.replace` calls, one per table entry, applied in table order. */
  function ReplaceAll(s: string, table: seq<(char, string)>): string
    decreases |table|
  {
    if table == [] then s else ReplaceAll(ReplaceChar(s, table[0].0, table[0].1), table[1..])
  }

  /** Chained replacements of single characters work character by character. */
  lemma {:induction false} ReplaceAllAppend(a: string, b: string, table: seq<(char, string)>)
    ensures ReplaceAll(a + b, table) == ReplaceAll(a, table) + ReplaceAll(b, table)
    decreases |table|
  {
    if table != [] {
      ReplaceCharAppend(a, b, table[0].0, table[0].1);
      ReplaceAllAppend(ReplaceChar(a, table[0].0, table[0].1), ReplaceChar(b, table[0].0, table[0].1), table[1..]);
    }
  }

  /** The basic HTML escape of `_looks_reflected`: `&` first, then `< > " '`. */
  function Escape(payload: string): string {
    ReplaceAll(payload, Entities)
  }

  /** The entity for one character, or the character itself. */
  function EscapeChar(c: char): string {
    match c
    case '&' => "&amp;"
    case '<' => "&lt;"
    case '>' => "&gt;"
    case '"' => "&quot;"
    case '\'' => "&#x27;"
    case _ => [c]
  }

  /** The escape as an independent per-character definition. */
  function EscapeEach(s: string): string {
    if s == [] then [] else EscapeEach(s[..|s| - 1]) + EscapeChar(s[|s| - 1])
  }

  lemma EscapeOne(c: char)
    ensures Escape([c]) == EscapeChar(c)
  {
    var s1 := ReplaceChar([c], '&', "&amp;");
    var s2 := ReplaceChar(s1, '<', "&lt;");
    var s3 := ReplaceChar(s2, '>', "&gt;");
    var s4 := ReplaceChar(s3, '"', "&quot;");
    var s5 := ReplaceChar(s4, '\'', "&#x27;");
    assert Escape([c]) == s5 by {
      assert Entities[1..][1..][1..][1..][1..] == [];
    }
    ReplaceCharOne(c, '&', "&amp;");
    EntitiesHaveNoSpecials();
    if c != '&' {
      ReplaceCharOne(c, '<', "&lt;");
      if c != '<' {
        ReplaceCharOne(c, '>', "&gt;");
        if c != '>' {
          ReplaceCharOne(c, '"', "&quot;");
          ReplaceCharOne(c, '\'', "&#x27;");
        }
      }
    }
  }

  /** No entity contains a character that a later replacement looks for. */
  lemma EntitiesHaveNoSpecials()
    ensures '<' !in "&amp;" && '>' !in "&amp;" && '"' !in "&amp;" && '\'' !in "&amp;"
    ensures '>' !in "&lt;" && '"' !in "&lt;" && '\'' !in "&lt;"
    ensures '"' !in "&gt;" && '\'' !in "&gt;"
    ensures '\'' !in "&quot;"
  {
  }

  lemma ReplaceCharOne(c: char, d: char, rep: string)
    ensures ReplaceChar([c], d, rep) == if c == d then rep else [c]
  {
    var x := if c == d then rep else [c];
    assert ReplaceChar([c], d, rep) == x + ReplaceChar([], d, rep);
    assert x + [] == x;
  }

  /** Because `&` is replaced first, every character is escaped exactly once: the entities that
      the later replacements introduce are never escaped again. */
  lemma {:induction false} EscapeIsPerChar(s: string)
    ensures Escape(s) == EscapeEach(s)
  {
    if s != [] {
      var init := s[..|s| - 1];
      var c := s[|s| - 1];
      assert s == init + [c];
      ReplaceAllAppend(init, [c], Entities);
      EscapeIsPerChar(init);
      EscapeOne(c);
    }
  }

  /** None of `< > " '` survives the escape. */
  lemma {:induction false} EscapeRemovesSpecials(s: string)
    ensures var e := Escape(s); '<' !in e && '>' !in e && '"' !in e && '\'' !in e
  {
    EscapeIsPerChar(s);
    EscapeEachNoSpecials(s);
  }

  lemma {:induction false} EscapeEachNoSpecials(s: string)
    ensures var e := EscapeEach(s); '<' !in e && '>' !in e && '"' !in e && '\'' !in e
  {
    if s != [] {
      var init := s[..|s| - 1];
      EscapeEachNoSpecials(init);
      EscapeCharNoSpecials(s[|s| - 1]);
      assert EscapeEach(s) == EscapeEach(init) + EscapeChar(s[|s| - 1]);
    }
  }

  lemma EscapeCharNoSpecials(c: char)
    ensures var e := EscapeChar(c); '<' !in e && '>' !in e && '"' !in e && '\'' !in e
  {
  }

  /** A payload with none of the five characters escapes to itself. */
  predicate Plain(s: string) {
    '&' !in s && '<' !in s && '>' !in s && '"' !in s && '\'' !in s
  }

  lemma {:induction false} EscapePlain(s: string)
    requires Plain(s)
    ensures Escape(s) == s
  {
    EscapeIsPerChar(s);
    EscapeEachPlain(s);
  }

  lemma {:induction false} EscapeEachPlain(s: string)
    requires Plain(s)
    ensures EscapeEach(s) == s
  {
    if s != [] {
      var init := s[..|s| - 1];
      assert forall c :: c in init ==> c in s;
      EscapeEachPlain(init);
      assert s == init + [s[|s| - 1]];
    }
  }

  const RawInHtml: string := "payload found in rendered DOM HTML"
  const RawInText: string := "payload found in visible text"
  const EscapedInHtml: string := "HTML-escaped payload found in rendered DOM HTML"
  const EscapedInText: string := "HTML-escaped payload found in visible text"

  /** `_looks_reflected`: whether the payload or its escaped form occurs in the rendered HTML or
      the visible text, and why. */
  function LooksReflected(html: string, text: string, payload: string): (r: (bool, string))
    ensures r.0 <==> r.1 != ""
  {
    var escaped := Escape(payload);
    if Contains(html, payload) then (true, RawInHtml)
    else if Contains(text, payload) then (true, RawInText)
    else if Contains(html, escaped) then (true, EscapedInHtml)
    else if Contains(text, escaped) then (true, EscapedInText)
    else (false, "")
  }

  /** The reason names the first surface, in the order raw in HTML, raw in text, escaped in
      HTML, escaped in text, on which the payload shows; both directions. */
  lemma ReflectionPriority(html: string, text: string, payload: string)
    ensures LooksReflected(html, text, payload).0 <==>
      Contains(html, payload) || Contains(text, payload) || Contains(html, Escape(payload)) || Contains(text, Escape(payload))
    ensures var why := LooksReflected(html, text, payload).1;
      && (why == RawInHtml <==> Contains(html, payload))
      && (why == RawInText <==> !Contains(html, payload) && Contains(text, payload))
      && (why == EscapedInHtml <==>
            !Contains(html, payload) && !Contains(text, payload) && Contains(html, Escape(payload)))
      && (why == EscapedInText <==>
            !Contains(html, payload) && !Contains(text, payload) && !Contains(html, Escape(payload))
            && Contains(text, Escape(payload)))
  {
    assert RawInHtml != RawInText && RawInHtml != EscapedInHtml && RawInHtml != EscapedInText;
    assert RawInText != EscapedInHtml && RawInText != EscapedInText && EscapedInHtml != EscapedInText;
  }

  /** For a payload with nothing to escape, only the raw checks matter. */
  lemma PlainPayloadReflection(html: string, text: string, payload: string)
    requires Plain(payload)
    ensures LooksReflected(html, text, payload).0 <==> Contains(html, payload) || Contains(text, payload)
  {
    EscapePlain(payload);
  }

  /** A page shows the payload: it loads and the reflection check is positive. */
  predicate ShowsPayload(page: Page, payload: string) {
    LooksReflected(page.html, page.bodyText.GetOr(""), payload).0
  }

  function Reason(page: Page, payload: string): string {
    LooksReflected(page.html, page.bodyText.GetOr(""), payload).1
  }

  /** `_render_and_check`: a failed navigation raises; otherwise the reason when the rendered
      page shows the payload, and nothing when it does not. */
  function RenderAndCheck(browser: Browser, testUrl: string, payload: string): (r: Outcome<string, ScanError>)
    ensures r.Failure? <==> browser.load(testUrl).None?
    ensures r.Failure? ==> r.error == NavigationFailed(testUrl)
    ensures r.Success? ==> (r.value.Some? <==> ShowsPayload(browser.load(testUrl).value, payload))
    ensures r.Success? && r.value.Some? ==> r.value.value != ""
  {
    match browser.load(testUrl)
    case None => Failure(NavigationFailed(testUrl))
    case Some(page) =>
      var (ok, why) := LooksReflected(page.html, page.bodyText.GetOr(""), payload);
      Success(if ok then Some(why) else None)
  }

  /** `_inject_into_field_and_submit`, with the browser interaction as an oracle: a failed
      navigation raises, a field that cannot be filled gives nothing, and a submitted page is
      checked like a rendered one. */
  function InjectAndCheck(browser: Browser, target: FormTarget, payload: string): (r: Outcome<string, ScanError>)
    ensures r.Failure? <==> browser.inject(target, payload).NavigationError?
    ensures r.Failure? ==> r.error == NavigationFailed(target.url)
    ensures r.Success? ==> (r.value.Some? <==>
      browser.inject(target, payload).Submitted? && ShowsPayload(browser.inject(target, payload).page, payload))
    ensures r.Success? && r.value.Some? ==> r.value.value != ""
  {
    match browser.inject(target, payload)
    case NavigationError => Failure(NavigationFailed(target.url))
    case NotFilled => Success(None)
    case Submitted(page) =>
      var (ok, why) := LooksReflected(page.html, page.bodyText.GetOr(""), payload);
      Success(if ok then Some(why) else None)
  }

  // ---------------------------------------------------------------------------------------------
  // Field selection
  // ---------------------------------------------------------------------------------------------

  const TextSelectors: seq<string> := ["input[type='text']", "input[type='search']", "input:not([type])", "textarea"]

  const ExcludedTypes: set<string> := {"password", "hidden", "checkbox", "radio", "file"}

  const MaxTargets: nat := 5

  /** Python truthiness of an optional attribute value. */
  predicate Truthy(s: Option<string>) {
    s.Some? && s.value != ""
  }

  /** A field worth testing: visible, enabled (both calls answered) and not of an excluded type. */
  predicate Usable(f: Field) {
    f.visible == Some(true) && f.disabled == Some(false) && AsciiLower(f.typeAttr.GetOr("")) !in ExcludedTypes
  }

  /** The target for a usable field: by id if it has one, else by name, else by the selector
      that matched it. */
  function Locator(url: string, sel: string, f: Field): (t: FormTarget)
    ensures t.url == url
    ensures Truthy(f.id) ==> t.selector == "#" + f.id.value && t.note == "field by id"
    ensures !Truthy(f.id) && Truthy(f.name) ==> t.selector == "[name='" + f.name.value + "']" && t.note == "field by name"
    ensures !Truthy(f.id) && !Truthy(f.name) ==> t.selector == sel && t.note == "field by generic selector"
  {
    if Truthy(f.id) then FormTarget(url, "#" + f.id.value, "field by id")
    else if Truthy(f.name) then FormTarget(url, "[name='" + f.name.value + "']", "field by name")
    else FormTarget(url, sel, "field by generic selector")
  }

  function FieldTarget(url: string, sel: string, f: Field): Option<FormTarget> {
    if Usable(f) then Some(Locator(url, sel, f)) else None
  }

  function FieldTargetEach(url: string, sel: string, fields: seq<Field>): (r: seq<Option<FormTarget>>)
    ensures |r| == |fields|
    ensures forall i :: 0 <= i < |fields| ==> r[i] == FieldTarget(url, sel, fields[i])
  {
    seq(|fields|, i requires 0 <= i < |fields| => FieldTarget(url, sel, fields[i]))
  }

  /** Every target the selectors yield, in selector order then page order, before the cap. */
  function Candidates(url: string, query: string -> seq<Field>, sels: seq<string>): seq<FormTarget> {
    if sels == [] then []
    else
      var last := sels[|sels| - 1];
      Candidates(url, query, sels[..|sels| - 1]) + Somes(FieldTargetEach(url, last, query(last)))
  }

  /** What `_find_injectable_fields` returns: the first five candidates, or the navigation error. */
  function InjectableFields(browser: Browser, url: string): Result<seq<FormTarget>, ScanError> {
    match browser.fields(url)
    case None => Failure(NavigationFailed(url))
    case Some(query) =>
      Success(Cap(Candidates(url, query, TextSelectors)))
  }

  /** The first five. */
  function Cap(targets: seq<FormTarget>): (r: seq<FormTarget>)
    ensures |r| <= MaxTargets && r <= targets
    ensures |targets| <= MaxTargets ==> r == targets
    ensures |targets| > MaxTargets ==> |r| == MaxTargets
  {
    if |targets| <= MaxTargets then targets else targets[..MaxTargets]
  }

  lemma {:induction false} CandidatesSound(url: string, query: string -> seq<Field>, sels: seq<string>)
    ensures forall t :: t in Candidates(url, query, sels) ==>
      exists sel, f :: sel in sels && f in query(sel) && Usable(f) && t == Locator(url, sel, f)
  {
    if sels != [] {
      var init := sels[..|sels| - 1];
      var last := sels[|sels| - 1];
      CandidatesSound(url, query, init);
      var each := FieldTargetEach(url, last, query(last));
      SomesMembers(each);
      forall t | t in Candidates(url, query, sels)
        ensures exists sel, f :: sel in sels && f in query(sel) && Usable(f) && t == Locator(url, sel, f)
      {
        if t in Candidates(url, query, init) {
          var sel, f :| sel in init && f in query(sel) && Usable(f) && t == Locator(url, sel, f);
          assert sel in sels;
        } else {
          assert Some(t) in each;
          var i :| 0 <= i < |each| && each[i] == Some(t);
          assert last in sels && query(last)[i] in query(last);
        }
      }
    }
  }

  /** At most five targets, each on the page asked for and each for a usable field located by
      the id > name > selector rule. */
  lemma InjectableFieldsSound(browser: Browser, url: string)
    ensures var r := InjectableFields(browser, url);
      && (r.Failure? <==> browser.fields(url).None?)
      && (r.Success? ==> |r.value| <= MaxTargets)
      && (r.Success? ==> forall t :: t in r.value ==> t.url == url && FromUsableField(url, browser.fields(url).value, t))
  {
    if browser.fields(url).Some? {
      var query := browser.fields(url).value;
      var all := Candidates(url, query, TextSelectors);
      CandidatesSound(url, query, TextSelectors);
      assert forall t :: t in Cap(all) ==> t in all by {
        assert Cap(all) == all[..|Cap(all)|];
      }
    }
  }

  /** A target located on a usable field that one of the text selectors matched. */
  ghost predicate FromUsableField(url: string, query: string -> seq<Field>, t: FormTarget) {
    exists sel, f :: sel in TextSelectors && f in query(sel) && Usable(f) && t == Locator(url, sel, f)
  }

  lemma {:induction false} CandidatesPrefix(url: string, query: string -> seq<Field>, sels: seq<string>, k: nat)
    requires k <= |sels|
    ensures Candidates(url, query, sels[..k]) <= Candidates(url, query, sels)
    decreases |sels|
  {
    if k < |sels| {
      var init := sels[..|sels| - 1];
      assert init[..k] == sels[..k];
      CandidatesPrefix(url, query, init, k);
    } else {
      assert sels[..k] == sels;
    }
  }

  lemma SomesPrefix<T>(xs: seq<Option<T>>, j: nat)
    requires j <= |xs|
    ensures Somes(xs[..j]) <= Somes(xs)
  {
    assert xs == xs[..j] + xs[j..];
    SomesAppend(xs[..j], xs[j..]);
  }

  // ---------------------------------------------------------------------------------------------
  // The scan
  // ---------------------------------------------------------------------------------------------

  /** (A) One payload on one query parameter. */
  function QueryAttempt(browser: Browser, lib: UrlLib, url: string, p: string, payload: string): Outcome<ScanResult, ScanError> {
    var testUrl := MutateQueryParam(lib, url, p, payload);
    match RenderAndCheck(browser, testUrl, payload)
    case Failure(e) => Failure(e)
    case Success(None) => Success(None)
    case Success(Some(why)) => Success(Some(ScanResult(testUrl, QueryVuln, "HIGH", "Query param '" + p + "' reflected: " + why)))
  }

  function QueryAttempts(browser: Browser, lib: UrlLib, url: string, p: string, payloads: seq<string>)
    : (r: seq<Outcome<ScanResult, ScanError>>)
    ensures |r| == |payloads|
    ensures forall i :: 0 <= i < |payloads| ==> r[i] == QueryAttempt(browser, lib, url, p, payloads[i])
  {
    seq(|payloads|, i requires 0 <= i < |payloads| => QueryAttempt(browser, lib, url, p, payloads[i]))
  }

  /** The outcome of each parameter: its first hit, or the error that ended its probing. */
  function QueryOutcomes(browser: Browser, lib: UrlLib, url: string, params: seq<string>, payloads: seq<string>)
    : (r: seq<Outcome<ScanResult, ScanError>>)
    ensures |r| == |params|
    ensures forall i :: 0 <= i < |params| ==> r[i] == FirstHit(QueryAttempts(browser, lib, url, params[i], payloads))
  {
    seq(|params|, i requires 0 <= i < |params| => FirstHit(QueryAttempts(browser, lib, url, params[i], payloads)))
  }

  function QueryPhase(browser: Browser, lib: UrlLib, url: string, payloads: seq<string>): Result<seq<ScanResult>, ScanError> {
    Gather(QueryOutcomes(browser, lib, url, QueryParamNames(lib, url), payloads))
  }

  /** (B) One payload on the guessed `#/search` route. */
  function SpaAttempt(browser: Browser, url: string, payload: string): Outcome<ScanResult, ScanError> {
    match SpaGuess(url, payload)
    case None => Success(None)
    case Some(guessed) =>
      match RenderAndCheck(browser, guessed, payload)
      case Failure(e) => Failure(e)
      case Success(None) => Success(None)
      case Success(Some(why)) =>
        Success(Some(ScanResult(guessed, SpaVuln, "HIGH", "Guessed SPA param 'q' reflected on #/search: " + why)))
  }

  function SpaAttempts(browser: Browser, url: string, payloads: seq<string>): (r: seq<Outcome<ScanResult, ScanError>>)
    ensures |r| == |payloads|
    ensures forall i :: 0 <= i < |payloads| ==> r[i] == SpaAttempt(browser, url, payloads[i])
  {
    seq(|payloads|, i requires 0 <= i < |payloads| => SpaAttempt(browser, url, payloads[i]))
  }

  function SpaPhase(browser: Browser, url: string, payloads: seq<string>): Outcome<ScanResult, ScanError> {
    FirstHit(SpaAttempts(browser, url, payloads))
  }

  /** (C) One payload on one field. */
  function FormAttempt(browser: Browser, t: FormTarget, payload: string): Outcome<ScanResult, ScanError> {
    match InjectAndCheck(browser, t, payload)
    case Failure(e) => Failure(e)
    case Success(None) => Success(None)
    case Success(Some(why)) =>
      Success(Some(ScanResult(t.url, FormVuln, "HIGH", "Injected into " + t.selector + " (" + t.note + ") and saw reflection: " + why)))
  }

  function FormAttempts(browser: Browser, t: FormTarget, payloads: seq<string>): (r: seq<Outcome<ScanResult, ScanError>>)
    ensures |r| == |payloads|
    ensures forall i :: 0 <= i < |payloads| ==> r[i] == FormAttempt(browser, t, payloads[i])
  {
    seq(|payloads|, i requires 0 <= i < |payloads| => FormAttempt(browser, t, payloads[i]))
  }

  function FormOutcomes(browser: Browser, targets: seq<FormTarget>, payloads: seq<string>)
    : (r: seq<Outcome<ScanResult, ScanError>>)
    ensures |r| == |targets|
    ensures forall i :: 0 <= i < |targets| ==> r[i] == FirstHit(FormAttempts(browser, targets[i], payloads))
  {
    seq(|targets|, i requires 0 <= i < |targets| => FirstHit(FormAttempts(browser, targets[i], payloads)))
  }

  function FormPhase(browser: Browser, url: string, payloads: seq<string>): Result<seq<ScanResult>, ScanError> {
    match InjectableFields(browser, url)
    case Failure(e) => Failure(e)
    case Success(targets) => Gather(FormOutcomes(browser, targets, payloads))
  }

  /** What `scan` returns: the three phases in order, the first navigation error ending it. */
  function ScanSpec(browser: Browser, lib: UrlLib, url: string, payloads: seq<string>): Result<seq<ScanResult>, ScanError> {
    match QueryPhase(browser, lib, url, payloads)
    case Failure(e) => Failure(e)
    case Success(queryHits) =>
      match SpaPhase(browser, url, payloads)
      case Failure(e) => Failure(e)
      case Success(spaHit) =>
        match FormPhase(browser, url, payloads)
        case Failure(e) => Failure(e)
        case Success(formHits) =>
          if spaHit.Some? then Success(queryHits + [spaHit.value] + formHits)
          else Success(queryHits + formHits)
  }

  /** A query finding: rated HIGH, for a parameter of the URL and a payload, on the mutated URL,
      whose rendering shows the payload. */
  ghost predicate QuerySound(browser: Browser, lib: UrlLib, url: string, payloads: seq<string>, f: ScanResult) {
    && f.severity == "HIGH" && f.vulnName == QueryVuln
    && exists p, payload ::
         && p in QueryParamNames(lib, url) && payload in payloads
         && f.url == MutateQueryParam(lib, url, p, payload)
         && browser.load(f.url).Some? && ShowsPayload(browser.load(f.url).value, payload)
  }

  /** A route finding: rated HIGH, on the guess for a payload, whose rendering shows it. */
  ghost predicate SpaSound(browser: Browser, url: string, payloads: seq<string>, f: ScanResult) {
    && f.severity == "HIGH" && f.vulnName == SpaVuln
    && exists payload ::
         && payload in payloads && SpaGuess(url, payload) == Some(f.url)
         && browser.load(f.url).Some? && ShowsPayload(browser.load(f.url).value, payload)
  }

  /** A form finding for target `t`: rated HIGH, on the target's page, for a payload that was
      typed into the field and submitted, and whose submitted page shows it. */
  ghost predicate FormHit(browser: Browser, t: FormTarget, payloads: seq<string>, f: ScanResult) {
    && f.severity == "HIGH" && f.vulnName == FormVuln && f.url == t.url
    && exists payload ::
         && payload in payloads && browser.inject(t, payload).Submitted?
         && ShowsPayload(browser.inject(t, payload).page, payload)
  }

  /** A form finding of the scan: the hit of one of the injectable targets found on `url`. */
  ghost predicate FormSound(browser: Browser, url: string, payloads: seq<string>, f: ScanResult) {
    && InjectableFields(browser, url).Success?
    && exists t :: t in InjectableFields(browser, url).value && FormHit(browser, t, payloads, f)
  }

  /** The query findings come, in order, from strictly increasing positions of the (distinct)
      sorted parameters, each the first hit of its parameter, and every parameter with a hit
      contributes: one finding per parameter. */
  ghost predicate OnePerParam(browser: Browser, lib: UrlLib, url: string, payloads: seq<string>, hits: seq<ScanResult>) {
    exists ks :: ParamIndices(browser, lib, url, payloads, hits, ks)
  }

  /** `ks` lists, in increasing order, the positions of the parameters whose payload loop hits,
      and the i-th query finding is that parameter's. */
  ghost predicate ParamIndices(browser: Browser, lib: UrlLib, url: string, payloads: seq<string>,
                               hits: seq<ScanResult>, ks: seq<nat>)
  {
    var params := QueryParamNames(lib, url);
    && |ks| == |hits|
    && (forall i, j :: 0 <= i < j < |ks| ==> ks[i] < ks[j])
    && (forall i :: 0 <= i < |ks| ==>
          ks[i] < |params| && FirstHit(QueryAttempts(browser, lib, url, params[ks[i]], payloads)) == Success(Some(hits[i])))
    && (forall k :: 0 <= k < |params| && !Miss(FirstHit(QueryAttempts(browser, lib, url, params[k], payloads))) ==> k in ks)
  }

  /** The form findings come, in order, from strictly increasing positions of the injectable
      targets, each the first hit of its target, and every target with a hit contributes: one
      finding per target. */
  ghost predicate OnePerTarget(browser: Browser, targets: seq<FormTarget>, payloads: seq<string>, hits: seq<ScanResult>) {
    exists ks :: TargetIndices(browser, targets, payloads, hits, ks)
  }

  /** `ks` lists, in increasing order, the positions of the targets whose payload loop hits,
      and the i-th form finding is that target's. */
  ghost predicate TargetIndices(browser: Browser, targets: seq<FormTarget>, payloads: seq<string>,
                                hits: seq<ScanResult>, ks: seq<nat>)
  {
    && |ks| == |hits|
    && (forall i, j :: 0 <= i < j < |ks| ==> ks[i] < ks[j])
    && (forall i :: 0 <= i < |ks| ==>
          ks[i] < |targets| && FirstHit(FormAttempts(browser, targets[ks[i]], payloads)) == Success(Some(hits[i])))
    && (forall k :: 0 <= k < |targets| && !Miss(FirstHit(FormAttempts(browser, targets[k], payloads))) ==> k in ks)
  }

  lemma QueryPhaseOnePerParam(browser: Browser, lib: UrlLib, url: string, payloads: seq<string>)
    ensures var r := QueryPhase(browser, lib, url, payloads);
      r.Success? ==> OnePerParam(browser, lib, url, payloads, r.value)
  {
    var params := QueryParamNames(lib, url);
    var outcomes := QueryOutcomes(browser, lib, url, params, payloads);
    if Gather(outcomes).Success? {
      var hits := Gather(outcomes).value;
      var ks := HitIndices(outcomes);
      forall i | 0 <= i < |ks|
        ensures ks[i] < |params| && FirstHit(QueryAttempts(browser, lib, url, params[ks[i]], payloads)) == Success(Some(hits[i]))
      {
        assert outcomes[ks[i]] == FirstHit(QueryAttempts(browser, lib, url, params[ks[i]], payloads));
      }
      forall k | 0 <= k < |params| && !Miss(FirstHit(QueryAttempts(browser, lib, url, params[k], payloads)))
        ensures k in ks
      {
        assert outcomes[k] == FirstHit(QueryAttempts(browser, lib, url, params[k], payloads));
      }
      assert ParamIndices(browser, lib, url, payloads, hits, ks);
    }
  }

  lemma FormPhaseOnePerTarget(browser: Browser, url: string, payloads: seq<string>)
    ensures var r := FormPhase(browser, url, payloads);
      r.Success? ==> && InjectableFields(browser, url).Success?
                     && OnePerTarget(browser, InjectableFields(browser, url).value, payloads, r.value)
  {
    var fields := InjectableFields(browser, url);
    if fields.Success? {
      var targets := fields.value;
      var outcomes := FormOutcomes(browser, targets, payloads);
      if Gather(outcomes).Success? {
        var hits := Gather(outcomes).value;
        var ks := HitIndices(outcomes);
        forall i | 0 <= i < |ks|
          ensures ks[i] < |targets| && FirstHit(FormAttempts(browser, targets[ks[i]], payloads)) == Success(Some(hits[i]))
        {
          assert outcomes[ks[i]] == FirstHit(FormAttempts(browser, targets[ks[i]], payloads));
        }
        forall k | 0 <= k < |targets| && !Miss(FirstHit(FormAttempts(browser, targets[k], payloads)))
          ensures k in ks
        {
          assert outcomes[k] == FirstHit(FormAttempts(browser, targets[k], payloads));
        }
        assert TargetIndices(browser, targets, payloads, hits, ks);
      }
    }
  }

  /** A query finding is for a parameter of the URL, on the mutated URL, whose rendering shows
      one of the payloads; there are no more than there are parameters, and none without them. */
  lemma QueryPhaseSound(browser: Browser, lib: UrlLib, url: string, payloads: seq<string>)
    ensures var r := QueryPhase(browser, lib, url, payloads);
      && (lib.queryPairs(url) == [] ==> r == Success([]))
      && (r.Success? ==> |r.value| <= |QueryParamNames(lib, url)|)
      && (r.Success? ==> forall f :: f in r.value ==> QuerySound(browser, lib, url, payloads, f))
  {
    var params := QueryParamNames(lib, url);
    var outcomes := QueryOutcomes(browser, lib, url, params, payloads);
    var r := Gather(outcomes);
    if r.Success? {
      GatherSpec(outcomes);
      forall f | f in r.value
        ensures QuerySound(browser, lib, url, payloads, f)
      {
        var k :| 0 <= k < |outcomes| && outcomes[k] == Success(Some(f));
        QueryHitSound(browser, lib, url, payloads, params[k], f);
      }
    }
  }

  lemma QueryHitSound(browser: Browser, lib: UrlLib, url: string, payloads: seq<string>, p: string, f: ScanResult)
    requires p in QueryParamNames(lib, url)
    requires FirstHit(QueryAttempts(browser, lib, url, p, payloads)) == Success(Some(f))
    ensures QuerySound(browser, lib, url, payloads, f)
  {
    var attempts := QueryAttempts(browser, lib, url, p, payloads);
    FirstHitSpec(attempts);
    var i :| 0 <= i < |attempts| && attempts[i] == Success(Some(f));
    var payload := payloads[i];
    var testUrl := MutateQueryParam(lib, url, p, payload);
    assert QueryAttempt(browser, lib, url, p, payload) == Success(Some(f));
    assert RenderAndCheck(browser, testUrl, payload).Success? && RenderAndCheck(browser, testUrl, payload).value.Some?;
    assert f.url == testUrl && payload in payloads;
  }

  /** A route finding needs a `#/search` URL and is for a guessed route that shows a payload;
      without `#/search` there is neither a finding nor a navigation. */
  lemma SpaPhaseSound(browser: Browser, url: string, payloads: seq<string>)
    ensures var r := SpaPhase(browser, url, payloads);
      && (!Contains(url, "#/search") ==> r == Success(None))
      && (r.Success? && r.value.Some? ==> Contains(url, "#/search") && SpaSound(browser, url, payloads, r.value.value))
  {
    var attempts := SpaAttempts(browser, url, payloads);
    FirstHitSpec(attempts);
    var r := FirstHit(attempts);
    if !Miss(r) {
      var i :| 0 <= i < |attempts| && attempts[i] == r;
      if r.Success? {
        SpaHitSound(browser, url, payloads, payloads[i], r.value.value);
      }
    }
  }

  lemma SpaHitSound(browser: Browser, url: string, payloads: seq<string>, payload: string, f: ScanResult)
    requires payload in payloads && SpaAttempt(browser, url, payload) == Success(Some(f))
    ensures Contains(url, "#/search") && SpaSound(browser, url, payloads, f)
  {
    var guessed := SpaGuess(url, payload).value;
    assert RenderAndCheck(browser, guessed, payload).Success? && RenderAndCheck(browser, guessed, payload).value.Some?;
    assert f.url == guessed;
  }

  /** No more form findings than targets, so at most five, each on the scanned page and each
      the hit of an injectable target: a listed payload whose submitted page shows it. */
  lemma FormPhaseSound(browser: Browser, url: string, payloads: seq<string>)
    ensures var r := FormPhase(browser, url, payloads);
      && (r.Success? ==> |r.value| <= MaxTargets)
      && (r.Success? ==> forall f :: f in r.value ==> f.severity == "HIGH" && f.vulnName == FormVuln && f.url == url)
      && (r.Success? ==> forall f :: f in r.value ==> FormSound(browser, url, payloads, f))
  {
    InjectableFieldsSound(browser, url);
    var fields := InjectableFields(browser, url);
    if fields.Success? {
      var outcomes := FormOutcomes(browser, fields.value, payloads);
      var r := Gather(outcomes);
      if r.Success? {
        GatherSpec(outcomes);
        forall f | f in r.value
          ensures f.severity == "HIGH" && f.vulnName == FormVuln && f.url == url
          ensures FormSound(browser, url, payloads, f)
        {
          var k :| 0 <= k < |outcomes| && outcomes[k] == Success(Some(f));
          var t := fields.value[k];
          assert t in fields.value;
          FormHitSound(browser, t, payloads, f);
        }
      }
    }
  }

  /** The first hit on a target is a sound form finding for it. */
  lemma FormHitSound(browser: Browser, t: FormTarget, payloads: seq<string>, f: ScanResult)
    requires FirstHit(FormAttempts(browser, t, payloads)) == Success(Some(f))
    ensures f.severity == "HIGH" && f.vulnName == FormVuln && f.url == t.url
    ensures FormHit(browser, t, payloads, f)
  {
    var attempts := FormAttempts(browser, t, payloads);
    FirstHitSpec(attempts);
    var i :| 0 <= i < |attempts| && attempts[i] == Success(Some(f));
    var payload := payloads[i];
    assert FormAttempt(browser, t, payload) == Success(Some(f));
    assert InjectAndCheck(browser, t, payload).Success? && InjectAndCheck(browser, t, payload).value.Some?;
  }

  /** The scan's findings come in the order query, route, forms, each part as bounded above,
      and every one of them is rated HIGH. */
  lemma ScanShape(browser: Browser, lib: UrlLib, url: string, payloads: seq<string>)
    ensures var r := ScanSpec(browser, lib, url, payloads);
      r.Success? ==>
        && QueryPhase(browser, lib, url, payloads).Success?
        && SpaPhase(browser, url, payloads).Success?
        && FormPhase(browser, url, payloads).Success?
        && var q := QueryPhase(browser, lib, url, payloads).value;
           var s := SpaPhase(browser, url, payloads).value;
           var f := FormPhase(browser, url, payloads).value;
           && r.value == (if s.Some? then q + [s.value] + f else q + f)
           && |q| <= |QueryParamNames(lib, url)| && |f| <= MaxTargets
           && forall x :: x in r.value ==> x.severity == "HIGH"
  {
    ScanParts(browser, lib, url, payloads);
    if ScanSpec(browser, lib, url, payloads).Success? {
      var q := QueryPhase(browser, lib, url, payloads).value;
      var s := SpaPhase(browser, url, payloads).value;
      var f := FormPhase(browser, url, payloads).value;
      QueryPhaseSound(browser, lib, url, payloads);
      SpaPhaseSound(browser, url, payloads);
      FormPhaseSound(browser, url, payloads);
      assert forall x :: x in q ==> x.severity == "HIGH" by {
        forall x | x in q ensures x.severity == "HIGH" {
          assert QuerySound(browser, lib, url, payloads, x);
        }
      }
      AllHigh(q, s, f);
    }
  }

  /** In a completed scan, the query part holds one finding per parameter with a hit and the
      form part one finding per injectable target with a hit. */
  lemma ScanOnePerSurface(browser: Browser, lib: UrlLib, url: string, payloads: seq<string>)
    ensures var r := ScanSpec(browser, lib, url, payloads);
      r.Success? ==>
        && QueryPhase(browser, lib, url, payloads).Success?
        && FormPhase(browser, url, payloads).Success?
        && InjectableFields(browser, url).Success?
        && OnePerParam(browser, lib, url, payloads, QueryPhase(browser, lib, url, payloads).value)
        && OnePerTarget(browser, InjectableFields(browser, url).value, payloads, FormPhase(browser, url, payloads).value)
  {
    ScanParts(browser, lib, url, payloads);
    QueryPhaseOnePerParam(browser, lib, url, payloads);
    FormPhaseOnePerTarget(browser, url, payloads);
  }

  /** A completed scan is its three phases, each completed, joined in order. */
  lemma ScanParts(browser: Browser, lib: UrlLib, url: string, payloads: seq<string>)
    ensures var r := ScanSpec(browser, lib, url, payloads);
      r.Success? ==>
        && QueryPhase(browser, lib, url, payloads).Success?
        && SpaPhase(browser, url, payloads).Success?
        && FormPhase(browser, url, payloads).Success?
        && var q := QueryPhase(browser, lib, url, payloads).value;
           var s := SpaPhase(browser, url, payloads).value;
           var f := FormPhase(browser, url, payloads).value;
           r.value == (if s.Some? then q + [s.value] + f else q + f)
  {
  }

  lemma AllHigh(q: seq<ScanResult>, s: Option<ScanResult>, f: seq<ScanResult>)
    requires forall x :: x in q ==> x.severity == "HIGH"
    requires forall x :: x in f ==> x.severity == "HIGH"
    requires s.Some? ==> s.value.severity == "HIGH"
    ensures forall x :: x in (if s.Some? then q + [s.value] + f else q + f) ==> x.severity == "HIGH"
  {
  }

  class DynamicXssScanner {
    const browser: Browser
    const payloads: seq<string>

    constructor (browser: Browser)
      ensures this.browser == browser && payloads == Payloads
    {
      this.browser := browser;
      payloads := Payloads;
    }

    /** The body of the inner loop of `_find_injectable_fields` for one matched field: hidden,
        disabled or excluded fields are skipped, otherwise the field is located by id, name or
        the selector that matched it. */
    method TargetOf(url: string, sel: string, h: Field) returns (target: Option<FormTarget>)
      ensures target == FieldTarget(url, sel, h)
    {
      if h.visible != Some(true) || h.disabled != Some(false) {
        return None;
      }
      var t := AsciiLower(h.typeAttr.GetOr(""));
      if t in ExcludedTypes {
        return None;
      }
      var fieldId := h.id;
      var fieldName := h.name;
      if fieldId.Some? && fieldId.value != "" {
        target := Some(FormTarget(url, "#" + fieldId.value, "field by id"));
      } else if fieldName.Some? && fieldName.value != "" {
        target := Some(FormTarget(url, "[name='" + fieldName.value + "']", "field by name"));
      } else {
        target := Some(FormTarget(url, sel, "field by generic selector"));
      }
    }

    /** `_find_injectable_fields`: the selectors in order, the matching fields in page order, a
        target for each usable one, and a return as soon as there are five. */
    method FindInjectableFields(url: string) returns (r: Result<seq<FormTarget>, ScanError>)
      ensures r == InjectableFields(browser, url)
    {
      var loaded := browser.fields(url);
      if loaded.None? {
        return Failure(NavigationFailed(url));
      }
      var query := loaded.value;
      var selectors := TextSelectors;
      var targets: seq<FormTarget> := [];
      for i := 0 to |selectors|
        invariant targets == Candidates(url, query, selectors[..i])
        invariant |targets| < MaxTargets
      {
        var full;
        targets, full := AddSelectorTargets(url, query, selectors, i, targets);
        if full {
          return Success(targets);
        }
      }
      assert selectors[..|selectors|] == selectors;
      return Success(targets);
    }

    /** One pass of the outer loop of `_find_injectable_fields`: the fields the `i`-th selector
        matches, in page order, until the fifth target ends the whole search. */
    method AddSelectorTargets(url: string, query: string -> seq<Field>, sels: seq<string>, i: nat, targets: seq<FormTarget>)
      returns (targets': seq<FormTarget>, full: bool)
      requires i < |sels| && targets == Candidates(url, query, sels[..i]) && |targets| < MaxTargets
      ensures full ==> targets' == Cap(Candidates(url, query, sels))
      ensures !full ==> targets' == Candidates(url, query, sels[..i + 1]) && |targets'| < MaxTargets
    {
      var sel := sels[i];
      var handles := query(sel);
      ghost var each := FieldTargetEach(url, sel, handles);
      targets' := targets;
      for j := 0 to |handles|
        invariant targets' == targets + Somes(each[..j])
        invariant |targets'| < MaxTargets
      {
        SomesSnoc(each, j);
        var target := TargetOf(url, sel, handles[j]);
        if target.None? {
          continue;
        }
        targets' := targets' + [target.value];
        if |targets'| >= MaxTargets {
          CapReached(url, query, sels, i, j);
          return targets', true;
        }
      }
      assert each[..|handles|] == each;
      CandidatesSnoc(url, query, sels, i);
      full := false;
    }

    /** (A) the inner loop of `scan` for one parameter: payloads in order, the first reflected
        one is the parameter's finding, and a navigation error propagates. */
    method ProbeParam(url: string, p: string, lib: UrlLib) returns (hit: Outcome<ScanResult, ScanError>)
      ensures hit == FirstHit(QueryAttempts(browser, lib, url, p, payloads))
    {
      ghost var attempts := QueryAttempts(browser, lib, url, p, payloads);
      for j := 0 to |payloads|
        invariant FirstHit(attempts[j..]) == FirstHit(attempts)
      {
        assert attempts[j..][1..] == attempts[j + 1..];
        var payload := payloads[j];
        var testUrl := MutateQueryParam(lib, url, p, payload);
        var why := RenderAndCheck(browser, testUrl, payload);
        if why.Failure? {
          return Failure(why.error);
        }
        if why.value.Some? && why.value.value != "" {
          return Success(Some(ScanResult(testUrl, QueryVuln, "HIGH", "Query param '" + p + "' reflected: " + why.value.value)));
        }
      }
      return Success(None);
    }

    /** (B) the route-guessing loop of `scan`. */
    method ProbeSpaRoute(url: string) returns (hit: Outcome<ScanResult, ScanError>)
      ensures hit == SpaPhase(browser, url, payloads)
    {
      ghost var attempts := SpaAttempts(browser, url, payloads);
      for j := 0 to |payloads|
        invariant FirstHit(attempts[j..]) == FirstHit(attempts)
      {
        assert attempts[j..][1..] == attempts[j + 1..];
        var payload := payloads[j];
        var guessed := SpaGuess(url, payload);
        if guessed.Some? && guessed.value != "" {
          var why := RenderAndCheck(browser, guessed.value, payload);
          if why.Failure? {
            return Failure(why.error);
          }
          if why.value.Some? && why.value.value != "" {
            return Success(Some(ScanResult(guessed.value, SpaVuln, "HIGH",
              "Guessed SPA param 'q' reflected on #/search: " + why.value.value)));
          }
        }
      }
      return Success(None);
    }

    /** (C) the inner loop of `scan` for one field. */
    method ProbeTarget(t: FormTarget) returns (hit: Outcome<ScanResult, ScanError>)
      ensures hit == FirstHit(FormAttempts(browser, t, payloads))
    {
      ghost var attempts := FormAttempts(browser, t, payloads);
      for j := 0 to |payloads|
        invariant FirstHit(attempts[j..]) == FirstHit(attempts)
      {
        assert attempts[j..][1..] == attempts[j + 1..];
        var payload := payloads[j];
        var why := InjectAndCheck(browser, t, payload);
        if why.Failure? {
          return Failure(why.error);
        }
        if why.value.Some? && why.value.value != "" {
          return Success(Some(ScanResult(t.url, FormVuln, "HIGH",
            "Injected into " + t.selector + " (" + t.note + ") and saw reflection: " + why.value.value)));
        }
      }
      return Success(None);
    }

    /** (A) of `scan`: every query parameter in ascending order, one finding at most for each. */
    method ScanQueryParams(url: string, lib: UrlLib) returns (r: Result<seq<ScanResult>, ScanError>)
      ensures r == QueryPhase(browser, lib, url, payloads)
    {
      var results: seq<ScanResult> := [];
      var params := QueryParamNames(lib, url);
      ghost var outcomes := QueryOutcomes(browser, lib, url, params, payloads);
      for k := 0 to |params|
        invariant Gather(outcomes[..k]) == Success(results)
      {
        var hit := ProbeParam(url, params[k], lib);
        if hit.Failure? {
          GatherFailsAt(outcomes, k);
          return Failure(hit.error);
        }
        GatherStep(outcomes, k);
        if hit.value.Some? {
          results := results + [hit.value.value];
        }
      }
      assert outcomes[..|params|] == outcomes;
      return Success(results);
    }

    /** (C) of `scan`: every target in order, one finding at most for each. */
    method ScanTargets(targets: seq<FormTarget>) returns (r: Result<seq<ScanResult>, ScanError>)
      ensures r == Gather(FormOutcomes(browser, targets, payloads))
    {
      var results: seq<ScanResult> := [];
      ghost var outcomes := FormOutcomes(browser, targets, payloads);
      for k := 0 to |targets|
        invariant Gather(outcomes[..k]) == Success(results)
      {
        var hit := ProbeTarget(targets[k]);
        if hit.Failure? {
          GatherFailsAt(outcomes, k);
          return Failure(hit.error);
        }
        GatherStep(outcomes, k);
        if hit.value.Some? {
          results := results + [hit.value.value];
        }
      }
      assert outcomes[..|targets|] == outcomes;
      return Success(results);
    }

    /** (C) of `scan`: the injectable fields of the page, then each of them in turn. */
    method ScanForms(url: string) returns (r: Result<seq<ScanResult>, ScanError>)
      ensures r == FormPhase(browser, url, payloads)
    {
      var targets := FindInjectableFields(url);
      if targets.Failure? {
        return Failure(targets.error);
      }
      r := ScanTargets(targets.value);
    }

    /** `scan`: query parameters, then the guessed route, then the form fields; a navigation
        error ends it. */
    method Scan(url: string, lib: UrlLib) returns (r: Result<seq<ScanResult>, ScanError>)
      ensures r == ScanSpec(browser, lib, url, payloads)
    {
      var queryHits := ScanQueryParams(url, lib);
      if queryHits.Failure? {
        return Failure(queryHits.error);
      }
      var results := queryHits.value;
      var spa := ProbeSpaRoute(url);
      if spa.Failure? {
        return Failure(spa.error);
      }
      if spa.value.Some? {
        results := results + [spa.value.value];
      }
      var formHits := ScanForms(url);
      if formHits.Failure? {
        return Failure(formHits.error);
      }
      results := results + formHits.value;
      return Success(results);
    }
  }

  /** The fifth target ends the search: it is where the capped candidate list ends. */
  lemma CapReached(url: string, query: string -> seq<Field>, sels: seq<string>, i: nat, j: nat)
    requires i < |sels| && j < |query(sels[i])|
    requires var each := FieldTargetEach(url, sels[i], query(sels[i]));
      |Candidates(url, query, sels[..i]) + Somes(each[..j + 1])| == MaxTargets
    ensures var each := FieldTargetEach(url, sels[i], query(sels[i]));
      Cap(Candidates(url, query, sels)) == Candidates(url, query, sels[..i]) + Somes(each[..j + 1])
  {
    var each := FieldTargetEach(url, sels[i], query(sels[i]));
    var before := Candidates(url, query, sels[..i]);
    SomesPrefix(each, j + 1);
    CandidatesSnoc(url, query, sels, i);
    CandidatesPrefix(url, query, sels, i + 1);
    PrefixChain(before, Somes(each[..j + 1]), Somes(each), Candidates(url, query, sels));
    CapOfPrefix(before + Somes(each[..j + 1]), Candidates(url, query, sels));
  }

  /** The candidates of one more selector are those of the selector appended. */
  lemma CandidatesSnoc(url: string, query: string -> seq<Field>, sels: seq<string>, i: nat)
    requires i < |sels|
    ensures Candidates(url, query, sels[..i + 1])
         == Candidates(url, query, sels[..i]) + Somes(FieldTargetEach(url, sels[i], query(sels[i])))
  {
    assert sels[..i + 1][..i] == sels[..i] && sels[..i + 1][i] == sels[i];
  }

  lemma PrefixChain<T>(a: seq<T>, x: seq<T>, y: seq<T>, all: seq<T>)
    requires x <= y && a + y <= all
    ensures a + x <= all
  {
    assert (a + x) == (a + y)[..|a + x|];
  }

  /** A prefix of exactly `MaxTargets` targets is what the cap keeps. */
  lemma CapOfPrefix(t: seq<FormTarget>, all: seq<FormTarget>)
    requires t <= all && |t| == MaxTargets
    ensures Cap(all) == t
  {
  }
}
