/** core/dynamic_crawler.py: the crawler for single-page applications. Pages are rendered by
    the JavaScript renderer, the fragment is kept (client-side routes live there), `#/route`
    hrefs and `routerlink` attributes become navigable URLs, and the links of a page come back
    de-duplicated and sorted. */
module SpaCrawl {
  import opened Wrappers
  import opened Strings
  import opened Collaborators
  import opened Frontier

  /** `_normalize_url`: `url.rstrip("/")`. Every trailing '/' goes, and nothing else: the
      fragment stays. */
  function SpaNormalize(url: string): (r: string)
    ensures r <= url && (r == [] || r[|r| - 1] != '/')
    ensures forall i :: |r| <= i < |url| ==> url[i] == '/'
  {
    RStripChar(url, '/')
  }

  lemma SpaNormalizeIdempotent(url: string)
    ensures SpaNormalize(SpaNormalize(url)) == SpaNormalize(url)
  {
  }

  /** `_href_to_absolute`: a bare same-page anchor gives "", an in-app route `#/...` is
      appended to the current URL's part before its fragment, anything else is resolved. */
  function HrefToAbsolute(href: string, currentUrl: string, urljoin: (string, string) -> string): (r: string)
    ensures var h := Strip(href);
      && (StartsWith(h, "#") && !StartsWith(h, "#/") ==> r == [])
      && (!StartsWith(h, "#") ==> r == urljoin(currentUrl, h))
  {
    var h := Strip(href);
    if StartsWith(h, "#") && !StartsWith(h, "#/") then []
    else if StartsWith(h, "#/") then BeforeFirst(currentUrl, '#') + h
    else urljoin(currentUrl, h)
  }

  /** A route href keeps the current page (up to its fragment) and becomes the fragment:
      `#/login` on `http://host/#/home` is `http://host/#/login`. */
  lemma RouteHref(href: string, currentUrl: string, urljoin: (string, string) -> string)
    requires StartsWith(Strip(href), "#/")
    ensures var r := HrefToAbsolute(href, currentUrl, urljoin);
      && '#' in r
      && BeforeFirst(r, '#') == BeforeFirst(currentUrl, '#')
      && AfterFirst(r, '#') == Strip(href)[1..]
  {
    var h := Strip(href);
    var base := BeforeFirst(currentUrl, '#');
    assert HrefToAbsolute(href, currentUrl, urljoin) == base + h;
    JoinRoute(base, h);
  }

  /** A route `#/...` appended to text without '#' starts the fragment. */
  lemma JoinRoute(base: string, h: string)
    requires '#' !in base && StartsWith(h, "#/")
    ensures '#' in base + h && BeforeFirst(base + h, '#') == base && AfterFirst(base + h, '#') == h[1..]
  {
    assert h == ['#'] + h[1..];
    assert base + h == base + ['#'] + h[1..];
    SplitAtFirst(base, h[1..], '#');
  }

  /** The link one `<a>` element contributes: none when its `href` is missing or empty, is a
      `javascript:` or `mailto:` target (tested before stripping), or is a bare anchor; none
      outside the domain; otherwise the normalised absolute URL. */
  function AnchorLinkOf(anchor: Option<string>, currentUrl: string, urljoin: (string, string) -> string,
                        sameDomain: string -> bool): (r: Option<string>)
    ensures anchor.None? || anchor.value == [] ==> r.None?
    ensures anchor.Some? && (StartsWith(anchor.value, "javascript:") || StartsWith(anchor.value, "mailto:")) ==> r.None?
    ensures r.Some? ==> sameDomain(r.value) && (r.value == [] || r.value[|r.value| - 1] != '/')
    ensures r.Some? ==> HrefToAbsolute(anchor.value, currentUrl, urljoin) != []
    ensures r.Some? ==> r.value == SpaNormalize(HrefToAbsolute(anchor.value, currentUrl, urljoin))
    ensures && anchor.Some? && anchor.value != []
            && !StartsWith(anchor.value, "javascript:") && !StartsWith(anchor.value, "mailto:")
            && HrefToAbsolute(anchor.value, currentUrl, urljoin) != []
            && sameDomain(SpaNormalize(HrefToAbsolute(anchor.value, currentUrl, urljoin)))
            ==> r.Some?
  {
    match anchor
    case None => None
    case Some(href) =>
      if href == [] then None
      else if StartsWith(href, "javascript:") || StartsWith(href, "mailto:") then None
      else
        var absolute := HrefToAbsolute(href, currentUrl, urljoin);
        if absolute == [] then None
        else
          var n := SpaNormalize(absolute);
          if sameDomain(n) then Some(n) else None
  }

  /** The link one `routerlink` attribute contributes: resolved against the current URL
      without its fragment, then normalised; none when empty or outside the domain. */
  function RouterLinkOf(routerPath: string, currentUrl: string, urljoin: (string, string) -> string,
                        sameDomain: string -> bool): (r: Option<string>)
    ensures routerPath == [] ==> r.None?
    ensures r.Some? ==> sameDomain(r.value) && (r.value == [] || r.value[|r.value| - 1] != '/')
    ensures r.Some? ==> r.value == SpaNormalize(urljoin(BeforeFirst(currentUrl, '#'), Strip(routerPath)))
    ensures routerPath != [] && sameDomain(SpaNormalize(urljoin(BeforeFirst(currentUrl, '#'), Strip(routerPath)))) ==> r.Some?
  {
    if routerPath == [] then None
    else
      var n := SpaNormalize(urljoin(BeforeFirst(currentUrl, '#'), Strip(routerPath)));
      if sameDomain(n) then Some(n) else None
  }

  /** The contribution of each `<a>` element, in document order. */
  function AnchorLinkOfEach(anchors: seq<Option<string>>, currentUrl: string, urljoin: (string, string) -> string,
                            sameDomain: string -> bool): (r: seq<Option<string>>)
    ensures |r| == |anchors|
    ensures forall i :: 0 <= i < |anchors| ==> r[i] == AnchorLinkOf(anchors[i], currentUrl, urljoin, sameDomain)
  {
    seq(|anchors|, i requires 0 <= i < |anchors| => AnchorLinkOf(anchors[i], currentUrl, urljoin, sameDomain))
  }

  /** The contribution of each `routerlink` attribute, in document order. */
  function RouterLinkOfEach(paths: seq<string>, currentUrl: string, urljoin: (string, string) -> string,
                            sameDomain: string -> bool): (r: seq<Option<string>>)
    ensures |r| == |paths|
    ensures forall j :: 0 <= j < |paths| ==> r[j] == RouterLinkOf(paths[j], currentUrl, urljoin, sameDomain)
  {
    seq(|paths|, j requires 0 <= j < |paths| => RouterLinkOf(paths[j], currentUrl, urljoin, sameDomain))
  }

  /** The list the first loop of `extract_links` builds. */
  function AnchorLinks(anchors: seq<Option<string>>, currentUrl: string, urljoin: (string, string) -> string,
                       sameDomain: string -> bool): seq<string>
  {
    Somes(AnchorLinkOfEach(anchors, currentUrl, urljoin, sameDomain))
  }

  /** What the second loop of `extract_links` appends. */
  function RouterLinks(paths: seq<string>, currentUrl: string, urljoin: (string, string) -> string,
                       sameDomain: string -> bool): seq<string>
  {
    Somes(RouterLinkOfEach(paths, currentUrl, urljoin, sameDomain))
  }

  /** `extract_links`: `sorted(set(links))`. */
  function SpaLinks(doc: Document, currentUrl: string, urljoin: (string, string) -> string,
                    sameDomain: string -> bool): seq<string>
  {
    SortedUnique(AnchorLinks(doc.anchors, currentUrl, urljoin, sameDomain)
               + RouterLinks(doc.routerLinks, currentUrl, urljoin, sameDomain))
  }

  /** The links of a rendered page: sorted without repeats, and exactly the links some anchor
      or some `routerlink` contributes, each in the domain and without a trailing '/'. */
  lemma SpaLinksSpec(doc: Document, currentUrl: string, urljoin: (string, string) -> string,
                     sameDomain: string -> bool)
    ensures var r := SpaLinks(doc, currentUrl, urljoin, sameDomain);
      && StrictlySorted(r) && Distinct(r)
      && (forall l :: l in r <==>
            || (exists i :: 0 <= i < |doc.anchors| && AnchorLinkOf(doc.anchors[i], currentUrl, urljoin, sameDomain) == Some(l))
            || (exists j :: 0 <= j < |doc.routerLinks| && RouterLinkOf(doc.routerLinks[j], currentUrl, urljoin, sameDomain) == Some(l)))
      && (forall l :: l in r ==> sameDomain(l) && (l == [] || l[|l| - 1] != '/'))
  {
    var r := SpaLinks(doc, currentUrl, urljoin, sameDomain);
    var fromAnchors := AnchorLinks(doc.anchors, currentUrl, urljoin, sameDomain);
    var fromRouter := RouterLinks(doc.routerLinks, currentUrl, urljoin, sameDomain);
    SortedIsDistinct(r);
    AnchorLinksMembers(doc.anchors, currentUrl, urljoin, sameDomain);
    RouterLinksMembers(doc.routerLinks, currentUrl, urljoin, sameDomain);
    assert forall l :: l in r <==> l in fromAnchors || l in fromRouter;
    forall l | l in r
      ensures sameDomain(l) && (l == [] || l[|l| - 1] != '/')
    {
      if l in fromAnchors {
        var i :| 0 <= i < |doc.anchors| && AnchorLinkOf(doc.anchors[i], currentUrl, urljoin, sameDomain) == Some(l);
      } else {
        var j :| 0 <= j < |doc.routerLinks| && RouterLinkOf(doc.routerLinks[j], currentUrl, urljoin, sameDomain) == Some(l);
      }
    }
  }

  lemma AnchorLinksMembers(anchors: seq<Option<string>>, currentUrl: string, urljoin: (string, string) -> string,
                           sameDomain: string -> bool)
    ensures forall l :: l in AnchorLinks(anchors, currentUrl, urljoin, sameDomain) <==>
      exists i :: 0 <= i < |anchors| && AnchorLinkOf(anchors[i], currentUrl, urljoin, sameDomain) == Some(l)
  {
    SomesMembers(AnchorLinkOfEach(anchors, currentUrl, urljoin, sameDomain));
  }

  lemma RouterLinksMembers(paths: seq<string>, currentUrl: string, urljoin: (string, string) -> string,
                           sameDomain: string -> bool)
    ensures forall l :: l in RouterLinks(paths, currentUrl, urljoin, sameDomain) <==>
      exists j :: 0 <= j < |paths| && RouterLinkOf(paths[j], currentUrl, urljoin, sameDomain) == Some(l)
  {
    SomesMembers(RouterLinkOfEach(paths, currentUrl, urljoin, sameDomain));
  }

  /** What visiting one URL yields: nothing when rendering raises, otherwise the links of the
      rendered HTML, resolved against the normalised final URL. */
  function Expand(renderer: JsRenderer, client: HttpClient, lib: UrlLib, url: string): (r: seq<string>)
    ensures renderer.render(url).None? ==> r == []
    ensures StrictlySorted(r)
  {
    match renderer.render(url)
    case None => []
    case Some(page) =>
      SpaLinks(lib.parseHtml(page.html), SpaNormalize(page.finalUrl), lib.urljoin, client.sameDomain)
  }

  function Expander(renderer: JsRenderer, client: HttpClient, lib: UrlLib): string -> seq<string> {
    url => Expand(renderer, client, lib, url)
  }

  class DynamicCrawler {
    const client: HttpClient
    const renderer: JsRenderer
    const maxDepth: int
    const maxPages: int
    var visited: set<string>
    var discovered: map<string, int>

    ghost predicate Valid()
      reads this
    {
      visited <= discovered.Keys
    }

    constructor (client: HttpClient, renderer: JsRenderer, maxDepth: int, maxPages: int)
      ensures this.client == client && this.renderer == renderer
      ensures this.maxDepth == maxDepth && this.maxPages == maxPages
      ensures visited == {} && discovered == map[] && Valid()
    {
      this.client := client;
      this.renderer := renderer;
      this.maxDepth := maxDepth;
      this.maxPages := maxPages;
      visited := {};
      discovered := map[];
    }

    /** `extract_links`: both loops, then `sorted(set(links))`. */
    method ExtractLinks(html: string, currentUrl: string, lib: UrlLib) returns (result: seq<string>)
      ensures result == SpaLinks(lib.parseHtml(html), currentUrl, lib.urljoin, client.sameDomain)
    {
      var soup := lib.parseHtml(html);
      var links := CollectAnchorLinks(soup.anchors, currentUrl, lib);
      var routed := CollectRouterLinks(soup.routerLinks, currentUrl, lib);
      result := SortedUnique(links + routed);
    }

    /** The first loop of `extract_links`, over the `<a href>` elements. */
    method CollectAnchorLinks(anchors: seq<Option<string>>, currentUrl: string, lib: UrlLib) returns (links: seq<string>)
      ensures links == AnchorLinks(anchors, currentUrl, lib.urljoin, client.sameDomain)
    {
      ghost var each := AnchorLinkOfEach(anchors, currentUrl, lib.urljoin, client.sameDomain);
      links := [];
      for i := 0 to |anchors|
        invariant links == Somes(each[..i])
      {
        SomesSnoc(each, i);
        if anchors[i].None? || anchors[i].value == [] {
          continue;
        }
        var href := anchors[i].value;
        if StartsWith(href, "javascript:") || StartsWith(href, "mailto:") {
          continue;
        }
        var absolute := HrefToAbsolute(href, currentUrl, lib.urljoin);
        if absolute == [] {
          continue;
        }
        absolute := SpaNormalize(absolute);
        if client.sameDomain(absolute) {
          links := links + [absolute];
        }
      }
      assert each[..|anchors|] == each;
    }

    /** The second loop of `extract_links`, over the `routerlink` attributes. */
    method CollectRouterLinks(paths: seq<string>, currentUrl: string, lib: UrlLib) returns (links: seq<string>)
      ensures links == RouterLinks(paths, currentUrl, lib.urljoin, client.sameDomain)
    {
      ghost var each := RouterLinkOfEach(paths, currentUrl, lib.urljoin, client.sameDomain);
      links := [];
      for j := 0 to |paths|
        invariant links == Somes(each[..j])
      {
        SomesSnoc(each, j);
        var routerPath := paths[j];
        if routerPath == [] {
          continue;
        }
        var absolute := lib.urljoin(BeforeFirst(currentUrl, '#'), Strip(routerPath));
        absolute := SpaNormalize(absolute);
        if client.sameDomain(absolute) {
          links := links + [absolute];
        }
      }
      assert each[..|paths|] == each;
    }

    /** The inner `for link in links` loop of `crawl`. */
    method EnqueueAll(links: seq<string>, depth: int, queue: seq<Entry>, ghost log: seq<Entry>, ghost head: nat)
      returns (queue': seq<Entry>, ghost log': seq<Entry>)
      requires head <= |log| && queue == log[head..]
      modifies this
      ensures head <= |log'| && queue' == log'[head..]
      ensures var r := EnqueueLinks(links, depth, maxDepth, CrawlState(log, head, old(visited), old(discovered)));
        visited == r.visited && discovered == r.discovered && log' == r.log
    {
      ghost var entry := CrawlState(log, head, visited, discovered);
      queue', log' := queue, log;
      for i := 0 to |links|
        invariant head <= |log'| && queue' == log'[head..]
        invariant EnqueueLinks(links[i..], depth, maxDepth, CrawlState(log', head, visited, discovered))
               == EnqueueLinks(links, depth, maxDepth, entry)
      {
        ghost var cur := CrawlState(log', head, visited, discovered);
        assert links[i..][1..] == links[i + 1..];
        var link := links[i];
        if link !in visited && link !in discovered {
          var nextDepth := depth + 1;
          if nextDepth <= maxDepth {
            discovered := discovered[link := nextDepth];
            queue' := queue' + [Entry(link, nextDepth)];
            log' := log' + [Entry(link, nextDepth)];
          }
        }
        assert CrawlState(log', head, visited, discovered) == Admit(link, depth, maxDepth, cur);
      }
    }

    /** One pass of the `while` body of `crawl`, for the entry just taken from the queue: it
        is skipped when already visited or too deep, otherwise marked visited and rendered,
        and the links of the page are queued. */
    method Visit(entry: Entry, lib: UrlLib, queue: seq<Entry>, ghost log: seq<Entry>, ghost head: nat)
      returns (queue': seq<Entry>, ghost log': seq<Entry>)
      requires head < |log| && log[head] == entry && queue == log[head + 1..]
      modifies this
      ensures var r := Step(CrawlState(log, head, old(visited), old(discovered)), maxDepth, Expander(renderer, client, lib));
        && head + 1 <= |log'| && queue' == log'[head + 1..] && log' == r.log && visited == r.visited && discovered == r.discovered
    {
      ghost var s0 := CrawlState(log, head, visited, discovered);
      queue', log' := queue, log;
      if entry.url in visited {
        return;
      }
      if entry.depth > maxDepth {
        return;
      }
      visited := visited + {entry.url};
      var rendered := renderer.render(entry.url);
      if rendered.None? {
        return;
      }
      var finalUrl := SpaNormalize(rendered.value.finalUrl);
      var links := ExtractLinks(rendered.value.html, finalUrl, lib);
      assert Expander(renderer, client, lib)(entry.url) == links by {
        assert Expander(renderer, client, lib)(entry.url) == Expand(renderer, client, lib, entry.url);
      }
      StepVisits(s0, maxDepth, Expander(renderer, client, lib), links);
      queue', log' := EnqueueAll(links, entry.depth, queue, log, head + 1);
    }

    /** `crawl`: the same bounded breadth-first loop as the static crawler, over rendered pages. */
    method Crawl(startUrl: string, lib: UrlLib) returns (result: seq<string>)
      requires Valid()
      modifies this
      ensures Valid()
      ensures var r := Run(Start(SpaNormalize(startUrl), old(visited), old(discovered)), maxDepth, maxPages,
                           Expander(renderer, client, lib));
        visited == r.visited && discovered == r.discovered
      ensures old(visited) <= visited
      ensures old(|visited|) <= maxPages ==> |visited| <= maxPages
      ensures SpaNormalize(startUrl) in discovered && discovered[SpaNormalize(startUrl)] == 0
      ensures |result| == |visited| && Distinct(result)
      ensures forall u :: u in result <==> u in visited
    {
      var start := SpaNormalize(startUrl);
      ghost var init := Start(start, visited, discovered);
      ghost var expand := Expander(renderer, client, lib);
      StartConsistent(start, visited, discovered);
      var queue := [Entry(start, 0)];
      discovered := discovered[start := 0];
      ghost var log := queue;
      ghost var head := 0;
      while queue != [] && |visited| < maxPages
        invariant head <= |log| && queue == log[head..]
        invariant Run(CrawlState(log, head, visited, discovered), maxDepth, maxPages, expand)
               == Run(init, maxDepth, maxPages, expand)
        decreases if |visited| < maxPages then maxPages - |visited| else 0, |queue|
      {
        ghost var before := CrawlState(log, head, visited, discovered);
        assert Run(before, maxDepth, maxPages, expand) == Run(Step(before, maxDepth, expand), maxDepth, maxPages, expand);
        var entry := queue[0];
        queue := queue[1..];
        StepProgress(before, maxDepth, expand);
        queue, log := Visit(entry, lib, queue, log, head);
        head := head + 1;
      }
      ghost var final := Run(init, maxDepth, maxPages, expand);
      assert visited <= discovered.Keys by {
        RunConsistent(init, maxDepth, maxPages, expand);
      }
      assert |final.visited| <= if |init.visited| <= maxPages then maxPages else |init.visited| by {
        RunBudget(init, maxDepth, maxPages, expand);
      }
      assert init.visited <= final.visited && start in final.discovered && final.discovered[start] == 0 by {
        RunExtends(init, maxDepth, maxPages, expand);
      }
      result := ListOf(visited);
    }
  }
}
