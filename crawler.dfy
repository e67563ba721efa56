/** core/crawler.py: the static crawler. Pages are fetched with the HTTP client, links are read
    from `<a href>` elements, and URLs are compared without their fragment. */
module Crawl {
  import opened Wrappers
  import opened Strings
  import opened Collaborators
  import opened Frontier

  /** `_normalize_url`: the URL without its fragment (section 3.5 of RFC 3986), i.e. without
      everything from its first '#' on; nothing else is removed. */
  function Normalize(url: string): (r: string)
    ensures '#' !in r && r <= url
    ensures r == url || url[|r|] == '#'
  {
    BeforeFirst(url, '#')
  }

  lemma NormalizeIdempotent(url: string)
    ensures Normalize(Normalize(url)) == Normalize(url)
  {
  }

  /** Targets `extract_links` does not follow, tested on the stripped `href`. */
  predicate Ignored(href: string) {
    StartsWith(href, "#") || StartsWith(href, "javascript:") || StartsWith(href, "mailto:")
  }

  /** The link one anchor contributes: none without an `href`, none for an ignored target,
      none outside the domain; otherwise the resolved URL without its fragment. */
  function LinkOf(anchor: Option<string>, currentUrl: string, urljoin: (string, string) -> string,
                  sameDomain: string -> bool): (r: Option<string>)
    ensures anchor.None? ==> r.None?
    ensures anchor.Some? && Ignored(Strip(anchor.value)) ==> r.None?
    ensures r.Some? ==> '#' !in r.value && sameDomain(r.value)
    ensures r.Some? ==> r.value == Normalize(urljoin(currentUrl, Strip(anchor.value)))
    ensures anchor.Some? && !Ignored(Strip(anchor.value)) && sameDomain(Normalize(urljoin(currentUrl, Strip(anchor.value))))
            ==> r.Some?
  {
    match anchor
    case None => None
    case Some(href) =>
      var rawHref := Strip(href);
      if Ignored(rawHref) then None
      else
        var absolute := Normalize(urljoin(currentUrl, rawHref));
        if sameDomain(absolute) then Some(absolute) else None
  }

  /** The contribution of each anchor, in document order. */
  function LinkOfEach(anchors: seq<Option<string>>, currentUrl: string, urljoin: (string, string) -> string,
                      sameDomain: string -> bool): (r: seq<Option<string>>)
    ensures |r| == |anchors|
    ensures forall i :: 0 <= i < |anchors| ==> r[i] == LinkOf(anchors[i], currentUrl, urljoin, sameDomain)
  {
    seq(|anchors|, i requires 0 <= i < |anchors| => LinkOf(anchors[i], currentUrl, urljoin, sameDomain))
  }

  /** The list `extract_links` returns for a document's anchors. */
  function Links(anchors: seq<Option<string>>, currentUrl: string, urljoin: (string, string) -> string,
                 sameDomain: string -> bool): seq<string>
  {
    Somes(LinkOfEach(anchors, currentUrl, urljoin, sameDomain))
  }

  /** The links are exactly the contributions of the followed anchors, and each is
      fragment-free and in the domain. */
  lemma LinksSound(anchors: seq<Option<string>>, currentUrl: string,
                   urljoin: (string, string) -> string, sameDomain: string -> bool)
    ensures forall l :: l in Links(anchors, currentUrl, urljoin, sameDomain) <==>
      exists i :: 0 <= i < |anchors| && LinkOf(anchors[i], currentUrl, urljoin, sameDomain) == Some(l)
    ensures forall l :: l in Links(anchors, currentUrl, urljoin, sameDomain) ==> '#' !in l && sameDomain(l)
  {
    SomesMembers(LinkOfEach(anchors, currentUrl, urljoin, sameDomain));
  }

  /** Encounter order is kept and nothing is de-duplicated: the links of two runs of anchors
      are the links of the first followed by the links of the second. */
  lemma LinksAppend(a: seq<Option<string>>, b: seq<Option<string>>, currentUrl: string,
                    urljoin: (string, string) -> string, sameDomain: string -> bool)
    ensures Links(a + b, currentUrl, urljoin, sameDomain)
         == Links(a, currentUrl, urljoin, sameDomain) + Links(b, currentUrl, urljoin, sameDomain)
  {
    var ea := LinkOfEach(a, currentUrl, urljoin, sameDomain);
    var eb := LinkOfEach(b, currentUrl, urljoin, sameDomain);
    var e := LinkOfEach(a + b, currentUrl, urljoin, sameDomain);
    forall i | 0 <= i < |e|
      ensures e[i] == (ea + eb)[i]
    {
      if i < |a| {
        assert (a + b)[i] == a[i];
      } else {
        assert (a + b)[i] == b[i - |a|];
      }
    }
    assert e == ea + eb;
    SomesAppend(ea, eb);
  }

  /** What visiting one URL yields: nothing when the request raises or the response is not
      HTML, otherwise the links of its body. */
  function Expand(client: HttpClient, lib: UrlLib, url: string): (r: seq<string>)
    ensures client.get(url).None? ==> r == []
    ensures client.get(url).Some? && !IsHtml(client.get(url).value) ==> r == []
  {
    match client.get(url)
    case None => []
    case Some(response) =>
      if IsHtml(response) then Links(lib.parseHtml(response.text).anchors, url, lib.urljoin, client.sameDomain)
      else []
  }

  function Expander(client: HttpClient, lib: UrlLib): string -> seq<string> {
    url => Expand(client, lib, url)
  }

  class Crawler {
    const client: HttpClient
    const maxDepth: int
    const maxPages: int
    var visited: set<string>
    var discovered: map<string, int>

    ghost predicate Valid()
      reads this
    {
      visited <= discovered.Keys
    }

    constructor (client: HttpClient, maxDepth: int, maxPages: int)
      ensures this.client == client && this.maxDepth == maxDepth && this.maxPages == maxPages
      ensures visited == {} && discovered == map[] && Valid()
    {
      this.client := client;
      this.maxDepth := maxDepth;
      this.maxPages := maxPages;
      visited := {};
      discovered := map[];
    }

    method ExtractLinks(html: string, currentUrl: string, lib: UrlLib) returns (links: seq<string>)
      ensures links == Links(lib.parseHtml(html).anchors, currentUrl, lib.urljoin, client.sameDomain)
    {
      var soup := lib.parseHtml(html);
      ghost var each := LinkOfEach(soup.anchors, currentUrl, lib.urljoin, client.sameDomain);
      links := [];
      for i := 0 to |soup.anchors|
        invariant links == Somes(each[..i])
      {
        SomesSnoc(each, i);
        if soup.anchors[i].None? {
          continue;
        }
        var rawHref := Strip(soup.anchors[i].value);
        if StartsWith(rawHref, "#") {
          continue;
        }
        if StartsWith(rawHref, "javascript:") {
          continue;
        }
        if StartsWith(rawHref, "mailto:") {
          continue;
        }
        var absolute := lib.urljoin(currentUrl, rawHref);
        absolute := Normalize(absolute);
        if client.sameDomain(absolute) {
          links := links + [absolute];
        }
      }
      assert each[..|soup.anchors|] == each;
    }

    /** The inner `for link in links` loop of `crawl`: a link neither visited nor discovered is
        recorded and queued at `depth + 1` when that is within `maxDepth`. */
    method EnqueueAll(links: seq<string>, depth: int, queue: seq<Entry>, ghost log: seq<Entry>, ghost head: nat)
      returns (queue': seq<Entry>, ghost log': seq<Entry>)
      requires head <= |log| && queue == log[head..]
      modifies this
      ensures head <= |log'| && queue' == log'[head..]
      ensures var r := EnqueueLinks(links, depth, maxDepth, CrawlState(log, head, old(visited), old(discovered)));
        visited == r.visited && discovered == r.discovered && log' == r.log
    {
      ghost var entry := CrawlState(log, head, visited, discovered);
      queue', log' := queue, log;
      for i := 0 to |links|
        invariant head <= |log'| && queue' == log'[head..]
        invariant EnqueueLinks(links[i..], depth, maxDepth, CrawlState(log', head, visited, discovered))
               == EnqueueLinks(links, depth, maxDepth, entry)
      {
        ghost var cur := CrawlState(log', head, visited, discovered);
        assert links[i..][1..] == links[i + 1..];
        var link := links[i];
        if link !in visited && link !in discovered {
          var nextDepth := depth + 1;
          if nextDepth <= maxDepth {
            discovered := discovered[link := nextDepth];
            queue' := queue' + [Entry(link, nextDepth)];
            log' := log' + [Entry(link, nextDepth)];
          }
        }
        assert CrawlState(log', head, visited, discovered) == Admit(link, depth, maxDepth, cur);
      }
    }

    /** One pass of the `while` body of `crawl`, for the entry just taken from the queue: it
        is skipped when already visited or too deep, otherwise marked visited and fetched,
        and the links of the page are queued. */
    method Visit(entry: Entry, lib: UrlLib, queue: seq<Entry>, ghost log: seq<Entry>, ghost head: nat)
      returns (queue': seq<Entry>, ghost log': seq<Entry>)
      requires head < |log| && log[head] == entry && queue == log[head + 1..]
      modifies this
      ensures var r := Step(CrawlState(log, head, old(visited), old(discovered)), maxDepth, Expander(client, lib));
        && head + 1 <= |log'| && queue' == log'[head + 1..] && log' == r.log && visited == r.visited && discovered == r.discovered
    {
      ghost var s0 := CrawlState(log, head, visited, discovered);
      queue', log' := queue, log;
      if entry.url in visited {
        return;
      }
      if entry.depth > maxDepth {
        return;
      }
      visited := visited + {entry.url};
      var response := client.get(entry.url);
      if response.None? {
        return;
      }
      if !IsHtml(response.value) {
        return;
      }
      var links := ExtractLinks(response.value.text, entry.url, lib);
      assert Expander(client, lib)(entry.url) == links by {
        assert Expander(client, lib)(entry.url) == Expand(client, lib, entry.url);
      }
      StepVisits(s0, maxDepth, Expander(client, lib), links);
      queue', log' := EnqueueAll(links, entry.depth, queue, log, head + 1);
    }

    /** `crawl`: the loop is exactly `Frontier.Run` from the start state, so every property
        proved of `Run` holds of the crawler's fields afterwards. */
    method Crawl(startUrl: string, lib: UrlLib) returns (result: seq<string>)
      requires Valid()
      modifies this
      ensures Valid()
      ensures var r := Run(Start(Normalize(startUrl), old(visited), old(discovered)), maxDepth, maxPages, Expander(client, lib));
        visited == r.visited && discovered == r.discovered
      ensures old(visited) <= visited
      ensures old(|visited|) <= maxPages ==> |visited| <= maxPages
      ensures Normalize(startUrl) in discovered && discovered[Normalize(startUrl)] == 0
      ensures |result| == |visited| && Distinct(result)
      ensures forall u :: u in result <==> u in visited
    {
      var start := Normalize(startUrl);
      ghost var init := Start(start, visited, discovered);
      ghost var expand := Expander(client, lib);
      StartConsistent(start, visited, discovered);
      var queue := [Entry(start, 0)];
      discovered := discovered[start := 0];
      ghost var log := queue;
      ghost var head := 0;
      while queue != [] && |visited| < maxPages
        invariant head <= |log| && queue == log[head..]
        invariant Run(CrawlState(log, head, visited, discovered), maxDepth, maxPages, expand)
               == Run(init, maxDepth, maxPages, expand)
        decreases if |visited| < maxPages then maxPages - |visited| else 0, |queue|
      {
        ghost var before := CrawlState(log, head, visited, discovered);
        assert Run(before, maxDepth, maxPages, expand) == Run(Step(before, maxDepth, expand), maxDepth, maxPages, expand);
        var entry := queue[0];
        queue := queue[1..];
        StepProgress(before, maxDepth, expand);
        queue, log := Visit(entry, lib, queue, log, head);
        head := head + 1;
      }
      ghost var final := Run(init, maxDepth, maxPages, expand);
      assert visited <= discovered.Keys by {
        RunConsistent(init, maxDepth, maxPages, expand);
      }
      assert |final.visited| <= if |init.visited| <= maxPages then maxPages else |init.visited| by {
        RunBudget(init, maxDepth, maxPages, expand);
      }
      assert init.visited <= final.visited && start in final.discovered && final.discovered[start] == 0 by {
        RunExtends(init, maxDepth, maxPages, expand);
      }
      result := ListOf(visited);
    }
  }
}
