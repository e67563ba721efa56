/** The bounded breadth-first frontier that both crawlers run (core/crawler.py:60-103 and
    core/dynamic_crawler.py:98-134 have the same loop): a FIFO of (url, depth) entries, the
    `visited` set and the `discovered` map from URL to the depth at which it was first seen.
    The crawlers differ only in how a visited URL yields its links; here that is the function
    `expand`, which gives the links (none when the fetch or render failed). */
module Frontier {
  import opened Strings

  datatype Entry = Entry(url: string, depth: int)

  /** The state of one `crawl` call. The queue is `log[head..]`: `log` holds every entry ever
      appended to the deque and `head` counts the entries `popleft` has taken. */
  datatype CrawlState = CrawlState(log: seq<Entry>, head: nat, visited: set<string>, discovered: map<string, int>)

  /** The state right before the loop: the normalised start URL queued and recorded at depth 0,
      `visited` and `discovered` as the crawler object holds them. */
  function Start(url: string, visited: set<string>, discovered: map<string, int>): CrawlState {
    CrawlState([Entry(url, 0)], 0, visited, discovered[url := 0])
  }

  /** One pass of the inner `for link in links` loop. */
  function Admit(link: string, depth: int, maxDepth: int, s: CrawlState): CrawlState {
    if link !in s.visited && link !in s.discovered && depth + 1 <= maxDepth then
      s.(log := s.log + [Entry(link, depth + 1)], discovered := s.discovered[link := depth + 1])
    else s
  }

  /** The whole inner loop: it only appends, and never touches `visited` or an existing
      `discovered` entry. */
  function EnqueueLinks(links: seq<string>, depth: int, maxDepth: int, s: CrawlState): (r: CrawlState)
    ensures r.head == s.head && r.visited == s.visited && s.log <= r.log
    ensures forall u :: u in s.discovered ==> u in r.discovered && r.discovered[u] == s.discovered[u]
  {
    if links == [] then s
    else EnqueueLinks(links[1..], depth, maxDepth, Admit(links[0], depth, maxDepth, s))
  }

  /** The entry at the head of the queue is fetched: it is new and within the depth bound. */
  predicate Visits(s: CrawlState, maxDepth: int)
    requires s.head < |s.log|
  {
    s.log[s.head].url !in s.visited && s.log[s.head].depth <= maxDepth
  }

  /** One iteration of the `while` loop. */
  function Step(s: CrawlState, maxDepth: int, expand: string -> seq<string>): (r: CrawlState)
    requires s.head < |s.log|
    ensures r.head == s.head + 1 && s.log <= r.log
    ensures r.visited == s.visited || (s.log[s.head].url !in s.visited && r.visited == s.visited + {s.log[s.head].url})
    ensures r.visited == s.visited ==> r.log == s.log
    ensures forall u :: u in s.discovered ==> u in r.discovered && r.discovered[u] == s.discovered[u]
  {
    var e := s.log[s.head];
    var popped := s.(head := s.head + 1);
    if e.url in s.visited then popped
    else if e.depth > maxDepth then popped
    else EnqueueLinks(expand(e.url), e.depth, maxDepth, popped.(visited := s.visited + {e.url}))
  }

  /** An iteration either visits one new URL or only pops the queue: the measure the loop
      terminates by. */
  lemma StepProgress(s: CrawlState, maxDepth: int, expand: string -> seq<string>)
    requires s.head < |s.log|
    ensures var r := Step(s, maxDepth, expand);
      |r.visited| == |s.visited| + 1 || (r.visited == s.visited && r.log == s.log)
  {
  }

  function Budget(s: CrawlState, maxPages: int): nat {
    if |s.visited| < maxPages then maxPages - |s.visited| else 0
  }

  /** The `while queue and len(self.visited) < self.max_pages` loop, run to its end. */
  function Run(s: CrawlState, maxDepth: int, maxPages: int, expand: string -> seq<string>): (r: CrawlState)
    requires s.head <= |s.log|
    ensures r.head <= |r.log|
    decreases Budget(s, maxPages), |s.log| - s.head
  {
    if s.head == |s.log| || |s.visited| >= maxPages then s
    else Run(Step(s, maxDepth, expand), maxDepth, maxPages, expand)
  }

  /** The bookkeeping facts the loop keeps: every visited URL is discovered, every queued entry
      carries the depth recorded for its URL, and no URL is queued twice. */
  ghost predicate Consistent(s: CrawlState) {
    && s.head <= |s.log|
    && s.visited <= s.discovered.Keys
    && (forall i :: 0 <= i < |s.log| ==>
          && s.log[i].url in s.discovered
          && s.discovered[s.log[i].url] == s.log[i].depth
          && 0 <= s.log[i].depth)
    && (forall i, j :: 0 <= i < j < |s.log| ==> s.log[i].url != s.log[j].url)
  }

  /** Breadth-first order: entries are appended by non-decreasing depth, and the queue never
      spans more than two depths. */
  ghost predicate LevelOrder(s: CrawlState) {
    && (forall i, j :: 0 <= i < j < |s.log| ==> s.log[i].depth <= s.log[j].depth)
    && (s.head < |s.log| ==> s.log[|s.log| - 1].depth <= s.log[s.head].depth + 1)
  }

  lemma StartConsistent(url: string, visited: set<string>, discovered: map<string, int>)
    requires visited <= discovered.Keys
    ensures Consistent(Start(url, visited, discovered)) && LevelOrder(Start(url, visited, discovered))
  {
  }

  /** What the inner loop appends: entries at `depth + 1 <= maxDepth` for links that were
      neither visited nor discovered, each recorded in `discovered` at that depth; and every
      newly discovered URL is one of them. */
  lemma {:induction false} EnqueueLinksAppends(links: seq<string>, depth: int, maxDepth: int, s: CrawlState)
    ensures var r := EnqueueLinks(links, depth, maxDepth, s);
      && (forall i :: |s.log| <= i < |r.log| ==>
            && r.log[i].depth == depth + 1 <= maxDepth
            && r.log[i].url in links
            && r.log[i].url !in s.visited
            && r.log[i].url !in s.discovered
            && r.log[i].url in r.discovered
            && r.discovered[r.log[i].url] == depth + 1)
      && (forall u :: u in r.discovered && u !in s.discovered ==>
            exists i :: |s.log| <= i < |r.log| && r.log[i].url == u)
  {
    if links != [] {
      var a := Admit(links[0], depth, maxDepth, s);
      EnqueueLinksAppends(links[1..], depth, maxDepth, a);
      var r := EnqueueLinks(links, depth, maxDepth, s);
      assert r == EnqueueLinks(links[1..], depth, maxDepth, a);
      forall i | |s.log| <= i < |r.log|
        ensures && r.log[i].depth == depth + 1 <= maxDepth
                && r.log[i].url in links
                && r.log[i].url !in s.visited
                && r.log[i].url !in s.discovered
                && r.log[i].url in r.discovered
                && r.discovered[r.log[i].url] == depth + 1
      {
        if i < |a.log| {
          assert a.log != s.log && i == |s.log|;
          assert r.log[i] == a.log[i] == Entry(links[0], depth + 1);
        } else {
          assert r.log[i].url in links[1..];
        }
      }
      forall u | u in r.discovered && u !in s.discovered
        ensures exists i :: |s.log| <= i < |r.log| && r.log[i].url == u
      {
        if u in a.discovered {
          assert u == links[0] && a.log[|s.log|].url == u;
          assert r.log[|s.log|] == a.log[|s.log|];
        }
      }
    }
  }

  /** And nothing is missed: every link that passes the test ends up discovered at `depth + 1`. */
  lemma {:induction false} EnqueueLinksComplete(links: seq<string>, depth: int, maxDepth: int, s: CrawlState)
    ensures var r := EnqueueLinks(links, depth, maxDepth, s);
      forall l :: l in links && l !in s.visited && l !in s.discovered && depth + 1 <= maxDepth ==>
        l in r.discovered && r.discovered[l] == depth + 1
  {
    if links != [] {
      var a := Admit(links[0], depth, maxDepth, s);
      EnqueueLinksComplete(links[1..], depth, maxDepth, a);
      var r := EnqueueLinks(links, depth, maxDepth, s);
      assert r == EnqueueLinks(links[1..], depth, maxDepth, a);
      forall l | l in links && l !in s.visited && l !in s.discovered && depth + 1 <= maxDepth
        ensures l in r.discovered && r.discovered[l] == depth + 1
      {
        if l != links[0] {
          assert l in links[1..];
        }
      }
    }
  }

  lemma {:induction false} EnqueueLinksConsistent(links: seq<string>, depth: int, maxDepth: int, s: CrawlState)
    requires Consistent(s) && 0 <= depth
    ensures Consistent(EnqueueLinks(links, depth, maxDepth, s))
  {
    if links != [] {
      var a := Admit(links[0], depth, maxDepth, s);
      assert Consistent(a) by {
        if a != s {
          forall i | 0 <= i < |s.log|
            ensures s.log[i].url != links[0]
          {
          }
        }
      }
      EnqueueLinksConsistent(links[1..], depth, maxDepth, a);
    }
  }

  lemma {:induction false} EnqueueLinksLevels(links: seq<string>, depth: int, maxDepth: int, s: CrawlState)
    requires |s.log| > 0
    requires forall i, j :: 0 <= i < j < |s.log| ==> s.log[i].depth <= s.log[j].depth
    requires s.log[|s.log| - 1].depth <= depth + 1
    ensures var r := EnqueueLinks(links, depth, maxDepth, s);
      && (forall i, j :: 0 <= i < j < |r.log| ==> r.log[i].depth <= r.log[j].depth)
      && r.log[|r.log| - 1].depth <= depth + 1
  {
    if links != [] {
      EnqueueLinksLevels(links[1..], depth, maxDepth, Admit(links[0], depth, maxDepth, s));
    }
  }

  /** One iteration, as the source describes it: an entry that is already visited or deeper
      than `maxDepth` is dropped without fetching (the result does not depend on `expand`);
      otherwise its URL is marked visited before the fetch, and only links from
      `expand(url)` are queued, at depth + 1, if new and within the bound. A fetch that
      yields nothing leaves everything but the visit unchanged. */
  lemma StepLaw(s: CrawlState, maxDepth: int, expand: string -> seq<string>, other: string -> seq<string>)
    requires s.head < |s.log|
    ensures var e, r := s.log[s.head], Step(s, maxDepth, expand);
      && (!Visits(s, maxDepth) ==> r == s.(head := s.head + 1) && r == Step(s, maxDepth, other))
      && (Visits(s, maxDepth) ==>
            && r.visited == s.visited + {e.url}
            && (forall i :: |s.log| <= i < |r.log| ==>
                  && r.log[i].depth == e.depth + 1 <= maxDepth
                  && r.log[i].url in expand(e.url)
                  && r.log[i].url !in s.visited
                  && r.log[i].url !in s.discovered)
            && (expand(e.url) == [] ==> r == CrawlState(s.log, s.head + 1, s.visited + {e.url}, s.discovered)))
  {
    var e := s.log[s.head];
    if Visits(s, maxDepth) {
      var popped := s.(head := s.head + 1, visited := s.visited + {e.url});
      assert Step(s, maxDepth, expand) == EnqueueLinks(expand(e.url), e.depth, maxDepth, popped);
      EnqueueLinksAppends(expand(e.url), e.depth, maxDepth, popped);
    }
  }

  /** A visit is the queueing of the links `expand` yields for the visited URL. */
  lemma StepVisits(s: CrawlState, maxDepth: int, expand: string -> seq<string>, links: seq<string>)
    requires s.head < |s.log| && Visits(s, maxDepth) && expand(s.log[s.head].url) == links
    ensures var e := s.log[s.head];
      Step(s, maxDepth, expand) == EnqueueLinks(links, e.depth, maxDepth, s.(head := s.head + 1, visited := s.visited + {e.url}))
  {
  }

  lemma StepConsistent(s: CrawlState, maxDepth: int, expand: string -> seq<string>)
    requires Consistent(s) && s.head < |s.log|
    ensures Consistent(Step(s, maxDepth, expand))
  {
    var e := s.log[s.head];
    if Visits(s, maxDepth) {
      EnqueueLinksConsistent(expand(e.url), e.depth, maxDepth,
        s.(head := s.head + 1, visited := s.visited + {e.url}));
    }
  }

  lemma StepLevels(s: CrawlState, maxDepth: int, expand: string -> seq<string>)
    requires LevelOrder(s) && s.head < |s.log|
    ensures LevelOrder(Step(s, maxDepth, expand))
  {
    var e := s.log[s.head];
    if Visits(s, maxDepth) {
      VisitLevels(s, maxDepth, expand(e.url));
    } else {
      PoppedLevels(s.(head := s.head + 1), e.depth);
    }
  }

  /** A visit queues its links behind the entries already there. */
  lemma VisitLevels(s: CrawlState, maxDepth: int, links: seq<string>)
    requires LevelOrder(s) && s.head < |s.log|
    ensures var e := s.log[s.head];
      LevelOrder(EnqueueLinks(links, e.depth, maxDepth, s.(head := s.head + 1, visited := s.visited + {e.url})))
  {
    var e := s.log[s.head];
    var t := s.(head := s.head + 1, visited := s.visited + {e.url});
    var r := EnqueueLinks(links, e.depth, maxDepth, t);
    EnqueueLinksLevels(links, e.depth, maxDepth, t);
    assert t.log <= r.log;
    PoppedLevels(r, e.depth);
  }

  /** Once the entry just popped, at depth `d`, is the shallowest still relevant, the state is
      in level order if nothing deeper than `d + 1` is queued. */
  lemma PoppedLevels(r: CrawlState, d: int)
    requires 0 < r.head <= |r.log| && r.log[r.head - 1].depth == d
    requires forall i, j :: 0 <= i < j < |r.log| ==> r.log[i].depth <= r.log[j].depth
    requires r.log[|r.log| - 1].depth <= d + 1
    ensures LevelOrder(r)
  {
  }

  /** The page budget: a run never takes `visited` past `maxPages` (or past its size at the
      start, for a crawler object reused after an earlier crawl). */
  lemma {:induction false} RunBudget(s: CrawlState, maxDepth: int, maxPages: int, expand: string -> seq<string>)
    requires s.head <= |s.log|
    ensures |Run(s, maxDepth, maxPages, expand).visited| <= if |s.visited| <= maxPages then maxPages else |s.visited|
    decreases Budget(s, maxPages), |s.log| - s.head
  {
    if s.head < |s.log| && |s.visited| < maxPages {
      RunBudget(Step(s, maxDepth, expand), maxDepth, maxPages, expand);
    }
  }

  /** A run stops only when the queue is empty or the budget is spent; it only adds to
      `visited` and to the log, and never changes a `discovered` entry. */
  lemma {:induction false} RunExtends(s: CrawlState, maxDepth: int, maxPages: int, expand: string -> seq<string>)
    requires s.head <= |s.log|
    ensures var r := Run(s, maxDepth, maxPages, expand);
      && (r.head == |r.log| || |r.visited| >= maxPages)
      && s.visited <= r.visited && s.log <= r.log
      && (forall u :: u in s.discovered ==> u in r.discovered && r.discovered[u] == s.discovered[u])
    decreases Budget(s, maxPages), |s.log| - s.head
  {
    if s.head < |s.log| && |s.visited| < maxPages {
      RunExtends(Step(s, maxDepth, expand), maxDepth, maxPages, expand);
    }
  }

  /** The run keeps the bookkeeping consistent and the queue in breadth-first order. */
  lemma {:induction false} RunConsistent(s: CrawlState, maxDepth: int, maxPages: int, expand: string -> seq<string>)
    requires Consistent(s) && LevelOrder(s)
    ensures Consistent(Run(s, maxDepth, maxPages, expand)) && LevelOrder(Run(s, maxDepth, maxPages, expand))
    decreases Budget(s, maxPages), |s.log| - s.head
  {
    if s.head < |s.log| && |s.visited| < maxPages {
      StepConsistent(s, maxDepth, expand);
      StepLevels(s, maxDepth, expand);
      RunConsistent(Step(s, maxDepth, expand), maxDepth, maxPages, expand);
    }
  }

  /** Every entry a run queues sits at a depth between 1 and `maxDepth`, and every URL it
      visits was discovered at a depth within `maxDepth`. */
  lemma {:induction false} RunDepths(s: CrawlState, maxDepth: int, maxPages: int, expand: string -> seq<string>)
    requires Consistent(s)
    ensures var r := Run(s, maxDepth, maxPages, expand);
      && (forall i :: |s.log| <= i < |r.log| ==> 1 <= r.log[i].depth <= maxDepth)
      && (forall u :: u in r.visited && u !in s.visited ==> u in r.discovered && r.discovered[u] <= maxDepth)
    decreases Budget(s, maxPages), |s.log| - s.head
  {
    if s.head < |s.log| && |s.visited| < maxPages {
      var e := s.log[s.head];
      var t := Step(s, maxDepth, expand);
      StepConsistent(s, maxDepth, expand);
      StepLaw(s, maxDepth, expand, expand);
      RunDepths(t, maxDepth, maxPages, expand);
      RunExtends(t, maxDepth, maxPages, expand);
      var r := Run(s, maxDepth, maxPages, expand);
      assert r == Run(t, maxDepth, maxPages, expand);
      forall i | |s.log| <= i < |r.log|
        ensures 1 <= r.log[i].depth <= maxDepth
      {
        if i < |t.log| {
          assert r.log[i] == t.log[i];
        }
      }
    }
  }

  /** Example: a start page linking to two other pages, with `maxDepth` 1, visits all
      three and records them at depths 0, 1 and 1. */
  lemma TwoChildren(start: string, a: string, b: string, maxPages: int, expand: string -> seq<string>)
    requires start != a && start != b && a != b && 3 <= maxPages
    requires expand(start) == [a, b] && expand(a) == [] && expand(b) == []
    ensures var r := Run(Start(start, {}, map[]), 1, maxPages, expand);
      r.visited == {start, a, b} && r.discovered == map[start := 0, a := 1, b := 1]
  {
    var log := [Entry(start, 0), Entry(a, 1), Entry(b, 1)];
    var disc := map[start := 0, a := 1, b := 1];
    var s1 := CrawlState(log, 1, {start}, disc);
    var s2 := CrawlState(log, 2, {start, a}, disc);
    var s3 := CrawlState(log, 3, {start, a, b}, disc);
    TwoChildrenRoot(start, a, b, expand);
    StepLaw(s1, 1, expand, expand);
    assert Step(s1, 1, expand) == s2;
    StepLaw(s2, 1, expand, expand);
    assert Step(s2, 1, expand) == s3;
    assert Run(s3, 1, maxPages, expand) == s3;
    assert Run(s2, 1, maxPages, expand) == s3;
    assert Run(s1, 1, maxPages, expand) == s3;
  }

  /** The visit of the start page queues both children at depth 1. */
  lemma TwoChildrenRoot(start: string, a: string, b: string, expand: string -> seq<string>)
    requires start != a && start != b && a != b && expand(start) == [a, b]
    ensures Step(Start(start, {}, map[]), 1, expand)
         == CrawlState([Entry(start, 0), Entry(a, 1), Entry(b, 1)], 1, {start}, map[start := 0, a := 1, b := 1])
  {
    var s0 := Start(start, {}, map[]);
    var popped := s0.(head := 1, visited := {start});
    var log := [Entry(start, 0), Entry(a, 1), Entry(b, 1)];
    var s1 := CrawlState(log, 1, {start}, map[start := 0, a := 1, b := 1]);
    var mid := CrawlState(log[..2], 1, {start}, map[start := 0, a := 1]);
    assert Admit(a, 0, 1, popped) == mid;
    assert Admit(b, 0, 1, mid) == s1;
    assert EnqueueLinks([b], 0, 1, mid) == s1 by {
      assert [b][1..] == [];
      assert EnqueueLinks([], 0, 1, s1) == s1;
    }
    assert EnqueueLinks([a, b], 0, 1, popped) == s1 by {
      assert [a, b][1..] == [b];
    }
    assert s0.visited + {start} == {start};
    StepVisits(s0, 1, expand, [a, b]);
  }

  /** `list(self.visited)`: every visited URL once, in no particular order. */
  method ListOf(s: set<string>) returns (r: seq<string>)
    ensures |r| == |s| && Distinct(r)
    ensures forall u :: u in r <==> u in s
  {
    r := [];
    var rest := s;
    while rest != {}
      invariant |r| + |rest| == |s| && Distinct(r)
      invariant forall u :: u in r ==> u in s && u !in rest
      invariant forall u :: u in s ==> u in r || u in rest
      invariant rest <= s
      decreases |rest|
    {
      var u :| u in rest;
      r := r + [u];
      rest := rest - {u};
    }
  }
}
