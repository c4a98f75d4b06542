/** Crawling a finite link graph: what a complete crawl is, and the serial crawler. */
module Crawler {

  type Url = string

  /** The pages that exist, with their links; fetching any other url is an error. */
  type Web = map<Url, seq<Url>>

  function Links(web: Web, u: Url): seq<Url> {
    if u in web then web[u] else []
  }

  /** A path of links. */
  predicate IsPath(web: Web, p: seq<Url>) {
    p != [] && forall i :: 0 <= i < |p| - 1 ==> p[i+1] in Links(web, p[i])
  }

  ghost predicate Reaches(web: Web, a: Url, b: Url) {
    exists p :: IsPath(web, p) && p[0] == a && p[|p|-1] == b
  }

  /** Following links does not leave the set. */
  predicate Closed(web: Web, s: set<Url>) {
    forall u :: u in s ==> forall v :: v in Links(web, u) ==> v in s
  }

  /** All urls there are. */
  function Universe(web: Web, root: Url): set<Url> {
    {root} + web.Keys + (set u, i | u in web && 0 <= i < |web[u]| :: web[u][i])
  }

  lemma UniverseClosed(web: Web, root: Url)
    ensures Closed(web, Universe(web, root)) && root in Universe(web, root)
  {
    forall u, v | u in Universe(web, root) && v in Links(web, u)
      ensures v in Universe(web, root)
    {
      var i :| 0 <= i < |web[u]| && web[u][i] == v;
    }
  }

  lemma ReachesSelf(web: Web, a: Url)
    ensures Reaches(web, a, a)
  {
    assert IsPath(web, [a]) && [a][0] == a;
  }

  lemma ReachesNext(web: Web, a: Url, u: Url, v: Url)
    requires Reaches(web, a, u) && v in Links(web, u)
    ensures Reaches(web, a, v)
  {
    var p :| IsPath(web, p) && p[0] == a && p[|p|-1] == u;
    var q := p + [v];
    assert IsPath(web, q) && q[0] == a && q[|q|-1] == v;
  }

  lemma {:induction false} PathStaysInside(web: Web, s: set<Url>, p: seq<Url>)
    requires Closed(web, s) && IsPath(web, p) && p[0] in s
    ensures p[|p|-1] in s
    decreases |p|
  {
    if |p| > 1 {
      var q := p[1..];
      assert p[1] in Links(web, p[0]);
      assert forall i :: 0 <= i < |q| ==> q[i] == p[i+1];
      PathStaysInside(web, s, q);
    }
  }

  lemma ClosedHoldsReachable(web: Web, s: set<Url>, a: Url, b: Url)
    requires Closed(web, s) && a in s && Reaches(web, a, b)
    ensures b in s
  {
    var p :| IsPath(web, p) && p[0] == a && p[|p|-1] == b;
    PathStaysInside(web, s, p);
  }

  /** The urls to find: there are finitely many. */
  ghost function Reachable(web: Web, root: Url): set<Url> {
    set u | u in Universe(web, root) && Reaches(web, root, u)
  }

  lemma ReachableClosed(web: Web, root: Url)
    ensures Closed(web, Reachable(web, root)) && root in Reachable(web, root)
    ensures forall u :: u in Reachable(web, root) <==> Reaches(web, root, u)
  {
    UniverseClosed(web, root);
    ReachesSelf(web, root);
    forall u, v | u in Reachable(web, root) && v in Links(web, u)
      ensures v in Reachable(web, root)
    {
      ReachesNext(web, root, u, v);
    }
    forall u | Reaches(web, root, u)
      ensures u in Reachable(web, root)
    {
      ClosedHoldsReachable(web, Universe(web, root), root, u);
    }
  }

  /** A crawl from `root` that fetched, in this order, every reachable url once and nothing else. */
  ghost predicate Complete(web: Web, root: Url, log: seq<Url>) {
    && (forall u :: u in log <==> Reaches(web, root, u))
    && (forall i, j :: 0 <= i < j < |log| ==> log[i] != log[j])
  }

  /** A closed set of reachable urls that holds the root is the set of all reachable urls. */
  lemma CrawlComplete(web: Web, root: Url, fetched: set<Url>, log: seq<Url>)
    requires Closed(web, fetched) && root in fetched && multiset(log) == multiset(fetched)
    requires forall u :: u in fetched ==> Reaches(web, root, u)
    ensures Complete(web, root, log)
  {
    forall u
      ensures u in log <==> Reaches(web, root, u)
    {
      assert u in log <==> u in multiset(log);
      if Reaches(web, root, u) {
        ClosedHoldsReachable(web, fetched, root, u);
      }
    }
    forall i, j | 0 <= i < j < |log|
      ensures log[i] != log[j]
    {
      assert log == log[..j] + [log[j]] + log[j+1..];
      assert log[i] in log[..j];
      assert multiset(log)[log[j]] == 1;
    }
  }

  function Elements(urls: seq<Url>): set<Url> {
    if urls == [] then {} else Elements(urls[..|urls|-1]) + {urls[|urls|-1]}
  }

  lemma OneMoreElement(urls: seq<Url>, i: nat)
    requires i < |urls|
    ensures Elements(urls[..i+1]) == Elements(urls[..i]) + {urls[i]}
  {
    assert urls[..i+1][..i] == urls[..i];
  }

  lemma {:induction false} InElements(urls: seq<Url>, u: Url)
    ensures u in Elements(urls) <==> u in urls
  {
    if urls != [] {
      InElements(urls[..|urls|-1], u);
      assert urls == urls[..|urls|-1] + [urls[|urls|-1]];
    }
  }

  // ---------------------------------------------------------------------------------------
  // Serial crawler
  // ---------------------------------------------------------------------------------------

  class SerialCrawler {
    const web: Web
    var fetched: set<Url>
    var log: seq<Url>

    constructor (web: Web)
      ensures this.web == web && fetched == {} && log == []
    {
      this.web, fetched, log := web, {}, [];
    }

    /** Everything fetched by this call is reachable from its url, all its links have been
        followed, and each was fetched once. */
    method Serial(url: Url, ghost all: set<Url>)
      requires Closed(web, all) && url in all && fetched <= all
      modifies this`fetched, this`log
      ensures fetched <= all && url in fetched && Explored(web, url, old(fetched), fetched, {})
      ensures LoggedOnce(old(log), log, old(fetched), fetched)
      decreases |all - fetched|
    {
      if url in fetched {
        return;
      }
      ghost var before := fetched;
      fetched := fetched + {url};
      log := log + [url];
      StartExploring(web, url, before, old(log));
      var urls := [];
      if url in web {
        urls := web[url];
      }
      var i := 0;
      while i < |urls|
        invariant 0 <= i <= |urls|
        invariant url in fetched && fetched <= all && Explored(web, url, before, fetched, {url})
        invariant Elements(urls[..i]) <= fetched
        invariant LoggedOnce(old(log), log, before, fetched)
      {
        ghost var mid, midLog := fetched, log;
        Smaller(all, before, url, mid);
        Serial(urls[i], all);
        ExploreFurther(web, url, urls[i], before, mid, fetched);
        LogFurther(old(log), midLog, log, before, mid, fetched);
        OneMoreElement(urls, i);
        i := i + 1;
      }
      assert urls[..|urls|] == urls;
      FinishExploring(web, url, before, fetched);
    }
  }

  /** The log grew by one entry for each url fetched since `before`. */
  ghost predicate LoggedOnce(oldLog: seq<Url>, log: seq<Url>, before: set<Url>, now: set<Url>) {
    multiset(log) == multiset(oldLog) + multiset(now - before)
  }

  /** What was fetched since `before` is reachable from `url`, and its links have been followed,
      those of `except` apart. */
  ghost predicate Explored(web: Web, url: Url, before: set<Url>, now: set<Url>, except: set<Url>) {
    && before <= now
    && (forall u :: u in now - before ==> Reaches(web, url, u))
    && (forall u, v :: u in now - before - except && v in Links(web, u) ==> v in now)
  }

  lemma StartExploring(web: Web, url: Url, before: set<Url>, log: seq<Url>)
    requires url !in before
    ensures Explored(web, url, before, before + {url}, {url})
    ensures LoggedOnce(log, log + [url], before, before + {url})
  {
    ReachesSelf(web, url);
    assert before + {url} - before == {url};
  }

  lemma FinishExploring(web: Web, url: Url, before: set<Url>, now: set<Url>)
    requires Explored(web, url, before, now, {url}) && Elements(Links(web, url)) <= now
    ensures Explored(web, url, before, now, {})
  {
    forall v | v in Links(web, url)
      ensures v in now
    {
      InElements(Links(web, url), v);
    }
  }

  lemma LogFurther(oldLog: seq<Url>, midLog: seq<Url>, log: seq<Url>, before: set<Url>, mid: set<Url>, now: set<Url>)
    requires before <= mid <= now && LoggedOnce(oldLog, midLog, before, mid) && LoggedOnce(midLog, log, mid, now)
    ensures LoggedOnce(oldLog, log, before, now)
  {
    assert now - before == (mid - before) + (now - mid);
    assert multiset(now - before) == multiset(mid - before) + multiset(now - mid);
  }

  lemma ExploreFurther(web: Web, url: Url, next: Url, before: set<Url>, mid: set<Url>, now: set<Url>)
    requires Explored(web, url, before, mid, {url}) && Explored(web, next, mid, now, {})
    requires next in Links(web, url)
    ensures Explored(web, url, before, now, {url})
  {
    LinkReaches(web, url, next, now - mid);
  }

  lemma Smaller(all: set<Url>, before: set<Url>, url: Url, mid: set<Url>)
    requires url in all && url !in before && before + {url} <= mid
    ensures |all - mid| < |all - before|
  {
    SubsetSmaller(all - mid, all - before - {url});
    assert all - before == (all - before - {url}) + {url};
  }

  lemma {:induction false} SubsetSmaller(a: set<Url>, b: set<Url>)
    requires a <= b
    ensures |a| <= |b|
  {
    assert b == a + (b - a);
  }

  lemma LinkReaches(web: Web, a: Url, b: Url, us: set<Url>)
    requires b in Links(web, a) && forall u :: u in us ==> Reaches(web, b, u)
    ensures forall u :: u in us ==> Reaches(web, a, u)
  {
    forall u | u in us
      ensures Reaches(web, a, u)
    {
      var p :| IsPath(web, p) && p[0] == b && p[|p|-1] == u;
      var q := [a] + p;
      assert IsPath(web, q) && q[0] == a && q[|q|-1] == u;
    }
  }

  /** From nothing, the serial crawler fetches every reachable url exactly once. */
  method CrawlSerially(web: Web, root: Url) returns (log: seq<Url>)
    ensures Complete(web, root, log)
  {
    var crawler := new SerialCrawler(web);
    UniverseClosed(web, root);
    crawler.Serial(root, Universe(web, root));
    log := crawler.log;
    assert crawler.fetched - {} == crawler.fetched;
    CrawlComplete(web, root, crawler.fetched, log);
  }
}
