/** The crawler with channels: one coordinator, and workers that run whenever they like. */
module CrawlerChannel {
  import opened Crawler

  /** The goroutines beside the coordinator, and what they have fetched so far. The starter and the
      workers in `sending` are blocked on the channel; the workers in `fetching` have not fetched
      their page yet. */
  datatype Pool = Pool(starting: bool, fetching: set<Url>, sending: set<Url>, log: seq<Url>)

  /** How many goroutines have yet to deliver their list. */
  function Unreceived(p: Pool): nat {
    |p.fetching| + |p.sending| + if p.starting then 1 else 0
  }

  /** The urls found so far are among `all`, and links have been followed except those of `out`. */
  ghost predicate Found(web: Web, all: set<Url>, fetched: set<Url>, out: set<Url>) {
    && out <= fetched <= all
    && (forall u, v :: u in fetched - out && v in Links(web, u) ==> v in fetched)
  }

  /** Each url found has been fetched once, or will be. */
  ghost predicate FetchedOnce(log: seq<Url>, fetching: set<Url>, fetched: set<Url>) {
    multiset(log) + multiset(fetching) == multiset(fetched)
  }

  /** The urls whose links are still to be followed: those of workers not yet heard from, and
      `busy`, whose list is being gone through. */
  function Out(p: Pool, busy: set<Url>): set<Url> {
    p.fetching + p.sending + busy
  }

  predicate Apart(p: Pool, busy: set<Url>) {
    p.fetching !! p.sending && busy !! p.fetching && busy !! p.sending
  }

  ghost predicate Crawling(web: Web, all: set<Url>, fetched: set<Url>, p: Pool, busy: set<Url>) {
    && Apart(p, busy)
    && Found(web, all, fetched, Out(p, busy))
    && FetchedOnce(p.log, p.fetching, fetched)
    && (p.starting ==> fetched == {})
  }

  lemma SomeUrl(us: set<Url>)
    ensures us == {} || exists u :: u in us
  {
    if forall u :: u !in us {
      assert us == {};
    }
  }

  lemma Starting(web: Web, all: set<Url>)
    ensures Crawling(web, all, {}, Pool(true, {}, {}, []), {})
  {
    var none: set<Url>, log: seq<Url> := {}, [];
    assert multiset(log) + multiset(none) == multiset(none);
  }

  /** A worker fetches its page and is ready to send. */
  function Fetched(p: Pool, u: Url): Pool {
    p.(fetching := p.fetching - {u}, sending := p.sending + {u}, log := p.log + [u])
  }

  lemma LogOne(log: seq<Url>, fetching: set<Url>, fetched: set<Url>, u: Url)
    requires FetchedOnce(log, fetching, fetched) && u in fetching
    ensures FetchedOnce(log + [u], fetching - {u}, fetched)
  {
    assert multiset(fetching) == multiset(fetching - {u}) + multiset{u};
  }

  lemma FetchMoves(p: Pool, busy: set<Url>, u: Url)
    requires Apart(p, busy) && u in p.fetching
    ensures Apart(Fetched(p, u), busy) && Out(Fetched(p, u), busy) == Out(p, busy)
    ensures Unreceived(Fetched(p, u)) == Unreceived(p)
  {
  }

  lemma FetchOne(web: Web, all: set<Url>, fetched: set<Url>, p: Pool, busy: set<Url>, u: Url)
    requires Crawling(web, all, fetched, p, busy) && u in p.fetching
    ensures Crawling(web, all, fetched, Fetched(p, u), busy)
    ensures Unreceived(Fetched(p, u)) == Unreceived(p)
  {
    LogOne(p.log, p.fetching, fetched, u);
    FetchMoves(p, busy, u);
  }

  /** Any workers run, as far as they like, while the coordinator is between two steps. */
  method Yield(web: Web, p: Pool, ghost all: set<Url>, ghost fetched: set<Url>, ghost busy: set<Url>) returns (p': Pool)
    requires Crawling(web, all, fetched, p, busy)
    ensures Crawling(web, all, fetched, p', busy)
    ensures Unreceived(p') == Unreceived(p) && p'.starting == p.starting
  {
    p' := p;
    while *
      invariant Crawling(web, all, fetched, p', busy)
      invariant Unreceived(p') == Unreceived(p) && p'.starting == p.starting
      decreases |p'.fetching|
    {
      SomeUrl(p'.fetching);
      if p'.fetching == {} {
        break;
      }
      var u :| u in p'.fetching;
      FetchOne(web, all, fetched, p', busy, u);
      p' := Fetched(p', u);
    }
  }

  lemma HearWorker(web: Web, all: set<Url>, fetched: set<Url>, p: Pool, u: Url)
    requires Crawling(web, all, fetched, p, {}) && u in p.sending
    ensures var p' := p.(sending := p.sending - {u});
            Crawling(web, all, fetched, p', {u}) && Unreceived(p') + 1 == Unreceived(p)
  {
    assert Out(p.(sending := p.sending - {u}), {u}) == Out(p, {});
  }

  /** A list the coordinator may hold: the starter's, or that of a page just fetched. */
  ghost predicate Listed(web: Web, root: Url, urls: seq<Url>, busy: set<Url>) {
    || (busy == {} && urls == [root])
    || (exists u :: busy == {u} && urls == Links(web, u))
  }

  /** Wait for the list of some worker, if need be until it has fetched its page. */
  method WaitForWorker(web: Web, p: Pool, ghost all: set<Url>, ghost fetched: set<Url>) returns (p': Pool, u: Url)
    requires Crawling(web, all, fetched, p, {}) && Unreceived(p) > 0 && !p.starting
    ensures Crawling(web, all, fetched, p', {u}) && Unreceived(p') + 1 == Unreceived(p) && !p'.starting
  {
    p' := p;
    SomeUrl(p.sending);
    SomeUrl(p.fetching);
    if p.sending == {} {
      u :| u in p.fetching;
      FetchOne(web, all, fetched, p, {}, u);
      p' := Fetched(p, u);
    } else {
      u :| u in p.sending;
    }
    HearWorker(web, all, fetched, p', u);
    p' := p'.(sending := p'.sending - {u});
  }

  /** Wait for a list; which of the waiting senders delivers is not determined. */
  method Receive(web: Web, root: Url, p: Pool, ghost all: set<Url>, ghost fetched: set<Url>)
    returns (p': Pool, urls: seq<Url>, ghost busy: set<Url>)
    requires Crawling(web, all, fetched, p, {}) && Unreceived(p) > 0
    ensures Crawling(web, all, fetched, p', busy) && Listed(web, root, urls, busy)
    ensures Unreceived(p') + 1 == Unreceived(p) && !p'.starting
  {
    p' := Yield(web, p, all, fetched, {});
    if p'.starting {
      p', urls, busy := p'.(starting := false), [root], {};
    } else {
      var u;
      p', u := WaitForWorker(web, p', all, fetched);
      urls, busy := Links(web, u), {u};
    }
  }

  /** What the starter sends, or a worker, is among the urls to find. */
  lemma ListInside(web: Web, root: Url, all: set<Url>, urls: seq<Url>, busy: set<Url>)
    requires Closed(web, all) && root in all && busy <= all && Listed(web, root, urls, busy)
    ensures forall v :: v in urls ==> v in all
  {
    if busy != {} {
      var u :| busy == {u} && urls == Links(web, u);
      assert u in busy;
    }
  }

  lemma FindOne(web: Web, all: set<Url>, fetched: set<Url>, out: set<Url>, v: Url)
    requires Found(web, all, fetched, out) && v in all && v !in fetched
    ensures Found(web, all, fetched + {v}, out + {v})
    ensures |all - (fetched + {v})| + 1 == |all - fetched|
  {
    assert fetched + {v} - (out + {v}) == fetched - out;
    assert all - fetched == (all - (fetched + {v})) + {v};
  }

  lemma OweOne(log: seq<Url>, fetching: set<Url>, fetched: set<Url>, v: Url)
    requires FetchedOnce(log, fetching, fetched) && v !in fetched && fetching <= fetched
    ensures FetchedOnce(log, fetching + {v}, fetched + {v})
  {
    assert multiset(fetching + {v}) == multiset(fetching) + multiset{v};
    assert multiset(fetched + {v}) == multiset(fetched) + multiset{v};
  }

  /** A worker is started. */
  function Started(p: Pool, v: Url): Pool {
    p.(fetching := p.fetching + {v})
  }

  lemma StartAdds(p: Pool, busy: set<Url>, v: Url)
    requires Apart(p, busy) && v !in Out(p, busy)
    ensures Apart(Started(p, v), busy) && Out(Started(p, v), busy) == Out(p, busy) + {v}
    ensures Unreceived(Started(p, v)) == Unreceived(p) + 1
  {
  }

  lemma StartOne(web: Web, all: set<Url>, fetched: set<Url>, p: Pool, busy: set<Url>, v: Url)
    requires Crawling(web, all, fetched, p, busy) && !p.starting && v in all && v !in fetched
    ensures Crawling(web, all, fetched + {v}, Started(p, v), busy) && Unreceived(Started(p, v)) == Unreceived(p) + 1
    ensures |all - (fetched + {v})| + 1 == |all - fetched|
  {
    assert p.fetching <= Out(p, busy) <= fetched;
    FindOne(web, all, fetched, Out(p, busy), v);
    OweOne(p.log, p.fetching, fetched, v);
    StartAdds(p, busy, v);
  }

  /** Start a worker if the url is new, and let the workers go on. */
  method StartIfNew(web: Web, u: Url, n: nat, fetched: set<Url>, p: Pool, ghost all: set<Url>, ghost busy: set<Url>)
    returns (n': nat, fetched': set<Url>, p': Pool)
    requires Crawling(web, all, fetched, p, busy) && n == Unreceived(p) + 1 && !p.starting && u in all
    ensures Crawling(web, all, fetched', p', busy) && n' == Unreceived(p') + 1 && !p'.starting
    ensures fetched <= fetched' && u in fetched'
    ensures Budget(all, fetched', n') <= Budget(all, fetched, n)
  {
    n', fetched', p' := n, fetched, p;
    if u !in fetched {
      StartOne(web, all, fetched, p, busy, u);
      n', fetched', p' := n + 1, fetched + {u}, Started(p, u);
    }
    p' := Yield(web, p', all, fetched', busy);
  }

  /** What bounds the lists still to be received: two for each url not yet found, and the count. */
  function Budget(all: set<Url>, fetched: set<Url>, n: nat): nat {
    2 * |all - fetched| + n
  }

  /** Start a worker for each new url of a list, while the other workers go on. The coordinator's
      count exceeds the number of undelivered lists by one: the list in hand. */
  method StartWorkers(web: Web, urls: seq<Url>, n: nat, fetched: set<Url>, p: Pool,
                      ghost all: set<Url>, ghost busy: set<Url>)
    returns (n': nat, fetched': set<Url>, p': Pool)
    requires Crawling(web, all, fetched, p, busy) && n == Unreceived(p) + 1 && !p.starting
    requires forall k :: 0 <= k < |urls| ==> urls[k] in all
    ensures Crawling(web, all, fetched', p', busy) && n' == Unreceived(p') + 1 && !p'.starting
    ensures fetched <= fetched' && forall k :: 0 <= k < |urls| ==> urls[k] in fetched'
    ensures Budget(all, fetched', n') <= Budget(all, fetched, n)
  {
    n', fetched', p' := n, fetched, p;
    for i := 0 to |urls|
      invariant Crawling(web, all, fetched', p', busy) && n' == Unreceived(p') + 1 && !p'.starting
      invariant fetched <= fetched' && forall k :: 0 <= k < i ==> urls[k] in fetched'
      invariant Budget(all, fetched', n') <= Budget(all, fetched, n)
    {
      n', fetched', p' := StartIfNew(web, urls[i], n', fetched', p', all, busy);
    }
  }

  /** The list of `busy` has been gone through. */
  lemma ListDone(web: Web, root: Url, all: set<Url>, fetched: set<Url>, p: Pool, urls: seq<Url>, busy: set<Url>)
    requires Crawling(web, all, fetched, p, busy) && Listed(web, root, urls, busy)
    requires forall k :: 0 <= k < |urls| ==> urls[k] in fetched
    ensures Crawling(web, all, fetched, p, {})
    ensures busy == {} ==> root in fetched
  {
    if busy == {} {
      assert urls[0] == root;
    } else {
      var u :| busy == {u} && urls == Links(web, u);
      assert forall v :: v in urls ==> v in fetched;
    }
  }

  /** Nothing is outstanding: the crawl is complete. */
  lemma Stopping(web: Web, root: Url, fetched: set<Url>, p: Pool)
    requires Crawling(web, Reachable(web, root), fetched, p, {}) && root in fetched && Unreceived(p) == 0
    ensures Complete(web, root, p.log)
  {
    assert p.fetching == {} && p.sending == {} && fetched - Out(p, {}) == fetched;
    assert multiset(p.log) == multiset(p.log) + multiset(p.fetching);
    CrawlComplete(web, root, fetched, p.log);
  }

  /** The coordinator. Its count is the number of undelivered lists whenever it waits, so it stops
      exactly when no goroutine is left. */
  method Coordinator(web: Web, root: Url, ghost all: set<Url>) returns (p: Pool, fetched: set<Url>)
    requires Closed(web, all) && root in all
    ensures Crawling(web, all, fetched, p, {}) && root in fetched && Unreceived(p) == 0
  {
    p := Pool(true, {}, {}, []);
    var n := 1;
    fetched := {};
    Starting(web, all);
    while true
      invariant Crawling(web, all, fetched, p, {}) && n == Unreceived(p) > 0
      invariant p.starting || root in fetched
      decreases Budget(all, fetched, n)
    {
      var urls;
      ghost var busy;
      p, urls, busy := Receive(web, root, p, all, fetched);
      ListInside(web, root, all, urls, busy);
      n, fetched, p := StartWorkers(web, urls, n, fetched, p, all, busy);
      ListDone(web, root, all, fetched, p, urls, busy);
      n := n - 1;
      if n == 0 {
        break;
      }
    }
  }

  /** Every reachable url is fetched exactly once and nothing else, and no goroutine is left. */
  method ConcurrentChannel(web: Web, root: Url) returns (p: Pool)
    ensures Complete(web, root, p.log)
    ensures !p.starting && p.fetching == {} && p.sending == {}
  {
    ReachableClosed(web, root);
    var fetched;
    p, fetched := Coordinator(web, root, Reachable(web, root));
    Stopping(web, root, fetched, p);
  }
}
