/** The crawler with a shared map and a mutex: one goroutine per link, in any interleaving. */
module CrawlerMutex {
  import opened Crawler

  /** The shared map, changed only under its mutex. */
  class FetchState {
    var fetched: set<Url>

    constructor ()
      ensures fetched == {}
    {
      fetched := {};
    }

    /** Of the calls with one url, only the first answers false. */
    method TestAndSet(url: Url) returns (r: bool)
      modifies this
      ensures r == (url in old(fetched)) && fetched == old(fetched) + {url}
    {
      r := url in fetched;
      fetched := fetched + {url};
    }
  }

  /** Where a goroutine stands: about to test its url, about to fetch, starting one goroutine for
      each remaining link and then waiting for them all, or returned. */
  datatype Stage = Start | Fetching | Spawning(rest: seq<Url>) | Done

  /** `waiting` is the counter of the goroutine's wait group. */
  datatype Thread = Thread(url: Url, parent: nat, stage: Stage, waiting: int)

  datatype State = State(fetched: set<Url>, threads: seq<Thread>, log: seq<Url>)

  function Init(root: Url): State {
    State({}, [Thread(root, 0, Start, 0)], [])
  }

  /** A thread can move unless it has returned, or waits for its children. */
  predicate Enabled(s: State, i: nat) {
    && i < |s.threads| && !s.threads[i].stage.Done?
    && (s.threads[i].stage == Spawning([]) ==> s.threads[i].waiting == 0)
  }

  function Moved(ts: seq<Thread>, i: nat, stage: Stage): seq<Thread>
    requires i < |ts|
  {
    ts[i := ts[i].(stage := stage)]
  }

  /** Thread `i` returns, and tells the wait group of the thread that started it. */
  function Returned(ts: seq<Thread>, i: nat): seq<Thread>
    requires i < |ts|
  {
    var p, ts' := ts[i].parent, Moved(ts, i, Done);
    if p < i then ts'[p := ts'[p].(waiting := ts'[p].waiting - 1)] else ts'
  }

  /** Thread `i` starts a goroutine for the first of its remaining links. */
  function Spawned(ts: seq<Thread>, i: nat): seq<Thread>
    requires i < |ts| && ts[i].stage.Spawning? && ts[i].stage.rest != []
  {
    var rest := ts[i].stage.rest;
    ts[i := ts[i].(stage := Spawning(rest[1..]), waiting := ts[i].waiting + 1)] + [Thread(rest[0], i, Start, 0)]
  }

  /** One step of thread `i`. */
  function Next(web: Web, s: State, i: nat): State
    requires Enabled(s, i)
  {
    var t := s.threads[i];
    match t.stage
    case Start =>
      if t.url in s.fetched then s.(threads := Returned(s.threads, i))
      else s.(fetched := s.fetched + {t.url}, threads := Moved(s.threads, i, Fetching))
    case Fetching =>
      var ts := if t.url in web then Moved(s.threads, i, Spawning(web[t.url])) else Returned(s.threads, i);
      s.(threads := ts, log := s.log + [t.url])
    case Spawning(rest) =>
      s.(threads := if rest == [] then Returned(s.threads, i) else Spawned(s.threads, i))
    case Done => s
  }

  /** A schedule lists the threads in the order in which they move. */
  predicate Legal(web: Web, s: State, schedule: seq<nat>)
    decreases |schedule|
  {
    schedule == [] || (Enabled(s, schedule[0]) && Legal(web, Next(web, s, schedule[0]), schedule[1..]))
  }

  function After(web: Web, s: State, schedule: seq<nat>): State
    requires Legal(web, s, schedule)
    decreases |schedule|
  {
    if schedule == [] then s else After(web, Next(web, s, schedule[0]), schedule[1..])
  }

  // ---------------------------------------------------------------------------------------
  // The tree of threads and its wait groups
  // ---------------------------------------------------------------------------------------

  predicate Tree(ts: seq<Thread>) {
    |ts| > 0 && forall j :: 0 < j < |ts| ==> ts[j].parent < j
  }

  /** The children of `i` that have not returned. */
  function Live(ts: seq<Thread>, i: nat): set<nat> {
    set j | 0 < j < |ts| && ts[j].parent == i && !ts[j].stage.Done?
  }

  predicate ParentWaits(ts: seq<Thread>, j: nat) {
    j < |ts| && ts[j].parent < |ts| && ts[ts[j].parent].stage.Spawning?
  }

  /** Wait groups count the children that have not returned, and their parent has not either. */
  ghost predicate Waits(ts: seq<Thread>) {
    && Tree(ts)
    && (forall i :: 0 <= i < |ts| ==> ts[i].waiting == |Live(ts, i)|)
    && (forall j {:trigger ParentWaits(ts, j)} :: 0 < j < |ts| && !ts[j].stage.Done? ==> ParentWaits(ts, j))
  }

  lemma LiveAfterMove(ts: seq<Thread>, i: nat, stage: Stage, k: nat)
    requires i < |ts| && !ts[i].stage.Done? && !stage.Done?
    ensures Live(Moved(ts, i, stage), k) == Live(ts, k)
  {
  }

  lemma MoveWaits(ts: seq<Thread>, i: nat, stage: Stage)
    requires Waits(ts) && i < |ts| && (ts[i].stage.Start? || ts[i].stage.Fetching?) && !stage.Done?
    ensures Waits(Moved(ts, i, stage))
  {
    var ts' := Moved(ts, i, stage);
    forall k | 0 <= k < |ts'|
      ensures ts'[k].waiting == |Live(ts', k)|
    {
      LiveAfterMove(ts, i, stage, k);
    }
    forall j | 0 < j < |ts'| && !ts'[j].stage.Done?
      ensures ParentWaits(ts', j)
    {
      assert ParentWaits(ts, j);
    }
  }

  lemma LiveAfterReturn(ts: seq<Thread>, i: nat, k: nat)
    requires Tree(ts) && i < |ts| && !ts[i].stage.Done?
    ensures Live(Returned(ts, i), k) == Live(ts, k) - {i}
    ensures i in Live(ts, k) <==> 0 < i && ts[i].parent == k
  {
  }

  lemma ReturnWaits(ts: seq<Thread>, i: nat)
    requires Waits(ts) && i < |ts| && !ts[i].stage.Done? && Live(ts, i) == {}
    ensures Waits(Returned(ts, i))
  {
    var ts' := Returned(ts, i);
    forall k | 0 <= k < |ts'|
      ensures ts'[k].waiting == |Live(ts', k)|
    {
      LiveAfterReturn(ts, i, k);
      if i !in Live(ts, k) {
        assert Live(ts, k) - {i} == Live(ts, k);
      }
    }
    forall j | 0 < j < |ts'| && !ts'[j].stage.Done?
      ensures ParentWaits(ts', j)
    {
      assert ParentWaits(ts, j);
      assert j !in Live(ts, i);
    }
  }

  lemma LiveAfterSpawn(ts: seq<Thread>, i: nat, k: nat)
    requires Tree(ts) && i < |ts| && ts[i].stage.Spawning? && ts[i].stage.rest != []
    ensures Live(Spawned(ts, i), k) == Live(ts, k) + if k == i then {|ts|} else {}
    ensures |ts| !in Live(ts, k)
  {
  }

  lemma SpawnCounts(ts: seq<Thread>, i: nat, k: nat)
    requires Tree(ts) && i < |ts| && ts[i].stage.Spawning? && ts[i].stage.rest != []
    requires k <= |ts| && (k < |ts| ==> ts[k].waiting == |Live(ts, k)|)
    ensures Spawned(ts, i)[k].waiting == |Live(Spawned(ts, i), k)|
  {
    LiveAfterSpawn(ts, i, k);
    if k == |ts| {
      assert Live(ts, k) == {};
    }
  }

  lemma SpawnWaits(ts: seq<Thread>, i: nat)
    requires Waits(ts) && i < |ts| && ts[i].stage.Spawning? && ts[i].stage.rest != []
    ensures Waits(Spawned(ts, i))
  {
    var ts' := Spawned(ts, i);
    forall k | 0 <= k < |ts'|
      ensures ts'[k].waiting == |Live(ts', k)|
    {
      SpawnCounts(ts, i, k);
    }
    forall j | 0 < j < |ts'| && !ts'[j].stage.Done?
      ensures ParentWaits(ts', j)
    {
      assert j < |ts| ==> ParentWaits(ts, j);
    }
  }

  /** A thread that returns has no live children. */
  lemma NoLiveChild(ts: seq<Thread>, i: nat)
    requires Waits(ts) && i < |ts| && !ts[i].stage.Done?
    requires ts[i].stage.Spawning? ==> ts[i].waiting == 0
    ensures Live(ts, i) == {}
  {
    if !ts[i].stage.Spawning? {
      forall j | 0 < j < |ts| && ts[j].parent == i
        ensures ts[j].stage.Done?
      {
        assert !ParentWaits(ts, j);
      }
    }
  }

  lemma WaitsStep(web: Web, s: State, i: nat)
    requires Waits(s.threads) && Enabled(s, i)
    ensures Waits(Next(web, s, i).threads)
  {
    var t := s.threads[i];
    if Next(web, s, i).threads == Returned(s.threads, i) && (t.stage.Spawning? ==> t.stage.rest == []) {
      NoLiveChild(s.threads, i);
      ReturnWaits(s.threads, i);
    } else {
      match t.stage
      case Start => MoveWaits(s.threads, i, Fetching);
      case Fetching => MoveWaits(s.threads, i, Spawning(web[t.url]));
      case Spawning(rest) => SpawnWaits(s.threads, i);
    }
  }

  /** When the first thread has returned, all have. */
  lemma {:induction false} AllReturned(ts: seq<Thread>, j: nat)
    requires Waits(ts) && j < |ts| && ts[0].stage.Done?
    ensures ts[j].stage.Done?
  {
    if j > 0 && !ts[j].stage.Done? {
      assert ParentWaits(ts, j);
      AllReturned(ts, ts[j].parent);
    }
  }

  /** Until then some thread can move: the last one that has not returned. */
  lemma {:induction false} LastMoves(s: State, k: nat) returns (i: nat)
    requires Waits(s.threads) && !s.threads[0].stage.Done? && k < |s.threads|
    requires forall j :: k < j < |s.threads| ==> s.threads[j].stage.Done?
    ensures Enabled(s, i)
    decreases k
  {
    if s.threads[k].stage.Done? {
      i := LastMoves(s, k - 1);
    } else {
      i := k;
      assert forall j :: j in Live(s.threads, k) ==> k < j;
      assert Live(s.threads, k) == {};
    }
  }

  // ---------------------------------------------------------------------------------------
  // What has been fetched
  // ---------------------------------------------------------------------------------------

  /** The links of `u` that are still to be looked at include `v`. */
  predicate Ahead(t: Thread, u: Url, v: Url) {
    t.url == u && (t.stage.Fetching? || (t.stage.Spawning? && v in t.stage.rest))
  }

  ghost predicate Followed(ts: seq<Thread>, u: Url, v: Url) {
    (exists j :: 0 <= j < |ts| && ts[j].url == v) || (exists i :: 0 <= i < |ts| && Ahead(ts[i], u, v))
  }

  /** Each thread's url is among `all`, and marked once the thread has tested it. */
  predicate ThreadOk(web: Web, all: set<Url>, fetched: set<Url>, t: Thread) {
    && t.url in all
    && (t.stage.Start? || t.url in fetched)
    && (t.stage.Spawning? ==> forall v :: v in t.stage.rest ==> v in all)
  }

  ghost predicate Found(web: Web, all: set<Url>, s: State) {
    && (forall i :: 0 <= i < |s.threads| ==> ThreadOk(web, all, s.fetched, s.threads[i]))
    && s.fetched <= all
    && (forall u, v :: u in s.fetched && v in Links(web, u) ==> Followed(s.threads, u, v))
  }

  /** What is marked has been fetched once, or is being fetched by one thread. */
  ghost predicate FetchedOnce(s: State) {
    && (forall i, j :: 0 <= i < j < |s.log| ==> s.log[i] != s.log[j])
    && (forall u :: u in s.log ==> u in s.fetched)
    && (forall i :: 0 <= i < |s.threads| && s.threads[i].stage.Fetching? ==>
          s.threads[i].url in s.fetched && s.threads[i].url !in s.log)
    && (forall i, j :: 0 <= i < j < |s.threads| && s.threads[i].stage.Fetching? && s.threads[j].stage.Fetching? ==>
          s.threads[i].url != s.threads[j].url)
    && (forall u :: u in s.fetched ==> u in s.log || BeingFetched(s.threads, u))
  }

  ghost predicate BeingFetched(ts: seq<Thread>, u: Url) {
    exists i :: 0 <= i < |ts| && ts[i].stage.Fetching? && ts[i].url == u
  }

  /** A step of thread `i`: the urls of threads stay, and so do the stages of the others. */
  predicate OnlyMoves(ts: seq<Thread>, ts': seq<Thread>, i: nat) {
    && i < |ts| <= |ts'|
    && (forall j :: 0 <= j < |ts| ==> ts'[j].url == ts[j].url)
    && (forall j :: 0 <= j < |ts| && j != i ==> ts'[j].stage == ts[j].stage)
    && (forall j :: |ts| <= j < |ts'| ==> ts'[j].stage == Start)
  }

  lemma StepOnlyMoves(web: Web, s: State, i: nat)
    requires Enabled(s, i)
    ensures OnlyMoves(s.threads, Next(web, s, i).threads, i)
  {
  }

  lemma FollowedStep(ts: seq<Thread>, ts': seq<Thread>, i: nat, u: Url, v: Url)
    requires OnlyMoves(ts, ts', i) && Followed(ts, u, v)
    requires Ahead(ts[i], u, v) ==> Followed(ts', u, v)
    ensures Followed(ts', u, v)
  {
    if k :| 0 <= k < |ts| && ts[k].url == v {
      assert ts'[k].url == v;
    } else {
      var k :| 0 <= k < |ts| && Ahead(ts[k], u, v);
      if k != i {
        assert Ahead(ts'[k], u, v);
      }
    }
  }

  /** What thread `i` had ahead of it is still ahead of it, or has been given a thread. */
  lemma AheadStep(web: Web, s: State, i: nat, u: Url, v: Url)
    requires Enabled(s, i) && Ahead(s.threads[i], u, v) && v in Links(web, u)
    ensures Followed(Next(web, s, i).threads, u, v)
  {
    var ts' := Next(web, s, i).threads;
    if s.threads[i].stage.Spawning? && s.threads[i].stage.rest[0] == v {
      assert ts'[|s.threads|].url == v;
    } else {
      assert Ahead(ts'[i], u, v);
    }
  }

  lemma LinksFollowedStep(web: Web, s: State, i: nat, u: Url, v: Url)
    requires Enabled(s, i) && u in Next(web, s, i).fetched && v in Links(web, u)
    requires u in s.fetched ==> Followed(s.threads, u, v)
    ensures Followed(Next(web, s, i).threads, u, v)
  {
    StepOnlyMoves(web, s, i);
    if u in s.fetched {
      if Ahead(s.threads[i], u, v) {
        AheadStep(web, s, i, u, v);
      }
      FollowedStep(s.threads, Next(web, s, i).threads, i, u, v);
    } else {
      assert Ahead(Next(web, s, i).threads[i], u, v);
    }
  }

  lemma ThreadsOkStep(web: Web, all: set<Url>, s: State, i: nat, k: nat)
    requires Closed(web, all) && Enabled(s, i) && k < |Next(web, s, i).threads|
    requires forall j :: 0 <= j < |s.threads| ==> ThreadOk(web, all, s.fetched, s.threads[j])
    ensures ThreadOk(web, all, Next(web, s, i).fetched, Next(web, s, i).threads[k])
  {
    StepOnlyMoves(web, s, i);
    assert ThreadOk(web, all, s.fetched, s.threads[i]);
    if k < |s.threads| {
      assert ThreadOk(web, all, s.fetched, s.threads[k]);
    }
  }

  lemma FoundStep(web: Web, all: set<Url>, s: State, i: nat)
    requires Closed(web, all) && Found(web, all, s) && Enabled(s, i)
    ensures Found(web, all, Next(web, s, i))
  {
    var s' := Next(web, s, i);
    forall k | 0 <= k < |s'.threads|
      ensures ThreadOk(web, all, s'.fetched, s'.threads[k])
    {
      ThreadsOkStep(web, all, s, i, k);
    }
    assert ThreadOk(web, all, s.fetched, s.threads[i]);
    forall u, v | u in s'.fetched && v in Links(web, u)
      ensures Followed(s'.threads, u, v)
    {
      LinksFollowedStep(web, s, i, u, v);
    }
  }

  lemma BeingFetchedStep(ts: seq<Thread>, ts': seq<Thread>, i: nat, u: Url)
    requires OnlyMoves(ts, ts', i) && BeingFetched(ts, u)
    requires ts[i].stage.Fetching? && ts[i].url == u ==> BeingFetched(ts', u)
    ensures BeingFetched(ts', u)
  {
    var k :| 0 <= k < |ts| && ts[k].stage.Fetching? && ts[k].url == u;
    if k != i {
      assert ts'[k].stage.Fetching? && ts'[k].url == u;
    }
  }

  /** Starting a fetch: the url is new. */
  lemma MarkOnce(s: State, s': State, i: nat)
    requires FetchedOnce(s) && OnlyMoves(s.threads, s'.threads, i)
    requires s'.threads[i].stage.Fetching? && s.threads[i].url !in s.fetched
    requires s'.fetched == s.fetched + {s.threads[i].url} && s'.log == s.log
    ensures FetchedOnce(s')
  {
    forall u | u in s'.fetched
      ensures u in s'.log || BeingFetched(s'.threads, u)
    {
      if u == s.threads[i].url {
        assert s'.threads[i].url == u;
      } else if u !in s.log {
        BeingFetchedStep(s.threads, s'.threads, i, u);
      }
    }
  }

  /** The fetch itself. */
  lemma LogOnce(s: State, s': State, i: nat)
    requires FetchedOnce(s) && OnlyMoves(s.threads, s'.threads, i)
    requires s.threads[i].stage.Fetching? && !s'.threads[i].stage.Fetching?
    requires s'.fetched == s.fetched && s'.log == s.log + [s.threads[i].url]
    ensures FetchedOnce(s')
  {
    forall u | u in s'.fetched
      ensures u in s'.log || BeingFetched(s'.threads, u)
    {
      if u !in s'.log {
        assert u != s.threads[i].url by {
          assert s'.log[|s.log|] == s.threads[i].url;
        }
        BeingFetchedStep(s.threads, s'.threads, i, u);
      }
    }
  }

  /** Any other step. */
  lemma IdleOnce(s: State, s': State, i: nat)
    requires FetchedOnce(s) && OnlyMoves(s.threads, s'.threads, i)
    requires !s.threads[i].stage.Fetching? && !s'.threads[i].stage.Fetching?
    requires s'.fetched == s.fetched && s'.log == s.log
    ensures FetchedOnce(s')
  {
    forall u | u in s'.fetched
      ensures u in s'.log || BeingFetched(s'.threads, u)
    {
      if u !in s.log {
        BeingFetchedStep(s.threads, s'.threads, i, u);
      }
    }
  }

  lemma FetchedOnceStep(web: Web, s: State, i: nat)
    requires Enabled(s, i) && FetchedOnce(s)
    ensures FetchedOnce(Next(web, s, i))
  {
    var s' := Next(web, s, i);
    StepOnlyMoves(web, s, i);
    if s'.threads[i].stage.Fetching? {
      MarkOnce(s, s', i);
    } else if s.threads[i].stage.Fetching? {
      LogOnce(s, s', i);
    } else {
      IdleOnce(s, s', i);
    }
  }

  // ---------------------------------------------------------------------------------------
  // Whole runs
  // ---------------------------------------------------------------------------------------

  ghost predicate Inv(web: Web, all: set<Url>, s: State) {
    Waits(s.threads) && Found(web, all, s) && FetchedOnce(s)
  }

  lemma {:induction false} InvRun(web: Web, all: set<Url>, s: State, schedule: seq<nat>)
    requires Closed(web, all) && Inv(web, all, s) && Legal(web, s, schedule)
    ensures Inv(web, all, After(web, s, schedule))
    ensures After(web, s, schedule).threads[0].url == s.threads[0].url
    decreases |schedule|
  {
    if schedule != [] {
      var i := schedule[0];
      WaitsStep(web, s, i);
      FoundStep(web, all, s, i);
      FetchedOnceStep(web, s, i);
      StepOnlyMoves(web, s, i);
      InvRun(web, all, Next(web, s, i), schedule[1..]);
    }
  }

  lemma InvInit(web: Web, root: Url)
    ensures Inv(web, Reachable(web, root), Init(root))
  {
    ReachableClosed(web, root);
    assert Live(Init(root).threads, 0) == {};
  }

  /** No thread left: what is marked is closed, and has been fetched. */
  lemma AllFetched(web: Web, all: set<Url>, s: State)
    requires Found(web, all, s) && FetchedOnce(s)
    requires forall j :: 0 <= j < |s.threads| ==> s.threads[j].stage.Done?
    ensures Closed(web, s.fetched) && (forall u :: u in s.log <==> u in s.fetched)
  {
    forall u, v | u in s.fetched && v in Links(web, u)
      ensures v in s.fetched
    {
      assert Followed(s.threads, u, v);
      var k :| 0 <= k < |s.threads| && s.threads[k].url == v;
      assert ThreadOk(web, all, s.fetched, s.threads[k]);
    }
  }

  /** In every interleaving, when the call for `root` returns, every reachable url has been fetched
      exactly once, nothing else has, and no goroutine is left. */
  lemma CrawlsAll(web: Web, root: Url, schedule: seq<nat>)
    requires Legal(web, Init(root), schedule)
    requires After(web, Init(root), schedule).threads != [] && After(web, Init(root), schedule).threads[0].stage.Done?
    ensures Complete(web, root, After(web, Init(root), schedule).log)
    ensures forall t :: t in After(web, Init(root), schedule).threads ==> t.stage.Done?
  {
    var all, s := Reachable(web, root), After(web, Init(root), schedule);
    ReachableClosed(web, root);
    InvInit(web, root);
    InvRun(web, all, Init(root), schedule);
    forall j | 0 <= j < |s.threads|
      ensures s.threads[j].stage.Done?
    {
      AllReturned(s.threads, j);
    }
    AllFetched(web, all, s);
    assert ThreadOk(web, all, s.fetched, s.threads[0]);
    forall u
      ensures u in s.log <==> Reaches(web, root, u)
    {
      if Reaches(web, root, u) {
        ClosedHoldsReachable(web, s.fetched, root, u);
      }
    }
  }

  /** Until then, no run is stuck. */
  lemma NeverStuck(web: Web, root: Url, schedule: seq<nat>)
    requires Legal(web, Init(root), schedule)
    ensures var s := After(web, Init(root), schedule);
            s.threads != [] && (s.threads[0].stage.Done? || exists i :: Enabled(s, i))
  {
    var s := After(web, Init(root), schedule);
    ReachableClosed(web, root);
    InvInit(web, root);
    InvRun(web, Reachable(web, root), Init(root), schedule);
    if !s.threads[0].stage.Done? {
      var i := LastMoves(s, |s.threads| - 1);
    }
  }

  // ---------------------------------------------------------------------------------------
  // Every run ends
  // ---------------------------------------------------------------------------------------

  ghost predicate Bounded(web: Web, b: nat) {
    forall u :: |Links(web, u)| <= b
  }

  lemma {:induction false} SomeBound(web: Web) returns (b: nat)
    ensures Bounded(web, b)
    decreases |web|
  {
    if web == map[] {
      b := 0;
    } else {
      var u :| u in web;
      var rest := web - {u};
      var c := SomeBound(rest);
      b := if |web[u]| > c then |web[u]| else c;
      forall v
        ensures |Links(web, v)| <= b
      {
        assert v != u ==> Links(web, v) == Links(rest, v);
      }
    }
  }

  /** What a thread may still cost, if no page has more than `b` links. */
  function Cost(b: nat, t: Thread): nat {
    match t.stage
    case Start => 1
    case Fetching => 2 + 2 * b
    case Spawning(rest) => 1 + 2 * |rest|
    case Done => 0
  }

  function Costs(b: nat, ts: seq<Thread>): nat {
    if ts == [] then 0 else Costs(b, ts[..|ts|-1]) + Cost(b, ts[|ts|-1])
  }

  lemma {:induction false} CostOfUpdate(b: nat, ts: seq<Thread>, i: nat, t: Thread)
    requires i < |ts|
    ensures Costs(b, ts[i := t]) == Costs(b, ts) - Cost(b, ts[i]) + Cost(b, t)
  {
    var n := |ts| - 1;
    if i == n {
      assert ts[i := t][..n] == ts[..n];
    } else {
      assert ts[i := t][..n] == ts[..n][i := t];
      CostOfUpdate(b, ts[..n], i, t);
    }
  }

  lemma CostOfReturn(b: nat, ts: seq<Thread>, i: nat)
    requires i < |ts| && !ts[i].stage.Done?
    ensures Costs(b, Returned(ts, i)) < Costs(b, ts)
  {
    var p, ts' := ts[i].parent, Moved(ts, i, Done);
    CostOfUpdate(b, ts, i, ts[i].(stage := Done));
    if p < i {
      CostOfUpdate(b, ts', p, ts'[p].(waiting := ts'[p].waiting - 1));
    }
  }

  lemma CostOfSpawn(b: nat, ts: seq<Thread>, i: nat)
    requires i < |ts| && ts[i].stage.Spawning? && ts[i].stage.rest != []
    ensures Costs(b, Spawned(ts, i)) < Costs(b, ts)
  {
    var rest := ts[i].stage.rest;
    var t := ts[i].(stage := Spawning(rest[1..]), waiting := ts[i].waiting + 1);
    CostOfUpdate(b, ts, i, t);
    assert Spawned(ts, i)[..|ts|] == ts[i := t];
  }

  function Measure(b: nat, all: set<Url>, s: State): nat {
    (2 + 2 * b) * |all - s.fetched| + Costs(b, s.threads)
  }

  lemma MeasureOfMark(b: nat, all: set<Url>, s: State, i: nat)
    requires i < |s.threads| && s.threads[i].stage.Start? && s.threads[i].url in all - s.fetched
    ensures Measure(b, all, s.(fetched := s.fetched + {s.threads[i].url}, threads := Moved(s.threads, i, Fetching)))
            < Measure(b, all, s)
  {
    var u := s.threads[i].url;
    CostOfUpdate(b, s.threads, i, s.threads[i].(stage := Fetching));
    assert all - s.fetched == (all - (s.fetched + {u})) + {u};
    var k := |all - (s.fetched + {u})|;
    assert (2 + 2 * b) * (k + 1) == (2 + 2 * b) * k + (2 + 2 * b);
  }

  lemma MeasureFalls(web: Web, b: nat, all: set<Url>, s: State, i: nat)
    requires Bounded(web, b) && Found(web, all, s) && Enabled(s, i)
    ensures Measure(b, all, Next(web, s, i)) < Measure(b, all, s)
  {
    var t, ts := s.threads[i], s.threads;
    assert ThreadOk(web, all, s.fetched, t);
    match t.stage
    case Start =>
      if t.url in s.fetched {
        CostOfReturn(b, ts, i);
      } else {
        MeasureOfMark(b, all, s, i);
      }
    case Fetching =>
      if t.url in web {
        assert |Links(web, t.url)| <= b;
        CostOfUpdate(b, ts, i, t.(stage := Spawning(web[t.url])));
      } else {
        CostOfReturn(b, ts, i);
      }
    case Spawning(rest) =>
      if rest == [] {
        CostOfReturn(b, ts, i);
      } else {
        CostOfSpawn(b, ts, i);
      }
  }

  lemma {:induction false} RunShort(web: Web, b: nat, all: set<Url>, s: State, schedule: seq<nat>)
    requires Bounded(web, b) && Closed(web, all) && Found(web, all, s) && Legal(web, s, schedule)
    ensures |schedule| <= Measure(b, all, s)
    decreases |schedule|
  {
    if schedule != [] {
      FoundStep(web, all, s, schedule[0]);
      MeasureFalls(web, b, all, s, schedule[0]);
      RunShort(web, b, all, Next(web, s, schedule[0]), schedule[1..]);
    }
  }

  lemma InitMeasure(b: nat, all: set<Url>, root: Url)
    ensures Measure(b, all, Init(root)) == (2 + 2 * b) * |all| + 1
  {
    var s := Init(root);
    assert all - s.fetched == all;
    assert s.threads[..0] == [] && Costs(b, s.threads) == 1;
  }

  lemma ScheduleShort(web: Web, b: nat, root: Url, schedule: seq<nat>)
    requires Bounded(web, b) && Legal(web, Init(root), schedule)
    ensures |schedule| <= (2 + 2 * b) * |Reachable(web, root)| + 1
  {
    var all := Reachable(web, root);
    ReachableClosed(web, root);
    InvInit(web, root);
    RunShort(web, b, all, Init(root), schedule);
    InitMeasure(b, all, root);
  }

  /** No schedule is longer than a bound known beforehand: every crawl ends. */
  lemma CrawlEnds(web: Web, root: Url) returns (bound: nat)
    ensures forall schedule :: Legal(web, Init(root), schedule) ==> |schedule| <= bound
  {
    var b := SomeBound(web);
    bound := (2 + 2 * b) * |Reachable(web, root)| + 1;
    forall schedule | Legal(web, Init(root), schedule)
      ensures |schedule| <= bound
    {
      ScheduleShort(web, b, root, schedule);
    }
  }

  lemma AfterCons(web: Web, s: State, i: nat, rest: seq<nat>)
    requires Enabled(s, i) && Legal(web, Next(web, s, i), rest)
    ensures Legal(web, s, [i] + rest) && After(web, s, [i] + rest) == After(web, Next(web, s, i), rest)
  {
    assert ([i] + rest)[1..] == rest;
  }

  /** Links are fetched at the same time: if the first two links of a page differ from it and from each other,
      both can be in the middle of their fetch at once. */
  lemma FetchesAtOnce(web: Web, root: Url) returns (schedule: seq<nat>)
    requires root in web && |web[root]| >= 2 && web[root][0] != web[root][1]
    requires web[root][0] != root && web[root][1] != root
    ensures Legal(web, Init(root), schedule)
    ensures var ts := After(web, Init(root), schedule).threads;
            && |ts| == 3 && ts[1].url == web[root][0] && ts[2].url == web[root][1]
            && ts[1].stage.Fetching? && ts[2].stage.Fetching?
  {
    var s0 := Init(root);
    var s1 := Next(web, s0, 0);
    var s2 := Next(web, s1, 0);
    var s3 := Next(web, s2, 0);
    var s4 := Next(web, s3, 0);
    var s5 := Next(web, s4, 1);
    AfterCons(web, s5, 2, []);
    AfterCons(web, s4, 1, [2] + []);
    AfterCons(web, s3, 0, [1] + ([2] + []));
    AfterCons(web, s2, 0, [0] + ([1] + ([2] + [])));
    AfterCons(web, s1, 0, [0] + ([0] + ([1] + ([2] + []))));
    AfterCons(web, s0, 0, [0] + ([0] + ([0] + ([1] + ([2] + [])))));
    schedule := [0] + ([0] + ([0] + ([0] + ([1] + ([2] + [])))));
  }
}
