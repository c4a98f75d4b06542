/** What the distributed job writes, against the sequential program. */
module MrOutput {
  import opened StringOrder
  import opened MrReduce
  import opened MrPartition
  import opened MrCoordinator
  import opened MrMachine
  import opened MrLeases

  // ---------------------------------------------------------------------------------------
  // The sequential program
  // ---------------------------------------------------------------------------------------

  /** Sorting by key, with no promise about pairs of equal key. */
  method SortByKey(kva: seq<KeyValue>) returns (r: seq<KeyValue>)
    ensures Sorted(r) && multiset(r) == multiset(kva)
  {
    r := [];
    for i := 0 to |kva|
      invariant Sorted(r) && multiset(r) == multiset(kva[..i])
    {
      r := InsertSorted(r, kva[i]);
      assert kva[..i+1] == kva[..i] + [kva[i]];
    }
    assert kva[..|kva|] == kva;
  }

  method InsertSorted(r: seq<KeyValue>, kv: KeyValue) returns (r': seq<KeyValue>)
    requires Sorted(r)
    ensures Sorted(r') && multiset(r') == multiset(r) + multiset{kv}
  {
    var i := |r|;
    while i > 0 && !LessEq(r[i-1].key, kv.key)
      invariant 0 <= i <= |r|
      invariant forall k :: i <= k < |r| ==> LessEq(kv.key, r[k].key)
    {
      LessEqTotal(r[i-1].key, kv.key);
      i := i - 1;
    }
    forall k | 0 <= k < i
      ensures LessEq(r[k].key, kv.key)
    {
      if k < i - 1 {
        LessEqTransitive(r[k].key, r[i-1].key, kv.key);
      }
    }
    r' := r[..i] + [kv] + r[i..];
    InsertedSorted(r, i, kv);
    InsertedPairs(r, i, kv);
  }

  lemma InsertedPairs(r: seq<KeyValue>, i: nat, kv: KeyValue)
    requires i <= |r|
    ensures multiset(r[..i] + [kv] + r[i..]) == multiset(r) + multiset{kv}
  {
    assert r == r[..i] + r[i..];
  }

  lemma InsertedSorted(r: seq<KeyValue>, i: nat, kv: KeyValue)
    requires Sorted(r) && i <= |r|
    requires forall k :: 0 <= k < i ==> LessEq(r[k].key, kv.key)
    requires forall k :: i <= k < |r| ==> LessEq(kv.key, r[k].key)
    ensures Sorted(r[..i] + [kv] + r[i..])
  {
  }

  /** The sequential program: map each file, append, sort, group, reduce. */
  method Sequential(mapf: MapFn, reducef: ReduceFn, files: seq<string>)
    returns (out: seq<Line>, ghost sorted: seq<KeyValue>)
    ensures var emits := Emitted(mapf, files);
            && Sorted(sorted) && multiset(sorted) == multiset(All(emits)) && out == Lines(reducef, sorted)
            && (OrderBlind(reducef) ==> multiset(out) == multiset(LineSet(reducef, All(emits))))
  {
    ghost var emits := Emitted(mapf, files);
    var intermediate := [];
    for i := 0 to |files|
      invariant intermediate == All(emits[..i])
    {
      var kva := mapf(files[i]);
      intermediate := intermediate + kva;
      assert emits[..i+1][..i] == emits[..i];
    }
    assert emits[..|emits|] == emits;
    var kva := SortByKey(intermediate);
    sorted := kva;
    out := ReduceHelper(reducef, kva);
    LinesAreLineSet(reducef, kva);
    if OrderBlind(reducef) {
      LineSetPermutation(reducef, kva, intermediate);
    }
  }

  // ---------------------------------------------------------------------------------------
  // The files
  // ---------------------------------------------------------------------------------------

  function Part(cfg: Config, m: nat, r: nat): seq<KeyValue>
    requires m < |cfg.emits| && cfg.nReduce > 0
  {
    Bucket(cfg.hash, cfg.nReduce, cfg.emits[m], r)
  }

  /** The pairs of each map task's file for r. */
  function Parts(cfg: Config, r: nat): (ps: seq<multiset<KeyValue>>)
    requires cfg.nReduce > 0
    ensures |ps| == |cfg.emits| && forall m :: 0 <= m < |ps| ==> ps[m] == multiset(Part(cfg, m, r))
  {
    seq(|cfg.emits|, m requires 0 <= m < |cfg.emits| => multiset(Part(cfg, m, r)))
  }

  /** The pairs of the first n files for r that are not in `todo`. */
  function ReadSum(parts: seq<multiset<KeyValue>>, n: nat, todo: set<Name>, r: nat): multiset<KeyValue>
    requires n <= |parts|
  {
    if n == 0 then multiset{}
    else ReadSum(parts, n - 1, todo, r) + (if Inter(n - 1, r) in todo then multiset{} else parts[n-1])
  }

  /** Every published intermediate file holds its map task's pairs for its reduce task. */
  ghost predicate InterOk(cfg: Config, inter: map<(nat, nat), seq<KeyValue>>)
    requires cfg.nReduce > 0
  {
    forall m, r :: (m, r) in inter ==>
      m < |cfg.emits| && r < cfg.nReduce && multiset(inter[(m, r)]) == multiset(Part(cfg, m, r))
  }

  /** The lines are what reduce makes of share r, in some order sort may have left it in. */
  ghost predicate LinesOfShare(cfg: Config, r: nat, lines: seq<Line>)
    requires cfg.nReduce > 0
  {
    exists kva :: SortedShare(cfg, r, kva) && lines == Lines(cfg.reducef, kva)
  }

  /** Every published output file holds the lines of its share. */
  ghost predicate OutsOk(cfg: Config, outs: map<nat, seq<Line>>)
    requires cfg.nReduce > 0
  {
    forall r :: r in outs ==> r < cfg.nReduce && LinesOfShare(cfg, r, outs[r])
  }

  /** What a job in progress has in its hands. */
  ghost predicate Progress(cfg: Config, s: State, job: Job)
    requires cfg.nReduce > 0
  {
    match job
    case MapJob(m, _, _, Publishing(kva, next)) =>
      && m < |cfg.emits| && multiset(kva) == multiset(cfg.emits[m]) && next <= cfg.nReduce
      && forall r :: 0 <= r < next ==> (m, r) in s.inter
    case MapJob(_, _, _, _) => true
    case ReduceJob(r, _, Reading(todo, _)) => forall name :: name in todo ==> name.r == r && Present(s, name)
    case ReduceJob(r, _, ReduceGranted) => true
    case ReduceJob(r, _, _) => r in s.outs
  }

  /** A completed task's files are published. */
  ghost predicate Published(cfg: Config, s: State) {
    && (forall m, r :: 0 <= m < |s.coord.maps| && s.coord.maps[m].state.Completed? && 0 <= r < cfg.nReduce ==>
          (m, r) in s.inter)
    && (forall r :: 0 <= r < |s.coord.reduces| && s.coord.reduces[r].state.Completed? ==> r in s.outs)
  }

  ghost predicate Files(cfg: Config, s: State) {
    && cfg.nReduce > 0
    && InterOk(cfg, s.inter) && Published(cfg, s)
    && forall j :: 0 <= j < |s.jobs| ==> Progress(cfg, s, s.jobs[j])
  }

  /** A worker that is reading has the pairs of the files it has read, and no others. */
  predicate Buffer(cfg: Config, job: Job)
    requires cfg.nReduce > 0
  {
    match job
    case ReduceJob(r, _, Reading(todo, kva)) => multiset(kva) == ReadSum(Parts(cfg, r), |cfg.emits|, todo, r)
    case _ => true
  }

  /** Workers read, and output files hold, the shares and nothing else. */
  ghost predicate Exact(cfg: Config, s: State)
    requires cfg.nReduce > 0
  {
    OutsOk(cfg, s.outs) && forall j :: 0 <= j < |s.jobs| ==> Buffer(cfg, s.jobs[j])
  }

  // ---------------------------------------------------------------------------------------
  // Reading
  // ---------------------------------------------------------------------------------------

  lemma {:induction false} NothingRead(parts: seq<multiset<KeyValue>>, n: nat, todo: set<Name>, r: nat)
    requires n <= |parts|
    requires forall m :: 0 <= m < n ==> Inter(m, r) in todo
    ensures ReadSum(parts, n, todo, r) == multiset{}
  {
    if n > 0 {
      NothingRead(parts, n - 1, todo, r);
    }
  }

  lemma {:induction false} OtherRead(parts: seq<multiset<KeyValue>>, n: nat, todo: set<Name>, r: nat, name: Name)
    requires n <= |parts| && (name.Out? || name.m >= n)
    ensures ReadSum(parts, n, todo - {name}, r) == ReadSum(parts, n, todo, r)
  {
    if n > 0 {
      OtherRead(parts, n - 1, todo, r, name);
    }
  }

  lemma {:induction false} OneMoreRead(parts: seq<multiset<KeyValue>>, n: nat, todo: set<Name>, r: nat, m: nat)
    requires n <= |parts| && m < n && Inter(m, r) in todo
    ensures ReadSum(parts, n, todo - {Inter(m, r)}, r) == ReadSum(parts, n, todo, r) + parts[m]
  {
    if m == n - 1 {
      OtherRead(parts, n - 1, todo, r, Inter(m, r));
    } else {
      OneMoreRead(parts, n - 1, todo, r, m);
    }
  }

  lemma AllUpTo(emits: seq<seq<KeyValue>>, n: nat)
    requires n < |emits|
    ensures All(emits[..n+1]) == All(emits[..n]) + emits[n]
  {
    assert emits[..n+1][..n] == emits[..n];
  }

  /** When all files are read, the worker has the whole share. */
  lemma {:induction false} AllRead(cfg: Config, n: nat, r: nat)
    requires n <= |cfg.emits| && cfg.nReduce > 0
    ensures ReadSum(Parts(cfg, r), n, {}, r) == multiset(Bucket(cfg.hash, cfg.nReduce, All(cfg.emits[..n]), r))
  {
    if n > 0 {
      var m := n - 1;
      AllRead(cfg, m, r);
      AllUpTo(cfg.emits, m);
      BucketConcat(cfg.hash, cfg.nReduce, All(cfg.emits[..m]), cfg.emits[m], r);
      assert m + 1 == n;
    }
  }

  // ---------------------------------------------------------------------------------------
  // Steps
  // ---------------------------------------------------------------------------------------

  /** Files are added or replaced, never removed. */
  predicate Grows(s: State, t: State) {
    s.inter.Keys <= t.inter.Keys && s.outs.Keys <= t.outs.Keys
  }

  lemma ProgressKept(cfg: Config, s: State, t: State, job: Job)
    requires cfg.nReduce > 0 && Progress(cfg, s, job) && Grows(s, t)
    ensures Progress(cfg, t, job)
  {
  }

  /** A step that changes one job and possibly adds files. */
  lemma JobStep(cfg: Config, s: State, t: State, j: nat)
    requires Files(cfg, s) && Grows(s, t) && j < |s.jobs| && |t.jobs| == |s.jobs|
    requires forall i :: 0 <= i < |s.jobs| && i != j ==> t.jobs[i] == s.jobs[i]
    requires Progress(cfg, t, t.jobs[j])
    ensures forall i :: 0 <= i < |t.jobs| ==> Progress(cfg, t, t.jobs[i])
  {
    forall i | 0 <= i < |t.jobs|
      ensures Progress(cfg, t, t.jobs[i])
    {
      if i != j {
        ProgressKept(cfg, s, t, s.jobs[i]);
      }
    }
  }

  lemma AssignPublished(cfg: Config, s: State, now: int)
    requires cfg.nReduce > 0 && Published(cfg, s)
    ensures Published(cfg, Next(cfg, s, Assign(now)))
  {
  }

  lemma AssignFiles(cfg: Config, s: State, now: int)
    requires Files(cfg, s)
    ensures Files(cfg, Next(cfg, s, Assign(now)))
  {
    var t := Next(cfg, s, Assign(now));
    AssignPublished(cfg, s, now);
    forall j | 0 <= j < |t.jobs|
      ensures Progress(cfg, t, t.jobs[j])
    {
      if j < |s.jobs| {
        ProgressKept(cfg, s, t, s.jobs[j]);
      }
    }
  }

  lemma ExpireFiles(cfg: Config, s: State, now: int)
    requires Leases(cfg, s) && Files(cfg, s)
    ensures Files(cfg, Next(cfg, s, Expire(now)))
  {
    var t := Next(cfg, s, Expire(now));
    forall j | 0 <= j < |t.jobs|
      ensures Progress(cfg, t, t.jobs[j])
    {
      ProgressKept(cfg, s, t, s.jobs[j]);
    }
  }

  lemma RunMapFiles(cfg: Config, s: State, j: nat, kva: seq<KeyValue>)
    requires Told(cfg, s) && Files(cfg, s) && Enabled(cfg, s, RunMap(j, kva))
    ensures Files(cfg, Next(cfg, s, RunMap(j, kva)))
  {
    JobStep(cfg, s, Next(cfg, s, RunMap(j, kva)), j);
  }

  lemma PublishFiles(cfg: Config, s: State, j: nat)
    requires Files(cfg, s) && Enabled(cfg, s, Publish(j))
    ensures Files(cfg, Next(cfg, s, Publish(j)))
  {
    var t := Next(cfg, s, Publish(j));
    var job := s.jobs[j];
    assert Progress(cfg, s, job);
    BucketPermutation(cfg.hash, cfg.nReduce, job.mapStage.kva, cfg.emits[job.task], job.mapStage.next);
    JobStep(cfg, s, t, j);
  }

  lemma GlobFiles(cfg: Config, s: State, j: nat)
    requires Files(cfg, s) && Enabled(cfg, s, Glob(j))
    ensures Files(cfg, Next(cfg, s, Glob(j)))
  {
    JobStep(cfg, s, Next(cfg, s, Glob(j)), j);
  }

  /** When a reduce task has been granted, every intermediate file for it has been published. */
  lemma ReduceSeesAllMaps(cfg: Config, s: State, j: nat)
    requires Leases(cfg, s) && Files(cfg, s) && j < |s.jobs| && s.jobs[j].ReduceJob?
    ensures s.jobs[j].task < cfg.nReduce
    ensures forall m, r :: 0 <= m < |cfg.emits| && 0 <= r < cfg.nReduce ==> (m, r) in s.inter
  {
    assert JobOk(Tasks(s.coord, ReduceTask), s.jobs[j]);
    assert s.coord.phase != Map;
    assert AllCompleted(s.coord.maps);
  }

  lemma ReadFiles(cfg: Config, s: State, j: nat, name: Name)
    requires Files(cfg, s) && Enabled(cfg, s, ReadFile(j, name))
    ensures Files(cfg, Next(cfg, s, ReadFile(j, name)))
  {
    assert Progress(cfg, s, s.jobs[j]);
    JobStep(cfg, s, Next(cfg, s, ReadFile(j, name)), j);
  }

  lemma WriteFiles(cfg: Config, s: State, j: nat, sorted: seq<KeyValue>)
    requires Files(cfg, s) && Enabled(cfg, s, WriteOut(j, sorted))
    ensures Files(cfg, Next(cfg, s, WriteOut(j, sorted)))
  {
    var t := Next(cfg, s, WriteOut(j, sorted));
    assert Progress(cfg, t, t.jobs[j]);
    JobStep(cfg, s, t, j);
  }

  lemma ReportMapFiles(cfg: Config, s: State, j: nat)
    requires Files(cfg, s) && Enabled(cfg, s, ReportMap(j))
    ensures Files(cfg, Next(cfg, s, ReportMap(j)))
  {
    assert Progress(cfg, s, s.jobs[j]);
    JobStep(cfg, s, Next(cfg, s, ReportMap(j)), j);
  }

  lemma ReportReducePublished(cfg: Config, s: State, j: nat)
    requires cfg.nReduce > 0 && Published(cfg, s) && Enabled(cfg, s, ReportReduce(j)) && s.jobs[j].task in s.outs
    ensures Published(cfg, Next(cfg, s, ReportReduce(j)))
  {
  }

  lemma ReportReduceFiles(cfg: Config, s: State, j: nat)
    requires Files(cfg, s) && Enabled(cfg, s, ReportReduce(j))
    ensures Files(cfg, Next(cfg, s, ReportReduce(j)))
  {
    var t := Next(cfg, s, ReportReduce(j));
    assert Progress(cfg, s, s.jobs[j]);
    assert Progress(cfg, t, t.jobs[j]);
    ReportReducePublished(cfg, s, j);
    JobStep(cfg, s, t, j);
  }

  lemma FilesStep(cfg: Config, s: State, a: Action)
    requires Leases(cfg, s) && Told(cfg, s) && Files(cfg, s) && Enabled(cfg, s, a)
    ensures Files(cfg, Next(cfg, s, a))
  {
    match a
    case Assign(now) => AssignFiles(cfg, s, now);
    case Expire(now) => ExpireFiles(cfg, s, now);
    case RunMap(j, kva) => RunMapFiles(cfg, s, j, kva);
    case Publish(j) => PublishFiles(cfg, s, j);
    case ReportMap(j) => ReportMapFiles(cfg, s, j);
    case Glob(j) => GlobFiles(cfg, s, j);
    case ReadFile(j, name) => ReadFiles(cfg, s, j, name);
    case WriteOut(j, sorted) => WriteFiles(cfg, s, j, sorted);
    case ReportReduce(j) => ReportReduceFiles(cfg, s, j);
  }

  lemma {:induction false} FilesRun(cfg: Config, s: State, run: seq<Action>)
    requires Leases(cfg, s) && Told(cfg, s) && Files(cfg, s) && Legal(cfg, s, run)
    ensures Leases(cfg, After(cfg, s, run)) && Files(cfg, After(cfg, s, run))
    decreases |run|
  {
    if run != [] {
      FilesStep(cfg, s, run[0]);
      LeasesStep(cfg, s, run[0]);
      ToldStep(cfg, s, run[0]);
      FilesRun(cfg, Next(cfg, s, run[0]), run[1..]);
    }
  }

  // ---------------------------------------------------------------------------------------
  // What workers read and write
  // ---------------------------------------------------------------------------------------

  /** What reading the output file of r, if there is one, adds to a buffer. */
  function Echo(cfg: Config, s: State, r: nat): multiset<KeyValue> {
    if r in s.outs then multiset(cfg.decode(s.outs[r])) else multiset{}
  }

  /** The buffer of a worker for r that found the files as they are in `s`. */
  predicate Accounts(cfg: Config, s: State, r: nat, todo: set<Name>, kva: seq<KeyValue>)
    requires cfg.nReduce > 0
  {
    multiset(kva) == ReadSum(Parts(cfg, r), |cfg.emits|, todo, r)
                   + (if Out(r) in todo then multiset{} else Echo(cfg, s, r))
  }

  /** Before anything is read, the pattern has found every file. */
  lemma NoneReadYet(cfg: Config, s: State, r: nat)
    requires cfg.nReduce > 0 && forall m :: 0 <= m < |cfg.emits| ==> (m, r) in s.inter
    ensures ReadSum(Parts(cfg, r), |cfg.emits|, Matching(s, r), r) == multiset{}
  {
    var todo := Matching(s, r);
    forall m | 0 <= m < |cfg.emits|
      ensures Inter(m, r) in todo
    {
      assert (m, r) in s.inter && (m, r).1 == r;
    }
    NothingRead(Parts(cfg, r), |cfg.emits|, todo, r);
  }

  /** Reading one more file accounts for its pairs. */
  lemma ReadMore(cfg: Config, s: State, r: nat, todo: set<Name>, kva: seq<KeyValue>, name: Name)
    requires cfg.nReduce > 0 && InterOk(cfg, s.inter) && name in todo && name.r == r && Present(s, name)
    requires Accounts(cfg, s, r, todo, kva)
    ensures Accounts(cfg, s, r, todo - {name}, kva + Contents(cfg, s, name))
  {
    match name
    case Inter(m, _) =>
      assert multiset(s.inter[(m, r)]) == Parts(cfg, r)[m];
      OneMoreRead(Parts(cfg, r), |cfg.emits|, todo, r, m);
    case Out(_) =>
      OtherRead(Parts(cfg, r), |cfg.emits|, todo, r, name);
  }

  /** When everything is read, the worker has its share and whatever the output file added. */
  lemma ReadEverything(cfg: Config, s: State, r: nat, kva: seq<KeyValue>)
    requires cfg.nReduce > 0 && Accounts(cfg, s, r, {}, kva)
    ensures multiset(kva) == multiset(Share(cfg, r)) + Echo(cfg, s, r)
  {
    AllRead(cfg, |cfg.emits|, r);
    assert cfg.emits[..|cfg.emits|] == cfg.emits;
  }

  /** The output files of a job whose decoder is silent add nothing. */
  lemma NoEcho(cfg: Config, s: State, r: nat)
    requires cfg.nReduce > 0 && Silent(cfg) && OutsOk(cfg, s.outs)
    ensures Echo(cfg, s, r) == multiset{}
  {
    if r in s.outs {
      var kva :| SortedShare(cfg, r, kva) && s.outs[r] == Lines(cfg.reducef, kva);
    }
  }

  lemma ShareRead(cfg: Config, s: State, r: nat, kva: seq<KeyValue>)
    requires cfg.nReduce > 0 && Silent(cfg) && OutsOk(cfg, s.outs)
    requires multiset(kva) == ReadSum(Parts(cfg, r), |cfg.emits|, {}, r)
    ensures multiset(kva) == multiset(Share(cfg, r))
  {
    NoEcho(cfg, s, r);
    ReadEverything(cfg, s, r, kva);
  }

  lemma AddOut(cfg: Config, outs: map<nat, seq<Line>>, r: nat, sorted: seq<KeyValue>)
    requires cfg.nReduce > 0 && OutsOk(cfg, outs) && r < cfg.nReduce && SortedShare(cfg, r, sorted)
    ensures OutsOk(cfg, outs[r := Lines(cfg.reducef, sorted)])
  {
    assert LinesOfShare(cfg, r, Lines(cfg.reducef, sorted));
  }

  /** A step that changes one job. */
  lemma OneBuffer(cfg: Config, s: State, t: State, j: nat)
    requires cfg.nReduce > 0 && j < |s.jobs| && |t.jobs| == |s.jobs| && Buffer(cfg, t.jobs[j])
    requires forall i :: 0 <= i < |s.jobs| && i != j ==> t.jobs[i] == s.jobs[i]
    requires forall i :: 0 <= i < |s.jobs| ==> Buffer(cfg, s.jobs[i])
    ensures forall i :: 0 <= i < |t.jobs| ==> Buffer(cfg, t.jobs[i])
  {
    forall i | 0 <= i < |t.jobs|
      ensures Buffer(cfg, t.jobs[i])
    {
      if i != j {
        assert Buffer(cfg, s.jobs[i]);
      }
    }
  }

  lemma AssignExact(cfg: Config, s: State, now: int)
    requires cfg.nReduce > 0 && Exact(cfg, s)
    ensures Exact(cfg, Next(cfg, s, Assign(now)))
  {
    var t := Next(cfg, s, Assign(now));
    forall i | 0 <= i < |t.jobs|
      ensures Buffer(cfg, t.jobs[i])
    {
      if i < |s.jobs| {
        assert Buffer(cfg, s.jobs[i]);
      }
    }
  }

  lemma GlobExact(cfg: Config, s: State, j: nat)
    requires Leases(cfg, s) && Files(cfg, s) && Exact(cfg, s) && Enabled(cfg, s, Glob(j))
    ensures Exact(cfg, Next(cfg, s, Glob(j)))
  {
    ReduceSeesAllMaps(cfg, s, j);
    NoneReadYet(cfg, s, s.jobs[j].task);
    OneBuffer(cfg, s, Next(cfg, s, Glob(j)), j);
  }

  lemma ReadExact(cfg: Config, s: State, j: nat, name: Name)
    requires Files(cfg, s) && Silent(cfg) && Exact(cfg, s) && Enabled(cfg, s, ReadFile(j, name))
    ensures Exact(cfg, Next(cfg, s, ReadFile(j, name)))
  {
    var job := s.jobs[j];
    var r, todo, kva := job.task, job.reduceStage.todo, job.reduceStage.kva;
    assert Progress(cfg, s, job) && Buffer(cfg, job);
    NoEcho(cfg, s, r);
    ReadMore(cfg, s, r, todo, kva, name);
    OneBuffer(cfg, s, Next(cfg, s, ReadFile(j, name)), j);
  }

  lemma WriteExact(cfg: Config, s: State, j: nat, sorted: seq<KeyValue>)
    requires cfg.nReduce > 0 && Silent(cfg) && Exact(cfg, s) && Enabled(cfg, s, WriteOut(j, sorted))
    requires s.jobs[j].task < cfg.nReduce
    ensures Exact(cfg, Next(cfg, s, WriteOut(j, sorted)))
  {
    assert Buffer(cfg, s.jobs[j]);
    ShareRead(cfg, s, s.jobs[j].task, s.jobs[j].reduceStage.kva);
    AddOut(cfg, s.outs, s.jobs[j].task, sorted);
    OneBuffer(cfg, s, Next(cfg, s, WriteOut(j, sorted)), j);
  }

  lemma OtherExact(cfg: Config, s: State, a: Action)
    requires cfg.nReduce > 0 && Exact(cfg, s) && Enabled(cfg, s, a)
    requires a.RunMap? || a.Publish? || a.ReportMap? || a.ReportReduce?
    ensures Exact(cfg, Next(cfg, s, a))
  {
    OneBuffer(cfg, s, Next(cfg, s, a), a.job);
  }

  lemma ExactStep(cfg: Config, s: State, a: Action)
    requires Leases(cfg, s) && Files(cfg, s) && Silent(cfg) && Exact(cfg, s) && Enabled(cfg, s, a)
    ensures Exact(cfg, Next(cfg, s, a))
  {
    match a
    case Assign(now) => AssignExact(cfg, s, now);
    case Expire(_) =>
    case Glob(j) => GlobExact(cfg, s, j);
    case ReadFile(j, name) => ReadExact(cfg, s, j, name);
    case WriteOut(j, sorted) =>
      assert JobOk(Tasks(s.coord, ReduceTask), s.jobs[j]);
      WriteExact(cfg, s, j, sorted);
    case _ => OtherExact(cfg, s, a);
  }

  lemma {:induction false} ExactRun(cfg: Config, s: State, run: seq<Action>)
    requires Leases(cfg, s) && Told(cfg, s) && Files(cfg, s) && Silent(cfg) && Exact(cfg, s) && Legal(cfg, s, run)
    ensures Exact(cfg, After(cfg, s, run))
    decreases |run|
  {
    if run != [] {
      ExactStep(cfg, s, run[0]);
      FilesStep(cfg, s, run[0]);
      LeasesStep(cfg, s, run[0]);
      ToldStep(cfg, s, run[0]);
      ExactRun(cfg, Next(cfg, s, run[0]), run[1..]);
    }
  }

  lemma Reached(cfg: Config, run: seq<Action>)
    requires Sized(cfg) && Legal(cfg, Init(cfg), run)
    ensures Leases(cfg, After(cfg, Init(cfg), run)) && Files(cfg, After(cfg, Init(cfg), run))
    ensures Silent(cfg) ==> Exact(cfg, After(cfg, Init(cfg), run))
  {
    LeasesInit(cfg);
    FilesRun(cfg, Init(cfg), run);
    if Silent(cfg) {
      ExactRun(cfg, Init(cfg), run);
    }
  }

  // ---------------------------------------------------------------------------------------
  // Theorems
  // ---------------------------------------------------------------------------------------

  /** In every run, once a reduce task has been granted, every intermediate file of every map task
      and partition is published and holds exactly the pairs of that map task whose key belongs to
      that partition; stale workers that publish again do not change that. */
  lemma IntermediateComplete(cfg: Config, run: seq<Action>, j: nat, m: nat, r: nat)
    requires Sized(cfg) && Legal(cfg, Init(cfg), run) && m < |cfg.emits| && r < cfg.nReduce
    requires var s := After(cfg, Init(cfg), run); j < |s.jobs| && s.jobs[j].ReduceJob?
    ensures var s := After(cfg, Init(cfg), run);
            && (m, r) in s.inter
            && forall kv :: multiset(s.inter[(m, r)])[kv]
                 == if cfg.hash(kv.key) % cfg.nReduce == r then multiset(cfg.emits[m])[kv] else 0
  {
    Reached(cfg, run);
    var s := After(cfg, Init(cfg), run);
    ReduceSeesAllMaps(cfg, s, j);
    forall kv
      ensures multiset(s.inter[(m, r)])[kv]
           == if cfg.hash(kv.key) % cfg.nReduce == r then multiset(cfg.emits[m])[kv] else 0
    {
      BucketCount(cfg.hash, cfg.nReduce, cfg.emits[m], r, kv);
    }
  }

  /** No reduce worker ever finds that a file its pattern matched has gone. */
  lemma MatchedFilesStay(cfg: Config, run: seq<Action>, j: nat, name: Name)
    requires Sized(cfg) && Legal(cfg, Init(cfg), run)
    requires var s := After(cfg, Init(cfg), run);
             && j < |s.jobs| && s.jobs[j].ReduceJob?
             && s.jobs[j].reduceStage.Reading? && name in s.jobs[j].reduceStage.todo
    ensures Present(After(cfg, Init(cfg), run), name)
  {
    Reached(cfg, run);
    var s := After(cfg, Init(cfg), run);
    assert Progress(cfg, s, s.jobs[j]);
  }

  /** The output files, in order. */
  function OutFiles(s: State, n: nat): (outs: seq<seq<Line>>)
    requires forall r :: 0 <= r < n ==> r in s.outs
    ensures |outs| == n && forall r :: 0 <= r < n ==> outs[r] == s.outs[r]
  {
    seq(n, r requires 0 <= r < n => s.outs[r])
  }

  /** However the workers crash, time out, repeat each other's work and rename files late: from the
      moment the job is done, every output file is in ascending order of keys and the lines of all output
      files together are exactly the lines that the sequential program writes, on whatever order map
      emitted the pairs and sort left them in. */
  lemma DistributedEqualsSequential(cfg: Config, run: seq<Action>, sorted: seq<KeyValue>)
    requires WellFormed(cfg) && Legal(cfg, Init(cfg), run)
    requires After(cfg, Init(cfg), run).coord.phase == AllDone
    requires Sorted(sorted) && multiset(sorted) == multiset(All(cfg.emits))
    ensures var s := After(cfg, Init(cfg), run);
            && (forall r :: 0 <= r < cfg.nReduce ==> r in s.outs && Ascending(s.outs[r]))
            && Gathered(OutFiles(s, cfg.nReduce), cfg.nReduce) == multiset(Lines(cfg.reducef, sorted))
  {
    Reached(cfg, run);
    var s := After(cfg, Init(cfg), run);
    assert AllCompleted(s.coord.reduces);
    forall r | 0 <= r < cfg.nReduce
      ensures r in s.outs && Ascending(s.outs[r])
    {
      ShareAscends(cfg, r, s.outs[r]);
    }
    WholeOutput(cfg, OutFiles(s, cfg.nReduce), sorted);
  }

  lemma ShareAscends(cfg: Config, r: nat, lines: seq<Line>)
    requires cfg.nReduce > 0 && LinesOfShare(cfg, r, lines)
    ensures Ascending(lines)
  {
    var kva :| SortedShare(cfg, r, kva) && lines == Lines(cfg.reducef, kva);
    LinesAscend(cfg.reducef, kva);
  }

  lemma ShareLines(cfg: Config, r: nat, lines: seq<Line>)
    requires cfg.nReduce > 0 && OrderBlind(cfg.reducef) && LinesOfShare(cfg, r, lines)
    ensures multiset(lines) == multiset(LineSet(cfg.reducef, Share(cfg, r)))
  {
    var kva :| SortedShare(cfg, r, kva) && lines == Lines(cfg.reducef, kva);
    LinesAreLineSet(cfg.reducef, kva);
    LineSetPermutation(cfg.reducef, kva, Share(cfg, r));
  }

  /** Output files that hold their shares hold together what the sequential program writes. */
  lemma WholeOutput(cfg: Config, outs: seq<seq<Line>>, sorted: seq<KeyValue>)
    requires cfg.nReduce > 0 && OrderBlind(cfg.reducef) && |outs| == cfg.nReduce
    requires forall r :: 0 <= r < cfg.nReduce ==> LinesOfShare(cfg, r, outs[r])
    requires Sorted(sorted) && multiset(sorted) == multiset(All(cfg.emits))
    ensures Gathered(outs, cfg.nReduce) == multiset(Lines(cfg.reducef, sorted))
  {
    forall r | 0 <= r < cfg.nReduce
      ensures multiset(outs[r]) == multiset(LineSet(cfg.reducef, Share(cfg, r)))
    {
      ShareLines(cfg, r, outs[r]);
    }
    PartsMakeTheWhole(cfg.hash, cfg.nReduce, cfg.reducef, All(cfg.emits), outs);
    LinesAreLineSet(cfg.reducef, sorted);
    LineSetPermutation(cfg.reducef, sorted, All(cfg.emits));
  }
}
