/** Output files match the pattern by which a reduce worker finds its intermediate files, so a task
    that is granted again after its output was written reads that output too. When this matters. */
module MrReread {
  import opened MrReduce
  import opened MrPartition
  import opened MrCoordinator
  import opened MrMachine
  import opened MrLeases
  import opened MrOutput
  import opened MrProgress

  lemma LeadsKeeps(cfg: Config, t: State)
    requires Sized(cfg) && Leads(cfg, Init(cfg), t)
    ensures Leases(cfg, t) && Files(cfg, t)
  {
    var run :| Legal(cfg, Init(cfg), run) && After(cfg, Init(cfg), run) == t;
    Reached(cfg, run);
  }

  // ---------------------------------------------------------------------------------------
  // The run in which a task's output is written and then read
  // ---------------------------------------------------------------------------------------

  /** All reduce tasks wait for a worker. */
  predicate Waiting(c: Coord) {
    c.phase == Reduce && forall r :: 0 <= r < |c.reduces| ==> c.reduces[r].state.Idle?
  }

  /** One worker does all map tasks. */
  lemma {:induction false} DoAllMaps(cfg: Config, s: State) returns (u: State)
    requires Leases(cfg, s) && s.coord.phase == Map
    ensures Leads(cfg, s, u) && Waiting(u.coord) && u.outs == s.outs && |u.coord.reduces| == |s.coord.reduces|
    decreases Left(s.coord)
  {
    var t, j := GrantFollows(cfg, s);
    u := DoMap(cfg, s, t, j);
    CompleteOne(t.coord.maps, t.jobs[j].task);
    assert u.coord.reduces == s.coord.reduces;
    if u.coord.phase == Map {
      var first :| Legal(cfg, s, first) && After(cfg, s, first) == u;
      LeasesRun(cfg, s, first);
      var v := DoAllMaps(cfg, u);
      LeadsOn(cfg, s, u, v);
      u := v;
    }
  }

  lemma MapsDone(cfg: Config) returns (u: State)
    requires Sized(cfg)
    ensures Leads(cfg, Init(cfg), u) && Waiting(u.coord) && u.outs == map[] && |u.coord.reduces| == cfg.nReduce
  {
    LeasesInit(cfg);
    u := DoAllMaps(cfg, Init(cfg));
  }

  /** Workers ask for work until task r has been granted. */
  lemma {:induction false} AskUpTo(cfg: Config, s: State, t: State, r: nat, i: nat) returns (u: State)
    requires cfg.nReduce > 0 && Leads(cfg, s, t) && t.coord.phase == Reduce && i <= r < |t.coord.reduces|
    requires forall k :: 0 <= k < i ==> t.coord.reduces[k].state.InProgress?
    requires forall k :: i <= k < |t.coord.reduces| ==> t.coord.reduces[k].state.Idle?
    ensures Leads(cfg, s, u) && u.outs == t.outs && u.coord.phase == Reduce
    ensures |u.coord.reduces| == |t.coord.reduces|
    ensures forall k :: 0 <= k < |u.coord.reduces| ==> !u.coord.reduces[k].state.Completed?
    ensures |u.jobs| > 0
    ensures u.jobs[|u.jobs|-1] == ReduceJob(r, u.coord.reduces[r].attempt, ReduceGranted)
    decreases r - i
  {
    FirstIdleIs(t.coord.reduces, i);
    LeadsStep(cfg, s, t, Assign(0));
    u := Next(cfg, t, Assign(0));
    if i < r {
      u := AskUpTo(cfg, s, u, r, i + 1);
    }
  }

  /** All leases run out. */
  lemma TakeBack(cfg: Config, s: State, t: State) returns (u: State)
    requires cfg.nReduce > 0 && Leads(cfg, s, t) && t.coord.phase == Reduce
    requires forall k :: 0 <= k < |t.coord.reduces| ==> !t.coord.reduces[k].state.Completed?
    ensures Leads(cfg, s, u) && u.outs == t.outs && Waiting(u.coord) && |u.coord.reduces| == |t.coord.reduces|
  {
    var now := LateEnough(t.coord.reduces);
    LeadsStep(cfg, s, t, Expire(now));
    u := Next(cfg, t, Expire(now));
  }

  /** A worker that has found its files has them all before it. */
  lemma FoundAll(cfg: Config, t: State, j: nat)
    requires Sized(cfg) && Leads(cfg, Init(cfg), t) && Enabled(cfg, t, Glob(j))
    ensures Tallies(cfg, Next(cfg, t, Glob(j)), j)
  {
    LeadsKeeps(cfg, t);
    ReduceSeesAllMaps(cfg, t, j);
    NoneReadYet(cfg, t, t.jobs[j].task);
  }

  /** A worker finds its files and reads them. */
  lemma FindAndRead(cfg: Config, s: State, t: State, j: nat) returns (u: State, kva: seq<KeyValue>)
    requires cfg.nReduce > 0 && Leads(cfg, s, t) && Enabled(cfg, t, Glob(j)) && Tallies(cfg, Next(cfg, t, Glob(j)), j)
    ensures Leads(cfg, s, u) && u.coord == t.coord && u.outs == t.outs && |u.jobs| == |t.jobs|
    ensures u.jobs[j] == ReduceJob(t.jobs[j].task, t.jobs[j].attempt, Reading({}, kva))
    ensures multiset(kva) == multiset(Share(cfg, t.jobs[j].task)) + Echo(cfg, t, t.jobs[j].task)
  {
    LeadsStep(cfg, s, t, Glob(j));
    u := ReadAll(cfg, s, Next(cfg, t, Glob(j)), j);
    kva := u.jobs[j].reduceStage.kva;
    ReadEverything(cfg, u, t.jobs[j].task, kva);
  }

  /** Task r is granted to a worker that reads everything it finds. */
  lemma GrantAndRead(cfg: Config, t: State, r: nat) returns (u: State, kva: seq<KeyValue>)
    requires Sized(cfg) && Leads(cfg, Init(cfg), t) && Waiting(t.coord) && r < |t.coord.reduces|
    ensures Leads(cfg, Init(cfg), u) && u.outs == t.outs && u.coord.phase == Reduce
    ensures |u.coord.reduces| == |t.coord.reduces|
    ensures forall k :: 0 <= k < |u.coord.reduces| ==> !u.coord.reduces[k].state.Completed?
    ensures |u.jobs| > 0
    ensures u.jobs[|u.jobs|-1] == ReduceJob(r, u.coord.reduces[r].attempt, Reading({}, kva))
    ensures multiset(kva) == multiset(Share(cfg, r)) + Echo(cfg, t, r)
  {
    var v := AskUpTo(cfg, Init(cfg), t, r, 0);
    var j := |v.jobs| - 1;
    FoundAll(cfg, v, j);
    u, kva := FindAndRead(cfg, Init(cfg), v, j);
  }

  lemma WriteAndExpire(cfg: Config, s: State, t: State, j: nat, sorted: seq<KeyValue>) returns (u: State)
    requires cfg.nReduce > 0 && Leads(cfg, s, t) && Enabled(cfg, t, WriteOut(j, sorted)) && t.coord.phase == Reduce
    requires forall k :: 0 <= k < |t.coord.reduces| ==> !t.coord.reduces[k].state.Completed?
    ensures Leads(cfg, s, u) && u.outs == t.outs[t.jobs[j].task := Lines(cfg.reducef, sorted)]
    ensures Waiting(u.coord) && |u.coord.reduces| == |t.coord.reduces|
  {
    LeadsStep(cfg, s, t, WriteOut(j, sorted));
    u := TakeBack(cfg, s, Next(cfg, t, WriteOut(j, sorted)));
  }

  /** In some run, the first worker for r writes its output but its lease runs out before it reports;
      the second worker for r then reads, besides its share, what the decoder makes of that output. */
  lemma OutputReadAgain(cfg: Config, r: nat, sorted: seq<KeyValue>) returns (u: State, kva: seq<KeyValue>)
    requires Sized(cfg) && r < cfg.nReduce && SortedShare(cfg, r, sorted)
    ensures Leads(cfg, Init(cfg), u) && |u.coord.reduces| == cfg.nReduce && |u.jobs| > 0
    ensures u.jobs[|u.jobs|-1] == ReduceJob(r, u.coord.reduces[r].attempt, Reading({}, kva))
    ensures multiset(kva) == multiset(Share(cfg, r)) + multiset(cfg.decode(Lines(cfg.reducef, sorted)))
  {
    var t := MapsDone(cfg);
    var u1, kva1 := GrantAndRead(cfg, t, r);
    var u2 := WriteAndExpire(cfg, Init(cfg), u1, |u1.jobs| - 1, sorted);
    u, kva := GrantAndRead(cfg, u2, r);
  }

  // ---------------------------------------------------------------------------------------
  // Theorems
  // ---------------------------------------------------------------------------------------

  /** In run `run`, job j has read everything it found for reduce task r. */
  predicate HasRead(cfg: Config, run: seq<Action>, j: nat, r: nat, kva: seq<KeyValue>)
    requires cfg.nReduce > 0
  {
    && Legal(cfg, Init(cfg), run)
    && var s := After(cfg, Init(cfg), run);
       && j < |s.jobs| && s.jobs[j].ReduceJob? && s.jobs[j].task == r && s.jobs[j].reduceStage == Reading({}, kva)
  }

  lemma SilentReads(cfg: Config, run: seq<Action>, j: nat, r: nat, kva: seq<KeyValue>)
    requires Sized(cfg) && Silent(cfg) && HasRead(cfg, run, j, r, kva)
    ensures multiset(kva) == multiset(Share(cfg, r))
  {
    Reached(cfg, run);
    var s := After(cfg, Init(cfg), run);
    assert Buffer(cfg, s.jobs[j]);
    ShareRead(cfg, s, r, kva);
  }

  /** Every reduce worker of every run reads exactly its share, if and only if the decoder makes no
      pairs of the output files the job itself can write. */
  lemma ReadsOnlySharesIff(cfg: Config)
    requires Sized(cfg)
    ensures Silent(cfg)
       <==> forall run, j: nat, r: nat, kva :: HasRead(cfg, run, j, r, kva) ==> multiset(kva) == multiset(Share(cfg, r))
  {
    if Silent(cfg) {
      forall run, j: nat, r: nat, kva | HasRead(cfg, run, j, r, kva)
        ensures multiset(kva) == multiset(Share(cfg, r))
      {
        SilentReads(cfg, run, j, r, kva);
      }
    }
    if forall run, j: nat, r: nat, kva :: HasRead(cfg, run, j, r, kva) ==> multiset(kva) == multiset(Share(cfg, r)) {
      forall r: nat, sorted | r < cfg.nReduce && SortedShare(cfg, r, sorted)
        ensures cfg.decode(Lines(cfg.reducef, sorted)) == []
      {
        var u, kva := OutputReadAgain(cfg, r, sorted);
        var run :| Legal(cfg, Init(cfg), run) && After(cfg, Init(cfg), run) == u;
        assert HasRead(cfg, run, |u.jobs| - 1, r, kva);
        SomethingAdded(multiset(Share(cfg, r)), cfg.decode(Lines(cfg.reducef, sorted)));
      }
    }
  }

  lemma SomethingAdded(a: multiset<KeyValue>, b: seq<KeyValue>)
    ensures b != [] ==> a + multiset(b) != a
  {
    if b != [] {
      assert b[0] in multiset(b);
      assert (a + multiset(b))[b[0]] > a[b[0]];
    }
  }

  /** The second worker writes what it read and reports in time. */
  lemma WriteAndReport(cfg: Config, s: State, t: State, r: nat, kva: seq<KeyValue>)
    returns (u: State, sorted: seq<KeyValue>)
    requires cfg.nReduce > 0 && Leads(cfg, s, t) && r < |t.coord.reduces| && |t.jobs| > 0
    requires t.jobs[|t.jobs|-1] == ReduceJob(r, t.coord.reduces[r].attempt, Reading({}, kva))
    ensures Leads(cfg, s, u) && r < |u.coord.reduces| && u.coord.reduces[r].state.Completed?
    ensures Sorted(sorted) && multiset(sorted) == multiset(kva)
    ensures r in u.outs && u.outs[r] == Lines(cfg.reducef, sorted)
  {
    var j := |t.jobs| - 1;
    sorted := SomeSorted(kva);
    LeadsStep(cfg, s, t, WriteOut(j, sorted));
    var t1 := Next(cfg, t, WriteOut(j, sorted));
    LeadsStep(cfg, s, t1, ReportReduce(j));
    u := Next(cfg, t1, ReportReduce(j));
  }

  lemma {:induction false} GatheredHas(outs: seq<seq<Line>>, n: nat, r: nat, line: Line)
    requires r < n <= |outs| && line in outs[r]
    ensures line in Gathered(outs, n)
  {
    if r == n - 1 {
      assert line in multiset(outs[r]);
    } else {
      GatheredHas(outs, n - 1, r, line);
    }
  }

  /** A line for a key that no map emitted is not a line of the sequential program. */
  lemma ForeignLine(cfg: Config, outs: seq<seq<Line>>, r: nat, line: Line, sorted: seq<KeyValue>)
    requires r < cfg.nReduce == |outs| && line in outs[r] && line.key !in Keys(All(cfg.emits))
    requires Sorted(sorted) && multiset(sorted) == multiset(All(cfg.emits))
    ensures Gathered(outs, cfg.nReduce) != multiset(Lines(cfg.reducef, sorted))
  {
    GatheredHas(outs, cfg.nReduce, r, line);
    SameKeys(sorted, All(cfg.emits));
    LineKeys(cfg.reducef, sorted, line.key);
    assert line !in multiset(Lines(cfg.reducef, sorted));
  }

  /** From the second worker's report the job runs on to its end, and the output of r stays. */
  lemma FinishAfter(cfg: Config, v: State, r: nat) returns (run: seq<Action>)
    requires Sized(cfg) && Leads(cfg, Init(cfg), v)
    requires r < |v.coord.reduces| && v.coord.reduces[r].state.Completed? && r in v.outs
    ensures Legal(cfg, Init(cfg), run)
    ensures var s := After(cfg, Init(cfg), run);
            && s.coord.phase == AllDone
            && (forall q :: 0 <= q < cfg.nReduce ==> q in s.outs)
            && r in s.outs && s.outs[r] == v.outs[r]
  {
    LeasesInit(cfg);
    LeadsKeeps(cfg, v);
    var first :| Legal(cfg, Init(cfg), first) && After(cfg, Init(cfg), first) == v;
    var rest := FinishAll(cfg, v);
    RunThen(cfg, Init(cfg), first, rest);
    run := first + rest;
    Reached(cfg, run);
    assert AllCompleted(After(cfg, Init(cfg), run).coord.reduces);
  }

  /** The output then differs: if the decoder makes, of some output file of task r, a pair whose key no
      map emitted, some run ends with a line for that key, which the sequential program does not
      write. */
  lemma LoudOutputBreaks(cfg: Config, r: nat, kva: seq<KeyValue>, kv: KeyValue) returns (run: seq<Action>)
    requires Sized(cfg) && r < cfg.nReduce && SortedShare(cfg, r, kva)
    requires kv in cfg.decode(Lines(cfg.reducef, kva)) && kv.key !in Keys(All(cfg.emits))
    ensures Legal(cfg, Init(cfg), run)
    ensures var s := After(cfg, Init(cfg), run);
            && s.coord.phase == AllDone
            && (forall q :: 0 <= q < cfg.nReduce ==> q in s.outs)
            && forall sorted :: Sorted(sorted) && multiset(sorted) == multiset(All(cfg.emits)) ==>
                 Gathered(OutFiles(s, cfg.nReduce), cfg.nReduce) != multiset(Lines(cfg.reducef, sorted))
  {
    var u, read := OutputReadAgain(cfg, r, kva);
    var v, written := WriteAndReport(cfg, Init(cfg), u, r, read);
    assert kv in multiset(read) && kv in multiset(written);
    LineKeys(cfg.reducef, written, kv.key);
    var line :| line in v.outs[r] && line.key == kv.key;
    run := FinishAfter(cfg, v, r);
    var s := After(cfg, Init(cfg), run);
    forall sorted | Sorted(sorted) && multiset(sorted) == multiset(All(cfg.emits))
      ensures Gathered(OutFiles(s, cfg.nReduce), cfg.nReduce) != multiset(Lines(cfg.reducef, sorted))
    {
      ForeignLine(cfg, OutFiles(s, cfg.nReduce), r, line, sorted);
    }
  }

  lemma SingletonShare(cfg: Config, kv: KeyValue)
    requires cfg.emits == [[kv]] && cfg.nReduce == 1
    ensures All(cfg.emits) == [kv] && Share(cfg, 0) == [kv]
  {
    assert cfg.emits[..0] == [] && [kv][..0] == [];
    assert All(cfg.emits) == All([]) + [kv];
    assert Bucket(cfg.hash, 1, [kv], 0) == Bucket(cfg.hash, 1, [], 0) + [kv];
  }

  lemma SingletonLines(reducef: ReduceFn, kv: KeyValue)
    ensures Lines(reducef, [kv]) == [Line(kv.key, reducef(kv.key, [kv.value]))]
  {
    assert RunLength([kv]) == 1 && [kv][..1] == [kv] && [kv][1..] == [];
    assert Values([kv]) == [kv.value];
    assert Lines(reducef, []) == [];
  }

  /** For instance, one word "null" in one file: its output line starts with JSON's null, which decodes
      into a pair of two empty strings. */
  lemma NullWordBreaks(cfg: Config) returns (run: seq<Action>)
    requires Sized(cfg) && cfg.emits == [[KeyValue("null", "1")]] && cfg.nReduce == 1
    requires cfg.reducef("null", ["1"]) == "1" && cfg.decode([Line("null", "1")]) == [KeyValue("", "")]
    ensures Legal(cfg, Init(cfg), run)
    ensures var s := After(cfg, Init(cfg), run);
            && s.coord.phase == AllDone && 0 in s.outs
            && multiset(s.outs[0]) != multiset(Lines(cfg.reducef, [KeyValue("null", "1")]))
  {
    var kv := KeyValue("null", "1");
    SingletonShare(cfg, kv);
    SingletonLines(cfg.reducef, kv);
    run := LoudOutputBreaks(cfg, 0, [kv], KeyValue("", ""));
    OneFile(OutFiles(After(cfg, Init(cfg), run), 1));
  }

  lemma OneFile(outs: seq<seq<Line>>)
    requires |outs| == 1
    ensures Gathered(outs, 1) == multiset(outs[0])
  {
    assert Gathered(outs, 0) == multiset{};
  }
}
