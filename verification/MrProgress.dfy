/** Crashed workers never block the job: whatever has happened, a single worker that asks for work
    from now on can bring it to its end. */
module MrProgress {
  import opened StringOrder
  import opened MrReduce
  import opened MrPartition
  import opened MrCoordinator
  import opened MrMachine
  import opened MrLeases
  import opened MrOutput

  /** Some run leads from `s` to `t`. */
  ghost predicate Leads(cfg: Config, s: State, t: State)
    requires cfg.nReduce > 0
  {
    exists run :: Legal(cfg, s, run) && After(cfg, s, run) == t
  }

  lemma LeadsSelf(cfg: Config, s: State)
    requires cfg.nReduce > 0
    ensures Leads(cfg, s, s)
  {
    assert Legal(cfg, s, []) && After(cfg, s, []) == s;
  }

  lemma {:induction false} RunThen(cfg: Config, s: State, run: seq<Action>, more: seq<Action>)
    requires cfg.nReduce > 0 && Legal(cfg, s, run) && Legal(cfg, After(cfg, s, run), more)
    ensures Legal(cfg, s, run + more) && After(cfg, s, run + more) == After(cfg, After(cfg, s, run), more)
    decreases |run|
  {
    if run == [] {
      assert run + more == more;
    } else {
      assert (run + more)[1..] == run[1..] + more;
      RunThen(cfg, Next(cfg, s, run[0]), run[1..], more);
    }
  }

  lemma LeadsOn(cfg: Config, s: State, t: State, u: State)
    requires cfg.nReduce > 0 && Leads(cfg, s, t) && Leads(cfg, t, u)
    ensures Leads(cfg, s, u)
  {
    var run :| Legal(cfg, s, run) && After(cfg, s, run) == t;
    var more :| Legal(cfg, t, more) && After(cfg, t, more) == u;
    RunThen(cfg, s, run, more);
  }

  /** One more step at the end. */
  lemma LeadsStep(cfg: Config, s: State, t: State, a: Action)
    requires cfg.nReduce > 0 && Leads(cfg, s, t) && Enabled(cfg, t, a)
    ensures Leads(cfg, s, Next(cfg, t, a))
  {
    var u := Next(cfg, t, a);
    assert [a][1..] == [] && Legal(cfg, u, []);
    assert Legal(cfg, t, [a]) && After(cfg, t, [a]) == u;
    LeadsOn(cfg, s, t, u);
  }

  // ---------------------------------------------------------------------------------------
  // One worker does one task
  // ---------------------------------------------------------------------------------------

  lemma {:induction false} PublishAll(cfg: Config, s: State, t: State, j: nat) returns (u: State)
    requires cfg.nReduce > 0 && Leads(cfg, s, t)
    requires j < |t.jobs| && t.jobs[j].MapJob?
    requires t.jobs[j].mapStage.Publishing? && t.jobs[j].mapStage.next <= cfg.nReduce
    ensures Leads(cfg, s, u) && u.coord == t.coord && |u.jobs| == |t.jobs| && u.outs == t.outs
    ensures u.jobs[j] == t.jobs[j].(mapStage := Publishing(t.jobs[j].mapStage.kva, cfg.nReduce))
    decreases cfg.nReduce - t.jobs[j].mapStage.next
  {
    if t.jobs[j].mapStage.next == cfg.nReduce {
      u := t;
    } else {
      LeadsStep(cfg, s, t, Publish(j));
      u := PublishAll(cfg, s, Next(cfg, t, Publish(j)), j);
    }
  }

  lemma DoMap(cfg: Config, s: State, t: State, j: nat) returns (u: State)
    requires cfg.nReduce > 0 && Leads(cfg, s, t) && j < |t.jobs| && t.jobs[j].MapJob? && t.jobs[j].mapStage.MapGranted?
    requires t.jobs[j].task < |t.coord.maps|
    ensures Leads(cfg, s, u) && u.coord == Finished(t.coord, MapTask, t.jobs[j].task, t.jobs[j].attempt)
    ensures u.outs == t.outs
  {
    var a := RunMap(j, cfg.mapf(t.jobs[j].file));
    LeadsStep(cfg, s, t, a);
    var u1 := PublishAll(cfg, s, Next(cfg, t, a), j);
    LeadsStep(cfg, s, u1, ReportMap(j));
    u := Next(cfg, u1, ReportMap(j));
  }

  lemma SomeName(names: set<Name>)
    ensures names == {} || exists name :: name in names
  {
    if forall name :: name !in names {
      assert names == {};
    }
  }

  /** A job that is reading accounts for the pairs of the files as they are. */
  ghost predicate Tallies(cfg: Config, s: State, j: nat)
    requires cfg.nReduce > 0 && j < |s.jobs| && s.jobs[j].ReduceJob? && s.jobs[j].reduceStage.Reading?
  {
    InterOk(cfg, s.inter) && Accounts(cfg, s, s.jobs[j].task, s.jobs[j].reduceStage.todo, s.jobs[j].reduceStage.kva)
  }

  lemma TallyOn(cfg: Config, s: State, j: nat, name: Name)
    requires cfg.nReduce > 0 && Enabled(cfg, s, ReadFile(j, name)) && name.r == s.jobs[j].task && Tallies(cfg, s, j)
    ensures Tallies(cfg, Next(cfg, s, ReadFile(j, name)), j)
  {
    ReadMore(cfg, s, s.jobs[j].task, s.jobs[j].reduceStage.todo, s.jobs[j].reduceStage.kva, name);
  }

  lemma {:induction false} ReadAll(cfg: Config, s: State, t: State, j: nat) returns (u: State)
    requires cfg.nReduce > 0 && Leads(cfg, s, t)
    requires j < |t.jobs| && t.jobs[j].ReduceJob? && t.jobs[j].reduceStage.Reading?
    requires forall name :: name in t.jobs[j].reduceStage.todo ==> name.r == t.jobs[j].task && Present(t, name)
    ensures Leads(cfg, s, u) && u.coord == t.coord && |u.jobs| == |t.jobs| && u.inter == t.inter && u.outs == t.outs
    ensures u.jobs[j].ReduceJob? && u.jobs[j].reduceStage.Reading? && u.jobs[j].reduceStage.todo == {}
    ensures u.jobs[j].task == t.jobs[j].task && u.jobs[j].attempt == t.jobs[j].attempt
    ensures Tallies(cfg, t, j) ==> Tallies(cfg, u, j)
    decreases |t.jobs[j].reduceStage.todo|
  {
    var todo := t.jobs[j].reduceStage.todo;
    SomeName(todo);
    if todo == {} {
      u := t;
    } else {
      var name :| name in todo;
      LeadsStep(cfg, s, t, ReadFile(j, name));
      if Tallies(cfg, t, j) {
        TallyOn(cfg, t, j, name);
      }
      u := ReadAll(cfg, s, Next(cfg, t, ReadFile(j, name)), j);
    }
  }

  lemma {:induction false} InsertPlace(r: seq<KeyValue>, kv: KeyValue, n: nat) returns (i: nat)
    requires Sorted(r) && n <= |r|
    requires forall k :: n <= k < |r| ==> LessEq(kv.key, r[k].key)
    ensures i <= |r| && Sorted(r[..i] + [kv] + r[i..])
    decreases n
  {
    if n > 0 && !LessEq(r[n-1].key, kv.key) {
      LessEqTotal(r[n-1].key, kv.key);
      i := InsertPlace(r, kv, n - 1);
    } else {
      i := n;
      forall k | 0 <= k < i
        ensures LessEq(r[k].key, kv.key)
      {
        if k < i - 1 {
          LessEqTransitive(r[k].key, r[i-1].key, kv.key);
        }
      }
      InsertedSorted(r, i, kv);
    }
  }

  lemma {:induction false} SomeSorted(kva: seq<KeyValue>) returns (sorted: seq<KeyValue>)
    ensures Sorted(sorted) && multiset(sorted) == multiset(kva)
  {
    if kva == [] {
      sorted := [];
    } else {
      var n := |kva| - 1;
      var r := SomeSorted(kva[..n]);
      var i := InsertPlace(r, kva[n], |r|);
      sorted := r[..i] + [kva[n]] + r[i..];
      InsertedPairs(r, i, kva[n]);
      assert kva == kva[..n] + [kva[n]];
    }
  }

  lemma DoReduce(cfg: Config, s: State, t: State, j: nat) returns (u: State)
    requires cfg.nReduce > 0 && Leads(cfg, s, t)
    requires j < |t.jobs| && t.jobs[j].ReduceJob? && t.jobs[j].reduceStage.ReduceGranted?
    requires t.jobs[j].task < |t.coord.reduces|
    ensures Leads(cfg, s, u) && u.coord == Finished(t.coord, ReduceTask, t.jobs[j].task, t.jobs[j].attempt)
    ensures forall r :: r in t.outs && r != t.jobs[j].task ==> r in u.outs && u.outs[r] == t.outs[r]
  {
    LeadsStep(cfg, s, t, Glob(j));
    var u1 := ReadAll(cfg, s, Next(cfg, t, Glob(j)), j);
    var sorted := SomeSorted(u1.jobs[j].reduceStage.kva);
    LeadsStep(cfg, s, u1, WriteOut(j, sorted));
    var u2 := Next(cfg, u1, WriteOut(j, sorted));
    LeadsStep(cfg, s, u2, ReportReduce(j));
    u := Next(cfg, u2, ReportReduce(j));
  }

  // ---------------------------------------------------------------------------------------
  // Until all tasks are completed
  // ---------------------------------------------------------------------------------------

  function Uncompleted(tasks: seq<Task>): nat {
    if tasks == [] then 0
    else Uncompleted(tasks[..|tasks|-1]) + if tasks[|tasks|-1].state.Completed? then 0 else 1
  }

  /** The count depends only on which tasks are completed. */
  lemma {:induction false} SameUncompleted(a: seq<Task>, b: seq<Task>)
    requires |a| == |b| && forall i :: 0 <= i < |a| ==> (a[i].state.Completed? <==> b[i].state.Completed?)
    ensures Uncompleted(a) == Uncompleted(b)
  {
    if a != [] {
      SameUncompleted(a[..|a|-1], b[..|b|-1]);
    }
  }

  lemma {:induction false} CompleteOne(tasks: seq<Task>, i: nat)
    requires i < |tasks| && !tasks[i].state.Completed?
    ensures Uncompleted(tasks[i := tasks[i].(state := Completed)]) < Uncompleted(tasks)
  {
    var n, t := |tasks| - 1, tasks[i].(state := Completed);
    if i == n {
      assert tasks[i := t][..n] == tasks[..n];
    } else {
      assert tasks[i := t][..n] == tasks[..n][i := t];
      CompleteOne(tasks[..n], i);
    }
  }

  function Left(c: Coord): nat {
    Uncompleted(c.maps) + Uncompleted(c.reduces)
  }

  /** A time at which every lease has run out. */
  lemma {:induction false} LateEnough(tasks: seq<Task>) returns (now: int)
    ensures forall i :: 0 <= i < |tasks| ==> now - tasks[i].startTime > TIMEOUT
  {
    if tasks == [] {
      now := 0;
    } else {
      var n := |tasks| - 1;
      var before := LateEnough(tasks[..n]);
      now := if before - tasks[n].startTime > TIMEOUT then before else tasks[n].startTime + TIMEOUT + 1;
      forall i | 0 <= i < |tasks|
        ensures now - tasks[i].startTime > TIMEOUT
      {
        assert i < n ==> tasks[..n][i] == tasks[i];
      }
    }
  }

  function KindNow(c: Coord): Kind {
    if c.phase == Map then MapTask else ReduceTask
  }

  lemma IdleExists(c: Coord, now: int) returns (i: nat)
    requires PhaseOk(c) && c.phase != AllDone
    requires forall i :: 0 <= i < |Tasks(c, KindNow(c))| ==> now - Tasks(c, KindNow(c))[i].startTime > TIMEOUT
    ensures i < |Tasks(Expired(c, now), KindNow(c))| && Tasks(Expired(c, now), KindNow(c))[i].state.Idle?
  {
    i :| 0 <= i < |Tasks(c, KindNow(c))| && !Tasks(c, KindNow(c))[i].state.Completed?;
  }

  lemma ExpireLeft(c: Coord, now: int)
    ensures Left(Expired(c, now)) == Left(c)
  {
    SameUncompleted(c.maps, Expired(c, now).maps);
    SameUncompleted(c.reduces, Expired(c, now).reduces);
  }

  lemma AssignLeft(c: Coord, now: int)
    requires c.phase != AllDone
    ensures Left(Assigned(c, now).0) == Left(c)
  {
    var tasks, c' := Tasks(c, KindNow(c)), Assigned(c, now).0;
    var i := FirstIdle(tasks);
    assert i < |tasks| ==> Tasks(c', KindNow(c)) == tasks[i := tasks[i].(state := InProgress, startTime := now)];
    SameUncompleted(tasks, Tasks(c', KindNow(c)));
  }

  /** The grant is for the current attempt of a task in progress. */
  lemma GrantIsCurrent(c: Coord, now: int, i: nat)
    requires c.phase != AllDone && i < |Tasks(c, KindNow(c))| && Tasks(c, KindNow(c))[i].state.Idle?
    ensures var (c', grant) := Assigned(c, now);
            && c'.phase == c.phase && grant.Work? && grant.kind == KindNow(c) && grant.task < |Tasks(c', KindNow(c))|
            && Tasks(c', KindNow(c))[grant.task].attempt == grant.attempt
            && Tasks(c', KindNow(c))[grant.task].state.InProgress?
  {
  }

  /** Once all leases have run out, a worker that asks is given a task. */
  lemma GrantAfterTimeout(c: Coord) returns (now: int)
    requires PhaseOk(c) && c.phase != AllDone
    ensures var (c', grant) := Assigned(Expired(c, now), now);
            && Left(c') == Left(c) && c'.phase == c.phase && |c'.maps| == |c.maps|
            && grant.Work? && grant.kind == KindNow(c) && grant.task < |Tasks(c', KindNow(c))|
            && Tasks(c', KindNow(c))[grant.task].attempt == grant.attempt
            && Tasks(c', KindNow(c))[grant.task].state.InProgress?
  {
    now := LateEnough(Tasks(c, KindNow(c)));
    ExpireLeft(c, now);
    AssignLeft(Expired(c, now), now);
    var i := IdleExists(c, now);
    assert KindNow(Expired(c, now)) == KindNow(c);
    GrantIsCurrent(Expired(c, now), now, i);
  }

  lemma GrantFollows(cfg: Config, s: State) returns (t: State, j: nat)
    requires cfg.nReduce > 0 && PhaseOk(s.coord) && s.coord.phase != AllDone
    ensures Leads(cfg, s, t) && Left(t.coord) == Left(s.coord)
    ensures t.coord.phase == s.coord.phase && |t.coord.maps| == |s.coord.maps|
    ensures t.outs == s.outs && Advances(s.coord, t.coord)
    ensures s.coord.phase == Map ==> t.coord.reduces == s.coord.reduces
    ensures j < |t.jobs|
    ensures if t.coord.phase == Map then t.jobs[j].MapJob? && t.jobs[j].mapStage.MapGranted?
            else t.jobs[j].ReduceJob? && t.jobs[j].reduceStage.ReduceGranted?
    ensures t.jobs[j].task < |Tasks(t.coord, KindNow(t.coord))|
    ensures var task := Tasks(t.coord, KindNow(t.coord))[t.jobs[j].task];
            task.attempt == t.jobs[j].attempt && task.state.InProgress?
  {
    var now := GrantAfterTimeout(s.coord);
    LeadsSelf(cfg, s);
    LeadsStep(cfg, s, s, Expire(now));
    var e := Next(cfg, s, Expire(now));
    LeadsStep(cfg, s, e, Assign(now));
    t, j := Next(cfg, e, Assign(now)), |e.jobs|;
    AdvanceExpire(s.coord, now);
    AdvanceAssign(e.coord, now);
    AdvancesTransitive(s.coord, e.coord, t.coord);
  }

  /** The output files of completed tasks are left alone. */
  predicate Settled(s: State, t: State) {
    forall r :: 0 <= r < |s.coord.reduces| && s.coord.reduces[r].state.Completed? && r in s.outs ==>
      r in t.outs && t.outs[r] == s.outs[r]
  }

  /** One task fewer is left. */
  lemma FinishOne(cfg: Config, s: State) returns (u: State)
    requires Leases(cfg, s) && s.coord.phase != AllDone
    ensures Leads(cfg, s, u) && Left(u.coord) < Left(s.coord) && Settled(s, u)
  {
    var t, j := GrantFollows(cfg, s);
    var job := t.jobs[j];
    if t.coord.phase == Map {
      u := DoMap(cfg, s, t, j);
      CompleteOne(t.coord.maps, job.task);
    } else {
      u := DoReduce(cfg, s, t, j);
      CompleteOne(t.coord.reduces, job.task);
    }
  }

  lemma SettledOn(s: State, t: State, u: State)
    requires Settled(s, t) && Settled(t, u) && Advances(s.coord, t.coord)
    ensures Settled(s, u)
  {
    forall r | 0 <= r < |s.coord.reduces| && s.coord.reduces[r].state.Completed? && r in s.outs
      ensures r in u.outs && u.outs[r] == s.outs[r]
    {
      assert TaskAdvances(s.coord.reduces[r], t.coord.reduces[r]);
    }
  }

  lemma {:induction false} FinishAll(cfg: Config, s: State) returns (run: seq<Action>)
    requires Leases(cfg, s)
    ensures Legal(cfg, s, run) && After(cfg, s, run).coord.phase == AllDone
    ensures Settled(s, After(cfg, s, run))
    decreases Left(s.coord)
  {
    if s.coord.phase == AllDone {
      run := [];
    } else {
      var u := FinishOne(cfg, s);
      var first :| Legal(cfg, s, first) && After(cfg, s, first) == u;
      LeasesRun(cfg, s, first);
      AdvanceRun(cfg, s, first);
      var rest := FinishAll(cfg, u);
      RunThen(cfg, s, first, rest);
      run := first + rest;
      SettledOn(s, u, After(cfg, u, rest));
    }
  }

  /** Whatever happened so far, the job can still be brought to its end, with the output of the
      sequential program. */
  lemma JobCanFinish(cfg: Config, run: seq<Action>, sorted: seq<KeyValue>) returns (more: seq<Action>)
    requires WellFormed(cfg) && Legal(cfg, Init(cfg), run)
    requires Sorted(sorted) && multiset(sorted) == multiset(All(cfg.emits))
    ensures Legal(cfg, Init(cfg), run + more)
    ensures var s := After(cfg, Init(cfg), run + more);
            && s.coord.phase == AllDone
            && (forall r :: 0 <= r < cfg.nReduce ==> r in s.outs)
            && Gathered(OutFiles(s, cfg.nReduce), cfg.nReduce) == multiset(Lines(cfg.reducef, sorted))
  {
    LeasesInit(cfg);
    LeasesRun(cfg, Init(cfg), run);
    more := FinishAll(cfg, After(cfg, Init(cfg), run));
    RunThen(cfg, Init(cfg), run, more);
    DistributedEqualsSequential(cfg, run + more, sorted);
  }
}
