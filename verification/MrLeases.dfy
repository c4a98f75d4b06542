/** Safety of the coordinator over whole runs: leases, attempts and phases. */
module MrLeases {
  import opened MrCoordinator
  import opened MrMachine

  function KindOf(job: Job): Kind {
    if job.MapJob? then MapTask else ReduceTask
  }

  predicate Reported(job: Job) {
    match job
    case MapJob(_, _, _, stage) => stage.MapReported?
    case ReduceJob(_, _, stage) => stage.ReduceReported?
  }

  /** A job holds an attempt that was granted; the current attempt's job has reported exactly if
      its task is completed. */
  predicate JobOk(tasks: seq<Task>, job: Job) {
    && job.task < |tasks| && job.attempt <= tasks[job.task].attempt
    && (job.attempt == tasks[job.task].attempt ==>
          !tasks[job.task].state.Idle? && (Reported(job) <==> tasks[job.task].state.Completed?))
  }

  /** No two jobs hold the same attempt of the same task. */
  predicate Distinct(jobs: seq<Job>) {
    forall i, j :: 0 <= i < j < |jobs| && KindOf(jobs[i]) == KindOf(jobs[j]) && jobs[i].task == jobs[j].task ==>
      jobs[i].attempt != jobs[j].attempt
  }

  /** What each phase means. */
  predicate PhaseOk(c: Coord) {
    match c.phase
    case Map =>
      && !AllCompleted(c.maps)
      && forall r :: 0 <= r < |c.reduces| ==> c.reduces[r].state.Idle? && c.reduces[r].attempt == 0
    case Reduce => AllCompleted(c.maps) && !AllCompleted(c.reduces)
    case AllDone => AllCompleted(c.maps) && AllCompleted(c.reduces)
  }

  /** Grants a table accounts for: one for each timed-out attempt and one for a task not idle. */
  function Granted(tasks: seq<Task>): nat {
    if tasks == [] then 0
    else var t := tasks[|tasks|-1];
      Granted(tasks[..|tasks|-1]) + t.attempt + (if t.state.Idle? then 0 else 1)
  }

  /** How often a task was granted. */
  function GrantsOf(jobs: seq<Job>, kind: Kind, task: nat): nat {
    if jobs == [] then 0
    else var job := jobs[|jobs|-1];
      GrantsOf(jobs[..|jobs|-1], kind, task) + (if KindOf(job) == kind && job.task == task then 1 else 0)
  }

  predicate Counted(tasks: seq<Task>, jobs: seq<Job>, kind: Kind) {
    forall i :: 0 <= i < |tasks| ==>
      GrantsOf(jobs, kind, i) == tasks[i].attempt + (if tasks[i].state.Idle? then 0 else 1)
  }

  predicate JobsOk(c: Coord, jobs: seq<Job>) {
    forall j :: 0 <= j < |jobs| ==> JobOk(Tasks(c, KindOf(jobs[j])), jobs[j])
  }

  predicate Leases(cfg: Config, s: State) {
    && |s.coord.maps| == |cfg.emits| > 0 && |s.coord.reduces| == cfg.nReduce > 0
    && JobsOk(s.coord, s.jobs) && Distinct(s.jobs) && PhaseOk(s.coord)
    && Counted(s.coord.maps, s.jobs, MapTask) && Counted(s.coord.reduces, s.jobs, ReduceTask)
  }

  // ---------------------------------------------------------------------------------------
  // Steps
  // ---------------------------------------------------------------------------------------

  /** A job moves on without reporting: same task, same attempt. */
  predicate SameLease(a: Job, b: Job) {
    KindOf(a) == KindOf(b) && a.task == b.task && a.attempt == b.attempt
  }

  lemma {:induction false} ReplaceGrants(jobs: seq<Job>, j: nat, job: Job, kind: Kind, task: nat)
    requires j < |jobs| && SameLease(jobs[j], job)
    ensures GrantsOf(jobs[j := job], kind, task) == GrantsOf(jobs, kind, task)
  {
    var jobs' := jobs[j := job];
    if j < |jobs| - 1 {
      ReplaceGrants(jobs[..|jobs|-1], j, job, kind, task);
      assert jobs'[..|jobs|-1] == jobs[..|jobs|-1][j := job];
    } else {
      assert jobs'[..|jobs|-1] == jobs[..|jobs|-1];
    }
  }

  lemma ReplaceCounted(tasks: seq<Task>, jobs: seq<Job>, j: nat, job: Job, kind: Kind)
    requires Counted(tasks, jobs, kind) && j < |jobs| && SameLease(jobs[j], job)
    ensures Counted(tasks, jobs[j := job], kind)
  {
    forall i | 0 <= i < |tasks|
      ensures GrantsOf(jobs[j := job], kind, i) == GrantsOf(jobs, kind, i)
    {
      ReplaceGrants(jobs, j, job, kind, i);
    }
  }

  lemma ReplaceDistinct(jobs: seq<Job>, j: nat, job: Job)
    requires Distinct(jobs) && j < |jobs| && SameLease(jobs[j], job)
    ensures Distinct(jobs[j := job])
  {
  }

  /** Every step of a worker that does not report. */
  lemma WorkStep(cfg: Config, s: State, j: nat, job: Job)
    requires Leases(cfg, s) && j < |s.jobs| && SameLease(s.jobs[j], job) && Reported(job) == Reported(s.jobs[j])
    ensures Leases(cfg, WithJob(s, j, job))
  {
    ReplaceDistinct(s.jobs, j, job);
    ReplaceCounted(s.coord.maps, s.jobs, j, job, MapTask);
    ReplaceCounted(s.coord.reduces, s.jobs, j, job, ReduceTask);
    assert JobOk(Tasks(s.coord, KindOf(job)), s.jobs[j]);
  }

  /** One task's state changes. */
  lemma AssignJobs(tasks: seq<Task>, jobs: seq<Job>, kind: Kind, i: nat, now: int)
    requires i < |tasks| && tasks[i].state.Idle?
    requires forall j :: 0 <= j < |jobs| && KindOf(jobs[j]) == kind ==> JobOk(tasks, jobs[j])
    ensures var tasks' := tasks[i := tasks[i].(state := InProgress, startTime := now)];
            var jobs' := jobs + [NewJob(kind, i, tasks[i].attempt, tasks[i].file)];
            && (forall j :: 0 <= j < |jobs'| && KindOf(jobs'[j]) == kind ==> JobOk(tasks', jobs'[j]))
            && (forall j :: 0 <= j < |jobs| && KindOf(jobs[j]) == kind && jobs[j].task == i ==>
                  jobs[j].attempt != tasks[i].attempt)
  {
  }

  lemma AppendGrants(jobs: seq<Job>, job: Job, kind: Kind, task: nat)
    ensures GrantsOf(jobs + [job], kind, task)
         == GrantsOf(jobs, kind, task) + (if KindOf(job) == kind && job.task == task then 1 else 0)
  {
    assert (jobs + [job])[..|jobs|] == jobs;
  }

  lemma AssignCounted(tasks: seq<Task>, jobs: seq<Job>, kind: Kind, i: nat, now: int)
    requires Counted(tasks, jobs, kind) && i < |tasks| && tasks[i].state.Idle?
    ensures Counted(tasks[i := tasks[i].(state := InProgress, startTime := now)],
                    jobs + [NewJob(kind, i, tasks[i].attempt, tasks[i].file)], kind)
  {
    forall k | 0 <= k < |tasks|
      ensures GrantsOf(jobs + [NewJob(kind, i, tasks[i].attempt, tasks[i].file)], kind, k)
           == GrantsOf(jobs, kind, k) + (if k == i then 1 else 0)
    {
      AppendGrants(jobs, NewJob(kind, i, tasks[i].attempt, tasks[i].file), kind, k);
    }
  }

  lemma OtherCounted(tasks: seq<Task>, jobs: seq<Job>, kind: Kind, job: Job)
    requires Counted(tasks, jobs, kind) && KindOf(job) != kind
    ensures Counted(tasks, jobs + [job], kind)
  {
    forall k | 0 <= k < |tasks|
      ensures GrantsOf(jobs + [job], kind, k) == GrantsOf(jobs, kind, k)
    {
      AppendGrants(jobs, job, kind, k);
    }
  }

  lemma AssignPhase(c: Coord, now: int)
    requires PhaseOk(c)
    ensures PhaseOk(Assigned(c, now).0)
  {
    var c' := Assigned(c, now).0;
    if c.phase == Map {
      var m :| 0 <= m < |c.maps| && !c.maps[m].state.Completed?;
      assert !c'.maps[m].state.Completed?;
    } else if c.phase == Reduce {
      var r :| 0 <= r < |c.reduces| && !c.reduces[r].state.Completed?;
      assert !c'.reduces[r].state.Completed?;
    }
  }

  lemma AssignStep(cfg: Config, s: State, now: int)
    requires Leases(cfg, s)
    ensures Leases(cfg, Next(cfg, s, Assign(now)))
  {
    AssignPhase(s.coord, now);
    var (coord, grant) := Assigned(s.coord, now);
    if grant.Work? {
      var kind, i := grant.kind, grant.task;
      var job := NewJob(kind, i, grant.attempt, grant.file);
      AssignJobs(Tasks(s.coord, kind), s.jobs, kind, i, now);
      AssignCounted(Tasks(s.coord, kind), s.jobs, kind, i, now);
      if kind == MapTask {
        OtherCounted(s.coord.reduces, s.jobs, ReduceTask, job);
      } else {
        OtherCounted(s.coord.maps, s.jobs, MapTask, job);
      }
      AssignJobsOk(cfg, s, now);
    }
  }

  lemma AssignJobsOk(cfg: Config, s: State, now: int)
    requires Leases(cfg, s) && Assigned(s.coord, now).1.Work?
    ensures var t := Next(cfg, s, Assign(now)); JobsOk(t.coord, t.jobs) && Distinct(t.jobs)
  {
    var (coord, grant) := Assigned(s.coord, now);
    AssignJobs(Tasks(s.coord, grant.kind), s.jobs, grant.kind, grant.task, now);
    var t := Next(cfg, s, Assign(now));
    forall j | 0 <= j < |t.jobs|
      ensures JobOk(Tasks(t.coord, KindOf(t.jobs[j])), t.jobs[j])
    {
      if j < |s.jobs| {
        assert JobOk(Tasks(s.coord, KindOf(s.jobs[j])), s.jobs[j]);
      }
    }
  }

  lemma LapseJobs(tasks: seq<Task>, now: int, job: Job)
    requires JobOk(tasks, job)
    ensures JobOk(LapseAll(tasks, now), job)
  {
  }

  lemma LapseCompleted(tasks: seq<Task>, now: int)
    ensures AllCompleted(LapseAll(tasks, now)) <==> AllCompleted(tasks)
  {
    var tasks' := LapseAll(tasks, now);
    assert forall i :: 0 <= i < |tasks| ==> (tasks'[i].state.Completed? <==> tasks[i].state.Completed?);
    if AllCompleted(tasks') {
      forall i | 0 <= i < |tasks|
        ensures tasks[i].state.Completed?
      {
        assert tasks'[i].state.Completed?;
      }
    }
  }

  lemma ExpireJobs(c: Coord, jobs: seq<Job>, now: int)
    requires JobsOk(c, jobs)
    ensures JobsOk(Expired(c, now), jobs)
  {
    forall j | 0 <= j < |jobs|
      ensures JobOk(Tasks(Expired(c, now), KindOf(jobs[j])), jobs[j])
    {
      assert JobOk(Tasks(c, KindOf(jobs[j])), jobs[j]);
      LapseJobs(Tasks(c, KindOf(jobs[j])), now, jobs[j]);
    }
  }

  lemma ExpireStep(cfg: Config, s: State, now: int)
    requires Leases(cfg, s)
    ensures Leases(cfg, Next(cfg, s, Expire(now)))
  {
    LapseCompleted(s.coord.maps, now);
    LapseCompleted(s.coord.reduces, now);
    ExpireJobs(s.coord, s.jobs, now);
  }

  /** The report of a stale attempt changes nothing. */
  lemma StaleReport(c: Coord, kind: Kind, id: nat, attempt: nat)
    requires id < |Tasks(c, kind)| && attempt < Tasks(c, kind)[id].attempt
    ensures Finished(c, kind, id, attempt) == c
  {
  }

  /** The report of the current attempt finds its task in progress and its phase current. */
  lemma CurrentReport(cfg: Config, s: State, j: nat)
    requires Leases(cfg, s) && j < |s.jobs| && !Reported(s.jobs[j])
    requires var job := s.jobs[j]; job.attempt == Tasks(s.coord, KindOf(job))[job.task].attempt
    ensures var job := s.jobs[j];
            && Tasks(s.coord, KindOf(job))[job.task].state.InProgress?
            && s.coord.phase == if job.MapJob? then Map else Reduce
  {
    assert JobOk(Tasks(s.coord, KindOf(s.jobs[j])), s.jobs[j]);
  }

  lemma ReportPhase(c: Coord, kind: Kind, id: nat)
    requires PhaseOk(c) && |c.reduces| > 0 && id < |Tasks(c, kind)|
    requires c.phase == if kind == MapTask then Map else Reduce
    ensures PhaseOk(Finished(c, kind, id, Tasks(c, kind)[id].attempt))
  {
    var c' := Finished(c, kind, id, Tasks(c, kind)[id].attempt);
    if c'.phase == Reduce && kind == MapTask {
      assert !c'.reduces[0].state.Completed?;
    }
  }

  lemma ReportJobs(c: Coord, jobs: seq<Job>, j: nat, job: Job)
    requires JobsOk(c, jobs) && Distinct(jobs) && j < |jobs| && SameLease(jobs[j], job) && Reported(job)
    requires !Reported(jobs[j])
    ensures JobsOk(Finished(c, KindOf(job), job.task, job.attempt), jobs[j := job])
  {
    var c' := Finished(c, KindOf(job), job.task, job.attempt);
    var jobs' := jobs[j := job];
    forall i | 0 <= i < |jobs'|
      ensures JobOk(Tasks(c', KindOf(jobs'[i])), jobs'[i])
    {
      assert JobOk(Tasks(c, KindOf(jobs[i])), jobs[i]);
    }
  }

  lemma ReportCounted(c: Coord, jobs: seq<Job>, job: Job, kind: Kind, j: nat)
    requires j < |jobs| && SameLease(jobs[j], job) && JobOk(Tasks(c, KindOf(job)), jobs[j])
    requires Counted(Tasks(c, kind), jobs, kind)
    ensures Counted(Tasks(Finished(c, KindOf(job), job.task, job.attempt), kind), jobs[j := job], kind)
  {
    ReplaceCounted(Tasks(c, kind), jobs, j, job, kind);
  }

  lemma ReportStep(cfg: Config, s: State, j: nat, job: Job)
    requires Leases(cfg, s) && j < |s.jobs| && SameLease(s.jobs[j], job) && Reported(job) && !Reported(s.jobs[j])
    requires job.task < |Tasks(s.coord, KindOf(job))|
    ensures Leases(cfg, WithJob(s, j, job).(coord := Finished(s.coord, KindOf(job), job.task, job.attempt)))
  {
    ReportJobs(s.coord, s.jobs, j, job);
    ReplaceDistinct(s.jobs, j, job);
    assert JobOk(Tasks(s.coord, KindOf(job)), s.jobs[j]);
    ReportCounted(s.coord, s.jobs, job, MapTask, j);
    ReportCounted(s.coord, s.jobs, job, ReduceTask, j);
    if job.attempt == Tasks(s.coord, KindOf(job))[job.task].attempt {
      CurrentReport(cfg, s, j);
      ReportPhase(s.coord, KindOf(job), job.task);
    }
  }

  lemma LeasesStep(cfg: Config, s: State, a: Action)
    requires Leases(cfg, s) && Enabled(cfg, s, a)
    ensures Leases(cfg, Next(cfg, s, a))
  {
    match a
    case Assign(now) => AssignStep(cfg, s, now);
    case Expire(now) => ExpireStep(cfg, s, now);
    case ReportMap(j) => ReportStep(cfg, s, j, s.jobs[j].(mapStage := MapReported));
    case ReportReduce(j) => ReportStep(cfg, s, j, s.jobs[j].(reduceStage := ReduceReported));
    case _ => WorkStep(cfg, s, a.job, Next(cfg, s, a).jobs[a.job]);
  }

  lemma LeasesInit(cfg: Config)
    requires Sized(cfg)
    ensures Leases(cfg, Init(cfg))
  {
    var c := Init(cfg).coord;
    assert !c.maps[0].state.Completed?;
  }

  lemma {:induction false} LeasesRun(cfg: Config, s: State, run: seq<Action>)
    requires Leases(cfg, s) && Legal(cfg, s, run)
    ensures Leases(cfg, After(cfg, s, run))
    decreases |run|
  {
    if run != [] {
      LeasesStep(cfg, s, run[0]);
      LeasesRun(cfg, Next(cfg, s, run[0]), run[1..]);
    }
  }

  // ---------------------------------------------------------------------------------------
  // Theorems
  // ---------------------------------------------------------------------------------------

  /** Nothing is taken back: phases advance, completed tasks stay completed, attempts grow. */
  ghost predicate Advances(c: Coord, c': Coord) {
    && Rank(c.phase) <= Rank(c'.phase)
    && |c.maps| == |c'.maps| && |c.reduces| == |c'.reduces|
    && (forall i :: 0 <= i < |c.maps| ==> TaskAdvances(c.maps[i], c'.maps[i]))
    && (forall i :: 0 <= i < |c.reduces| ==> TaskAdvances(c.reduces[i], c'.reduces[i]))
  }

  predicate TaskAdvances(t: Task, t': Task) {
    t.attempt <= t'.attempt && (t.state.Completed? ==> t'.state.Completed? && t'.attempt == t.attempt)
  }

  lemma AdvanceReport(cfg: Config, s: State, j: nat)
    requires Leases(cfg, s) && j < |s.jobs| && !Reported(s.jobs[j])
    ensures var job := s.jobs[j];
            && job.task < |Tasks(s.coord, KindOf(job))|
            && Advances(s.coord, Finished(s.coord, KindOf(job), job.task, job.attempt))
  {
    var job := s.jobs[j];
    assert JobOk(Tasks(s.coord, KindOf(job)), job);
    if job.attempt == Tasks(s.coord, KindOf(job))[job.task].attempt {
      CurrentReport(cfg, s, j);
    }
  }

  lemma AdvanceAssign(c: Coord, now: int)
    ensures Advances(c, Assigned(c, now).0)
  {
  }

  lemma AdvanceExpire(c: Coord, now: int)
    ensures Advances(c, Expired(c, now))
  {
  }

  lemma AdvanceStep(cfg: Config, s: State, a: Action)
    requires Leases(cfg, s) && Enabled(cfg, s, a)
    ensures Advances(s.coord, Next(cfg, s, a).coord)
  {
    match a
    case Assign(now) => AdvanceAssign(s.coord, now);
    case Expire(now) => AdvanceExpire(s.coord, now);
    case ReportMap(j) => AdvanceReport(cfg, s, j);
    case ReportReduce(j) => AdvanceReport(cfg, s, j);
    case _ => assert Next(cfg, s, a).coord == s.coord;
  }

  lemma AdvancesTransitive(a: Coord, b: Coord, c: Coord)
    requires Advances(a, b) && Advances(b, c)
    ensures Advances(a, c)
  {
    forall i | 0 <= i < |a.maps|
      ensures TaskAdvances(a.maps[i], c.maps[i])
    {
      assert TaskAdvances(a.maps[i], b.maps[i]) && TaskAdvances(b.maps[i], c.maps[i]);
    }
    forall i | 0 <= i < |a.reduces|
      ensures TaskAdvances(a.reduces[i], c.reduces[i])
    {
      assert TaskAdvances(a.reduces[i], b.reduces[i]) && TaskAdvances(b.reduces[i], c.reduces[i]);
    }
  }

  lemma {:induction false} AdvanceRun(cfg: Config, s: State, run: seq<Action>)
    requires Leases(cfg, s) && Legal(cfg, s, run)
    ensures Advances(s.coord, After(cfg, s, run).coord)
    decreases |run|
  {
    if run != [] {
      var t := Next(cfg, s, run[0]);
      AdvanceStep(cfg, s, run[0]);
      LeasesStep(cfg, s, run[0]);
      AdvanceRun(cfg, t, run[1..]);
      AdvancesTransitive(s.coord, t.coord, After(cfg, s, run).coord);
    }
  }

  /** Over whole runs, from any moment on: the phase never moves back and completed tasks stay
      completed; the reduce phase means every map task is completed, and the end means every task
      is; no attempt is granted twice. */
  lemma CoordinatorSafety(cfg: Config, before: seq<Action>, after: seq<Action>)
    requires Sized(cfg)
    requires Legal(cfg, Init(cfg), before) && Legal(cfg, After(cfg, Init(cfg), before), after)
    ensures var s := After(cfg, Init(cfg), before);
            var t := After(cfg, s, after);
            Advances(s.coord, t.coord) && PhaseOk(t.coord) && Distinct(t.jobs)
  {
    LeasesInit(cfg);
    LeasesRun(cfg, Init(cfg), before);
    var s := After(cfg, Init(cfg), before);
    LeasesRun(cfg, s, after);
    AdvanceRun(cfg, s, after);
  }

  /** That a grant is reported at most once is needed: once a job is done, a second report of any map
      task under its current attempt takes it back to the reduce phase, where every worker that asks
      is told to wait and no lease is left that could time out. */
  lemma SecondReportReopens(cfg: Config, run: seq<Action>, m: nat)
    requires Sized(cfg) && Legal(cfg, Init(cfg), run)
    requires After(cfg, Init(cfg), run).coord.phase == AllDone && m < |cfg.emits|
    ensures var c := After(cfg, Init(cfg), run).coord;
            && |c.maps| == |cfg.emits|
            && var c' := Finished(c, MapTask, m, c.maps[m].attempt);
               && c'.phase == Reduce
               && forall now :: Assigned(c', now) == (c', Wait) && Expired(c', now) == c'
  {
    LeasesInit(cfg);
    LeasesRun(cfg, Init(cfg), run);
    var c := After(cfg, Init(cfg), run).coord;
    DoneReopened(c, m);
  }

  lemma DoneReopened(c: Coord, m: nat)
    requires AllCompleted(c.maps) && AllCompleted(c.reduces) && m < |c.maps|
    ensures var c' := Finished(c, MapTask, m, c.maps[m].attempt);
            && c'.phase == Reduce
            && forall now :: Assigned(c', now) == (c', Wait) && Expired(c', now) == c'
  {
    var c' := Finished(c, MapTask, m, c.maps[m].attempt);
    assert AllCompleted(c.maps[m := c.maps[m].(state := Completed)]);
    FirstIdleIs(c.reduces, |c.reduces|);
    forall now
      ensures Assigned(c', now) == (c', Wait) && Expired(c', now) == c'
    {
      assert LapseAll(c'.reduces, now) == c'.reduces;
    }
  }

  /** A job whose lease timed out can never complete its task: its report is ignored whenever it
      comes. */
  lemma TimedOutNeverCompletes(cfg: Config, before: seq<Action>, after: seq<Action>, j: nat)
    requires Sized(cfg)
    requires Legal(cfg, Init(cfg), before) && Legal(cfg, After(cfg, Init(cfg), before), after)
    requires var s := After(cfg, Init(cfg), before);
             && j < |s.jobs| && s.jobs[j].task < |Tasks(s.coord, KindOf(s.jobs[j]))|
             && s.jobs[j].attempt < Tasks(s.coord, KindOf(s.jobs[j]))[s.jobs[j].task].attempt
    ensures var job := After(cfg, Init(cfg), before).jobs[j];
            var t := After(cfg, After(cfg, Init(cfg), before), after);
            job.task < |Tasks(t.coord, KindOf(job))| && Finished(t.coord, KindOf(job), job.task, job.attempt) == t.coord
  {
    LeasesInit(cfg);
    LeasesRun(cfg, Init(cfg), before);
    var s := After(cfg, Init(cfg), before);
    var job := s.jobs[j];
    assert JobOk(Tasks(s.coord, KindOf(job)), job);
    AdvanceRun(cfg, s, after);
    var t := After(cfg, s, after);
    assert TaskAdvances(Tasks(s.coord, KindOf(job))[job.task], Tasks(t.coord, KindOf(job))[job.task]);
    StaleReport(t.coord, KindOf(job), job.task, job.attempt);
  }

  lemma {:induction false} GrantedUpdate(tasks: seq<Task>, i: nat, t: Task)
    requires i < |tasks|
    ensures Granted(tasks[i := t])
         == Granted(tasks) - tasks[i].attempt - (if tasks[i].state.Idle? then 0 else 1)
            + t.attempt + (if t.state.Idle? then 0 else 1)
  {
    var tasks' := tasks[i := t];
    if i < |tasks| - 1 {
      GrantedUpdate(tasks[..|tasks|-1], i, t);
      assert tasks'[..|tasks|-1] == tasks[..|tasks|-1][i := t];
    } else {
      assert tasks'[..|tasks|-1] == tasks[..|tasks|-1];
    }
  }

  lemma {:induction false} GrantedLapse(tasks: seq<Task>, now: int)
    ensures Granted(LapseAll(tasks, now)) == Granted(tasks)
  {
    if tasks != [] {
      GrantedLapse(tasks[..|tasks|-1], now);
      assert LapseAll(tasks, now)[..|tasks|-1] == LapseAll(tasks[..|tasks|-1], now);
    }
  }

  lemma {:induction false} GrantedFresh(tasks: seq<Task>)
    requires forall i :: 0 <= i < |tasks| ==> tasks[i].state.Idle? && tasks[i].attempt == 0
    ensures Granted(tasks) == 0
  {
    if tasks != [] {
      GrantedFresh(tasks[..|tasks|-1]);
    }
  }

  predicate Balanced(s: State) {
    |s.jobs| == Granted(s.coord.maps) + Granted(s.coord.reduces)
  }

  lemma AssignBalanced(cfg: Config, s: State, now: int)
    requires cfg.nReduce > 0 && Balanced(s)
    ensures Balanced(Next(cfg, s, Assign(now)))
  {
    var grant := Assigned(s.coord, now).1;
    if grant.Work? {
      var tasks := Tasks(s.coord, grant.kind);
      GrantedUpdate(tasks, grant.task, tasks[grant.task].(state := InProgress, startTime := now));
    }
  }

  lemma BalancedStep(cfg: Config, s: State, a: Action)
    requires Leases(cfg, s) && Balanced(s) && Enabled(cfg, s, a)
    ensures Balanced(Next(cfg, s, a))
  {
    match a
    case Assign(now) => AssignBalanced(cfg, s, now);
    case Expire(now) =>
      GrantedLapse(s.coord.maps, now);
      GrantedLapse(s.coord.reduces, now);
    case ReportMap(j) => ReportBalanced(cfg, s, j);
    case ReportReduce(j) => ReportBalanced(cfg, s, j);
    case _ =>
  }

  lemma ReportBalanced(cfg: Config, s: State, j: nat)
    requires Leases(cfg, s) && j < |s.jobs| && !Reported(s.jobs[j])
    ensures var job := s.jobs[j];
            var c := Finished(s.coord, KindOf(job), job.task, job.attempt);
            Granted(c.maps) == Granted(s.coord.maps) && Granted(c.reduces) == Granted(s.coord.reduces)
  {
    var job := s.jobs[j];
    var tasks := Tasks(s.coord, KindOf(job));
    assert JobOk(tasks, job);
    GrantedUpdate(tasks, job.task, tasks[job.task].(state := Completed));
  }

  lemma {:induction false} BalancedRun(cfg: Config, s: State, run: seq<Action>)
    requires Leases(cfg, s) && Balanced(s) && Legal(cfg, s, run)
    ensures Balanced(After(cfg, s, run))
    decreases |run|
  {
    if run != [] {
      BalancedStep(cfg, s, run[0]);
      LeasesStep(cfg, s, run[0]);
      BalancedRun(cfg, Next(cfg, s, run[0]), run[1..]);
    }
  }

  /** Every grant is accounted for: a task has been granted once for each lease it lost, and once
      more if it is not idle; so the grants of a run are the completed tasks, the tasks in progress
      and the timeouts. */
  lemma GrantAccounting(cfg: Config, run: seq<Action>)
    requires Sized(cfg) && Legal(cfg, Init(cfg), run)
    ensures var s := After(cfg, Init(cfg), run);
            && |s.jobs| == Granted(s.coord.maps) + Granted(s.coord.reduces)
            && Counted(s.coord.maps, s.jobs, MapTask) && Counted(s.coord.reduces, s.jobs, ReduceTask)
  {
    LeasesInit(cfg);
    LeasesRun(cfg, Init(cfg), run);
    GrantedFresh(Init(cfg).coord.maps);
    GrantedFresh(Init(cfg).coord.reduces);
    BalancedRun(cfg, Init(cfg), run);
  }

  /** No lease of the run ever timed out: the coordinator's timer never changed anything. */
  predicate NoTimeouts(cfg: Config, s: State, run: seq<Action>)
    requires cfg.nReduce > 0 && Legal(cfg, s, run)
    decreases |run|
  {
    || run == []
    || ((run[0].Expire? ==> Next(cfg, s, run[0]).coord == s.coord) && NoTimeouts(cfg, Next(cfg, s, run[0]), run[1..]))
  }

  predicate FirstAttempts(tasks: seq<Task>) {
    forall i :: 0 <= i < |tasks| ==> tasks[i].attempt == 0
  }

  predicate AllFirst(c: Coord) {
    FirstAttempts(c.maps) && FirstAttempts(c.reduces)
  }

  lemma LapseFirst(tasks: seq<Task>, now: int)
    requires FirstAttempts(tasks)
    ensures FirstAttempts(LapseAll(tasks, now)) <==> LapseAll(tasks, now) == tasks
  {
    var tasks' := LapseAll(tasks, now);
    if FirstAttempts(tasks') {
      forall i | 0 <= i < |tasks|
        ensures tasks'[i] == tasks[i]
      {
        assert tasks'[i].attempt == tasks[i].attempt;
      }
    }
  }

  /** Only a timeout starts a second attempt. */
  lemma FirstStep(cfg: Config, s: State, a: Action)
    requires cfg.nReduce > 0 && AllFirst(s.coord) && Enabled(cfg, s, a)
    ensures AllFirst(Next(cfg, s, a).coord) <==> (a.Expire? ==> Next(cfg, s, a).coord == s.coord)
  {
    if a.Expire? {
      LapseFirst(s.coord.maps, a.now);
      LapseFirst(s.coord.reduces, a.now);
    }
  }

  lemma LaterStaysLater(c: Coord, c': Coord)
    requires Advances(c, c')
    ensures AllFirst(c') ==> AllFirst(c)
  {
    forall i | 0 <= i < |c.maps|
      ensures c.maps[i].attempt <= c'.maps[i].attempt
    {
      assert TaskAdvances(c.maps[i], c'.maps[i]);
    }
    forall i | 0 <= i < |c.reduces|
      ensures c.reduces[i].attempt <= c'.reduces[i].attempt
    {
      assert TaskAdvances(c.reduces[i], c'.reduces[i]);
    }
  }

  lemma {:induction false} FirstRun(cfg: Config, s: State, run: seq<Action>)
    requires Leases(cfg, s) && AllFirst(s.coord) && Legal(cfg, s, run)
    ensures NoTimeouts(cfg, s, run) <==> AllFirst(After(cfg, s, run).coord)
    decreases |run|
  {
    if run != [] {
      var t := Next(cfg, s, run[0]);
      FirstStep(cfg, s, run[0]);
      LeasesStep(cfg, s, run[0]);
      AdvanceRun(cfg, t, run[1..]);
      LaterStaysLater(t.coord, After(cfg, s, run).coord);
      if AllFirst(t.coord) {
        FirstRun(cfg, t, run[1..]);
      }
    }
  }

  /** A table of completed tasks accounts for one grant each, and more if some attempt timed out. */
  lemma {:induction false} GrantedCompleted(tasks: seq<Task>)
    requires AllCompleted(tasks)
    ensures Granted(tasks) >= |tasks|
    ensures Granted(tasks) == |tasks| <==> FirstAttempts(tasks)
  {
    if tasks != [] {
      var n := |tasks| - 1;
      GrantedCompleted(tasks[..n]);
      assert FirstAttempts(tasks) <==> FirstAttempts(tasks[..n]) && tasks[n].attempt == 0 by {
        assert tasks == tasks[..n] + [tasks[n]];
      }
    }
  }

  /** A finished job took one grant for each task if and only if no lease timed out; then every map
      task and every reduce task was granted exactly once. */
  lemma OnceEachIff(cfg: Config, run: seq<Action>)
    requires Sized(cfg) && Legal(cfg, Init(cfg), run) && After(cfg, Init(cfg), run).coord.phase == AllDone
    ensures var s := After(cfg, Init(cfg), run);
            && (NoTimeouts(cfg, Init(cfg), run) <==> |s.jobs| == |cfg.files| + cfg.nReduce)
            && (NoTimeouts(cfg, Init(cfg), run) ==>
                  && (forall m :: 0 <= m < |cfg.files| ==> GrantsOf(s.jobs, MapTask, m) == 1)
                  && (forall r :: 0 <= r < cfg.nReduce ==> GrantsOf(s.jobs, ReduceTask, r) == 1))
  {
    LeasesInit(cfg);
    FirstRun(cfg, Init(cfg), run);
    GrantAccounting(cfg, run);
    LeasesRun(cfg, Init(cfg), run);
    var c := After(cfg, Init(cfg), run).coord;
    GrantedCompleted(c.maps);
    GrantedCompleted(c.reduces);
  }

  // ---------------------------------------------------------------------------------------
  // Which file a worker is told to read
  // ---------------------------------------------------------------------------------------

  /** The table names the input files, and every worker with a map task was told that task's file. */
  predicate Told(cfg: Config, s: State) {
    && |s.coord.maps| == |cfg.files|
    && (forall m :: 0 <= m < |cfg.files| ==> s.coord.maps[m].file == cfg.files[m])
    && (forall j :: 0 <= j < |s.jobs| && s.jobs[j].MapJob? ==>
          s.jobs[j].task < |cfg.files| && s.jobs[j].file == cfg.files[s.jobs[j].task])
  }

  lemma AssignTold(cfg: Config, s: State, now: int)
    requires cfg.nReduce > 0 && Told(cfg, s)
    ensures Told(cfg, Next(cfg, s, Assign(now)))
  {
  }

  /** A worker's step, reports included. */
  lemma MoveTold(cfg: Config, s: State, a: Action)
    requires cfg.nReduce > 0 && Told(cfg, s) && Enabled(cfg, s, a) && !a.Assign? && !a.Expire?
    ensures Told(cfg, Next(cfg, s, a))
  {
    var t := Next(cfg, s, a);
    assert t.jobs == s.jobs[a.job := t.jobs[a.job]];
  }

  lemma ToldStep(cfg: Config, s: State, a: Action)
    requires cfg.nReduce > 0 && Told(cfg, s) && Enabled(cfg, s, a)
    ensures Told(cfg, Next(cfg, s, a))
  {
    match a
    case Assign(now) => AssignTold(cfg, s, now);
    case Expire(_) =>
    case _ => MoveTold(cfg, s, a);
  }

  lemma {:induction false} ToldRun(cfg: Config, s: State, run: seq<Action>)
    requires cfg.nReduce > 0 && Told(cfg, s) && Legal(cfg, s, run)
    ensures Told(cfg, After(cfg, s, run))
    decreases |run|
  {
    if run != [] {
      ToldStep(cfg, s, run[0]);
      ToldRun(cfg, Next(cfg, s, run[0]), run[1..]);
    }
  }

  /** In every run, whatever timed out and was granted again: a worker asking for work is told to exit
      exactly when the job is done, and one that is given map task m is told to read file m of the job;
      so is every worker that was ever given it. */
  lemma GrantsCarryFiles(cfg: Config, run: seq<Action>, now: int)
    requires Sized(cfg) && Legal(cfg, Init(cfg), run)
    ensures var s := After(cfg, Init(cfg), run);
            var grant := Assigned(s.coord, now).1;
            && (grant.Exit? <==> s.coord.phase == AllDone)
            && (grant.Work? && grant.kind == MapTask ==>
                  grant.task < |cfg.files| && grant.file == cfg.files[grant.task])
            && (forall j :: 0 <= j < |s.jobs| && s.jobs[j].MapJob? ==>
                  s.jobs[j].task < |cfg.files| && s.jobs[j].file == cfg.files[s.jobs[j].task])
  {
    ToldRun(cfg, Init(cfg), run);
  }

  // ---------------------------------------------------------------------------------------
  // How long a lease lasts
  // ---------------------------------------------------------------------------------------

  /** The time after a step. */
  function Clock(a: Action, t: int): int {
    if a.Assign? || a.Expire? then a.now else t
  }

  /** Time does not go back during the run, which starts at time t. */
  predicate Ticking(run: seq<Action>, t: int)
    decreases |run|
  {
    run == [] || (t <= Clock(run[0], t) && Ticking(run[1..], Clock(run[0], t)))
  }

  /** The task granted at time t is still leased, or completed, or more than ten seconds have passed. */
  predicate Leased(c: Coord, kind: Kind, task: nat, t: int, clock: int) {
    && task < |Tasks(c, kind)|
    && var entry := Tasks(c, kind)[task];
       || clock - t > 10_000_000_000
       || entry.state.Completed?
       || (entry.state.InProgress? && entry.startTime == t)
  }

  lemma LeasedStep(cfg: Config, s: State, a: Action, kind: Kind, task: nat, t: int, clock: int)
    requires cfg.nReduce > 0 && Enabled(cfg, s, a) && Leased(s.coord, kind, task, t, clock) && clock <= Clock(a, clock)
    ensures Leased(Next(cfg, s, a).coord, kind, task, t, Clock(a, clock))
  {
  }

  /** A task granted at time t is not granted again until more than ten seconds later, whatever workers do
      meanwhile. */
  lemma {:induction false} LeaseLasts(cfg: Config, s: State, run: seq<Action>, t': int,
                                      kind: Kind, task: nat, t: int, clock: int)
    requires cfg.nReduce > 0 && Legal(cfg, s, run) && Ticking(run + [Assign(t')], clock)
    requires Leased(s.coord, kind, task, t, clock)
    requires var grant := Assigned(After(cfg, s, run).coord, t').1;
             grant.Work? && grant.kind == kind && grant.task == task
    ensures t' - t > 10_000_000_000
    decreases |run|
  {
    if run != [] {
      LeasedStep(cfg, s, run[0], kind, task, t, clock);
      assert (run + [Assign(t')])[1..] == run[1..] + [Assign(t')];
      LeaseLasts(cfg, Next(cfg, s, run[0]), run[1..], t', kind, task, t, Clock(run[0], clock));
    } else {
      assert run + [Assign(t')] == [Assign(t')];
    }
  }

  /** Two grants of one task are more than ten seconds apart. */
  lemma GrantsFarApart(cfg: Config, s: State, t: int, run: seq<Action>, t': int)
    requires cfg.nReduce > 0 && Legal(cfg, Next(cfg, s, Assign(t)), run) && Ticking(run + [Assign(t')], t)
    requires var grant := Assigned(s.coord, t).1;
             var grant' := Assigned(After(cfg, Next(cfg, s, Assign(t)), run).coord, t').1;
             grant.Work? && grant'.Work? && grant.kind == grant'.kind && grant.task == grant'.task
    ensures t' - t > 10_000_000_000
  {
    var grant := Assigned(s.coord, t).1;
    LeaseLasts(cfg, Next(cfg, s, Assign(t)), run, t', grant.kind, grant.task, t, t);
  }
}
