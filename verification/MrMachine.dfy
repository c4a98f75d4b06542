/** Coordinator, workers and the shared directory as one machine. A job is one grant in the hands
    of a worker; a worker that crashes, or whose lease has timed out and been given to another, is a
    job that stops moving or keeps moving, whichever is worse. */
module MrMachine {
  import opened MrReduce
  import opened MrPartition
  import opened MrCoordinator

  /** The pairs that map emits for the file of a given name. */
  type MapFn = string -> seq<KeyValue>

  /** The pairs of each file of a list. */
  function Emitted(mapf: MapFn, files: seq<string>): (emits: seq<seq<KeyValue>>)
    ensures |emits| == |files| && forall i :: 0 <= i < |files| ==> emits[i] == mapf(files[i])
  {
    seq(|files|, i requires 0 <= i < |files| => mapf(files[i]))
  }

  /** What the job computes: the input files; map, up to the order of what it emits; the number of
      reduce tasks; the hash that picks one; reduce; and what the decoder of intermediate files makes
      of an output file. */
  datatype Config = Config(
    files: seq<string>, mapf: MapFn, nReduce: nat, hash: HashFn, reducef: ReduceFn,
    decode: seq<Line> -> seq<KeyValue>)
  {
    const emits: seq<seq<KeyValue>> := Emitted(mapf, files)
  }

  /** There is something to do. */
  predicate Sized(cfg: Config) {
    |cfg.files| > 0 && cfg.nReduce > 0
  }

  /** The pairs of all input files. */
  function All(emits: seq<seq<KeyValue>>): seq<KeyValue> {
    if emits == [] then [] else All(emits[..|emits|-1]) + emits[|emits|-1]
  }

  /** The pairs of reduce task r. */
  function Share(cfg: Config, r: nat): seq<KeyValue>
    requires cfg.nReduce > 0
  {
    Bucket(cfg.hash, cfg.nReduce, All(cfg.emits), r)
  }

  predicate SortedShare(cfg: Config, r: nat, kva: seq<KeyValue>)
    requires cfg.nReduce > 0
  {
    Sorted(kva) && multiset(kva) == multiset(Share(cfg, r))
  }

  /** The decoder of intermediate files makes no pairs of this job's own output files: their names
      match the pattern of the intermediate files. */
  ghost predicate Silent(cfg: Config)
    requires cfg.nReduce > 0
  {
    forall r: nat, kva :: r < cfg.nReduce && SortedShare(cfg, r, kva) ==> cfg.decode(Lines(cfg.reducef, kva)) == []
  }

  /** There is something to do, reduce ignores the order of values, and output files read in place of
      intermediate files are silent. */
  ghost predicate WellFormed(cfg: Config) {
    Sized(cfg) && OrderBlind(cfg.reducef) && Silent(cfg)
  }

  /** Published files: mr-m-r and mr-out-r. */
  datatype Name = Inter(m: nat, r: nat) | Out(r: nat)

  datatype MapStage = MapGranted | Publishing(kva: seq<KeyValue>, next: nat) | MapReported

  datatype ReduceStage = ReduceGranted | Reading(todo: set<Name>, kva: seq<KeyValue>) | Written | ReduceReported

  datatype Job =
    | MapJob(task: nat, attempt: nat, file: string, mapStage: MapStage)
    | ReduceJob(task: nat, attempt: nat, reduceStage: ReduceStage)

  datatype State = State(
    coord: Coord, jobs: seq<Job>, inter: map<(nat, nat), seq<KeyValue>>, outs: map<nat, seq<Line>>)

  datatype Action =
    | Assign(now: int)
    | Expire(now: int)
    | RunMap(job: nat, kva: seq<KeyValue>)
    | Publish(job: nat)
    | ReportMap(job: nat)
    | Glob(job: nat)
    | ReadFile(job: nat, name: Name)
    | WriteOut(job: nat, sorted: seq<KeyValue>)
    | ReportReduce(job: nat)

  function Init(cfg: Config): State {
    State(Fresh(cfg.files, cfg.nReduce), [], map[], map[])
  }

  predicate Present(s: State, name: Name) {
    match name
    case Inter(m, r) => (m, r) in s.inter
    case Out(r) => r in s.outs
  }

  /** The files the pattern mr-*-r finds. */
  function Matching(s: State, r: nat): set<Name> {
    (set k | k in s.inter && k.1 == r :: Inter(k.0, k.1)) + (if r in s.outs then {Out(r)} else {})
  }

  /** What decoding a published file yields. */
  function Contents(cfg: Config, s: State, name: Name): seq<KeyValue>
    requires Present(s, name)
  {
    match name
    case Inter(m, r) => s.inter[(m, r)]
    case Out(r) => cfg.decode(s.outs[r])
  }

  predicate Enabled(cfg: Config, s: State, a: Action) {
    match a
    case Assign(_) => true
    case Expire(_) => true
    case RunMap(j, kva) =>
      && j < |s.jobs| && s.jobs[j].MapJob? && s.jobs[j].mapStage.MapGranted?
      && multiset(kva) == multiset(cfg.mapf(s.jobs[j].file))
    case Publish(j) =>
      j < |s.jobs| && s.jobs[j].MapJob? && s.jobs[j].mapStage.Publishing? && s.jobs[j].mapStage.next < cfg.nReduce
    case ReportMap(j) =>
      && j < |s.jobs| && s.jobs[j].MapJob? && s.jobs[j].mapStage.Publishing? && s.jobs[j].mapStage.next == cfg.nReduce
      && s.jobs[j].task < |s.coord.maps|
    case Glob(j) =>
      j < |s.jobs| && s.jobs[j].ReduceJob? && s.jobs[j].reduceStage.ReduceGranted?
    case ReadFile(j, name) =>
      && j < |s.jobs| && s.jobs[j].ReduceJob? && s.jobs[j].reduceStage.Reading? && name in s.jobs[j].reduceStage.todo
      && Present(s, name)
    case WriteOut(j, sorted) =>
      && j < |s.jobs| && s.jobs[j].ReduceJob? && s.jobs[j].reduceStage.Reading? && s.jobs[j].reduceStage.todo == {}
      && Sorted(sorted) && multiset(sorted) == multiset(s.jobs[j].reduceStage.kva)
    case ReportReduce(j) =>
      && j < |s.jobs| && s.jobs[j].ReduceJob? && s.jobs[j].reduceStage.Written? && s.jobs[j].task < |s.coord.reduces|
  }

  function WithJob(s: State, j: nat, job: Job): State
    requires j < |s.jobs|
  {
    s.(jobs := s.jobs[j := job])
  }

  function NewJob(kind: Kind, task: nat, attempt: nat, file: string): Job {
    if kind == MapTask then MapJob(task, attempt, file, MapGranted) else ReduceJob(task, attempt, ReduceGranted)
  }

  function Next(cfg: Config, s: State, a: Action): State
    requires cfg.nReduce > 0 && Enabled(cfg, s, a)
  {
    match a
    case Assign(now) =>
      var (coord, grant) := Assigned(s.coord, now);
      s.(coord := coord,
         jobs := if grant.Work? then s.jobs + [NewJob(grant.kind, grant.task, grant.attempt, grant.file)] else s.jobs)
    case Expire(now) => s.(coord := Expired(s.coord, now))
    case RunMap(j, kva) => WithJob(s, j, s.jobs[j].(mapStage := Publishing(kva, 0)))
    case Publish(j) =>
      var job := s.jobs[j];
      var Publishing(kva, next) := job.mapStage;
      WithJob(s, j, job.(mapStage := Publishing(kva, next + 1)))
      .(inter := s.inter[(job.task, next) := Bucket(cfg.hash, cfg.nReduce, kva, next)])
    case ReportMap(j) =>
      var job := s.jobs[j];
      WithJob(s, j, job.(mapStage := MapReported)).(coord := Finished(s.coord, MapTask, job.task, job.attempt))
    case Glob(j) =>
      WithJob(s, j, s.jobs[j].(reduceStage := Reading(Matching(s, s.jobs[j].task), [])))
    case ReadFile(j, name) =>
      var Reading(todo, kva) := s.jobs[j].reduceStage;
      WithJob(s, j, s.jobs[j].(reduceStage := Reading(todo - {name}, kva + Contents(cfg, s, name))))
    case WriteOut(j, sorted) =>
      WithJob(s, j, s.jobs[j].(reduceStage := Written))
      .(outs := s.outs[s.jobs[j].task := Lines(cfg.reducef, sorted)])
    case ReportReduce(j) =>
      var job := s.jobs[j];
      WithJob(s, j, job.(reduceStage := ReduceReported)).(coord := Finished(s.coord, ReduceTask, job.task, job.attempt))
  }

  predicate Legal(cfg: Config, s: State, run: seq<Action>)
    requires cfg.nReduce > 0
    decreases |run|
  {
    run == [] || (Enabled(cfg, s, run[0]) && Legal(cfg, Next(cfg, s, run[0]), run[1..]))
  }

  function After(cfg: Config, s: State, run: seq<Action>): State
    requires cfg.nReduce > 0 && Legal(cfg, s, run)
    decreases |run|
  {
    if run == [] then s else After(cfg, Next(cfg, s, run[0]), run[1..])
  }
}
