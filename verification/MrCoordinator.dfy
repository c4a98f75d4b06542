/** The coordinator: a table of map tasks and a table of reduce tasks, leased to workers under
    attempt numbers that grow when a lease times out. */
module MrCoordinator {

  datatype TaskState = Idle | InProgress | Completed

  datatype Phase = Map | Reduce | AllDone

  datatype Kind = MapTask | ReduceTask

  /** Times are in nanoseconds. */
  datatype Task = Task(file: string, state: TaskState, startTime: int, attempt: nat)

  /** What a worker asking for work is told. */
  datatype Grant = Work(kind: Kind, task: nat, attempt: nat, file: string) | Wait | Exit

  datatype Coord = Coord(phase: Phase, maps: seq<Task>, reduces: seq<Task>)

  const TIMEOUT: int := 10_000_000_000

  function Fresh(files: seq<string>, nReduce: nat): Coord {
    Coord(Map,
          seq(|files|, i requires 0 <= i < |files| => Task(files[i], Idle, 0, 0)),
          seq(nReduce, _ => Task("", Idle, 0, 0)))
  }

  function Tasks(c: Coord, kind: Kind): seq<Task> {
    if kind == MapTask then c.maps else c.reduces
  }

  function WithTasks(c: Coord, kind: Kind, tasks: seq<Task>): Coord {
    if kind == MapTask then c.(maps := tasks) else c.(reduces := tasks)
  }

  /** The first idle task, or the length of the table. */
  function FirstIdle(tasks: seq<Task>): (i: nat)
    ensures i <= |tasks|
    ensures forall k :: 0 <= k < i ==> !tasks[k].state.Idle?
    ensures i < |tasks| ==> tasks[i].state.Idle?
  {
    if tasks == [] || tasks[0].state.Idle? then 0 else 1 + FirstIdle(tasks[1..])
  }

  lemma {:induction false} FirstIdleIs(tasks: seq<Task>, i: nat)
    requires i <= |tasks|
    requires forall k :: 0 <= k < i ==> !tasks[k].state.Idle?
    requires i < |tasks| ==> tasks[i].state.Idle?
    ensures FirstIdle(tasks) == i
  {
  }

  /** Lease the first idle task of the current phase. */
  function Assigned(c: Coord, now: int): (Coord, Grant) {
    if c.phase == AllDone then (c, Exit)
    else
      var kind := if c.phase == Map then MapTask else ReduceTask;
      var tasks := Tasks(c, kind);
      var i := FirstIdle(tasks);
      if i == |tasks| then (c, Wait)
      else
        (WithTasks(c, kind, tasks[i := tasks[i].(state := InProgress, startTime := now)]),
         Work(kind, i, tasks[i].attempt, tasks[i].file))
  }

  predicate AllCompleted(tasks: seq<Task>) {
    forall i :: 0 <= i < |tasks| ==> tasks[i].state.Completed?
  }

  /** A worker reports a task done: only its attempt number is looked at. */
  function Finished(c: Coord, kind: Kind, id: nat, attempt: nat): Coord
    requires id < |Tasks(c, kind)|
  {
    var tasks := Tasks(c, kind);
    if tasks[id].attempt != attempt then c
    else
      var tasks' := tasks[id := tasks[id].(state := Completed)];
      var c' := WithTasks(c, kind, tasks');
      if AllCompleted(tasks') then c'.(phase := if kind == MapTask then Reduce else AllDone) else c'
  }

  function Lapse(task: Task, now: int): Task {
    if task.state.InProgress? && now - task.startTime > TIMEOUT
    then task.(state := Idle, attempt := task.attempt + 1) else task
  }

  function LapseAll(tasks: seq<Task>, now: int): (r: seq<Task>)
    ensures |r| == |tasks| && forall i :: 0 <= i < |tasks| ==> r[i] == Lapse(tasks[i], now)
  {
    seq(|tasks|, i requires 0 <= i < |tasks| => Lapse(tasks[i], now))
  }

  /** Take back the leases of the current phase that timed out. */
  function Expired(c: Coord, now: int): Coord {
    match c.phase
    case Map => c.(maps := LapseAll(c.maps, now))
    case Reduce => c.(reduces := LapseAll(c.reduces, now))
    case AllDone => c
  }

  function Rank(phase: Phase): nat {
    match phase case Map => 0 case Reduce => 1 case AllDone => 2
  }

  /** A report can move the phase back: exactly when the job is done and a map task is reported
      again under its last attempt. Nothing in the coordinator prevents it, so that phases only
      advance is a property of runs in which no grant is reported twice. */
  lemma ReportMovesBackIff(c: Coord, kind: Kind, id: nat, attempt: nat)
    requires id < |Tasks(c, kind)|
    ensures Rank(Finished(c, kind, id, attempt).phase) < Rank(c.phase)
       <==> c.phase == AllDone && kind == MapTask && attempt == c.maps[id].attempt
            && forall i :: 0 <= i < |c.maps| && i != id ==> c.maps[i].state.Completed?
  {
    var tasks := Tasks(c, kind);
    var tasks' := tasks[id := tasks[id].(state := Completed)];
    assert forall i :: 0 <= i < |tasks| && i != id ==> tasks'[i] == tasks[i];
    if forall i :: 0 <= i < |tasks| && i != id ==> tasks[i].state.Completed? {
      assert AllCompleted(tasks');
    }
  }

  /** A worker that asks while `before` is the table of the phase: it is told to wait exactly if no entry is
      idle; otherwise it is given the idle entry with the lowest number, with that entry's attempt and
      file, and only that entry changes. */
  predicate Served(before: seq<Task>, after: seq<Task>, kind: Kind, now: int, reply: Grant) {
    match reply
    case Exit => false
    case Wait => after == before && forall k :: 0 <= k < |before| ==> before[k].state != Idle
    case Work(k, i, attempt, file) =>
      && k == kind && i < |before| && before[i].state == Idle
      && (forall k :: 0 <= k < i ==> before[k].state != Idle)
      && attempt == before[i].attempt && file == before[i].file
      && after == before[i := Task(before[i].file, InProgress, now, before[i].attempt)]
  }

  /** One tick: an entry in progress for more than ten seconds becomes idle under a new attempt, and every
      other entry, one in progress for ten seconds or less included, stays as it is. */
  predicate Ticked(before: seq<Task>, after: seq<Task>, now: int) {
    && |after| == |before|
    && forall i :: 0 <= i < |before| ==>
         after[i] == if before[i].state == InProgress && now - before[i].startTime > 10_000_000_000
                     then Task(before[i].file, Idle, before[i].startTime, before[i].attempt + 1) else before[i]
  }

  class Coordinator {
    var phase: Phase
    const nMap: nat
    const nReduce: nat
    var mapTasks: seq<Task>
    var reduceTasks: seq<Task>

    function View(): Coord
      reads this
    {
      Coord(phase, mapTasks, reduceTasks)
    }

    constructor (files: seq<string>, nReduce: nat)
      ensures View() == Fresh(files, nReduce)
    {
      var maps := seq(|files|, _ => Task("", Idle, 0, 0));
      for i := 0 to |files|
        invariant |maps| == |files|
        invariant forall k :: 0 <= k < i ==> maps[k] == Task(files[k], Idle, 0, 0)
        invariant forall k :: i <= k < |files| ==> maps[k] == Task("", Idle, 0, 0)
      {
        maps := maps[i := maps[i].(file := files[i], state := Idle)];
      }
      phase, nMap, this.nReduce := Map, |files|, nReduce;
      mapTasks := maps;
      reduceTasks := seq(nReduce, _ => Task("", Idle, 0, 0));
      new;
      assert mapTasks == Fresh(files, nReduce).maps;
      assert reduceTasks == Fresh(files, nReduce).reduces;
    }

    method Assign(now: int) returns (reply: Grant)
      modifies this
      ensures (View(), reply) == Assigned(old(View()), now)
      ensures reply == Exit <==> old(phase) == AllDone
      ensures old(phase) == Map ==>
                Served(old(mapTasks), mapTasks, MapTask, now, reply) && reduceTasks == old(reduceTasks)
      ensures old(phase) == Reduce ==>
                Served(old(reduceTasks), reduceTasks, ReduceTask, now, reply) && mapTasks == old(mapTasks)
      ensures phase == old(phase) && (phase == AllDone ==> mapTasks == old(mapTasks) && reduceTasks == old(reduceTasks))
    {
      if phase == Map {
        for i := 0 to |mapTasks|
          invariant View() == old(View())
          invariant forall k :: 0 <= k < i ==> !mapTasks[k].state.Idle?
        {
          if mapTasks[i].state == Idle {
            FirstIdleIs(mapTasks, i);
            reply := Work(MapTask, i, mapTasks[i].attempt, mapTasks[i].file);
            mapTasks := mapTasks[i := mapTasks[i].(state := InProgress, startTime := now)];
            return;
          }
        }
        FirstIdleIs(mapTasks, |mapTasks|);
        return Wait;
      } else if phase == Reduce {
        for i := 0 to |reduceTasks|
          invariant View() == old(View())
          invariant forall k :: 0 <= k < i ==> !reduceTasks[k].state.Idle?
        {
          if reduceTasks[i].state == Idle {
            FirstIdleIs(reduceTasks, i);
            reply := Work(ReduceTask, i, reduceTasks[i].attempt, reduceTasks[i].file);
            reduceTasks := reduceTasks[i := reduceTasks[i].(state := InProgress, startTime := now)];
            return;
          }
        }
        FirstIdleIs(reduceTasks, |reduceTasks|);
        return Wait;
      }
      return Exit;
    }

    method ReportTaskCompletion(kind: Kind, id: nat, attempt: nat)
      requires id < |Tasks(View(), kind)|
      modifies this
      ensures View() == Finished(old(View()), kind, id, attempt)
    {
      if kind == MapTask {
        if mapTasks[id].attempt != attempt {
          return;
        }
        mapTasks := mapTasks[id := mapTasks[id].(state := Completed)];
        for i := 0 to |mapTasks|
          invariant phase == old(phase) && reduceTasks == old(reduceTasks)
          invariant mapTasks == old(mapTasks)[id := old(mapTasks)[id].(state := Completed)]
          invariant forall k :: 0 <= k < i ==> mapTasks[k].state.Completed?
        {
          if mapTasks[i].state != Completed {
            return;
          }
        }
        phase := Reduce;
      } else {
        if reduceTasks[id].attempt != attempt {
          return;
        }
        reduceTasks := reduceTasks[id := reduceTasks[id].(state := Completed)];
        for i := 0 to |reduceTasks|
          invariant phase == old(phase) && mapTasks == old(mapTasks)
          invariant reduceTasks == old(reduceTasks)[id := old(reduceTasks)[id].(state := Completed)]
          invariant forall k :: 0 <= k < i ==> reduceTasks[k].state.Completed?
        {
          if reduceTasks[i].state != Completed {
            return;
          }
        }
        phase := AllDone;
      }
    }

    method Done() returns (ret: bool)
      ensures ret <==> phase == AllDone
    {
      ret := phase == AllDone;
    }

    static method ExpireTasks(tasks: seq<Task>, now: int) returns (r: seq<Task>)
      ensures r == LapseAll(tasks, now)
    {
      r := tasks;
      for i := 0 to |tasks|
        invariant |r| == |tasks|
        invariant forall k :: 0 <= k < i ==> r[k] == Lapse(tasks[k], now)
        invariant forall k :: i <= k < |tasks| ==> r[k] == tasks[k]
      {
        if r[i].state == InProgress && now - r[i].startTime > TIMEOUT {
          r := r[i := r[i].(state := Idle, attempt := r[i].attempt + 1)];
        }
      }
    }

    /** One tick of the timeout checker. */
    method CheckTimeout(now: int)
      modifies this
      ensures View() == Expired(old(View()), now)
      ensures phase == old(phase)
      ensures if phase == Map then Ticked(old(mapTasks), mapTasks, now) else mapTasks == old(mapTasks)
      ensures if phase == Reduce then Ticked(old(reduceTasks), reduceTasks, now) else reduceTasks == old(reduceTasks)
    {
      if phase == Map {
        mapTasks := ExpireTasks(mapTasks, now);
      } else if phase == Reduce {
        reduceTasks := ExpireTasks(reduceTasks, now);
      }
    }
  }
}
