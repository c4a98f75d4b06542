/** What handlers that outlive their calls can break: histories that no order explains, and Puts that
    are written after they were refused, with the exact condition under which the latter never are. */
module KvLate {
  import opened KvServer
  import opened KvNetwork
  import opened KvModel
  import opened KvLinearizability
  import opened KvClerk

  // ---------------------------------------------------------------------------------------
  // A history that no order explains
  // ---------------------------------------------------------------------------------------

  const CREATE := Put("k", "x", 0)
  const EARLY := Put("k", "a", 2)
  const SECOND := Put("k", "b", 1)
  const READ := Op.Get("k")

  /** Client 1 creates the key. Client 0 asks to write version 2, which does not exist yet; its
      clerk abandons the first transmission, the second is refused, and the Put answers ErrMaybe.
      Then client 1 makes version 2, the first transmission is executed after all, and client 1
      reads what it wrote. */
  const LATE_HISTORY := [
    Invoked(1, CREATE), Returned(0, PutReply(OK)),
    Invoked(0, EARLY), Returned(2, PutReply(ErrMaybe)),
    Invoked(1, SECOND), Returned(4, PutReply(OK)),
    Invoked(1, READ), Returned(6, Reply("a", 3, OK))]

  /** A call that gets through at once. */
  lemma Through(s: State, c: Client, op: Op) returns (run: seq<Action>, t: State)
    requires c !in s.calls
    ensures Legal(s, run) && After(s, run) == t
    ensures t.store == Serve(s.store, op).0 && t.calls == s.calls && t.late == s.late
    ensures t.hist == s.hist + [Invoked(c, op), Returned(|s.hist|, Serve(s.store, op).1)]
    ensures forall a :: a in run ==> !a.ExecuteLate?
  {
    var s1 := Next(s, Invoke(c, op));
    var s2 := Next(s1, Execute(c));
    t := Next(s2, Deliver(c));
    RunCons(s2, Deliver(c), []);
    RunCons(s1, Execute(c), [Deliver(c)] + []);
    RunCons(s, Invoke(c, op), [Execute(c)] + ([Deliver(c)] + []));
    run := [Invoke(c, op)] + ([Execute(c)] + ([Deliver(c)] + []));
    assert t.calls == s.calls;
    assert ClerkReply(op, false, Serve(s.store, op).1) == Serve(s.store, op).1;
  }

  /** Client 0's Put: abandoned once, executed once. */
  lemma GivenUp(s: State, op: Op) returns (run: seq<Action>, t: State)
    requires 0 !in s.calls && s.late == multiset{}
    ensures Legal(s, run) && After(s, run) == t
    ensures t.store == Serve(s.store, op).0 && t.calls == s.calls && t.late == multiset{Request(0, |s.hist|, op)}
    ensures t.hist == s.hist + [Invoked(0, op), Returned(|s.hist|, ClerkReply(op, true, Serve(s.store, op).1))]
    ensures forall a :: a in run ==> !a.ExecuteLate?
  {
    var s1 := Next(s, Invoke(0, op));
    var s2 := Next(s1, Abandon(0));
    var s3 := Next(s2, Execute(0));
    t := Next(s3, Deliver(0));
    RunCons(s3, Deliver(0), []);
    RunCons(s2, Execute(0), [Deliver(0)] + []);
    RunCons(s1, Abandon(0), [Execute(0)] + ([Deliver(0)] + []));
    RunCons(s, Invoke(0, op), [Abandon(0)] + ([Execute(0)] + ([Deliver(0)] + [])));
    run := [Invoke(0, op)] + ([Abandon(0)] + ([Execute(0)] + ([Deliver(0)] + [])));
    assert t.calls == s.calls;
  }

  /** The second half of the run: version 2 is made, the abandoned transmission is executed, and the
      key is read. */
  lemma LateTail(s: State) returns (run: seq<Action>, t: State)
    requires 1 !in s.calls && Request(0, 2, EARLY) in s.late
    requires "k" in s.store && s.store["k"].version == 1 && |s.hist| == 4
    ensures Legal(s, run) && After(s, run) == t
    ensures t.hist == s.hist + [Invoked(1, SECOND), Returned(4, PutReply(OK))]
                             + [Invoked(1, READ), Returned(6, Reply("a", 3, OK))]
  {
    var r1, s1 := Through(s, 1, SECOND);
    var late := ExecuteLate(Request(0, 2, EARLY));
    var r2;
    r2, t := Through(Next(s1, late), 1, READ);
    RunCons(s1, late, r2);
    RunConcat(s, r1, [late] + r2);
    run := r1 + ([late] + r2);
  }

  lemma LateRun() returns (run: seq<Action>)
    ensures Legal(INIT, run) && After(INIT, run).hist == LATE_HISTORY
  {
    var r1, s1 := Through(INIT, 1, CREATE);
    var r2, s2 := GivenUp(s1, EARLY);
    var r3, s3 := LateTail(s2);
    RunConcat(s1, r2, r3);
    RunConcat(INIT, r1, r2 + r3);
    run := r1 + (r2 + r3);
    assert s3.hist == LATE_HISTORY;
  }

  /** Where a call that returned stands in an order. */
  lemma Place(ops: seq<Ordered>, r: nat) returns (i: nat)
    requires Genuine(LATE_HISTORY, ops) && Complete(LATE_HISTORY, ops) && IsReturn(LATE_HISTORY, r)
    ensures i < |ops| && ops[i] == Ordered(r - 1, LATE_HISTORY[r - 1].op, LATE_HISTORY[r].reply)
  {
    assert Contains(ops, LATE_HISTORY[r].id, LATE_HISTORY[r].reply);
    i :| 0 <= i < |ops| && ops[i].id == LATE_HISTORY[r].id && ops[i].out == LATE_HISTORY[r].reply;
  }

  lemma OnlyFour(ops: seq<Ordered>, j: nat)
    requires Genuine(LATE_HISTORY, ops) && j < |ops|
    ensures ops[j].id == 0 || ops[j].id == 2 || ops[j].id == 4 || ops[j].id == 6
  {
    assert IsCall(LATE_HISTORY, ops[j].id, ops[j].op);
  }

  lemma Before(ops: seq<Ordered>, i: nat, j: nat, r: nat)
    requires Timely(LATE_HISTORY, ops) && i < |ops| && j < |ops|
    requires IsReturn(LATE_HISTORY, r) && ops[i].id == r - 1 && ops[j].id == r + 1
    ensures i < j
  {
    assert LATE_HISTORY[r].id == ops[i].id;
  }

  /** Real time leaves only one order. */
  lemma OneOrder(ops: seq<Ordered>)
    requires Genuine(LATE_HISTORY, ops) && Complete(LATE_HISTORY, ops) && Timely(LATE_HISTORY, ops)
    ensures ops == [Ordered(0, CREATE, PutReply(OK)), Ordered(2, EARLY, PutReply(ErrMaybe)),
                    Ordered(4, SECOND, PutReply(OK)), Ordered(6, READ, Reply("a", 3, OK))]
  {
    var a := Place(ops, 1);
    var b := Place(ops, 3);
    var c := Place(ops, 5);
    var d := Place(ops, 7);
    Before(ops, a, b, 1);
    Before(ops, b, c, 3);
    Before(ops, c, d, 5);
    OnlyFour(ops, 0);
    OnlyFour(ops, 1);
    OnlyFour(ops, 2);
    OnlyFour(ops, 3);
    OnlyFour(ops, |ops| - 1);
    assert a == 0 && b == 1 && c == 2 && d == 3;
  }

  /** No specification accepts four operations on one key of which the last is not allowed after the
      others. */
  lemma FourthRefused(spec: Spec, w: Ordered, x: Ordered, y: Ordered, z: Ordered, key: string)
    requires w.op.key == key && x.op.key == key && y.op.key == key && z.op.key == key
    requires !Allows(spec, Advance(Advance(Advance(INIT_STATE, w.op), x.op), y.op), z.op, z.out)
    ensures !Accepted(spec, [w, x, y, z])
  {
    OnKeyAppend([], w, key);
    OnKeyAppend([w], x, key);
    OnKeyAppend([w, x], y, key);
    OnKeyAppend([w, x, y], z, key);
    StepAllAppend(spec, [], w);
    StepAllAppend(spec, [w], x);
    StepAllAppend(spec, [w, x], y);
    StepAllAppend(spec, [w, x, y], z);
    assert [] + [w] == [w] && [w] + [x] == [w, x];
    assert [w, x] + [y] == [w, x, y] && [w, x, y] + [z] == [w, x, y, z];
    assert !StepAll(spec, OnKey([w, x, y, z], key)).0;
  }

  lemma Unexplained(spec: Spec, ops: seq<Ordered>)
    ensures !Explains(spec, LATE_HISTORY, ops)
  {
    if Genuine(LATE_HISTORY, ops) && Complete(LATE_HISTORY, ops) && Timely(LATE_HISTORY, ops) {
      OneOrder(ops);
      FourthRefused(spec, ops[0], ops[1], ops[2], ops[3], "k");
    }
  }

  /** A late handler that writes after its call returned can break linearizability, for either
      specification. */
  lemma LateHandlerBreaksOrder() returns (run: seq<Action>)
    ensures Legal(INIT, run) && !OnTime(INIT, run) && !SawMissingKey(After(INIT, run).hist)
    ensures forall spec :: !Linearizable(spec, After(INIT, run).hist)
  {
    run := LateRun();
    forall spec, ops
      ensures !Explains(spec, LATE_HISTORY, ops)
    {
      Unexplained(spec, ops);
    }
    if OnTime(INIT, run) {
      EveryRunLinearizable(run);
    }
  }

  lemma {:induction false} NoLateOnTime(s: State, run: seq<Action>)
    requires Legal(s, run) && forall a :: a in run ==> !a.ExecuteLate?
    ensures OnTime(s, run)
    decreases |run|
  {
    if run != [] {
      assert run[0] in run;
      assert forall a :: a in run[1..] ==> a in run;
      NoLateOnTime(Next(s, run[0]), run[1..]);
    }
  }

  lemma {:induction false} OnTimeEnd(s: State, run: seq<Action>, a: Action)
    requires Legal(s, run) && Enabled(After(s, run), a) && Legal(s, run + [a])
    ensures OnTime(s, run + [a]) ==> !TooLate(After(s, run), a)
    decreases |run|
  {
    if run == [] {
      assert run + [a] == [a];
    } else {
      TailOfConcat(run, [a]);
      OnTimeEnd(Next(s, run[0]), run[1..], a);
    }
  }

  /** The run up to the late execution. */
  lemma BeforeLate() returns (run: seq<Action>, s: State)
    ensures Legal(INIT, run) && OnTime(INIT, run) && After(INIT, run) == s && !SawMissingKey(s.hist)
    ensures Enabled(s, ExecuteLate(Request(0, 2, EARLY))) && TooLate(s, ExecuteLate(Request(0, 2, EARLY)))
  {
    var r1, s1 := Through(INIT, 1, CREATE);
    var r2, s2 := GivenUp(s1, EARLY);
    var r3;
    r3, s := Through(s2, 1, SECOND);
    RunConcat(s1, r2, r3);
    RunConcat(INIT, r1, r2 + r3);
    run := r1 + (r2 + r3);
    NoLateOnTime(INIT, run);
    assert IsReturn(s.hist, 3) && s.hist[3].id == 2;
  }

  /** It need not: while nobody reads what was written too late, the history can be explained. So
      being on time is sufficient for linearizability, but not implied by it. */
  lemma UnseenLateWrite() returns (run: seq<Action>)
    ensures Legal(INIT, run) && !OnTime(INIT, run)
    ensures forall spec :: Linearizable(spec, After(INIT, run).hist)
  {
    var before, s := BeforeLate();
    EveryRunLinearizable(before);
    var late := ExecuteLate(Request(0, 2, EARLY));
    RunCons(s, late, []);
    assert [late] == [late] + [];
    RunConcat(INIT, before, [late]);
    run := before + [late];
    OnTimeEnd(INIT, before, late);
    forall spec: Spec
      ensures Linearizable(spec, s.hist)
    {
      assert spec.Exact? || spec.Porcupine?;
    }
  }

  // ---------------------------------------------------------------------------------------
  // A refused Put whose late handler writes before it returns
  // ---------------------------------------------------------------------------------------

  const REFUSED := Put("k", "a", 1)

  /** Client 0 asks to write version 1 of a key that does not exist; its clerk abandons the first
      transmission and the second is refused. Before that reply arrives, client 1 creates the key and
      the first transmission writes. Client 1 then reads what it wrote. */
  const REFUSED_HISTORY := [
    Invoked(0, REFUSED),
    Invoked(1, CREATE), Returned(1, PutReply(OK)),
    Returned(0, PutReply(ErrNoKey)),
    Invoked(1, READ), Returned(4, Reply("a", 2, OK))]

  /** Client 0's Put: abandoned once, executed once, the reply on its way. */
  lemma RefusedHead() returns (run: seq<Action>, t: State)
    ensures Legal(INIT, run) && After(INIT, run) == t && forall a :: a in run ==> !a.ExecuteLate?
    ensures t.store == map[] && t.calls == map[0 := Call(0, REFUSED, true, Answered(PutReply(ErrNoKey)))]
    ensures t.late == multiset{Request(0, 0, REFUSED)} && t.hist == [Invoked(0, REFUSED)]
  {
    var s1 := Next(INIT, Invoke(0, REFUSED));
    var s2 := Next(s1, Abandon(0));
    t := Next(s2, Execute(0));
    RunCons(s2, Execute(0), []);
    RunCons(s1, Abandon(0), [Execute(0)] + []);
    RunCons(INIT, Invoke(0, REFUSED), [Abandon(0)] + ([Execute(0)] + []));
    run := [Invoke(0, REFUSED)] + ([Abandon(0)] + ([Execute(0)] + []));
  }

  lemma {:induction false} OnTimeConcat(s: State, run: seq<Action>, more: seq<Action>)
    requires Legal(s, run) && Legal(After(s, run), more) && Legal(s, run + more)
    requires OnTime(s, run) && OnTime(After(s, run), more)
    ensures OnTime(s, run + more)
    decreases |run|
  {
    if run == [] {
      assert run + more == more;
    } else {
      TailOfConcat(run, more);
      OnTimeConcat(Next(s, run[0]), run[1..], more);
    }
  }

  /** The late handler writes while the call is open, the refusal arrives, and the key is read. */
  lemma RefusedTail(s: State) returns (run: seq<Action>, t: State)
    requires s.store == map["k" := Entry("x", 1)]
    requires s.calls == map[0 := Call(0, REFUSED, true, Answered(PutReply(ErrNoKey)))]
    requires Request(0, 0, REFUSED) in s.late && !HasReturned(s.hist, 0) && |s.hist| == 3
    ensures Legal(s, run) && OnTime(s, run) && After(s, run) == t
    ensures t.hist == s.hist + [Returned(0, PutReply(ErrNoKey))] + [Invoked(1, READ), Returned(4, Reply("a", 2, OK))]
  {
    var late := ExecuteLate(Request(0, 0, REFUSED));
    var s1 := Next(s, late);
    var s2 := Next(s1, Deliver(0));
    var more;
    more, t := Through(s2, 1, READ);
    NoLateOnTime(s2, more);
    RunCons(s1, Deliver(0), more);
    RunCons(s, late, [Deliver(0)] + more);
    run := [late] + ([Deliver(0)] + more);
    assert ([Deliver(0)] + more)[1..] == more && run[1..] == [Deliver(0)] + more;
  }

  lemma RefusedRun() returns (run: seq<Action>)
    ensures Legal(INIT, run) && OnTime(INIT, run) && After(INIT, run).hist == REFUSED_HISTORY
  {
    var r1, s1 := RefusedHead();
    var r2, s2 := Through(s1, 1, CREATE);
    assert forall r :: IsReturn(s2.hist, r) ==> r == 2;
    var r3, s3 := RefusedTail(s2);
    NoLateOnTime(INIT, r1);
    NoLateOnTime(s1, r2);
    RunConcat(s1, r2, r3);
    OnTimeConcat(s1, r2, r3);
    RunConcat(INIT, r1, r2 + r3);
    OnTimeConcat(INIT, r1, r2 + r3);
    run := r1 + (r2 + r3);
    assert s3.hist == REFUSED_HISTORY;
  }

  /** Real time leaves two orders. */
  lemma TwoOrders(ops: seq<Ordered>)
    requires Genuine(REFUSED_HISTORY, ops) && Complete(REFUSED_HISTORY, ops) && Timely(REFUSED_HISTORY, ops)
    ensures var put, create := Ordered(0, REFUSED, PutReply(ErrNoKey)), Ordered(1, CREATE, PutReply(OK));
            var read := Ordered(4, READ, Reply("a", 2, OK));
            ops == [put, create, read] || ops == [create, put, read]
  {
    var a := PlaceOf(ops, 3);
    var b := PlaceOf(ops, 2);
    var c := PlaceOf(ops, 5);
    ReadLast(ops, a, c, 3);
    ReadLast(ops, b, c, 2);
    OnlyThree(ops, 0);
    OnlyThree(ops, 1);
    OnlyThree(ops, 2);
    OnlyThree(ops, |ops| - 1);
  }

  lemma ReadLast(ops: seq<Ordered>, i: nat, j: nat, r: nat)
    requires Timely(REFUSED_HISTORY, ops) && i < |ops| && j < |ops| && ops[j].id == 4
    requires r < 4 && IsReturn(REFUSED_HISTORY, r) && ops[i].id == REFUSED_HISTORY[r].id
    ensures i < j
  {
    assert ops[i].id != 4;
  }

  lemma PlaceOf(ops: seq<Ordered>, r: nat) returns (i: nat)
    requires Genuine(REFUSED_HISTORY, ops) && Complete(REFUSED_HISTORY, ops) && IsReturn(REFUSED_HISTORY, r)
    ensures var id := REFUSED_HISTORY[r].id;
            && id < |REFUSED_HISTORY| && REFUSED_HISTORY[id].Invoked?
            && i < |ops| && ops[i] == Ordered(id, REFUSED_HISTORY[id].op, REFUSED_HISTORY[r].reply)
  {
    assert Contains(ops, REFUSED_HISTORY[r].id, REFUSED_HISTORY[r].reply);
    i :| 0 <= i < |ops| && ops[i].id == REFUSED_HISTORY[r].id && ops[i].out == REFUSED_HISTORY[r].reply;
  }

  lemma OnlyThree(ops: seq<Ordered>, j: nat)
    requires Genuine(REFUSED_HISTORY, ops) && j < |ops|
    ensures ops[j].id == 0 || ops[j].id == 1 || ops[j].id == 4
  {
    assert IsCall(REFUSED_HISTORY, ops[j].id, ops[j].op);
  }

  /** The exact specification does not accept three operations on one key if the second is not allowed
      after the first, or the third after the first two. */
  lemma ThreeRefused(x: Ordered, y: Ordered, z: Ordered, key: string)
    requires x.op.key == key && y.op.key == key && z.op.key == key
    requires var st1 := Advance(INIT_STATE, x.op);
             var st2 := Advance(st1, y.op);
             !Allows(Exact, st1, y.op, y.out) || !Allows(Exact, st2, z.op, z.out)
    ensures !Accepted(Exact, [x, y, z])
  {
    OnKeyAppend([], x, key);
    OnKeyAppend([x], y, key);
    OnKeyAppend([x, y], z, key);
    StepAllAppend(Exact, [], x);
    StepAllAppend(Exact, [x], y);
    StepAllAppend(Exact, [x, y], z);
    assert [] + [x] == [x] && [x] + [y] == [x, y] && [x, y] + [z] == [x, y, z];
    assert !StepAll(Exact, OnKey([x, y, z], key)).0;
  }

  lemma RefusedUnexplained(spec: Spec, ops: seq<Ordered>)
    ensures !Explains(spec, REFUSED_HISTORY, ops)
  {
    if spec == Porcupine {
      assert IsReturn(REFUSED_HISTORY, 3) && IsCall(REFUSED_HISTORY, REFUSED_HISTORY[3].id, REFUSED);
      if Explains(Porcupine, REFUSED_HISTORY, ops) {
        MissingKeyUnexplained(REFUSED_HISTORY, ops);
      }
    } else if Genuine(REFUSED_HISTORY, ops) && Complete(REFUSED_HISTORY, ops) && Timely(REFUSED_HISTORY, ops) {
      TwoOrders(ops);
      ThreeRefused(ops[0], ops[1], ops[2], "k");
    }
  }

  /** That a write comes before its call returns is not enough for the exact specification: the call
      must not have been refused. */
  lemma RefusedWriteBreaksOrder() returns (run: seq<Action>)
    ensures Legal(INIT, run) && OnTime(INIT, run) && !RefusalsHold(After(INIT, run))
    ensures forall spec :: !Linearizable(spec, After(INIT, run).hist)
  {
    run := RefusedRun();
    forall spec, ops
      ensures !Explains(spec, REFUSED_HISTORY, ops)
    {
      RefusedUnexplained(spec, ops);
    }
    EveryRunLinearizable(run);
  }

  // ---------------------------------------------------------------------------------------
  // A Put that is written after it was refused
  // ---------------------------------------------------------------------------------------

  /** A Put on a missing key is abandoned once and answers ErrNoKey; another client creates the key,
      and the abandoned transmission is written. */
  lemma RefusedThenWritten() returns (run: seq<Action>)
    ensures Legal(INIT, run)
    ensures var s := After(INIT, run);
            && [Invoked(0, Put("k", "a", 1)), Returned(0, PutReply(ErrNoKey))] <= s.hist
            && AppliedBy(s.log, 0) == 1
  {
    var op := Put("k", "a", 1);
    var r1, s1 := GivenUp(INIT, op);
    var r2, s2 := Through(s1, 1, CREATE);
    var late := ExecuteLate(Request(0, 0, op));
    var s3 := Next(s2, late);
    RunCons(s2, late, []);
    RunConcat(s1, r2, [late] + []);
    RunConcat(INIT, r1, r2 + ([late] + []));
    run := r1 + (r2 + ([late] + []));
    BaseRun(INIT, run);
    AppliedUnique(s3, 0);
    assert s3.log[|s2.log|].id == 0 && s3.log[|s2.log|].applied;
  }

  /** No transmission of the call that is still to be executed can find its version. */
  predicate NothingLeft(s: State, id: CallId, op: Op)
    requires op.Put?
  {
    forall q :: q in s.late && q.id == id ==> op.version < VersionOf(s.store, op.key)
  }

  ghost predicate Dead(s: State, id: CallId, op: Op) {
    && Base(s) && op.Put? && IsCall(s.hist, id, op) && HasReturned(s.hist, id)
    && AppliedBy(s.log, id) == 0 && NothingLeft(s, id, op)
  }

  lemma HandleDead(s: State, t: State, e: Exec, id: CallId, op: Op)
    requires Dead(s, id, op) && Base(t) && t.hist == s.hist && t.log == s.log + [e] && t.late <= s.late
    requires e.id == id ==> !e.applied
    ensures Dead(t, id, op)
  {
    AppliedByAppend(s.log, e, id);
    VersionMonotone(t.log, |s.log|, op.key);
    assert t.log[..|s.log|] == s.log;
    forall q | q in t.late && q.id == id
      ensures op.version < VersionOf(t.store, op.key)
    {
      assert q in s.late;
    }
  }

  lemma DeadStep(s: State, a: Action, id: CallId, op: Op)
    requires Dead(s, id, op) && Enabled(s, a)
    ensures Dead(Next(s, a), id, op)
  {
    BaseStep(s, a);
    var t := Next(s, a);
    assert forall c :: c in s.calls ==> Open(s.hist, c, s.calls[c]) && s.calls[c].id != id;
    match a
    case Execute(c) => HandleDead(s, t, t.log[|s.log|], id, op);
    case ExecuteLate(q) =>
      assert IsCall(s.hist, q.id, q.op);
      HandleDead(s, t, t.log[|s.log|], id, op);
    case Invoke(c, o) => StillReturned(s.hist, Invoked(c, o), id);
    case Deliver(c) => StillReturned(s.hist, t.hist[|s.hist|], id);
    case Abandon(c) =>
      assert forall q :: q in t.late && q.id == id ==> q in s.late;
    case _ =>
  }

  lemma {:induction false} StaysUnwritten(s: State, more: seq<Action>, id: CallId, op: Op)
    requires Dead(s, id, op) && Legal(s, more)
    ensures AppliedBy(After(s, more).log, id) == 0
    decreases |more|
  {
    if more != [] {
      DeadStep(s, more[0], id, op);
      StaysUnwritten(Next(s, more[0]), more[1..], id, op);
    }
  }

  lemma {:induction false} UnusedClient(clients: set<Client>) returns (d: Client)
    ensures forall c :: c in clients ==> c < d
  {
    if clients == {} {
      d := 0;
    } else {
      var c :| c in clients;
      var e := UnusedClient(clients - {c});
      d := if c < e then e else c + 1;
      assert forall x :: x in clients ==> x == c || x in clients - {c};
    }
  }

  /** An idle client raises a key to any version. */
  lemma {:induction false} Raise(s: State, d: Client, key: string, version: nat) returns (run: seq<Action>, t: State)
    requires d !in s.calls && VersionOf(s.store, key) <= version
    ensures Legal(s, run) && After(s, run) == t
    ensures t.late == s.late && VersionOf(t.store, key) == version
    decreases version - VersionOf(s.store, key)
  {
    if VersionOf(s.store, key) == version {
      run, t := [], s;
    } else {
      var r1, s1 := Through(s, d, Put(key, "", VersionOf(s.store, key)));
      var r2;
      r2, t := Raise(s1, d, key, version);
      RunConcat(s, r1, r2);
      run := r1 + r2;
    }
  }

  /** What is late of a refused Put, and not yet outdated, can still be written. */
  lemma CanStillWrite(s: State, id: CallId, op: Op, q: Request) returns (more: seq<Action>)
    requires Base(s) && op.Put? && IsCall(s.hist, id, op)
    requires q in s.late && q.id == id && VersionOf(s.store, op.key) <= op.version
    ensures Legal(s, more) && AppliedBy(After(s, more).log, id) == 1
  {
    var d := UnusedClient(s.calls.Keys);
    var r1, s1 := Raise(s, d, op.key, op.version);
    var s2 := Next(s1, ExecuteLate(q));
    RunCons(s1, ExecuteLate(q), []);
    RunConcat(s, r1, [ExecuteLate(q)] + []);
    more := r1 + ([ExecuteLate(q)] + []);
    BaseRun(s, more);
    assert IsCall(s.hist, q.id, q.op);
    AppliedUnique(s2, id);
    assert s2.log[|s1.log|].id == id && s2.log[|s1.log|].applied;
  }

  ghost predicate NeverWritten(s: State, id: CallId) {
    forall more :: Legal(s, more) ==> AppliedBy(After(s, more).log, id) == 0
  }

  /** Exactly when a Put that answered ErrNoKey is never written, whatever happens afterwards: it has
      not been, and no transmission of it that the clerk abandoned can still find its version. */
  lemma NoKeyNeverWrittenIff(run: seq<Action>, r: nat, op: Op)
    requires Legal(INIT, run) && IsReturn(After(INIT, run).hist, r)
    requires IsCall(After(INIT, run).hist, After(INIT, run).hist[r].id, op) && op.Put?
    requires After(INIT, run).hist[r].reply.err == ErrNoKey
    ensures var s, id := After(INIT, run), After(INIT, run).hist[r].id;
            && (NeverWritten(s, id) <==> AppliedBy(s.log, id) == 0 && NothingLeft(s, id, op))
            && (id !in s.abandoned ==> NeverWritten(s, id))
  {
    BaseRun(INIT, run);
    var s, id := After(INIT, run), After(INIT, run).hist[r].id;
    assert HasReturned(s.hist, id);
    ReplyMeaning(run, r, op);
    if AppliedBy(s.log, id) == 0 && NothingLeft(s, id, op) {
      forall more | Legal(s, more)
        ensures AppliedBy(After(s, more).log, id) == 0
      {
        StaysUnwritten(s, more, id, op);
      }
    } else if NeverWritten(s, id) {
      assert Legal(s, []) && After(s, []) == s;
      var q :| q in s.late && q.id == id && op.version >= VersionOf(s.store, op.key);
      var more := CanStillWrite(s, id, op, q);
    }
  }
}
