/** Every history of clerks over the lossy network is linearizable, as long as handlers that outlive their
    calls write nothing. */
module KvLinearizability {
  import opened KvServer
  import opened KvNetwork
  import opened KvModel

  // ---------------------------------------------------------------------------------------
  // What every run keeps
  // ---------------------------------------------------------------------------------------

  /** Position of the last execution of a call that its clerk waited for, or -1. */
  function LastOf(log: seq<Exec>, id: CallId): (j: int)
    ensures -1 <= j < |log|
    ensures j >= 0 ==> log[j].id == id && !log[j].late
    ensures forall i :: j < i < |log| && log[i].id == id ==> log[i].late
  {
    if log == [] then -1
    else if log[|log|-1].id == id && !log[|log|-1].late then |log| - 1
    else LastOf(log[..|log|-1], id)
  }

  /** What the log holds for a call in progress. */
  ghost predicate Tracked(log: seq<Exec>, abandoned: set<CallId>, call: Call) {
    && (!call.retried ==> call.id !in abandoned)
    && (call.wire.Sent? && !call.retried ==> ExecutedBy(log, call.id) == 0)
    && (call.wire.Answered? ==>
          && LastOf(log, call.id) >= 0
          && log[LastOf(log, call.id)].reply == call.wire.reply
          && (!call.retried ==> ExecutedBy(log, call.id) == 1))
  }

  /** What the log holds for a call that returned `reply`: the last execution it waited for answered
      it, and ErrVersion means that this was the only one there will ever be. */
  ghost predicate Settled(log: seq<Exec>, abandoned: set<CallId>, op: Op, id: CallId, reply: Reply) {
    var j := LastOf(log, id);
    && j >= 0
    && (reply == log[j].reply
        || (op.Put? && log[j].reply.err == ErrVersion && reply == PutReply(ErrMaybe)))
    && (op.Put? && reply.err == ErrVersion ==> ExecutedBy(log, id) == 1 && id !in abandoned)
  }

  ghost predicate AllTracked(s: State) {
    forall c :: c in s.calls ==> Tracked(s.log, s.abandoned, s.calls[c])
  }

  ghost predicate AllSettled(log: seq<Exec>, abandoned: set<CallId>, hist: seq<Event>) {
    forall r {:trigger IsReturn(hist, r)} :: IsReturn(hist, r) ==>
      && hist[r].id < r && hist[hist[r].id].Invoked?
      && Settled(log, abandoned, hist[hist[r].id].op, hist[r].id, hist[r].reply)
  }

  /** A call executed after another execution, while its clerk waited, cannot have returned before
      that one was invoked. */
  ghost predicate RealTime(s: State) {
    forall i, j, r ::
      0 <= i < j < |s.log| && !s.log[j].late && IsReturn(s.hist, r) && s.hist[r].id == s.log[j].id ==> s.log[i].id < r
  }

  ghost predicate Inv(s: State) {
    Base(s) && AllTracked(s) && AllSettled(s.log, s.abandoned, s.hist) && RealTime(s)
  }

  /** An execution of another call, or a late one, is not the last the clerk waited for. */
  lemma LastOfOther(log: seq<Exec>, e: Exec, id: CallId)
    requires e.id != id || e.late
    ensures LastOf(log + [e], id) == LastOf(log, id)
    ensures LastOf(log, id) >= 0 ==> (log + [e])[LastOf(log, id)] == log[LastOf(log, id)]
  {
    assert (log + [e])[..|log|] == log;
  }

  lemma CountOther(log: seq<Exec>, e: Exec, id: CallId)
    ensures ExecutedBy(log + [e], id) == ExecutedBy(log, id) + if e.id == id then 1 else 0
  {
    assert (log + [e])[..|log|] == log;
  }

  lemma AppendSettled(log: seq<Exec>, abandoned: set<CallId>, hist: seq<Event>, e: Event)
    requires AllSettled(log, abandoned, hist)
    requires e.Returned? ==>
               e.id < |hist| && hist[e.id].Invoked? && Settled(log, abandoned, hist[e.id].op, e.id, e.reply)
    ensures AllSettled(log, abandoned, hist + [e])
  {
    var hist' := hist + [e];
    forall r | IsReturn(hist', r)
      ensures hist'[r].id < r && hist'[hist'[r].id].Invoked?
      ensures Settled(log, abandoned, hist'[hist'[r].id].op, hist'[r].id, hist'[r].reply)
    {
      assert r < |hist| ==> IsReturn(hist, r);
    }
  }

  /** No call was executed that is not yet in the history, so one more event keeps real time. */
  lemma AppendRealTime(s: State, t: State)
    requires RealTime(s) && Attributed(s)
    requires t.log == s.log && |t.hist| == |s.hist| + 1 && t.hist[..|s.hist|] == s.hist
    ensures RealTime(t)
  {
    forall i, j, r | 0 <= i < j < |t.log| && !t.log[j].late && IsReturn(t.hist, r) && t.hist[r].id == t.log[j].id
      ensures t.log[i].id < r
    {
      assert IsCall(s.hist, s.log[i].id, s.log[i].op);
      if r < |s.hist| {
        assert t.hist[r] == s.hist[r];
        assert IsReturn(s.hist, r);
      }
    }
  }

  lemma InvokeTracked(s: State, c: Client, op: Op)
    requires Attributed(s) && AllTracked(s) && Enabled(s, Invoke(c, op))
    ensures AllTracked(Next(s, Invoke(c, op)))
  {
    NeverExecuted(s.log, |s.hist|);
  }

  lemma InvokeInv(s: State, c: Client, op: Op)
    requires Inv(s) && Enabled(s, Invoke(c, op))
    ensures Inv(Next(s, Invoke(c, op)))
  {
    BaseStep(s, Invoke(c, op));
    var t := Next(s, Invoke(c, op));
    InvokeTracked(s, c, op);
    AppendSettled(s.log, s.abandoned, s.hist, Invoked(c, op));
    AppendRealTime(s, t);
  }

  lemma {:induction false} NeverExecuted(log: seq<Exec>, id: CallId)
    requires forall i :: 0 <= i < |log| ==> log[i].id != id
    ensures ExecutedBy(log, id) == 0
  {
    if log != [] {
      NeverExecuted(log[..|log|-1], id);
    }
  }

  /** One more execution, if it is not of this call or if it is late. */
  lemma ExecKeepsTracked(log: seq<Exec>, abandoned: set<CallId>, call: Call, e: Exec)
    requires Tracked(log, abandoned, call) && (e.id != call.id || (e.late && e.id in abandoned))
    ensures Tracked(log + [e], abandoned, call)
  {
    LastOfOther(log, e, call.id);
    CountOther(log, e, call.id);
  }

  lemma ExecKeepsSettled(log: seq<Exec>, abandoned: set<CallId>, op: Op, id: CallId, reply: Reply, e: Exec)
    requires Settled(log, abandoned, op, id, reply) && (e.id != id || (e.late && e.id in abandoned))
    ensures Settled(log + [e], abandoned, op, id, reply)
  {
    LastOfOther(log, e, id);
    CountOther(log, e, id);
  }

  lemma ExecKeepsAllSettled(s: State, e: Exec)
    requires AllSettled(s.log, s.abandoned, s.hist)
    requires !HasReturned(s.hist, e.id) || (e.late && e.id in s.abandoned)
    ensures AllSettled(s.log + [e], s.abandoned, s.hist)
  {
    forall r | IsReturn(s.hist, r)
      ensures Settled(s.log + [e], s.abandoned, s.hist[s.hist[r].id].op, s.hist[r].id, s.hist[r].reply)
    {
      ExecKeepsSettled(s.log, s.abandoned, s.hist[s.hist[r].id].op, s.hist[r].id, s.hist[r].reply, e);
    }
  }

  lemma ExecKeepsRealTime(s: State, t: State, e: Exec)
    requires RealTime(s) && t.hist == s.hist && t.log == s.log + [e] && (e.late || !HasReturned(s.hist, e.id))
    ensures RealTime(t)
  {
  }

  lemma ExecuteOwn(log: seq<Exec>, abandoned: set<CallId>, call: Call, e: Exec)
    requires Tracked(log, abandoned, call) && call.wire.Sent? && e.id == call.id && !e.late
    ensures Tracked(log + [e], abandoned, call.(wire := Answered(e.reply)))
  {
    CountOther(log, e, call.id);
  }

  lemma ExecuteTracked(s: State, c: Client)
    requires HistoryOk(s) && AllTracked(s) && Enabled(s, Execute(c))
    ensures AllTracked(Next(s, Execute(c)))
  {
    var t := Next(s, Execute(c));
    var e := t.log[|s.log|];
    ExecuteOwn(s.log, s.abandoned, s.calls[c], e);
    assert Open(s.hist, c, s.calls[c]);
    forall d | d in s.calls && d != c
      ensures Tracked(t.log, t.abandoned, t.calls[d])
    {
      assert Open(s.hist, d, s.calls[d]);
      ExecKeepsTracked(s.log, s.abandoned, s.calls[d], e);
    }
  }

  lemma ExecuteInv(s: State, c: Client)
    requires Inv(s) && Enabled(s, Execute(c))
    ensures Inv(Next(s, Execute(c)))
  {
    BaseStep(s, Execute(c));
    var t := Next(s, Execute(c));
    var e := t.log[|s.log|];
    assert Open(s.hist, c, s.calls[c]);
    ExecuteTracked(s, c);
    ExecKeepsAllSettled(s, e);
    ExecKeepsRealTime(s, t, e);
  }

  lemma LateTracked(s: State, r: Request)
    requires AllTracked(s) && Attributed(s) && r in s.late
    ensures AllTracked(Next(s, ExecuteLate(r)))
  {
    var t := Next(s, ExecuteLate(r));
    forall c | c in s.calls
      ensures Tracked(t.log, t.abandoned, t.calls[c])
    {
      ExecKeepsTracked(s.log, s.abandoned, s.calls[c], t.log[|s.log|]);
    }
  }

  lemma LateInv(s: State, r: Request)
    requires Inv(s) && Enabled(s, ExecuteLate(r))
    ensures Inv(Next(s, ExecuteLate(r)))
  {
    BaseStep(s, ExecuteLate(r));
    var t := Next(s, ExecuteLate(r));
    var e := t.log[|s.log|];
    LateTracked(s, r);
    ExecKeepsAllSettled(s, e);
    ExecKeepsRealTime(s, t, e);
  }

  /** A call that is resent is no longer tracked by its executions. */
  lemma ResendTracked(s: State, a: Action)
    requires HistoryOk(s) && AllTracked(s) && Enabled(s, a) && (a.DropRequest? || a.DropReply? || a.Abandon?)
    ensures AllTracked(Next(s, a))
  {
    var t := Next(s, a);
    assert Open(s.hist, a.client, s.calls[a.client]);
    forall d | d in s.calls
      ensures Tracked(t.log, t.abandoned, t.calls[d])
    {
      assert Open(s.hist, d, s.calls[d]) && Tracked(s.log, s.abandoned, s.calls[d]);
    }
  }

  lemma ResendSettled(log: seq<Exec>, abandoned: set<CallId>, hist: seq<Event>, id: CallId)
    requires AllSettled(log, abandoned, hist) && !HasReturned(hist, id)
    ensures AllSettled(log, abandoned + {id}, hist)
  {
  }

  lemma ResendInv(s: State, a: Action)
    requires Inv(s) && Enabled(s, a) && (a.DropRequest? || a.DropReply? || a.Abandon?)
    ensures Inv(Next(s, a))
  {
    BaseStep(s, a);
    ResendTracked(s, a);
    assert Open(s.hist, a.client, s.calls[a.client]);
    ResendSettled(s.log, s.abandoned, s.hist, s.calls[a.client].id);
  }

  lemma AnswerSettles(log: seq<Exec>, abandoned: set<CallId>, call: Call)
    requires Faithful(log) && call.wire.Answered? && Tracked(log, abandoned, call)
    requires forall i :: 0 <= i < |log| && log[i].id == call.id ==> log[i].op == call.op
    ensures Settled(log, abandoned, call.op, call.id, ClerkReply(call.op, call.retried, call.wire.reply))
  {
    FaithfulAt(log, LastOf(log, call.id));
  }

  lemma DeliverSettles(s: State, c: Client)
    requires Inv(s) && Enabled(s, Deliver(c))
    ensures AllSettled(s.log, s.abandoned, Next(s, Deliver(c)).hist)
  {
    var call := s.calls[c];
    assert Open(s.hist, c, call) && Tracked(s.log, s.abandoned, call);
    assert forall i :: 0 <= i < |s.log| ==> IsCall(s.hist, s.log[i].id, s.log[i].op);
    AnswerSettles(s.log, s.abandoned, call);
    AppendSettled(s.log, s.abandoned, s.hist, Next(s, Deliver(c)).hist[|s.hist|]);
  }

  lemma DeliverInv(s: State, c: Client)
    requires Inv(s) && Enabled(s, Deliver(c))
    ensures Inv(Next(s, Deliver(c)))
  {
    BaseStep(s, Deliver(c));
    DeliverSettles(s, c);
    AppendRealTime(s, Next(s, Deliver(c)));
  }

  lemma InvStep(s: State, a: Action)
    requires Inv(s) && Enabled(s, a)
    ensures Inv(Next(s, a))
  {
    match a
    case Invoke(c, op) => InvokeInv(s, c, op);
    case Execute(c) => ExecuteInv(s, c);
    case ExecuteLate(r) => LateInv(s, r);
    case Deliver(c) => DeliverInv(s, c);
    case _ => ResendInv(s, a);
  }

  lemma {:induction false} InvRun(s: State, run: seq<Action>)
    requires Inv(s) && Legal(s, run)
    ensures Inv(After(s, run))
    decreases |run|
  {
    if run != [] {
      InvStep(s, run[0]);
      InvRun(Next(s, run[0]), run[1..]);
    }
  }

  // ---------------------------------------------------------------------------------------
  // Runs in which no write comes after its call returned
  // ---------------------------------------------------------------------------------------

  /** A late handler writes although the call has returned already. */
  ghost predicate TooLate(s: State, a: Action) {
    a.ExecuteLate? && Applies(s.store, a.request.op) && HasReturned(s.hist, a.request.id)
  }

  ghost predicate OnTime(s: State, run: seq<Action>)
    requires Legal(s, run)
    decreases |run|
  {
    run == [] || (!TooLate(s, run[0]) && OnTime(Next(s, run[0]), run[1..]))
  }

  /** A call that wrote after another execution cannot have returned before that one was invoked. */
  ghost predicate InTime(s: State) {
    forall i, j, r ::
      0 <= i < j < |s.log| && s.log[j].applied && IsReturn(s.hist, r) && s.hist[r].id == s.log[j].id ==> s.log[i].id < r
  }

  lemma AppendInTime(s: State, t: State)
    requires InTime(s) && Attributed(s)
    requires t.log == s.log && |t.hist| == |s.hist| + 1 && t.hist[..|s.hist|] == s.hist
    ensures InTime(t)
  {
    forall i, j, r | 0 <= i < j < |t.log| && t.log[j].applied && IsReturn(t.hist, r) && t.hist[r].id == t.log[j].id
      ensures t.log[i].id < r
    {
      assert IsCall(s.hist, s.log[i].id, s.log[i].op);
      if r < |s.hist| {
        assert t.hist[r] == s.hist[r];
        assert IsReturn(s.hist, r);
      }
    }
  }

  lemma ExecKeepsInTime(s: State, t: State, e: Exec)
    requires InTime(s) && t.hist == s.hist && t.log == s.log + [e] && (e.applied ==> !HasReturned(s.hist, e.id))
    ensures InTime(t)
  {
  }

  lemma InTimeStep(s: State, a: Action)
    requires HistoryOk(s) && InTime(s) && Enabled(s, a) && !TooLate(s, a)
    ensures InTime(Next(s, a))
  {
    var t := Next(s, a);
    match a
    case Invoke(_, _) => AppendInTime(s, t);
    case Deliver(_) => AppendInTime(s, t);
    case Execute(c) =>
      assert Open(s.hist, c, s.calls[c]);
      ExecKeepsInTime(s, t, t.log[|s.log|]);
    case ExecuteLate(_) => ExecKeepsInTime(s, t, t.log[|s.log|]);
    case _ =>
  }

  lemma {:induction false} InTimeRun(s: State, run: seq<Action>)
    requires Inv(s) && InTime(s) && Legal(s, run) && OnTime(s, run)
    ensures Inv(After(s, run)) && InTime(After(s, run))
    decreases |run|
  {
    if run != [] {
      InvStep(s, run[0]);
      InTimeStep(s, run[0]);
      InTimeRun(Next(s, run[0]), run[1..]);
    }
  }

  /** No Put that answered ErrNoKey was written. */
  ghost predicate RefusalsHold(s: State) {
    forall r, op ::
      IsReturn(s.hist, r) && IsCall(s.hist, s.hist[r].id, op) && op.Put? && s.hist[r].reply.err == ErrNoKey ==>
        AppliedBy(s.log, s.hist[r].id) == 0
  }

  /** Only Gets are abandoned. */
  predicate PutsAwaited(s: State) {
    forall id :: id in s.abandoned ==> id < |s.hist| && s.hist[id].Invoked? && s.hist[id].op.Get?
  }

  /** If only Gets are abandoned, nothing is too late. */
  lemma {:induction false} GetsOnTime(s: State, run: seq<Action>)
    requires Base(s) && Legal(s, run)
    requires PutsAwaited(After(s, run))
    ensures OnTime(s, run)
    decreases |run|
  {
    if run != [] {
      BaseStep(s, run[0]);
      RunExtends(s, run);
      GetsOnTime(Next(s, run[0]), run[1..]);
    }
  }

  // ---------------------------------------------------------------------------------------
  // The order: executions that wrote, and for calls that never wrote their last execution
  // ---------------------------------------------------------------------------------------

  ghost predicate Chosen(s: State, i: nat)
    requires i < |s.log|
  {
    var id := s.log[i].id;
    s.log[i].applied || (HasReturned(s.hist, id) && AppliedBy(s.log, id) == 0 && i == LastOf(s.log, id))
  }

  ghost function Output(hist: seq<Event>, id: CallId): (out: Reply)
    ensures HasReturned(hist, id) ==> exists r :: IsReturn(hist, r) && hist[r] == Returned(id, out)
  {
    if HasReturned(hist, id) then
      var r :| IsReturn(hist, r) && hist[r].id == id;
      assert hist[r] == Returned(id, hist[r].reply);
      hist[r].reply
    else PutReply(OK)
  }

  ghost function Order(s: State, n: nat): seq<Ordered>
    requires n <= |s.log|
  {
    if n == 0 then []
    else
      var e := s.log[n-1];
      Order(s, n - 1) + (if Chosen(s, n - 1) then [Ordered(e.id, e.op, Output(s.hist, e.id))] else [])
  }

  lemma {:induction false} StoredVersionsPositive(log: seq<Exec>)
    requires Faithful(log)
    ensures forall key :: key in Replay(log) ==> Replay(log)[key].version >= 1
  {
    if log != [] {
      StoredVersionsPositive(log[..|log|-1]);
    }
  }

  /** At most one execution of each call writes. */
  lemma AppliedUnique(s: State, id: CallId)
    requires Base(s)
    ensures AppliedBy(s.log, id) <= 1
    ensures AppliedBy(s.log, id) == 1 <==> exists i :: 0 <= i < |s.log| && s.log[i].id == id && s.log[i].applied
  {
    forall i, j | 0 <= i < j < |s.log| && s.log[i].id == s.log[j].id
      ensures !(s.log[i].applied && s.log[j].applied)
    {
      OnceApplied(s, i, j);
    }
    AppliedByAtMostOnce(s.log, id);
  }

  /** The reply a call returned fits the state in which its chosen execution happened. */
  lemma ChosenAllowed(s: State, i: nat)
    requires Inv(s) && RefusalsHold(s) && i < |s.log| && Chosen(s, i)
    ensures var e := s.log[i];
            Allows(Exact, Abstract(Replay(s.log[..i]), e.op.key), e.op, Output(s.hist, e.id))
  {
    var e := s.log[i];
    FaithfulAt(s.log, i);
    StoredVersionsPositive(s.log[..i]);
    var before := Replay(s.log[..i]);
    ServeIsCompareAndSwap(before, e.op);
    if HasReturned(s.hist, e.id) {
      var out := Output(s.hist, e.id);
      var r :| IsReturn(s.hist, r) && s.hist[r] == Returned(e.id, out);
      assert IsCall(s.hist, s.hist[r].id, e.op) && Settled(s.log, s.abandoned, e.op, e.id, out);
      if e.applied {
        AppliedUnique(s, e.id);
        WriterReply(s, r, e.op, i);
      }
    }
  }

  /** What a call that wrote can have answered: ErrNoKey only if a late handler wrote. */
  lemma WriterReply(s: State, r: nat, op: Op, i: nat)
    requires Inv(s) && IsReturn(s.hist, r) && IsCall(s.hist, s.hist[r].id, op) && op.Put?
    requires i < |s.log| && s.log[i].id == s.hist[r].id && s.log[i].applied
    ensures var reply := s.hist[r].reply;
            || reply == PutReply(OK) || reply == PutReply(ErrMaybe)
            || (reply == PutReply(ErrNoKey) && s.hist[r].id in s.abandoned)
  {
    var j := LastOf(s.log, s.hist[r].id);
    assert IsCall(s.hist, s.log[i].id, s.log[i].op);
    assert Settled(s.log, s.abandoned, op, s.hist[r].id, s.hist[r].reply);
    if i <= j {
      AppliedReply(s, i, s.hist[r].reply);
    } else {
      assert IsCall(s.hist, s.log[j].id, s.log[j].op);
      FaithfulAt(s.log, j);
      ServeIsCompareAndSwap(Replay(s.log[..j]), op);
    }
  }

  /** A returned call that wrote by its last execution answered OK or ErrMaybe. */
  lemma AppliedReply(s: State, i: nat, out: Reply)
    requires Base(s) && i < |s.log| && s.log[i].applied && i <= LastOf(s.log, s.log[i].id)
    requires Settled(s.log, s.abandoned, s.log[i].op, s.log[i].id, out)
    ensures out == PutReply(OK) || out == PutReply(ErrMaybe)
  {
    var e := s.log[i];
    var j := LastOf(s.log, e.id);
    FaithfulAt(s.log, i);
    FaithfulAt(s.log, j);
    ServeIsCompareAndSwap(Replay(s.log[..j]), s.log[j].op);
    assert IsCall(s.hist, e.id, e.op) && IsCall(s.hist, s.log[j].id, s.log[j].op);
    if j != i {
      TwoExecutions(s.log, i, j);
      WriteRaisesVersion(s.log, i, j);
    }
  }

  lemma {:induction false} TwoExecutions(log: seq<Exec>, i: nat, j: nat)
    requires i < j < |log| && log[i].id == log[j].id
    ensures ExecutedBy(log, log[i].id) >= 2
  {
    if j < |log| - 1 {
      TwoExecutions(log[..|log|-1], i, j);
    } else {
      OneExecution(log[..|log|-1], i);
    }
  }

  lemma {:induction false} OneExecution(log: seq<Exec>, i: nat)
    requires i < |log|
    ensures ExecutedBy(log, log[i].id) >= 1
  {
    if i < |log| - 1 {
      OneExecution(log[..|log|-1], i);
    }
  }

  lemma OrderStart(s: State, key: string)
    ensures EndsIn(Exact, Order(s, 0), key, Abstract(Replay(s.log[..0]), key))
  {
  }

  /** Running the specification over the order reproduces the server's store, key by key. */
  lemma OrderSimulates(s: State, n: nat, key: string)
    requires Inv(s) && RefusalsHold(s) && n <= |s.log|
    ensures EndsIn(Exact, Order(s, n), key, Abstract(Replay(s.log[..n]), key))
  {
    OrderStart(s, key);
    for i := 0 to n
      invariant EndsIn(Exact, Order(s, i), key, Abstract(Replay(s.log[..i]), key))
    {
      OrderExtends(s, i, key);
    }
  }

  lemma OrderExtends(s: State, i: nat, key: string)
    requires Inv(s) && RefusalsHold(s) && i < |s.log|
    requires EndsIn(Exact, Order(s, i), key, Abstract(Replay(s.log[..i]), key))
    ensures EndsIn(Exact, Order(s, i + 1), key, Abstract(Replay(s.log[..i+1]), key))
  {
    var e := s.log[i];
    ExecAbstract(s, i, key);
    if Chosen(s, i) {
      var x := Ordered(e.id, e.op, Output(s.hist, e.id));
      ChosenAllowed(s, i);
      AppendAllowed(Exact, Order(s, i), x, key, Abstract(Replay(s.log[..i]), key));
      assert Order(s, i + 1) == Order(s, i) + [x];
    } else {
      assert Order(s, i + 1) == Order(s, i);
    }
  }

  /** One execution moves a key as the specification does, and only if it wrote. */
  lemma ExecAbstract(s: State, i: nat, key: string)
    requires Base(s) && i < |s.log|
    ensures var e, st := s.log[i], Abstract(Replay(s.log[..i]), key);
            && Abstract(Replay(s.log[..i+1]), key) == (if e.op.key == key then Advance(st, e.op) else st)
            && (!e.applied ==> Abstract(Replay(s.log[..i+1]), key) == st)
  {
    FaithfulAt(s.log, i);
    ServeIsCompareAndSwap(Replay(s.log[..i]), s.log[i].op);
  }

  /** The order holds exactly the chosen executions, in the order of the log. */
  lemma {:induction false} OrderElements(s: State, n: nat) returns (at: seq<nat>)
    requires Base(s) && n <= |s.log|
    ensures |at| == |Order(s, n)|
    ensures forall i, j :: 0 <= i < j < |at| ==> at[i] < at[j]
    ensures forall i :: 0 <= i < |at| ==>
              && at[i] < n && Chosen(s, at[i])
              && Order(s, n)[i] == Ordered(s.log[at[i]].id, s.log[at[i]].op, Output(s.hist, s.log[at[i]].id))
    ensures forall i: nat :: i < n && Chosen(s, i) ==> i in at
  {
    if n == 0 {
      at := [];
    } else {
      at := OrderElements(s, n - 1);
      if Chosen(s, n - 1) {
        at := at + [n - 1];
      }
    }
  }

  /** No call is chosen twice. */
  lemma ChosenOnce(s: State, i: nat, j: nat)
    requires Base(s) && i < j < |s.log| && Chosen(s, i) && Chosen(s, j)
    ensures s.log[i].id != s.log[j].id
  {
    if s.log[i].id == s.log[j].id {
      OnceApplied(s, i, j);
      AppliedUnique(s, s.log[i].id);
      assert false;
    }
  }

  /** Every returned call is chosen once. */
  lemma ReturnedChosen(s: State, r: nat) returns (i: nat)
    requires Inv(s) && IsReturn(s.hist, r)
    ensures i < |s.log| && Chosen(s, i) && s.log[i].id == s.hist[r].id
  {
    var id := s.hist[r].id;
    AppliedUnique(s, id);
    if AppliedBy(s.log, id) == 1 {
      i :| 0 <= i < |s.log| && s.log[i].id == id && s.log[i].applied;
    } else {
      assert Settled(s.log, s.abandoned, s.hist[id].op, id, s.hist[r].reply);
      i := LastOf(s.log, id);
    }
  }

  lemma OutputIsReply(s: State, r: nat)
    requires Base(s) && IsReturn(s.hist, r)
    ensures Output(s.hist, s.hist[r].id) == s.hist[r].reply
  {
    var id := s.hist[r].id;
    assert HasReturned(s.hist, id);
    var q :| IsReturn(s.hist, q) && s.hist[q] == Returned(id, Output(s.hist, id));
    assert q == r;
  }

  lemma OrderGenuine(s: State)
    requires Base(s)
    ensures Genuine(s.hist, Order(s, |s.log|))
  {
    var at := OrderElements(s, |s.log|);
    forall i, j | 0 <= i < j < |at|
      ensures s.log[at[i]].id != s.log[at[j]].id
    {
      ChosenOnce(s, at[i], at[j]);
    }
  }

  lemma OrderTimely(s: State)
    requires Base(s) && RealTime(s) && InTime(s)
    ensures Timely(s.hist, Order(s, |s.log|))
  {
    var ops := Order(s, |s.log|);
    var at := OrderElements(s, |s.log|);
    forall i, j, r | 0 <= i < j < |ops| && IsReturn(s.hist, r) && s.hist[r].id == ops[j].id
      ensures ops[i].id < r
    {
      assert Chosen(s, at[j]);
    }
  }

  lemma OrderComplete(s: State)
    requires Inv(s)
    ensures Complete(s.hist, Order(s, |s.log|))
  {
    var ops := Order(s, |s.log|);
    var at := OrderElements(s, |s.log|);
    forall r | IsReturn(s.hist, r)
      ensures Contains(ops, s.hist[r].id, s.hist[r].reply)
    {
      var i := ReturnedChosen(s, r);
      OutputIsReply(s, r);
      var k :| 0 <= k < |at| && at[k] == i;
      assert ops[k].id == s.hist[r].id && ops[k].out == s.hist[r].reply;
    }
  }

  lemma OrderExplains(s: State)
    requires Inv(s) && InTime(s) && RefusalsHold(s)
    ensures Explains(Exact, s.hist, Order(s, |s.log|))
  {
    OrderGenuine(s);
    OrderTimely(s);
    OrderComplete(s);
    forall key
      ensures StepAll(Exact, OnKey(Order(s, |s.log|), key)).0
    {
      OrderSimulates(s, |s.log|, key);
    }
  }

  lemma OrderHasNoMissingKey(s: State, x: Ordered)
    requires Base(s) && !SawMissingKey(s.hist) && x in Order(s, |s.log|) && x.op.Put?
    ensures x.out.err != ErrNoKey
  {
    var at := OrderElements(s, |s.log|);
    OrderGenuine(s);
    var i :| 0 <= i < |at| && Order(s, |s.log|)[i] == x;
    assert IsCall(s.hist, x.id, x.op);
    if HasReturned(s.hist, x.id) {
      var r :| IsReturn(s.hist, r) && s.hist[r] == Returned(x.id, x.out);
    }
  }

  lemma PorcupineAccepts(s: State, key: string)
    requires Inv(s) && !SawMissingKey(s.hist)
    ensures StepAll(Porcupine, OnKey(Order(s, |s.log|), key)).0
  {
    var ops := Order(s, |s.log|);
    OrderSimulates(s, |s.log|, key);
    OnKeyElements(ops, key);
    forall i | 0 <= i < |OnKey(ops, key)| && OnKey(ops, key)[i].op.Put?
      ensures OnKey(ops, key)[i].out.err != ErrNoKey
    {
      OrderHasNoMissingKey(s, OnKey(ops, key)[i]);
    }
    SpecsAgree(OnKey(ops, key));
  }

  /** Without a Put that answered ErrNoKey the order satisfies the repository's specification too. */
  lemma OrderExplainsPorcupine(s: State)
    requires Inv(s) && InTime(s) && !SawMissingKey(s.hist)
    ensures Explains(Porcupine, s.hist, Order(s, |s.log|))
  {
    OrderGenuine(s);
    OrderTimely(s);
    OrderComplete(s);
    forall key
      ensures StepAll(Porcupine, OnKey(Order(s, |s.log|), key)).0
    {
      PorcupineAccepts(s, key);
    }
  }

  lemma PorcupineIff(s: State)
    requires Inv(s) && InTime(s)
    ensures Linearizable(Porcupine, s.hist) <==> !SawMissingKey(s.hist)
  {
    if !SawMissingKey(s.hist) {
      OrderExplainsPorcupine(s);
    } else if Linearizable(Porcupine, s.hist) {
      var ops :| Explains(Porcupine, s.hist, ops);
      MissingKeyUnexplained(s.hist, ops);
    }
  }

  /** Whatever is lost, provided that no late handler writes after its call returned: the repository's
      own specification explains the history exactly when no Put answered ErrNoKey, and the server's
      exact specification explains it if no Put that answered ErrNoKey was written. */
  lemma EveryRunLinearizable(run: seq<Action>)
    requires Legal(INIT, run) && OnTime(INIT, run)
    ensures RefusalsHold(After(INIT, run)) ==> Linearizable(Exact, After(INIT, run).hist)
    ensures Linearizable(Porcupine, After(INIT, run).hist) <==> !SawMissingKey(After(INIT, run).hist)
  {
    InTimeRun(INIT, run);
    var s := After(INIT, run);
    if RefusalsHold(s) {
      OrderExplains(s);
    }
    PorcupineIff(s);
  }

  lemma AwaitedRefusalsHold(s: State)
    requires Inv(s) && PutsAwaited(s)
    ensures RefusalsHold(s)
  {
    forall r, op | IsReturn(s.hist, r) && IsCall(s.hist, s.hist[r].id, op) && op.Put?
                   && s.hist[r].reply.err == ErrNoKey
      ensures AppliedBy(s.log, s.hist[r].id) == 0
    {
      AppliedUnique(s, s.hist[r].id);
      if AppliedBy(s.log, s.hist[r].id) == 1 {
        var i :| 0 <= i < |s.log| && s.log[i].id == s.hist[r].id && s.log[i].applied;
        WriterReply(s, r, op, i);
      }
    }
  }

  /** In particular every run in which no transmission of a Put is abandoned. */
  lemma LinearizableIfPutsAwaited(run: seq<Action>)
    requires Legal(INIT, run) && PutsAwaited(After(INIT, run))
    ensures Linearizable(Exact, After(INIT, run).hist)
    ensures Linearizable(Porcupine, After(INIT, run).hist) <==> !SawMissingKey(After(INIT, run).hist)
  {
    GetsOnTime(INIT, run);
    InvRun(INIT, run);
    AwaitedRefusalsHold(After(INIT, run));
    EveryRunLinearizable(run);
  }

  lemma MissingKeyRun() returns (run: seq<Action>)
    ensures Legal(INIT, run) && After(INIT, run).abandoned == {} && SawMissingKey(After(INIT, run).hist)
  {
    var op := Put("k", "a", 1);
    var s1 := Next(INIT, Invoke(0, op));
    var s2 := Next(s1, Execute(0));
    var s3 := Next(s2, Deliver(0));
    RunCons(s2, Deliver(0), []);
    RunCons(s1, Execute(0), [Deliver(0)] + []);
    RunCons(INIT, Invoke(0, op), [Execute(0)] + ([Deliver(0)] + []));
    run := [Invoke(0, op)] + ([Execute(0)] + ([Deliver(0)] + []));
    assert IsReturn(s3.hist, 1) && IsCall(s3.hist, 0, op);
  }

  /** A run without any loss whose Put answers ErrNoKey: the two specifications do differ. */
  lemma MissingKeyHappens() returns (run: seq<Action>)
    ensures Legal(INIT, run) && OnTime(INIT, run) && SawMissingKey(After(INIT, run).hist)
    ensures Linearizable(Exact, After(INIT, run).hist) && !Linearizable(Porcupine, After(INIT, run).hist)
  {
    run := MissingKeyRun();
    GetsOnTime(INIT, run);
    LinearizableIfPutsAwaited(run);
  }
}
