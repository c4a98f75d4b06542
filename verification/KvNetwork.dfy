/** Any number of clerks talking to one server over a network that loses messages.

    A call is one Get or Put of an application, kept alive by its clerk until a reply arrives.
    Each transmission of its request is lost before the server sees it, or executed and its reply
    lost, or executed and answered; the clerk cannot tell the two losses apart and resends. When
    the server is replaced or the client's end disabled during a call, the clerk also abandons a
    transmission whose handler may still run afterwards: such a request stays in `late`. */
module KvNetwork {
  import opened KvServer

  type Client = nat

  /** A call is named by the position of its invocation in the history. */
  type CallId = nat

  datatype Wire = Sent | Answered(reply: Reply)

  datatype Call = Call(id: CallId, op: Op, retried: bool, wire: Wire)

  datatype Request = Request(client: Client, id: CallId, op: Op)

  datatype Event = Invoked(client: Client, op: Op) | Returned(id: CallId, reply: Reply)

  /** One execution of a handler; `late` if its clerk had abandoned that transmission. */
  datatype Exec = Exec(id: CallId, op: Op, reply: Reply, applied: bool, late: bool)

  /** `log` (what the server executed), `hist` (what applications saw) and `abandoned` (the calls of
      which a transmission was abandoned) record the run; no step depends on them except through
      the length of `hist`, which names calls. */
  datatype State = State(
    store: Store, calls: map<Client, Call>, late: multiset<Request>, log: seq<Exec>, hist: seq<Event>,
    abandoned: set<CallId>)

  datatype Action =
    | Invoke(client: Client, op: Op)
    | Execute(client: Client)
    | DropRequest(client: Client)
    | DropReply(client: Client)
    | Abandon(client: Client)
    | ExecuteLate(request: Request)
    | Deliver(client: Client)

  const INIT := State(map[], map[], multiset{}, [], [], {})

  predicate Enabled(s: State, a: Action) {
    match a
    case Invoke(c, _) => c !in s.calls
    case Execute(c) => c in s.calls && s.calls[c].wire.Sent?
    case DropRequest(c) => c in s.calls && s.calls[c].wire.Sent?
    case DropReply(c) => c in s.calls && s.calls[c].wire.Answered?
    case Abandon(c) => c in s.calls && s.calls[c].wire.Sent?
    case ExecuteLate(r) => r in s.late
    case Deliver(c) => c in s.calls && s.calls[c].wire.Answered?
  }

  /** What the clerk hands to the application: a refused version on a resent Put is ambiguous. */
  function ClerkReply(op: Op, retried: bool, reply: Reply): Reply {
    if op.Put? && reply.err == ErrVersion && retried then PutReply(ErrMaybe) else reply
  }

  /** The server handles one request. */
  function Handle(s: State, id: CallId, op: Op, late: bool): State {
    var (store, reply) := Serve(s.store, op);
    s.(store := store, log := s.log + [Exec(id, op, reply, Applies(s.store, op), late)])
  }

  function Resend(call: Call): Call {
    call.(retried := true, wire := Sent)
  }

  function Next(s: State, a: Action): State
    requires Enabled(s, a)
  {
    match a
    case Invoke(c, op) =>
      s.(calls := s.calls[c := Call(|s.hist|, op, false, Sent)], hist := s.hist + [Invoked(c, op)])
    case Execute(c) =>
      var call := s.calls[c];
      var t := Handle(s, call.id, call.op, false);
      t.(calls := s.calls[c := call.(wire := Answered(Serve(s.store, call.op).1))])
    case DropRequest(c) =>
      s.(calls := s.calls[c := Resend(s.calls[c])])
    case DropReply(c) =>
      s.(calls := s.calls[c := Resend(s.calls[c])])
    case Abandon(c) =>
      var call := s.calls[c];
      s.(calls := s.calls[c := Resend(call)], late := s.late + multiset{Request(c, call.id, call.op)},
         abandoned := s.abandoned + {call.id})
    case ExecuteLate(r) =>
      Handle(s, r.id, r.op, true).(late := s.late - multiset{r})
    case Deliver(c) =>
      var call := s.calls[c];
      s.(calls := s.calls - {c},
         hist := s.hist + [Returned(call.id, ClerkReply(call.op, call.retried, call.wire.reply))])
  }

  predicate Legal(s: State, run: seq<Action>)
    decreases |run|
  {
    run == [] || (Enabled(s, run[0]) && Legal(Next(s, run[0]), run[1..]))
  }

  function After(s: State, run: seq<Action>): State
    requires Legal(s, run)
    decreases |run|
  {
    if run == [] then s else After(Next(s, run[0]), run[1..])
  }

  lemma RunCons(s: State, a: Action, rest: seq<Action>)
    requires Enabled(s, a) && Legal(Next(s, a), rest)
    ensures Legal(s, [a] + rest) && After(s, [a] + rest) == After(Next(s, a), rest)
  {
    assert ([a] + rest)[1..] == rest;
  }

  lemma TailOfConcat(run: seq<Action>, more: seq<Action>)
    requires run != []
    ensures run + more != [] && (run + more)[0] == run[0] && (run + more)[1..] == run[1..] + more
  {
  }

  lemma RunConcat(s: State, run: seq<Action>, more: seq<Action>)
    requires Legal(s, run) && Legal(After(s, run), more)
    ensures Legal(s, run + more) && After(s, run + more) == After(After(s, run), more)
    decreases |run|
  {
    if run == [] {
      assert run + more == more;
    } else {
      TailOfConcat(run, more);
      RunConcat(Next(s, run[0]), run[1..], more);
    }
  }

  /** A run only adds to what is recorded. */
  lemma {:induction false} RunExtends(s: State, run: seq<Action>)
    requires Legal(s, run)
    ensures s.log <= After(s, run).log && s.hist <= After(s, run).hist && s.abandoned <= After(s, run).abandoned
    decreases |run|
  {
    if run != [] {
      var t := Next(s, run[0]);
      assert s.log <= t.log && s.hist <= t.hist;
      RunExtends(t, run[1..]);
    }
  }

  // ---------------------------------------------------------------------------------------
  // The log determines the store
  // ---------------------------------------------------------------------------------------

  function Replay(log: seq<Exec>): Store {
    if log == [] then map[] else Serve(Replay(log[..|log|-1]), log[|log|-1].op).0
  }

  /** Every record is what the server of that moment answered. */
  predicate Faithful(log: seq<Exec>) {
    log == [] ||
    (var before, e := log[..|log|-1], log[|log|-1];
     && Faithful(before)
     && e.reply == Serve(Replay(before), e.op).1
     && e.applied == Applies(Replay(before), e.op))
  }

  lemma {:induction false} FaithfulAt(log: seq<Exec>, i: nat)
    requires Faithful(log) && i < |log|
    ensures Faithful(log[..i])
    ensures log[i].reply == Serve(Replay(log[..i]), log[i].op).1
    ensures log[i].applied == Applies(Replay(log[..i]), log[i].op)
    ensures Replay(log[..i+1]) == Serve(Replay(log[..i]), log[i].op).0
  {
    assert log[..i+1][..i] == log[..i];
    if i < |log| - 1 {
      FaithfulAt(log[..|log|-1], i);
      assert log[..|log|-1][..i] == log[..i];
    } else {
      assert log[..i+1] == log;
    }
  }

  function AppliedTo(log: seq<Exec>, key: string): nat {
    if log == [] then 0
    else var e := log[|log|-1];
      AppliedTo(log[..|log|-1], key) + (if e.applied && e.op.key == key then 1 else 0)
  }

  function AppliedBy(log: seq<Exec>, id: CallId): nat {
    if log == [] then 0
    else var e := log[|log|-1];
      AppliedBy(log[..|log|-1], id) + (if e.applied && e.id == id then 1 else 0)
  }

  lemma AppliedByAppend(log: seq<Exec>, e: Exec, id: CallId)
    ensures AppliedBy(log + [e], id) == AppliedBy(log, id) + (if e.applied && e.id == id then 1 else 0)
  {
    assert (log + [e])[..|log|] == log;
  }

  /** How often the server executed a call. */
  function ExecutedBy(log: seq<Exec>, id: CallId): nat {
    if log == [] then 0
    else ExecutedBy(log[..|log|-1], id) + (if log[|log|-1].id == id then 1 else 0)
  }

  /** A key's version counts the Puts applied to it. */
  lemma {:induction false} VersionCountsApplied(log: seq<Exec>, key: string)
    requires Faithful(log)
    ensures VersionOf(Replay(log), key) == AppliedTo(log, key)
  {
    if log != [] {
      VersionCountsApplied(log[..|log|-1], key);
    }
  }

  /** Versions never go back. */
  lemma {:induction false} VersionMonotone(log: seq<Exec>, i: nat, key: string)
    requires Faithful(log) && i <= |log|
    ensures VersionOf(Replay(log[..i]), key) <= VersionOf(Replay(log), key)
  {
    if i == |log| {
      assert log[..i] == log;
    } else {
      VersionMonotone(log[..|log|-1], i, key);
      assert log[..|log|-1][..i] == log[..i];
    }
  }

  /** A write leaves its key present and at a version above the one it was made with. */
  lemma WriteRaisesVersion(log: seq<Exec>, i: nat, j: nat)
    requires Faithful(log) && i < j <= |log| && log[i].applied
    ensures log[i].op.Put? && log[i].op.key in Replay(log[..j])
    ensures VersionOf(Replay(log[..j]), log[i].op.key) > log[i].op.version
  {
    FaithfulAt(log, i);
    ServeIsCompareAndSwap(Replay(log[..i]), log[i].op);
    FaithfulPrefix(log, j);
    VersionMonotone(log[..j], i + 1, log[i].op.key);
    assert log[..j][..i+1] == log[..i+1];
  }

  lemma {:induction false} FaithfulPrefix(log: seq<Exec>, j: nat)
    requires Faithful(log) && j <= |log|
    ensures Faithful(log[..j])
  {
    if j < |log| {
      FaithfulAt(log, j);
    } else {
      assert log[..j] == log;
    }
  }

  // ---------------------------------------------------------------------------------------
  // What every run keeps, late requests included
  // ---------------------------------------------------------------------------------------

  predicate IsCall(hist: seq<Event>, id: CallId, op: Op) {
    id < |hist| && hist[id].Invoked? && hist[id].op == op
  }

  predicate IsReturn(hist: seq<Event>, r: int) {
    0 <= r < |hist| && hist[r].Returned?
  }

  ghost predicate HasReturned(hist: seq<Event>, id: CallId) {
    exists r :: IsReturn(hist, r) && hist[r].id == id
  }

  /** Executions and late requests belong to calls, late ones to calls with a transmission
      abandoned. */
  predicate Attributed(s: State) {
    && (forall i :: 0 <= i < |s.log| ==> IsCall(s.hist, s.log[i].id, s.log[i].op))
    && (forall i :: 0 <= i < |s.log| && s.log[i].late ==> s.log[i].id in s.abandoned)
    && (forall r :: r in s.late ==> IsCall(s.hist, r.id, r.op) && r.id in s.abandoned)
    && (forall id :: id in s.abandoned ==> id < |s.hist|)
  }

  /** A call in progress was invoked by its client and has not returned. */
  ghost predicate Open(hist: seq<Event>, c: Client, call: Call) {
    IsCall(hist, call.id, call.op) && hist[call.id].client == c && !HasReturned(hist, call.id)
  }

  /** A return follows its invocation, and no call returns twice. */
  ghost predicate ReturnsOnce(hist: seq<Event>) {
    && (forall r {:trigger IsReturn(hist, r)} :: IsReturn(hist, r) ==>
          hist[r].id < r && hist[hist[r].id].Invoked?)
    && (forall r, q {:trigger IsReturn(hist, r), IsReturn(hist, q)} ::
          r < q && IsReturn(hist, r) && IsReturn(hist, q) ==> hist[r].id != hist[q].id)
  }

  ghost predicate HistoryOk(s: State) {
    && Attributed(s)
    && (forall c :: c in s.calls ==> Open(s.hist, c, s.calls[c]))
    && ReturnsOnce(s.hist)
  }

  ghost predicate Base(s: State) {
    Faithful(s.log) && s.store == Replay(s.log) && HistoryOk(s)
  }

  lemma HandleKeepsLog(s: State, id: CallId, op: Op, late: bool)
    requires Faithful(s.log) && s.store == Replay(s.log)
    ensures var t := Handle(s, id, op, late); Faithful(t.log) && t.store == Replay(t.log)
  {
    var t := Handle(s, id, op, late);
    assert t.log[..|t.log|-1] == s.log;
  }

  lemma AppendOpen(hist: seq<Event>, c: Client, call: Call, e: Event)
    requires Open(hist, c, call)
    requires e.Returned? ==> e.id != call.id
    ensures Open(hist + [e], c, call)
  {
    forall r | IsReturn(hist + [e], r)
      ensures (hist + [e])[r].id != call.id
    {
      assert r < |hist| ==> IsReturn(hist, r);
    }
  }

  lemma AppendReturns(hist: seq<Event>, e: Event)
    requires ReturnsOnce(hist)
    requires e.Returned? ==> e.id < |hist| && hist[e.id].Invoked? && !HasReturned(hist, e.id)
    ensures ReturnsOnce(hist + [e])
  {
    forall r | IsReturn(hist + [e], r)
      ensures (hist + [e])[r].id < r && (hist + [e])[(hist + [e])[r].id].Invoked?
    {
      assert r < |hist| ==> IsReturn(hist, r);
    }
    forall r, q | r < q && IsReturn(hist + [e], r) && IsReturn(hist + [e], q)
      ensures (hist + [e])[r].id != (hist + [e])[q].id
    {
      assert IsReturn(hist, r);
      assert q < |hist| ==> IsReturn(hist, q);
    }
  }

  lemma InvokeHistory(s: State, c: Client, op: Op)
    requires HistoryOk(s) && Enabled(s, Invoke(c, op))
    ensures HistoryOk(Next(s, Invoke(c, op)))
  {
    var t := Next(s, Invoke(c, op));
    AppendReturns(s.hist, Invoked(c, op));
    forall d | d in t.calls
      ensures Open(t.hist, d, t.calls[d])
    {
      if d != c {
        AppendOpen(s.hist, d, s.calls[d], Invoked(c, op));
      }
    }
  }

  lemma DeliverHistory(s: State, c: Client)
    requires HistoryOk(s) && Enabled(s, Deliver(c))
    ensures HistoryOk(Next(s, Deliver(c)))
  {
    var t := Next(s, Deliver(c));
    assert Open(s.hist, c, s.calls[c]);
    AppendReturns(s.hist, t.hist[|s.hist|]);
    forall d | d in t.calls
      ensures Open(t.hist, d, t.calls[d])
    {
      assert Open(s.hist, d, s.calls[d]);
      AppendOpen(s.hist, d, s.calls[d], t.hist[|s.hist|]);
    }
  }

  lemma ResendHistory(s: State, a: Action)
    requires HistoryOk(s) && Enabled(s, a) && (a.DropRequest? || a.DropReply? || a.Abandon?)
    ensures HistoryOk(Next(s, a))
  {
    assert Open(s.hist, a.client, s.calls[a.client]);
  }

  lemma HandleHistory(s: State, a: Action)
    requires HistoryOk(s) && Enabled(s, a) && (a.Execute? || a.ExecuteLate?)
    ensures HistoryOk(Next(s, a))
  {
    assert a.Execute? ==> Open(s.hist, a.client, s.calls[a.client]);
  }

  lemma HistoryStep(s: State, a: Action)
    requires HistoryOk(s) && Enabled(s, a)
    ensures HistoryOk(Next(s, a))
  {
    match a
    case Invoke(c, op) => InvokeHistory(s, c, op);
    case Deliver(c) => DeliverHistory(s, c);
    case Execute(_) => HandleHistory(s, a);
    case ExecuteLate(_) => HandleHistory(s, a);
    case _ => ResendHistory(s, a);
  }

  lemma BaseStep(s: State, a: Action)
    requires Base(s) && Enabled(s, a)
    ensures Base(Next(s, a))
  {
    HistoryStep(s, a);
    match a
    case Execute(c) => HandleKeepsLog(s, s.calls[c].id, s.calls[c].op, false);
    case ExecuteLate(r) => HandleKeepsLog(s, r.id, r.op, true);
    case _ =>
  }

  lemma {:induction false} BaseRun(s: State, run: seq<Action>)
    requires Base(s) && Legal(s, run)
    ensures Base(After(s, run))
    decreases |run|
  {
    if run != [] {
      BaseStep(s, run[0]);
      BaseRun(Next(s, run[0]), run[1..]);
    }
  }

  /** Two executions of one call never both write: the first leaves a version that refuses the
      second. */
  lemma OnceApplied(s: State, i: nat, j: nat)
    requires Base(s) && i < j < |s.log|
    requires s.log[i].id == s.log[j].id
    ensures !(s.log[i].applied && s.log[j].applied)
  {
    FaithfulAt(s.log, j);
    assert IsCall(s.hist, s.log[i].id, s.log[i].op) && IsCall(s.hist, s.log[j].id, s.log[j].op);
    if s.log[i].applied {
      WriteRaisesVersion(s.log, i, j);
    }
  }

  lemma {:induction false} AppliedByAtMostOnce(log: seq<Exec>, id: CallId)
    requires forall i, j :: 0 <= i < j < |log| && log[i].id == log[j].id ==> !(log[i].applied && log[j].applied)
    ensures AppliedBy(log, id) <= 1
    ensures AppliedBy(log, id) == 1 <==> exists i :: 0 <= i < |log| && log[i].id == id && log[i].applied
  {
    if log != [] {
      var before := log[..|log|-1];
      AppliedByAtMostOnce(before, id);
      if AppliedBy(before, id) == 1 {
        var i :| 0 <= i < |before| && before[i].id == id && before[i].applied;
        assert log[i] == before[i];
      }
      if i :| 0 <= i < |log| && log[i].id == id && log[i].applied {
        assert i == |log| - 1 || before[i] == log[i];
      }
    }
  }

  /** Over all its transmissions, the late ones included, a call writes at most once. */
  lemma AtMostOnce(run: seq<Action>, id: CallId)
    requires Legal(INIT, run)
    ensures AppliedBy(After(INIT, run).log, id) <= 1
  {
    BaseRun(INIT, run);
    var s := After(INIT, run);
    forall i, j | 0 <= i < j < |s.log| && s.log[i].id == s.log[j].id
      ensures !(s.log[i].applied && s.log[j].applied)
    {
      OnceApplied(s, i, j);
    }
    AppliedByAtMostOnce(s.log, id);
  }
}
