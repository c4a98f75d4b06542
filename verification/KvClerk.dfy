/** What the replies of a clerk mean, and what they add up to. */
module KvClerk {
  import opened KvServer
  import opened KvNetwork
  import opened KvLinearizability

  // ---------------------------------------------------------------------------------------
  // The meaning of a reply
  // ---------------------------------------------------------------------------------------

  lemma OkWasWritten(s: State, r: nat, op: Op) returns (j: nat)
    requires Inv(s) && IsReturn(s.hist, r) && IsCall(s.hist, s.hist[r].id, op) && op.Put?
    requires s.hist[r].reply.err == OK
    ensures j < |s.log| && s.log[j].id == s.hist[r].id && s.log[j].applied
  {
    assert Settled(s.log, s.abandoned, op, s.hist[r].id, s.hist[r].reply);
    j := LastOf(s.log, s.hist[r].id);
    assert IsCall(s.hist, s.log[j].id, s.log[j].op);
    FaithfulAt(s.log, j);
    ServeIsCompareAndSwap(Replay(s.log[..j]), op);
  }

  lemma ServerReplies(log: seq<Exec>, i: nat)
    requires Faithful(log) && i < |log|
    ensures log[i].reply.err == OK || log[i].reply.err == ErrVersion || log[i].reply.err == ErrNoKey
  {
    FaithfulAt(log, i);
  }

  /** In every run, late handlers included: OK means written exactly once; ErrVersion means never
      written; ErrMaybe means at most once. ErrNoKey means never written if no transmission of that
      call was abandoned. There is no other reply. */
  lemma ReplyMeaning(run: seq<Action>, r: nat, op: Op)
    requires Legal(INIT, run)
    requires IsReturn(After(INIT, run).hist, r)
    requires IsCall(After(INIT, run).hist, After(INIT, run).hist[r].id, op) && op.Put?
    ensures var s := After(INIT, run);
            var id := s.hist[r].id;
            var written := AppliedBy(s.log, id);
            match s.hist[r].reply.err
            case OK => written == 1
            case ErrVersion => written == 0
            case ErrNoKey => written <= 1 && (id !in s.abandoned ==> written == 0)
            case ErrMaybe => written <= 1
  {
    InvRun(INIT, run);
    var s := After(INIT, run);
    AppliedUnique(s, s.hist[r].id);
    if s.hist[r].reply.err == OK {
      var j := OkWasWritten(s, r, op);
    } else if AppliedBy(s.log, s.hist[r].id) == 1 {
      var i :| 0 <= i < |s.log| && s.log[i].id == s.hist[r].id && s.log[i].applied;
      WriterReply(s, r, op, i);
    }
  }

  /** A run in which client 0's first call is a Put that returns ErrMaybe after `n` writes. */
  ghost predicate Ambiguous(run: seq<Action>, n: nat) {
    && Legal(INIT, run) && After(INIT, run).abandoned == {}
    && [Invoked(0, Put("k", "a", 0))] <= After(INIT, run).hist
    && Returned(0, PutReply(ErrMaybe)) in After(INIT, run).hist
    && AppliedBy(After(INIT, run).log, 0) == n
  }

  /** Client 0's Put after its clerk resent it, executed against a key at version 1, and returned. */
  lemma RefusedResend(s: State, n: nat)
    requires 0 in s.calls && s.calls[0] == Call(0, Put("k", "a", 0), true, Sent)
    requires "k" in s.store && s.store["k"].version == 1 && AppliedBy(s.log, 0) == n
    ensures var run := [Execute(0)] + ([Deliver(0)] + []);
            && Legal(s, run)
            && After(s, run).hist == s.hist + [Returned(0, PutReply(ErrMaybe))]
            && AppliedBy(After(s, run).log, 0) == n && After(s, run).abandoned == s.abandoned
  {
    var t := Next(s, Execute(0));
    AppliedByAppend(s.log, t.log[|s.log|], 0);
    RunCons(t, Deliver(0), []);
    RunCons(s, Execute(0), [Deliver(0)] + []);
  }

  lemma MaybeNotWritten() returns (run: seq<Action>)
    ensures Ambiguous(run, 0)
  {
    var mine, other := Put("k", "a", 0), Put("k", "b", 0);
    var s1 := Next(INIT, Invoke(0, mine));
    var s2 := Next(s1, Invoke(1, other));
    var s3 := Next(s2, Execute(1));
    var s4 := Next(s3, DropRequest(0));
    AppliedByAppend([], s4.log[0], 0);
    assert s4.log == [] + [s4.log[0]];
    var tail := [Execute(0)] + ([Deliver(0)] + []);
    RefusedResend(s4, 0);
    RunCons(s3, DropRequest(0), tail);
    RunCons(s2, Execute(1), [DropRequest(0)] + tail);
    RunCons(s1, Invoke(1, other), [Execute(1)] + ([DropRequest(0)] + tail));
    RunCons(INIT, Invoke(0, mine), [Invoke(1, other)] + ([Execute(1)] + ([DropRequest(0)] + tail)));
    run := [Invoke(0, mine)] + ([Invoke(1, other)] + ([Execute(1)] + ([DropRequest(0)] + tail)));
    assert After(INIT, run).hist == s4.hist + [Returned(0, PutReply(ErrMaybe))];
  }

  lemma MaybeWritten() returns (run: seq<Action>)
    ensures Ambiguous(run, 1)
  {
    var mine := Put("k", "a", 0);
    var s1 := Next(INIT, Invoke(0, mine));
    var s2 := Next(s1, Execute(0));
    var s3 := Next(s2, DropReply(0));
    AppliedByAppend([], s3.log[0], 0);
    assert s3.log == [] + [s3.log[0]];
    var tail := [Execute(0)] + ([Deliver(0)] + []);
    RefusedResend(s3, 1);
    RunCons(s2, DropReply(0), tail);
    RunCons(s1, Execute(0), [DropReply(0)] + tail);
    RunCons(INIT, Invoke(0, mine), [Execute(0)] + ([DropReply(0)] + tail));
    run := [Invoke(0, mine)] + ([Execute(0)] + ([DropReply(0)] + tail));
    assert After(INIT, run).hist == s3.hist + [Returned(0, PutReply(ErrMaybe))];
  }

  /** The reply ErrMaybe really leaves open whether the Put was written. */
  lemma MaybeIsAmbiguous()
    ensures exists run, run' :: Ambiguous(run, 0) && Ambiguous(run', 1)
  {
    var run := MaybeNotWritten();
    var run' := MaybeWritten();
  }

  // ---------------------------------------------------------------------------------------
  // Sole writer
  // ---------------------------------------------------------------------------------------

  /** If nothing was written to a key in a stretch of the log, its version stood still. */
  lemma {:induction false} VersionStands(log: seq<Exec>, n: nat, key: string)
    requires Faithful(log) && n <= |log|
    requires forall i :: n <= i < |log| && log[i].op.key == key ==> !log[i].applied
    ensures VersionOf(Replay(log), key) == VersionOf(Replay(log[..n]), key)
  {
    if n == |log| {
      assert log[..n] == log;
    } else {
      VersionStands(log[..|log|-1], n, key);
      assert log[..|log|-1][..n] == log[..n];
      ServeIsCompareAndSwap(Replay(log[..|log|-1]), log[|log|-1].op);
    }
  }

  /** Some execution of the call wrote: the first one that finds the version still in place. */
  lemma SoleWriterWrites(s0: State, s: State, op: Op, j: nat) returns (i: nat)
    requires Base(s0) && Base(s) && op.Put? && op.version == VersionOf(s0.store, op.key)
    requires s0.log <= s.log
    requires forall i :: |s0.log| <= i < |s.log| && s.log[i].applied && s.log[i].op.key == op.key ==>
               s.log[i].id == |s0.hist|
    requires |s0.log| <= j < |s.log| && s.log[j].id == |s0.hist| && s.log[j].op == op
    ensures i <= j && s.log[i].id == |s0.hist| && s.log[i].applied
  {
    FaithfulAt(s.log, j);
    if forall i :: |s0.log| <= i < j && s.log[i].op.key == op.key ==> !s.log[i].applied {
      VersionStands(s.log[..j], |s0.log|, op.key);
      assert s.log[..j][..|s0.log|] == s0.log;
      i := j;
    } else {
      i :| |s0.log| <= i < j && s.log[i].op.key == op.key && s.log[i].applied;
    }
  }

  /** The state-level form: `s` extends `s0`, in which the call was about to be invoked. */
  lemma SoleWriterInState(s0: State, s: State, op: Op, r: nat)
    requires Base(s0) && Inv(s) && op.Put? && op.version == VersionOf(s0.store, op.key)
    requires s0.log <= s.log && IsCall(s.hist, |s0.hist|, op)
    requires forall i :: |s0.log| <= i < |s.log| && s.log[i].applied && s.log[i].op.key == op.key ==>
               s.log[i].id == |s0.hist|
    requires IsReturn(s.hist, r) && s.hist[r].id == |s0.hist|
    ensures AppliedBy(s.log, |s0.hist|) == 1
    ensures s.hist[r].reply.err == OK || s.hist[r].reply.err == ErrMaybe
  {
    var id := |s0.hist|;
    var j := LastOf(s.log, id);
    assert Settled(s.log, s.abandoned, op, id, s.hist[r].reply);
    OldCallsElsewhere(s0, s.log, id, j);
    assert IsCall(s.hist, s.log[j].id, s.log[j].op);
    var i := SoleWriterWrites(s0, s, op, j);
    assert IsCall(s.hist, s.log[i].id, s.log[i].op);
    AppliedReply(s, i, s.hist[r].reply);
    AppliedUnique(s, id);
  }

  /** Put at the current version of a key nobody else writes meanwhile: when the call returns, it
      has been written exactly once and the reply is OK or ErrMaybe. */
  lemma SoleWriter(before: seq<Action>, c: Client, op: Op, after: seq<Action>, r: nat)
    requires Legal(INIT, before) && op.Put?
    requires Enabled(After(INIT, before), Invoke(c, op)) && Legal(Next(After(INIT, before), Invoke(c, op)), after)
    requires op.version == VersionOf(After(INIT, before).store, op.key)
    requires var s0 := After(INIT, before);
             var s := After(Next(s0, Invoke(c, op)), after);
             && (forall i :: |s0.log| <= i < |s.log| && s.log[i].applied && s.log[i].op.key == op.key ==>
                   s.log[i].id == |s0.hist|)
             && IsReturn(s.hist, r) && s.hist[r].id == |s0.hist|
    ensures var s0 := After(INIT, before);
            var s := After(Next(s0, Invoke(c, op)), after);
            && AppliedBy(s.log, |s0.hist|) == 1
            && (s.hist[r].reply.err == OK || s.hist[r].reply.err == ErrMaybe)
  {
    InvRun(INIT, before);
    var s0 := After(INIT, before);
    var s := After(Next(s0, Invoke(c, op)), after);
    InvokedThen(s0, c, op, after);
    SoleWriterInState(s0, s, op, r);
  }

  lemma InvokedThen(s0: State, c: Client, op: Op, after: seq<Action>)
    requires Inv(s0) && Enabled(s0, Invoke(c, op)) && Legal(Next(s0, Invoke(c, op)), after)
    ensures var s := After(Next(s0, Invoke(c, op)), after);
            Inv(s) && s0.log <= s.log && IsCall(s.hist, |s0.hist|, op)
  {
    InvStep(s0, Invoke(c, op));
    InvRun(Next(s0, Invoke(c, op)), after);
    RunExtends(Next(s0, Invoke(c, op)), after);
  }

  lemma OldCallsElsewhere(s0: State, log: seq<Exec>, id: CallId, j: nat)
    requires Base(s0) && s0.log <= log && id == |s0.hist|
    requires j < |log| && log[j].id == id
    ensures |s0.log| <= j
  {
    assert forall i :: 0 <= i < |s0.log| ==> IsCall(s0.hist, s0.log[i].id, s0.log[i].op) && log[i] == s0.log[i];
  }

  // ---------------------------------------------------------------------------------------
  // Counting replies
  // ---------------------------------------------------------------------------------------

  /** The Put calls on a key that returned `err`. */
  ghost function PutsReturning(hist: seq<Event>, key: string, err: Err): set<CallId> {
    set r | 0 <= r < |hist| && IsReturn(hist, r) && IsPutReturn(hist, r, key, err) :: hist[r].id
  }

  predicate IsPutReturn(hist: seq<Event>, r: int, key: string, err: Err)
    requires IsReturn(hist, r)
  {
    var id := hist[r].id;
    id < |hist| && hist[id].Invoked? && hist[id].op.Put? && hist[id].op.key == key && hist[r].reply.err == err
  }

  /** The Put calls on a key still in progress. */
  ghost function PutsOpen(s: State, key: string): set<CallId> {
    set c | c in s.calls && s.calls[c].op.Put? && s.calls[c].op.key == key :: s.calls[c].id
  }

  /** The calls that wrote a key. */
  function Writers(log: seq<Exec>, key: string): set<CallId> {
    set i | 0 <= i < |log| && log[i].applied && log[i].op.key == key :: log[i].id
  }

  lemma WritersAppend(log: seq<Exec>, e: Exec, key: string)
    ensures Writers(log + [e], key) == Writers(log, key) + if e.applied && e.op.key == key then {e.id} else {}
  {
    var log' := log + [e];
    forall i | 0 <= i < |log| && log[i].applied && log[i].op.key == key
      ensures log[i].id in Writers(log', key)
    {
      assert log'[i] == log[i];
    }
    assert log'[|log|] == e;
  }

  lemma {:induction false} WritersCounted(log: seq<Exec>, key: string)
    requires forall i, j :: 0 <= i < j < |log| && log[i].id == log[j].id ==> !(log[i].applied && log[j].applied)
    ensures |Writers(log, key)| == AppliedTo(log, key)
  {
    if log == [] {
      assert Writers(log, key) == {};
    } else {
      var before, e := log[..|log|-1], log[|log|-1];
      WritersCounted(before, key);
      assert log == before + [e];
      WritersAppend(before, e, key);
      assert e.applied ==> forall i :: 0 <= i < |before| && before[i].applied ==> before[i].id != e.id;
    }
  }

  lemma VersionIsWriters(s: State, key: string)
    requires Base(s)
    ensures VersionOf(s.store, key) == |Writers(s.log, key)|
  {
    forall i, j | 0 <= i < j < |s.log| && s.log[i].id == s.log[j].id
      ensures !(s.log[i].applied && s.log[j].applied)
    {
      OnceApplied(s, i, j);
    }
    WritersCounted(s.log, key);
    VersionCountsApplied(s.log, key);
  }

  /** Every invoked call is still open or has returned. */
  ghost predicate Accounted(s: State) {
    forall id :: 0 <= id < |s.hist| && s.hist[id].Invoked? ==> OpenOrReturned(s, id)
  }

  ghost predicate OpenOrReturned(s: State, id: CallId)
    requires id < |s.hist| && s.hist[id].Invoked?
  {
    var c := s.hist[id].client;
    HasReturned(s.hist, id) || (c in s.calls && s.calls[c].id == id)
  }

  lemma StillReturned(hist: seq<Event>, e: Event, id: CallId)
    requires HasReturned(hist, id) || (e.Returned? && e.id == id)
    ensures HasReturned(hist + [e], id)
  {
    if HasReturned(hist, id) {
      var r :| IsReturn(hist, r) && hist[r].id == id;
      assert IsReturn(hist + [e], r);
    } else {
      assert IsReturn(hist + [e], |hist|);
    }
  }

  lemma AccountedStep(s: State, a: Action)
    requires Accounted(s) && Base(s) && Enabled(s, a)
    ensures Accounted(Next(s, a))
  {
    var t := Next(s, a);
    forall id | 0 <= id < |t.hist| && t.hist[id].Invoked?
      ensures OpenOrReturned(t, id)
    {
      if id < |s.hist| {
        assert t.hist[id] == s.hist[id] && OpenOrReturned(s, id);
        if a.Invoke? || a.Deliver? {
          var e := t.hist[|s.hist|];
          assert t.hist == s.hist + [e];
          if HasReturned(s.hist, id) || (e.Returned? && e.id == id) {
            StillReturned(s.hist, e, id);
          }
        }
      }
    }
  }

  predicate Loses(a: Action) {
    a.DropRequest? || a.DropReply? || a.Abandon?
  }

  /** The clients one of whose messages was lost. */
  function Losers(run: seq<Action>): set<Client> {
    set i | 0 <= i < |run| && Loses(run[i]) :: run[i].client
  }

  /** The call of which a step loses a request or a reply, if it does. */
  function LostBy(s: State, a: Action): set<CallId>
    requires Enabled(s, a)
  {
    if Loses(a) then {s.calls[a.client].id} else {}
  }

  /** The calls of which a request or a reply was lost. */
  function LostCalls(s: State, run: seq<Action>): set<CallId>
    requires Legal(s, run)
    decreases |run|
  {
    if run == [] then {} else LostBy(s, run[0]) + LostCalls(Next(s, run[0]), run[1..])
  }

  /** Only a call that lost a message is resent, and only resending makes a reply ambiguous. */
  ghost predicate BlamesLoss(s: State, lost: set<CallId>) {
    && (forall c :: c in s.calls && s.calls[c].retried ==> s.calls[c].id in lost)
    && (forall r {:trigger IsReturn(s.hist, r)} :: IsReturn(s.hist, r) && s.hist[r].reply.err == ErrMaybe ==>
          s.hist[r].id in lost)
    && s.abandoned <= lost
  }

  lemma AppendBlames(s: State, t: State, e: Event, lost: set<CallId>)
    requires BlamesLoss(s, lost) && t.hist == s.hist + [e] && t.abandoned == s.abandoned
    requires forall c :: c in t.calls && t.calls[c].retried ==> t.calls[c].id in lost
    requires e.Returned? && e.reply.err == ErrMaybe ==> e.id in lost
    ensures BlamesLoss(t, lost)
  {
    forall r | IsReturn(t.hist, r) && t.hist[r].reply.err == ErrMaybe
      ensures t.hist[r].id in lost
    {
      assert r < |s.hist| ==> IsReturn(s.hist, r);
    }
  }

  lemma BlamesLossStep(s: State, a: Action, lost: set<CallId>)
    requires Inv(s) && BlamesLoss(s, lost) && Enabled(s, a)
    ensures BlamesLoss(Next(s, a), lost + LostBy(s, a))
  {
    var t := Next(s, a);
    match a
    case Invoke(c, op) => AppendBlames(s, t, Invoked(c, op), lost);
    case Deliver(c) =>
      var call := s.calls[c];
      assert Tracked(s.log, s.abandoned, call);
      ServerReplies(s.log, LastOf(s.log, call.id));
      AppendBlames(s, t, t.hist[|s.hist|], lost);
    case _ =>
  }

  lemma {:induction false} AccountedRun(s: State, run: seq<Action>)
    requires Base(s) && Accounted(s) && Legal(s, run)
    ensures Accounted(After(s, run))
    decreases |run|
  {
    if run != [] {
      BaseStep(s, run[0]);
      AccountedStep(s, run[0]);
      AccountedRun(Next(s, run[0]), run[1..]);
    }
  }

  lemma UnionAssociates(a: set<CallId>, b: set<CallId>, c: set<CallId>)
    ensures (a + b) + c == a + (b + c)
  {
  }

  lemma {:induction false} BlamesRun(s: State, run: seq<Action>, lost: set<CallId>)
    requires Inv(s) && BlamesLoss(s, lost) && Legal(s, run)
    ensures BlamesLoss(After(s, run), lost + LostCalls(s, run))
    decreases |run|
  {
    if run == [] {
      assert lost + {} == lost;
    } else {
      InvStep(s, run[0]);
      BlamesLossStep(s, run[0], lost);
      BlamesRun(Next(s, run[0]), run[1..], lost + LostBy(s, run[0]));
      UnionAssociates(lost, LostBy(s, run[0]), LostCalls(Next(s, run[0]), run[1..]));
    }
  }

  lemma BlamesFromStart(run: seq<Action>)
    requires Legal(INIT, run)
    ensures BlamesLoss(After(INIT, run), LostCalls(INIT, run))
  {
    BlamesRun(INIT, run, {});
    assert {} + LostCalls(INIT, run) == LostCalls(INIT, run);
  }

  lemma LostByClient(s: State, a: Action)
    requires HistoryOk(s) && Enabled(s, a)
    ensures forall id :: id in LostBy(s, a) ==>
              id < |s.hist| && s.hist[id].Invoked? && s.hist[id].client == a.client && Loses(a)
  {
    if Loses(a) {
      assert Open(s.hist, a.client, s.calls[a.client]);
    }
  }

  /** The client of a call that lost a message is one that lost a message. */
  lemma {:induction false} LostCallsLosers(s: State, run: seq<Action>, id: CallId)
    requires HistoryOk(s) && Legal(s, run) && id in LostCalls(s, run)
    ensures var hist := After(s, run).hist;
            id < |hist| && hist[id].Invoked? && hist[id].client in Losers(run)
    decreases |run|
  {
    LosersSplit(run);
    if id in LostBy(s, run[0]) {
      LostByClient(s, run[0]);
      RunExtends(s, run);
    } else {
      HistoryStep(s, run[0]);
      LostCallsLosers(Next(s, run[0]), run[1..], id);
    }
  }

  lemma OksWrote(s: State, key: string)
    requires Inv(s)
    ensures PutsReturning(s.hist, key, OK) <= Writers(s.log, key)
  {
    forall id | id in PutsReturning(s.hist, key, OK)
      ensures id in Writers(s.log, key)
    {
      var r :| 0 <= r < |s.hist| && IsReturn(s.hist, r) && IsPutReturn(s.hist, r, key, OK) && s.hist[r].id == id;
      var j := OkWasWritten(s, r, s.hist[id].op);
      assert IsCall(s.hist, s.log[j].id, s.log[j].op);
    }
  }

  lemma WriterOkMaybeOrOpen(s: State, key: string, id: CallId)
    requires Inv(s) && Accounted(s) && id in Writers(s.log, key)
    ensures id in PutsReturning(s.hist, key, OK) + PutsReturning(s.hist, key, ErrMaybe) + PutsOpen(s, key)
                  + (PutsReturning(s.hist, key, ErrNoKey) * s.abandoned)
  {
    var i :| 0 <= i < |s.log| && s.log[i].applied && s.log[i].op.key == key && s.log[i].id == id;
    FaithfulAt(s.log, i);
    var op := s.log[i].op;
    assert IsCall(s.hist, id, op) && OpenOrReturned(s, id);
    if HasReturned(s.hist, id) {
      var r :| IsReturn(s.hist, r) && s.hist[r].id == id;
      WriterReply(s, r, op, i);
      assert IsPutReturn(s.hist, r, key, s.hist[r].reply.err);
    } else {
      var c := s.hist[id].client;
      assert Open(s.hist, c, s.calls[c]);
    }
  }

  lemma UnionSize(a: set<CallId>, b: set<CallId>, c: set<CallId>, d: set<CallId>, all: set<CallId>)
    requires all <= a + b + c + d
    ensures |all| <= |a| + |b| + |c| + |d|
  {
    SubsetSize(all, a + b + c + d);
  }

  /** In every run a key's version lies between the Puts known to be written and those that may have
      been: the ambiguous ones, those in progress, and those refused for want of a key of which a
      transmission was abandoned. Of the ambiguous and of the abandoned Puts a message was lost; if
      nothing was lost and none is in progress, the version is the number of Puts that returned OK. */
  lemma VersionBetweenReplies(run: seq<Action>, key: string)
    requires Legal(INIT, run)
    ensures var s := After(INIT, run);
            var oks, maybes := PutsReturning(s.hist, key, OK), PutsReturning(s.hist, key, ErrMaybe);
            var orphans := PutsReturning(s.hist, key, ErrNoKey) * s.abandoned;
            && |oks| <= VersionOf(s.store, key) <= |oks| + |maybes| + |PutsOpen(s, key)| + |orphans|
            && maybes <= LostCalls(INIT, run) && orphans <= LostCalls(INIT, run)
            && (Losers(run) == {} ==> maybes == {} && orphans == {})
  {
    InvRun(INIT, run);
    AccountedRun(INIT, run);
    var s := After(INIT, run);
    var oks, maybes, open := PutsReturning(s.hist, key, OK), PutsReturning(s.hist, key, ErrMaybe), PutsOpen(s, key);
    var orphans := PutsReturning(s.hist, key, ErrNoKey) * s.abandoned;
    VersionIsWriters(s, key);
    OksWrote(s, key);
    SubsetSize(oks, Writers(s.log, key));
    forall id | id in Writers(s.log, key)
      ensures id in oks + maybes + open + orphans
    {
      WriterOkMaybeOrOpen(s, key, id);
    }
    UnionSize(oks, maybes, open, orphans, Writers(s.log, key));
    BlamesFromStart(run);
    AmbiguousLost(s, LostCalls(INIT, run), key);
    NoLossNoneLost(INIT, run);
  }

  lemma AmbiguousLost(s: State, lost: set<CallId>, key: string)
    requires BlamesLoss(s, lost)
    ensures PutsReturning(s.hist, key, ErrMaybe) <= lost && s.abandoned <= lost
  {
  }

  lemma {:induction false} NoLossNoneLost(s: State, run: seq<Action>)
    requires Legal(s, run)
    ensures Losers(run) == {} ==> LostCalls(s, run) == {}
    decreases |run|
  {
    if run != [] {
      NoLossNoneLost(Next(s, run[0]), run[1..]);
      LosersSplit(run);
    }
  }

  lemma LosersSplit(run: seq<Action>)
    requires run != []
    ensures Loses(run[0]) ==> run[0].client in Losers(run)
    ensures Losers(run[1..]) <= Losers(run)
  {
    forall c | c in Losers(run[1..])
      ensures c in Losers(run)
    {
      var i :| 0 <= i < |run[1..]| && Loses(run[1..][i]) && run[1..][i].client == c;
      assert run[i + 1] == run[1..][i];
    }
  }

  /** A Put answers ErrMaybe only if a request or a reply of that very call was lost. */
  lemma MaybeMeansLoss(run: seq<Action>, r: nat)
    requires Legal(INIT, run)
    requires IsReturn(After(INIT, run).hist, r) && After(INIT, run).hist[r].reply.err == ErrMaybe
    ensures After(INIT, run).hist[r].id in LostCalls(INIT, run)
    ensures var hist := After(INIT, run).hist;
            hist[r].id < |hist| && hist[hist[r].id].Invoked? && hist[hist[r].id].client in Losers(run)
  {
    BlamesFromStart(run);
    LostCallsLosers(INIT, run, After(INIT, run).hist[r].id);
  }

  lemma {:induction false} SubsetSize(a: set<CallId>, b: set<CallId>)
    requires a <= b
    ensures |a| <= |b|
  {
    if a != {} {
      var x :| x in a;
      SubsetSize(a - {x}, b - {x});
    }
  }
}
