/** The value of a lock always names a client that holds it, is about to, or is giving it up. */
module LockOwnership {
  import opened KvServer
  import opened KvNetwork
  import opened LockProtocol
  import opened LockProof
  import opened LockTheorems

  /** The values of locks are holder ids of their contenders, or empty. */
  ghost predicate Named(cfg: Config, store: Store) {
    forall c :: c in cfg.parties && ValueOf(store, cfg.parties[c].name) != "" ==>
      exists d :: OwnerOf(cfg, store, cfg.parties[c].name, d)
  }

  predicate OwnerOf(cfg: Config, store: Store, name: string, d: Client) {
    d in cfg.parties && cfg.parties[d].name == name && cfg.parties[d].id == ValueOf(store, name)
  }

  ghost predicate Controlled(cfg: Config, key: string) {
    key in cfg.guards || exists c :: c in cfg.parties && cfg.parties[c].name == key
  }

  /** The stores agree on every lock and every guarded key. */
  ghost predicate Elsewhere(cfg: Config, store: Store, store': Store) {
    forall k :: Controlled(cfg, k) ==>
      (k in store <==> k in store') && (k in store ==> store[k] == store'[k])
  }

  /** `store'` is what client c's live Put makes of the store. */
  ghost predicate WrittenBy(cfg: Config, s: LockState, c: Client, store': Store) {
    Live(cfg, s, c) && store' == s.net.store[s.net.calls[c].op.key := Written(s.net.calls[c].op)]
  }

  lemma ServedElsewhere(cfg: Config, store: Store, op: Op)
    requires FreeOp(cfg, op) || !Applies(store, op)
    ensures Elsewhere(cfg, store, Serve(store, op).0)
  {
    ServeIsCompareAndSwap(store, op);
  }

  lemma LateCause(cfg: Config, s: LockState, r: Request)
    requires LatesOk(cfg, s.net) && r in s.net.late && s.pc.Keys == cfg.parties.Keys
    ensures var store' := Serve(s.net.store, r.op).0;
            Elsewhere(cfg, s.net.store, store') || WrittenBy(cfg, s, r.client, store')
  {
    assert LateOk(cfg, s.net, r);
    if FreeOp(cfg, r.op) || !Applies(s.net.store, r.op) {
      ServedElsewhere(cfg, s.net.store, r.op);
    } else {
      ServeIsCompareAndSwap(s.net.store, r.op);
    }
  }

  lemma CallCause(cfg: Config, s: LockState, c: Client)
    requires StrangersOk(cfg, s.net) && c in s.net.calls && s.pc.Keys == cfg.parties.Keys
    ensures var store' := Serve(s.net.store, s.net.calls[c].op).0;
            Elsewhere(cfg, s.net.store, store') || WrittenBy(cfg, s, c, store')
  {
    var op := s.net.calls[c].op;
    if c !in cfg.parties || !Applies(s.net.store, op) {
      ServedElsewhere(cfg, s.net.store, op);
    } else {
      ServeIsCompareAndSwap(s.net.store, op);
    }
  }

  lemma MoveStore(cfg: Config, s: LockState, m: Move)
    requires CanMove(cfg, s, m)
    ensures var store' := Moved(cfg, s, m).net.store;
            if m.Network? && m.action.Execute? then store' == Serve(s.net.store, s.net.calls[m.action.client].op).0
            else if m.Network? && m.action.ExecuteLate? then store' == Serve(s.net.store, m.action.request.op).0
            else store' == s.net.store
  {
    match m
    case Network(a) => assert Moved(cfg, s, m).net == Next(s.net, a);
    case Return(c) => assert Moved(cfg, s, m).net == Next(s.net, Deliver(c));
    case _ =>
  }

  /** Locks and guarded data change only by a live Put of a lock user. */
  lemma ChangeCause(cfg: Config, s: LockState, m: Move) returns (c: Client)
    requires LatesOk(cfg, s.net) && StrangersOk(cfg, s.net) && s.pc.Keys == cfg.parties.Keys && CanMove(cfg, s, m)
    ensures var store' := Moved(cfg, s, m).net.store;
            Elsewhere(cfg, s.net.store, store') || WrittenBy(cfg, s, c, store')
  {
    MoveStore(cfg, s, m);
    c := 0;
    if m.Network? && m.action.Execute? {
      c := m.action.client;
      CallCause(cfg, s, c);
    } else if m.Network? && m.action.ExecuteLate? {
      c := m.action.request.client;
      LateCause(cfg, s, m.action.request);
    }
  }

  /** A live Put on a lock is an Acquire taking a free lock or its owner's Release. */
  lemma LockWriter(cfg: Config, s: LockState, c: Client, name: string)
    requires Inv(cfg, s) && Live(cfg, s, c) && s.net.calls[c].op.key == name && name !in cfg.guards
    ensures cfg.parties[c].name == name
    ensures (s.pc[c].AcqPutting? && ValueOf(s.net.store, name) == "" && s.net.calls[c].op.value == cfg.parties[c].id)
         || (s.pc[c].RelPutting? && ValueOf(s.net.store, name) == cfg.parties[c].id && s.net.calls[c].op.value == "")
  {
    assert PartyOk(cfg, s, c);
  }

  lemma NamedStep(cfg: Config, s: LockState, m: Move)
    requires Inv(cfg, s) && CanMove(cfg, s, m) && Named(cfg, s.net.store)
    ensures Named(cfg, Moved(cfg, s, m).net.store)
  {
    var store, store' := s.net.store, Moved(cfg, s, m).net.store;
    var w := ChangeCause(cfg, s, m);
    forall c | c in cfg.parties && ValueOf(store', cfg.parties[c].name) != ""
      ensures exists d :: OwnerOf(cfg, store', cfg.parties[c].name, d)
    {
      var name := cfg.parties[c].name;
      assert Controlled(cfg, name);
      if !Elsewhere(cfg, store, store') && s.net.calls[w].op.key == name {
        LockWriter(cfg, s, w, name);
        assert OwnerOf(cfg, store', name, w);
      } else {
        var d :| OwnerOf(cfg, store, name, d);
        assert OwnerOf(cfg, store', name, d);
      }
    }
  }

  lemma {:induction false} NamedRun(cfg: Config, s: LockState, run: seq<Move>)
    requires Inv(cfg, s) && Named(cfg, s.net.store) && Plays(cfg, s, run)
    ensures Named(cfg, Played(cfg, s, run).net.store)
    decreases |run|
  {
    if run != [] {
      InvStep(cfg, s, run[0]);
      NamedStep(cfg, s, run[0]);
      NamedRun(cfg, Moved(cfg, s, run[0]), run[1..]);
    }
  }

  predicate Acquiring(pc: Pc) {
    pc.AcqStart? || pc.AcqGetting? || pc.AcqPutting?
  }

  /** Only its own Release takes a lock from its owner. */
  lemma OwnershipStable(cfg: Config, s: LockState, m: Move, c: Client)
    requires Inv(cfg, s) && CanMove(cfg, s, m) && c in cfg.parties && Owns(cfg.parties[c], s.net.store)
    requires !s.pc[c].RelPutting?
    ensures Owns(cfg.parties[c], Moved(cfg, s, m).net.store)
  {
    var w := ChangeCause(cfg, s, m);
    var name := cfg.parties[c].name;
    assert Controlled(cfg, name);
    if WrittenBy(cfg, s, w, Moved(cfg, s, m).net.store) && s.net.calls[w].op.key == name {
      LockWriter(cfg, s, w, name);
      OneOwner(cfg, w, c, s.net.store);
    }
  }

  /** An owner still acquiring: its next Get returns from Acquire; a Put that returns does so too,
      or leaves it the owner before such a Get. */
  lemma OwnerReturns(cfg: Config, s: LockState, c: Client)
    requires WellFormed(cfg) && PartiesOk(cfg, s) && CanMove(cfg, s, Return(c)) && Owns(cfg.parties[c], s.net.store)
    ensures s.pc[c].AcqGetting? ==> Moved(cfg, s, Return(c)).pc[c] == Held(map[])
    ensures s.pc[c].AcqPutting? ==>
              var t := Moved(cfg, s, Return(c));
              t.pc[c] == Held(map[]) || (t.pc[c].AcqStart? && Owns(cfg.parties[c], t.net.store))
  {
    CallOfParty(cfg, s, c);
    if s.pc[c].AcqGetting? || s.pc[c].AcqPutting? {
      OwnerReply(cfg.guards, cfg.parties[c], s.net.store, s.net.log, s.pc[c], s.net.calls[c]);
    }
  }

  lemma OwnerReply(guards: map<string, string>, p: Party, store: Store, log: seq<Exec>, pc: Pc, call: Call)
    requires Waiting(pc) && CallOk(guards, p, store, log, pc, call) && call.wire.Answered?
    requires p.id != "" && Owns(p, store) && (pc.AcqGetting? || pc.AcqPutting?)
    ensures var pc' := AfterReply(p, pc, ClerkReply(call.op, call.retried, call.wire.reply));
            pc' == Held(map[]) || (pc.AcqPutting? && pc'.AcqStart?)
  {
  }

  // ---------------------------------------------------------------------------------------
  // Where the value comes from
  // ---------------------------------------------------------------------------------------

  /** Puts on a lock come from its contenders, with their own id or empty. */
  predicate LockPutOk(cfg: Config, e: Event) {
    e.Invoked? && e.op.Put? && (exists c :: c in cfg.parties && cfg.parties[c].name == e.op.key) ==>
      && e.client in cfg.parties && cfg.parties[e.client].name == e.op.key
      && (e.op.value == cfg.parties[e.client].id || e.op.value == "")
  }

  ghost predicate LockPutsOk(cfg: Config, hist: seq<Event>) {
    forall id :: 0 <= id < |hist| ==> LockPutOk(cfg, hist[id])
  }

  lemma AskedPutOk(cfg: Config, c: Client, pc: Pc)
    requires WellFormed(cfg) && c in cfg.parties && Asking(pc)
    requires pc.Creating? || pc.Writing? ==> pc.key in cfg.guards
    ensures LockPutOk(cfg, Invoked(c, OpFor(cfg.parties[c], pc)))
  {
  }

  lemma ViewGuarded(cfg: Config, s: LockState, c: Client, key: string)
    requires PartiesOk(cfg, s) && c in cfg.parties && c in s.pc && s.pc[c].Held? && key in s.pc[c].view
    ensures key in cfg.guards
  {
    assert PartyOk(cfg, s, c);
  }

  lemma AppendPut(cfg: Config, hist: seq<Event>, hist': seq<Event>)
    requires LockPutsOk(cfg, hist) && hist <= hist' && |hist'| <= |hist| + 1
    requires |hist'| > |hist| ==> LockPutOk(cfg, hist'[|hist|])
    ensures LockPutsOk(cfg, hist')
  {
  }

  lemma IssuePuts(cfg: Config, s: LockState, c: Client, pc: Pc)
    requires WellFormed(cfg) && Free(cfg, s, c) && Asking(pc) && LockPutsOk(cfg, s.net.hist)
    requires pc.Creating? || pc.Writing? ==> pc.key in cfg.guards
    ensures LockPutsOk(cfg, Issue(cfg, s, c, pc).net.hist)
  {
    AskedPutOk(cfg, c, pc);
    AppendPut(cfg, s.net.hist, Issue(cfg, s, c, pc).net.hist);
  }

  lemma LockPutsStep(cfg: Config, s: LockState, m: Move)
    requires WellFormed(cfg) && PartiesOk(cfg, s) && CanMove(cfg, s, m) && LockPutsOk(cfg, s.net.hist)
    ensures LockPutsOk(cfg, Moved(cfg, s, m).net.hist)
  {
    match m
    case StartAcquire(_) =>
    case StartRelease(c) => IssuePuts(cfg, s, c, RelGetting);
    case CallNext(c) => IssuePuts(cfg, s, c, NextCall(s.pc[c]));
    case Read(c, key) => IssuePuts(cfg, s, c, Reading(s.pc[c].view, key));
    case Write(c, key, value) =>
      ViewGuarded(cfg, s, c, key);
      IssuePuts(cfg, s, c, Writing(s.pc[c].view, key, value));
    case Create(c, key, value) => IssuePuts(cfg, s, c, Creating(key, value));
    case Return(_) => AppendPut(cfg, s.net.hist, Moved(cfg, s, m).net.hist);
    case Network(_) => AppendPut(cfg, s.net.hist, Moved(cfg, s, m).net.hist);
  }

  lemma {:induction false} LockPutsRun(cfg: Config, s: LockState, run: seq<Move>)
    requires Inv(cfg, s) && LockPutsOk(cfg, s.net.hist) && Plays(cfg, s, run)
    ensures LockPutsOk(cfg, Played(cfg, s, run).net.hist)
    decreases |run|
  {
    if run != [] {
      InvStep(cfg, s, run[0]);
      LockPutsStep(cfg, s, run[0]);
      LockPutsRun(cfg, Moved(cfg, s, run[0]), run[1..]);
    }
  }

  /** A value in the store was written. */
  lemma {:induction false} ValueSource(log: seq<Exec>, key: string) returns (i: nat)
    requires Faithful(log) && ValueOf(Replay(log), key) != ""
    ensures i < |log| && log[i].applied && log[i].op.Put? && log[i].op.key == key
    ensures log[i].op.value == ValueOf(Replay(log), key)
  {
    var n := |log| - 1;
    ServeIsCompareAndSwap(Replay(log[..n]), log[n].op);
    if log[n].applied && log[n].op.key == key {
      i := n;
    } else {
      i := ValueSource(log[..n], key);
    }
  }

  /** Execution `i` wrote client c's id to its lock, for a Put of client c. */
  predicate Took(cfg: Config, s: LockState, c: Client, i: nat)
    requires c in cfg.parties
  {
    && i < |s.net.log| && s.net.log[i].applied
    && s.net.log[i].op.Put? && s.net.log[i].op.key == cfg.parties[c].name && s.net.log[i].op.value == cfg.parties[c].id
    && IsCall(s.net.hist, s.net.log[i].id, s.net.log[i].op) && s.net.hist[s.net.log[i].id].client == c
  }

  lemma OwnerTook(cfg: Config, s: LockState, c: Client) returns (i: nat)
    requires WellFormed(cfg) && Base(s.net) && LockPutsOk(cfg, s.net.hist)
    requires c in cfg.parties && Owns(cfg.parties[c], s.net.store)
    ensures Took(cfg, s, c, i)
  {
    i := ValueSource(s.net.log, cfg.parties[c].name);
    var e := s.net.log[i];
    assert IsCall(s.net.hist, e.id, e.op);
    assert LockPutOk(cfg, s.net.hist[e.id]);
  }

  // ---------------------------------------------------------------------------------------
  // An owner that is acquiring the lock gets it with its next Get
  // ---------------------------------------------------------------------------------------

  /** How many calls a client completes in a run. */
  function Returns(run: seq<Move>, c: Client): nat {
    if run == [] then 0 else Returns(run[1..], c) + if run[0] == Return(c) then 1 else 0
  }

  /** An owner in Acquire has its Put still to return, if that is in progress, and one more Get. */
  function CallsLeft(pc: Pc): nat {
    if pc.AcqPutting? then 2 else 1
  }

  predicate HoldsAt(s: LockState, c: Client) {
    c in s.pc && s.pc[c] == Held(map[])
  }

  /** However the run goes on, once client c has completed so many calls it has held the lock. */
  ghost predicate HoldsWithin(cfg: Config, s: LockState, c: Client, calls: nat) {
    forall more :: Plays(cfg, s, more) && Returns(more, c) >= calls ==>
      exists k :: 0 <= k <= |more| && Plays(cfg, s, more[..k]) && HoldsAt(Played(cfg, s, more[..k]), c)
  }

  /** One move while the owner is acquiring: it holds the lock, or is still its owner in Acquire with
      as many calls left, less the one that returned. */
  lemma OwnerStep(cfg: Config, s: LockState, m: Move, c: Client)
    requires Inv(cfg, s) && CanMove(cfg, s, m) && c in cfg.parties && Owns(cfg.parties[c], s.net.store)
    requires c in s.pc && Acquiring(s.pc[c])
    ensures var t := Moved(cfg, s, m);
            && c in t.pc && Owns(cfg.parties[c], t.net.store)
            && (HoldsAt(t, c)
                || (Acquiring(t.pc[c]) && CallsLeft(t.pc[c]) + (if m == Return(c) then 1 else 0) <= CallsLeft(s.pc[c])))
  {
    OwnershipStable(cfg, s, m, c);
    if m == Return(c) {
      OwnerReturns(cfg, s, c);
    } else {
      OwnerStays(cfg, s, m, c);
    }
  }

  lemma OwnerStays(cfg: Config, s: LockState, m: Move, c: Client)
    requires CanMove(cfg, s, m) && m != Return(c) && c in s.pc && Acquiring(s.pc[c])
    ensures c in Moved(cfg, s, m).pc && Acquiring(Moved(cfg, s, m).pc[c])
    ensures CallsLeft(Moved(cfg, s, m).pc[c]) <= CallsLeft(s.pc[c])
  {
  }

  lemma PlayPrefix(cfg: Config, s: LockState, more: seq<Move>, k: nat)
    requires more != [] && k < |more| && CanMove(cfg, s, more[0])
    requires Plays(cfg, Moved(cfg, s, more[0]), more[1..][..k])
    ensures Plays(cfg, s, more[..k+1])
    ensures Played(cfg, s, more[..k+1]) == Played(cfg, Moved(cfg, s, more[0]), more[1..][..k])
  {
    assert more[..k+1][1..] == more[1..][..k];
  }

  lemma {:induction false} OwnerHolds(cfg: Config, s: LockState, more: seq<Move>, c: Client) returns (k: nat)
    requires Inv(cfg, s) && c in cfg.parties && Owns(cfg.parties[c], s.net.store) && c in s.pc && Acquiring(s.pc[c])
    requires Plays(cfg, s, more) && Returns(more, c) >= CallsLeft(s.pc[c])
    ensures k <= |more| && Plays(cfg, s, more[..k]) && HoldsAt(Played(cfg, s, more[..k]), c)
    decreases |more|
  {
    var m := more[0];
    var t := Moved(cfg, s, m);
    InvStep(cfg, s, m);
    OwnerStep(cfg, s, m, c);
    var j := 0;
    if !HoldsAt(t, c) {
      j := OwnerHolds(cfg, t, more[1..], c);
    }
    PlayPrefix(cfg, s, more, j);
    k := j + 1;
  }

  lemma OwnerHoldsWithin(cfg: Config, s: LockState, c: Client)
    requires Inv(cfg, s) && c in cfg.parties && Owns(cfg.parties[c], s.net.store) && c in s.pc && Acquiring(s.pc[c])
    ensures HoldsWithin(cfg, s, c, CallsLeft(s.pc[c]))
  {
    forall more | Plays(cfg, s, more) && Returns(more, c) >= CallsLeft(s.pc[c])
      ensures exists k :: 0 <= k <= |more| && Plays(cfg, s, more[..k]) && HoldsAt(Played(cfg, s, more[..k]), c)
    {
      var k := OwnerHolds(cfg, s, more, c);
    }
  }

  /** A lock whose value is not empty has an owner, whose Put wrote that value. The owner is in the
      section; or it is in Acquire and holds the lock as soon as it has completed one more Get,
      after the Put if that has not returned yet; or it is releasing the lock with its clearing Put
      not yet written. */
  lemma NeverOrphaned(cfg: Config, run: seq<Move>, c: Client) returns (owner: Client, i: nat)
    requires WellFormed(cfg) && Plays(cfg, Start(cfg), run) && c in cfg.parties
    requires ValueOf(Played(cfg, Start(cfg), run).net.store, cfg.parties[c].name) != ""
    ensures var s := Played(cfg, Start(cfg), run);
            && OwnerOf(cfg, s.net.store, cfg.parties[c].name, owner) && owner in s.pc && Took(cfg, s, owner, i)
            && (|| InSection(s.pc[owner])
                || (Acquiring(s.pc[owner]) && HoldsWithin(cfg, s, owner, CallsLeft(s.pc[owner])))
                || (s.pc[owner].RelPutting? && owner in s.net.calls
                    && AppliedBy(s.net.log, s.net.calls[owner].id) == 0))
  {
    Reached(cfg, run);
    InvStart(cfg);
    NamedRun(cfg, Start(cfg), run);
    LockPutsRun(cfg, Start(cfg), run);
    var s := Played(cfg, Start(cfg), run);
    owner :| OwnerOf(cfg, s.net.store, cfg.parties[c].name, owner);
    i := OwnerTook(cfg, s, owner);
    OwnerPlace(cfg, s, owner);
    if Acquiring(s.pc[owner]) {
      OwnerHoldsWithin(cfg, s, owner);
    }
  }

  /** Where an owner can be. */
  lemma OwnerPlace(cfg: Config, s: LockState, c: Client)
    requires PartiesOk(cfg, s) && c in cfg.parties && Owns(cfg.parties[c], s.net.store)
    ensures c in s.pc
    ensures || InSection(s.pc[c]) || Acquiring(s.pc[c])
            || (s.pc[c].RelPutting? && c in s.net.calls && AppliedBy(s.net.log, s.net.calls[c].id) == 0)
  {
    assert PartyOk(cfg, s, c);
  }
}
