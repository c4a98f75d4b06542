/** What every run of the lock keeps. */
module LockProof {
  import opened KvServer
  import opened KvNetwork
  import opened LockProtocol

  // ---------------------------------------------------------------------------------------
  // Invariant
  // ---------------------------------------------------------------------------------------

  predicate Owns(p: Party, store: Store) {
    ValueOf(store, p.name) == p.id
  }

  /** What a holder remembers of the guarded data is what the server has. */
  predicate ViewOk(guards: map<string, string>, p: Party, store: Store, view: map<string, Entry>) {
    forall k :: k in view ==> k in guards && guards[k] == p.name && k in store && store[k] == view[k]
  }

  /** A Get's answer is not from the future, and is still true if the version has not moved. */
  predicate Snapshot(store: Store, key: string, r: Reply) {
    && (r.err == OK || r.err == ErrNoKey)
    && (r.err == OK <==> r.version >= 1)
    && (r.err == ErrNoKey ==> r.value == "")
    && r.version <= VersionOf(store, key)
    && (r.version == VersionOf(store, key) ==> r.value == ValueOf(store, key))
  }

  /** A Put by the only client that may write: not yet written and current, or written. It is
      refused only after an earlier transmission of the same call wrote. */
  predicate Decisive(store: Store, log: seq<Exec>, call: Call) {
    && call.op.Put?
    && call.op.version <= VersionOf(store, call.op.key)
    && AppliedBy(log, call.id) == (if call.op.version < VersionOf(store, call.op.key) then 1 else 0)
    && (call.wire.Sent? && call.op.version < VersionOf(store, call.op.key) ==> call.retried)
    && (call.wire.Answered? ==> call.wire.reply.err == OK || (call.wire.reply.err == ErrVersion && call.retried))
  }

  /** A Put whose version is not ahead of the server's, so that once executed it can never be
      applied again. */
  predicate Spent(store: Store, call: Call) {
    && call.op.Put? && call.op.version <= VersionOf(store, call.op.key)
    && (call.wire.Answered? ==> call.op.version < VersionOf(store, call.op.key))
  }

  /** A client between calls. */
  predicate RestOk(guards: map<string, string>, p: Party, store: Store, pc: Pc)
    requires !Waiting(pc)
  {
    var ver, val := VersionOf(store, p.name), ValueOf(store, p.name);
    match pc
    case Idle => !Owns(p, store)
    case AcqStart => true
    case AcqReady(v) => !Owns(p, store) && v <= ver && (v == ver ==> val == "")
    case Held(view) => Owns(p, store) && ViewOk(guards, p, store, view)
    case RelReady(v) => Owns(p, store) && v == ver
  }

  /** A client with a call in progress. */
  predicate CallOk(guards: map<string, string>, p: Party, store: Store, log: seq<Exec>, pc: Pc, call: Call)
    requires Waiting(pc)
  {
    var ver, val := VersionOf(store, p.name), ValueOf(store, p.name);
    && Asking(pc)
    && call.op == OpFor(p, pc)
    && (call.op.Put? ==> Spent(store, call))
    && match pc
       case Creating(key, value) => key in guards && !Owns(p, store)
       case AcqGetting =>
         call.wire.Answered? ==>
           && Snapshot(store, p.name, call.wire.reply)
           && (Owns(p, store) <==> call.wire.reply.value == p.id)
       case AcqPutting(v) =>
         && (v == ver ==> val == "")
         && (call.wire.Answered? && call.wire.reply.err == OK ==> Owns(p, store))
       case Reading(view, key) =>
         && Owns(p, store) && ViewOk(guards, p, store, view) && key in guards && guards[key] == p.name
         && (call.wire.Answered? && call.wire.reply.err == OK ==>
               key in store && store[key] == Entry(call.wire.reply.value, call.wire.reply.version))
       case Writing(view, key, value) =>
         && Owns(p, store) && ViewOk(guards, p, store, view - {key})
         && key in guards && guards[key] == p.name && key in store
         && (store[key] == view[key] || store[key] == Entry(value, view[key].version + 1))
         && Decisive(store, log, call)
       case RelGetting =>
         && Owns(p, store)
         && (call.wire.Answered? ==> call.wire.reply.err == OK && call.wire.reply.version == ver)
       case RelPutting(v) =>
         && (v == ver <==> Owns(p, store))
         && Decisive(store, log, call)
  }

  predicate PartyOk(cfg: Config, s: LockState, c: Client)
    requires c in cfg.parties && c in s.pc
  {
    if Waiting(s.pc[c]) then
      c in s.net.calls && CallOk(cfg.guards, cfg.parties[c], s.net.store, s.net.log, s.pc[c], s.net.calls[c])
    else
      c !in s.net.calls && RestOk(cfg.guards, cfg.parties[c], s.net.store, s.pc[c])
  }

  /** A late Put on a lock or on guarded data is dead, or repeats its client's current call. */
  ghost predicate LateOk(cfg: Config, net: State, r: Request) {
    || FreeOp(cfg, r.op)
    || r.op.version < VersionOf(net.store, r.op.key)
    || (r.client in cfg.parties && r.client in net.calls && net.calls[r.client].id == r.id
        && net.calls[r.client].op == r.op && net.calls[r.client].retried)
  }

  predicate Positive(store: Store) {
    forall k :: k in store ==> store[k].version >= 1
  }

  ghost predicate Setting(cfg: Config, s: LockState) {
    WellFormed(cfg) && Base(s.net) && Positive(s.net.store) && s.pc.Keys == cfg.parties.Keys
  }

  ghost predicate PartiesOk(cfg: Config, s: LockState) {
    forall c :: c in cfg.parties ==> c in s.pc && PartyOk(cfg, s, c)
  }

  ghost predicate LatesOk(cfg: Config, net: State) {
    forall r :: r in net.late ==> LateOk(cfg, net, r)
  }

  ghost predicate StrangersOk(cfg: Config, net: State) {
    forall c :: c in net.calls && c !in cfg.parties ==> FreeOp(cfg, net.calls[c].op)
  }

  ghost predicate Inv(cfg: Config, s: LockState) {
    Setting(cfg, s) && PartiesOk(cfg, s) && LatesOk(cfg, s.net) && StrangersOk(cfg, s.net)
  }

  // ---------------------------------------------------------------------------------------
  // One write, seen by the other clients
  // ---------------------------------------------------------------------------------------

  /** The data keys whose contents a client relies on. */
  function Relied(pc: Pc): set<string> {
    match pc
    case Held(view) => view.Keys
    case Reading(view, key) => view.Keys + {key}
    case Writing(view, key, _) => view.Keys + {key}
    case _ => {}
  }

  /** Client c's part of the invariant with another store and log. */
  ghost predicate OkIn(cfg: Config, s: LockState, c: Client, store: Store, log: seq<Exec>)
    requires c in cfg.parties && c in s.pc
  {
    if Waiting(s.pc[c]) then
      c in s.net.calls && CallOk(cfg.guards, cfg.parties[c], store, log, s.pc[c], s.net.calls[c])
    else
      c !in s.net.calls && RestOk(cfg.guards, cfg.parties[c], store, s.pc[c])
  }

  /** In `t` client d is where it was, with its call unchanged. */
  lemma OkInThere(cfg: Config, s: LockState, t: LockState, d: Client)
    requires d in cfg.parties && d in s.pc && OkIn(cfg, s, d, t.net.store, t.net.log)
    requires d in t.pc && t.pc[d] == s.pc[d]
    requires if d in s.net.calls then d in t.net.calls && t.net.calls[d] == s.net.calls[d] else d !in t.net.calls
    ensures PartyOk(cfg, t, d)
  {
  }

  predicate SameCount(s: LockState, c: Client, log: seq<Exec>) {
    c in s.net.calls ==> AppliedBy(log, s.net.calls[c].id) == AppliedBy(s.net.log, s.net.calls[c].id)
  }

  lemma CallUnrelated(guards: map<string, string>, p: Party, store: Store, log: seq<Exec>, pc: Pc, call: Call,
                      k: string, e: Entry, log': seq<Exec>)
    requires Waiting(pc) && CallOk(guards, p, store, log, pc, call)
    requires AppliedBy(log', call.id) == AppliedBy(log, call.id)
    requires k != p.name && e.version > VersionOf(store, k) && (k in Relied(pc) ==> k !in store)
    ensures CallOk(guards, p, store[k := e], log', pc, call)
  {
    assert VersionOf(store[k := e], p.name) == VersionOf(store, p.name);
  }

  lemma RestUnrelated(guards: map<string, string>, p: Party, store: Store, pc: Pc, k: string, e: Entry)
    requires !Waiting(pc) && RestOk(guards, p, store, pc)
    requires k != p.name && (k in Relied(pc) ==> k !in store)
    ensures RestOk(guards, p, store[k := e], pc)
  {
  }

  /** A write to a key that is not the client's lock and that it does not rely on. */
  lemma UnrelatedKeeps(cfg: Config, s: LockState, d: Client, k: string, e: Entry, log: seq<Exec>)
    requires d in cfg.parties && d in s.pc && PartyOk(cfg, s, d) && SameCount(s, d, log)
    requires k != cfg.parties[d].name && e.version > VersionOf(s.net.store, k)
    requires k in Relied(s.pc[d]) ==> k !in s.net.store
    ensures OkIn(cfg, s, d, s.net.store[k := e], log)
  {
    if Waiting(s.pc[d]) {
      CallUnrelated(cfg.guards, cfg.parties[d], s.net.store, s.net.log, s.pc[d], s.net.calls[d], k, e, log);
    } else {
      RestUnrelated(cfg.guards, cfg.parties[d], s.net.store, s.pc[d], k, e);
    }
  }

  /** A write to the client's lock that gives it to somebody else or to nobody. */
  lemma ContenderKeeps(cfg: Config, s: LockState, d: Client, e: Entry, log: seq<Exec>)
    requires d in cfg.parties && d in s.pc && PartyOk(cfg, s, d) && SameCount(s, d, log)
    requires !Owns(cfg.parties[d], s.net.store) && e.value != cfg.parties[d].id
    requires e.version == VersionOf(s.net.store, cfg.parties[d].name) + 1
    ensures OkIn(cfg, s, d, s.net.store[cfg.parties[d].name := e], log)
  {
  }

  lemma SameStoreKeeps(cfg: Config, s: LockState, d: Client, log: seq<Exec>)
    requires d in cfg.parties && d in s.pc && PartyOk(cfg, s, d) && SameCount(s, d, log)
    ensures OkIn(cfg, s, d, s.net.store, log)
  {
  }

  /** At most one client owns a lock. */
  lemma OneOwner(cfg: Config, c: Client, d: Client, store: Store)
    requires WellFormed(cfg) && c in cfg.parties && d in cfg.parties
    requires cfg.parties[c].name == cfg.parties[d].name && Owns(cfg.parties[c], store) && Owns(cfg.parties[d], store)
    ensures c == d
  {
  }

  /** Client c's Put would be applied now. */
  ghost predicate Live(cfg: Config, s: LockState, c: Client) {
    c in cfg.parties && c in s.pc && c in s.net.calls && Applies(s.net.store, s.net.calls[c].op)
  }

  function Written(op: Op): Entry
    requires op.Put?
  {
    Entry(op.value, op.version + 1)
  }

  lemma RelianceIsOwnership(cfg: Config, s: LockState, d: Client, k: string)
    requires d in cfg.parties && d in s.pc && PartyOk(cfg, s, d) && k in Relied(s.pc[d])
    ensures Owns(cfg.parties[d], s.net.store) && k in cfg.guards && cfg.guards[k] == cfg.parties[d].name
  {
  }

  /** A live Put of one client leaves every other client's part intact. */
  lemma OtherKeeps(cfg: Config, s: LockState, c: Client, d: Client, log: seq<Exec>)
    requires Inv(cfg, s) && Live(cfg, s, c) && d in cfg.parties && d != c && SameCount(s, d, log)
    ensures var op := s.net.calls[c].op; OkIn(cfg, s, d, s.net.store[op.key := Written(op)], log)
  {
    var op := s.net.calls[c].op;
    var p, q := cfg.parties[c], cfg.parties[d];
    assert PartyOk(cfg, s, c) && PartyOk(cfg, s, d);
    match s.pc[c]
    case Creating(k, _) =>
      UnrelatedKeeps(cfg, s, d, k, Written(op), log);
    case Writing(_, k, _) =>
      if k in Relied(s.pc[d]) {
        RelianceIsOwnership(cfg, s, d, k);
        OneOwner(cfg, c, d, s.net.store);
      } else {
        UnrelatedKeeps(cfg, s, d, k, Written(op), log);
      }
    case AcqPutting(_) => LockKeyKeeps(cfg, s, c, d, log);
    case RelPutting(_) => LockKeyKeeps(cfg, s, c, d, log);
    case _ =>
  }

  lemma LockKeyKeeps(cfg: Config, s: LockState, c: Client, d: Client, log: seq<Exec>)
    requires Inv(cfg, s) && Live(cfg, s, c) && d in cfg.parties && d != c && SameCount(s, d, log)
    requires s.pc[c].AcqPutting? || s.pc[c].RelPutting?
    ensures var op := s.net.calls[c].op; OkIn(cfg, s, d, s.net.store[op.key := Written(op)], log)
  {
    var op := s.net.calls[c].op;
    var p, q := cfg.parties[c], cfg.parties[d];
    assert PartyOk(cfg, s, c) && PartyOk(cfg, s, d);
    if p.name == q.name {
      ContenderKeeps(cfg, s, d, Written(op), log);
    } else {
      if p.name in Relied(s.pc[d]) {
        RelianceIsOwnership(cfg, s, d, p.name);
      }
      UnrelatedKeeps(cfg, s, d, p.name, Written(op), log);
    }
  }

  // ---------------------------------------------------------------------------------------
  // One execution, seen by its own client
  // ---------------------------------------------------------------------------------------

  predicate Usual(guards: map<string, string>, p: Party, store: Store) {
    p.id != "" && p.name !in guards && Positive(store)
  }

  lemma OwnGet(guards: map<string, string>, p: Party, store: Store, log: seq<Exec>, pc: Pc, call: Call, e: Exec)
    requires Usual(guards, p, store) && Waiting(pc) && CallOk(guards, p, store, log, pc, call)
    requires call.wire.Sent? && call.op.Get? && e.reply == Serve(store, call.op).1
    ensures CallOk(guards, p, store, log + [e], pc, call.(wire := Answered(e.reply)))
  {
  }

  /** The call has written: an execution of it was applied, and answered or late. */
  predicate WroteNow(call: Call, call': Call) {
    call' == call.(wire := Answered(PutReply(OK))) || (call' == call && call.retried)
  }

  lemma DecisiveApplied(store: Store, log: seq<Exec>, call: Call, e: Exec, call': Call)
    requires Decisive(store, log, call) && Applies(store, call.op) && e.id == call.id && e.applied
    requires WroteNow(call, call')
    ensures Decisive(store[call.op.key := Written(call.op)], log + [e], call')
  {
    AppliedByAppend(log, e, call.id);
  }

  lemma LockPutApplied(guards: map<string, string>, p: Party, store: Store, log: seq<Exec>, pc: Pc, call: Call,
                       e: Exec, call': Call)
    requires p.id != "" && (pc.AcqPutting? || pc.RelPutting?) && CallOk(guards, p, store, log, pc, call)
    requires Applies(store, call.op) && e.id == call.id && e.applied && WroteNow(call, call')
    ensures CallOk(guards, p, store[p.name := Written(call.op)], log + [e], pc, call')
  {
    if pc.RelPutting? {
      DecisiveApplied(store, log, call, e, call');
    }
  }

  lemma DataPutApplied(guards: map<string, string>, p: Party, store: Store, log: seq<Exec>, pc: Pc, call: Call,
                       e: Exec, call': Call)
    requires p.name !in guards && (pc.Creating? || pc.Writing?) && CallOk(guards, p, store, log, pc, call)
    requires Applies(store, call.op) && e.id == call.id && e.applied && WroteNow(call, call')
    ensures CallOk(guards, p, store[pc.key := Written(call.op)], log + [e], pc, call')
  {
    if pc.Writing? {
      DecisiveApplied(store, log, call, e, call');
    }
  }

  lemma PutApplied(guards: map<string, string>, p: Party, store: Store, log: seq<Exec>, pc: Pc, call: Call,
                   e: Exec, call': Call)
    requires p.id != "" && p.name !in guards && Waiting(pc) && CallOk(guards, p, store, log, pc, call)
    requires Applies(store, call.op) && e.id == call.id && e.applied && WroteNow(call, call')
    ensures CallOk(guards, p, store[call.op.key := Written(call.op)], log + [e], pc, call')
  {
    if pc.AcqPutting? || pc.RelPutting? {
      LockPutApplied(guards, p, store, log, pc, call, e, call');
    } else {
      DataPutApplied(guards, p, store, log, pc, call, e, call');
    }
  }

  lemma PutRefused(guards: map<string, string>, p: Party, store: Store, log: seq<Exec>, pc: Pc, call: Call, e: Exec)
    requires Usual(guards, p, store) && Waiting(pc) && CallOk(guards, p, store, log, pc, call)
    requires call.wire.Sent? && call.op.Put? && !Applies(store, call.op) && !e.applied
    requires e.reply == Serve(store, call.op).1
    ensures CallOk(guards, p, store, log + [e], pc, call.(wire := Answered(e.reply)))
  {
    AppliedByAppend(log, e, call.id);
  }

  lemma OwnPut(guards: map<string, string>, p: Party, store: Store, log: seq<Exec>, pc: Pc, call: Call, e: Exec)
    requires Usual(guards, p, store) && Waiting(pc) && CallOk(guards, p, store, log, pc, call)
    requires call.wire.Sent? && call.op.Put?
    requires e == Exec(call.id, call.op, Serve(store, call.op).1, Applies(store, call.op), false)
    ensures CallOk(guards, p, Serve(store, call.op).0, log + [e], pc, call.(wire := Answered(e.reply)))
  {
    ServeIsCompareAndSwap(store, call.op);
    if e.applied {
      PutApplied(guards, p, store, log, pc, call, e, call.(wire := Answered(PutReply(OK))));
    } else {
      PutRefused(guards, p, store, log, pc, call, e);
    }
  }

  /** The client's own part after its request was executed and answered. */
  lemma OwnExecute(cfg: Config, s: LockState, c: Client)
    requires Inv(cfg, s) && c in cfg.parties && Enabled(s.net, Execute(c))
    ensures PartyOk(cfg, s.(net := Next(s.net, Execute(c))), c)
  {
    var call := s.net.calls[c];
    var e := Next(s.net, Execute(c)).log[|s.net.log|];
    assert PartyOk(cfg, s, c);
    if call.op.Get? {
      OwnGet(cfg.guards, cfg.parties[c], s.net.store, s.net.log, s.pc[c], call, e);
    } else {
      OwnPut(cfg.guards, cfg.parties[c], s.net.store, s.net.log, s.pc[c], call, e);
    }
  }

  /** The client's own part after a late duplicate of its call was applied. */
  lemma OwnLate(cfg: Config, s: LockState, c: Client, e: Exec)
    requires WellFormed(cfg) && PartiesOk(cfg, s) && Live(cfg, s, c) && s.net.calls[c].retried
    requires e.id == s.net.calls[c].id && e.applied
    ensures var op := s.net.calls[c].op; OkIn(cfg, s, c, s.net.store[op.key := Written(op)], s.net.log + [e])
  {
    assert PartyOk(cfg, s, c);
    PutApplied(cfg.guards, cfg.parties[c], s.net.store, s.net.log, s.pc[c], s.net.calls[c], e, s.net.calls[c]);
  }

  // ---------------------------------------------------------------------------------------
  // Network steps
  // ---------------------------------------------------------------------------------------

  lemma ServePositive(store: Store, op: Op)
    requires Positive(store)
    ensures Positive(Serve(store, op).0)
    ensures forall k :: VersionOf(store, k) <= VersionOf(Serve(store, op).0, k)
  {
    ServeIsCompareAndSwap(store, op);
  }

  /** The calls of lock users write only controlled keys. */
  lemma PartyOpControlled(cfg: Config, s: LockState, c: Client)
    requires Inv(cfg, s) && c in cfg.parties && c in s.net.calls && s.net.calls[c].op.Put?
    ensures !FreeOp(cfg, s.net.calls[c].op)
  {
    assert PartyOk(cfg, s, c);
  }

  /** Everybody's part holds in `t`, which differs from `s` only in store, log and wires. */
  lemma HandledKeepsLates(cfg: Config, s: State, t: State)
    requires LatesOk(cfg, s) && t.late <= s.late
    requires forall k :: VersionOf(s.store, k) <= VersionOf(t.store, k)
    requires forall c :: c in s.calls ==>
               c in t.calls && t.calls[c].id == s.calls[c].id && t.calls[c].op == s.calls[c].op
               && (s.calls[c].retried ==> t.calls[c].retried)
    ensures LatesOk(cfg, t)
  {
    forall r | r in t.late
      ensures LateOk(cfg, t, r)
    {
      assert r in s.late && LateOk(cfg, s, r);
    }
  }

  lemma DistinctIds(s: LockState, c: Client, d: Client)
    requires Base(s.net) && c in s.net.calls && d in s.net.calls && c != d
    ensures s.net.calls[c].id != s.net.calls[d].id
  {
    assert Open(s.net.hist, c, s.net.calls[c]) && Open(s.net.hist, d, s.net.calls[d]);
  }

  lemma RefusedKeeps(cfg: Config, s: LockState, d: Client, e: Exec)
    requires d in cfg.parties && d in s.pc && PartyOk(cfg, s, d) && !e.applied
    ensures OkIn(cfg, s, d, s.net.store, s.net.log + [e])
  {
    if d in s.net.calls {
      AppliedByAppend(s.net.log, e, s.net.calls[d].id);
    }
    SameStoreKeeps(cfg, s, d, s.net.log + [e]);
  }

  lemma AppliedKeeps(cfg: Config, s: LockState, c: Client, d: Client, e: Exec)
    requires Inv(cfg, s) && Live(cfg, s, c) && d in cfg.parties && d != c && e.id == s.net.calls[c].id
    ensures var op := s.net.calls[c].op; OkIn(cfg, s, d, s.net.store[op.key := Written(op)], s.net.log + [e])
  {
    if d in s.net.calls {
      DistinctIds(s, c, d);
      AppliedByAppend(s.net.log, e, s.net.calls[d].id);
    }
    OtherKeeps(cfg, s, c, d, s.net.log + [e]);
  }

  lemma RefusedOther(cfg: Config, s: LockState, d: Client, op: Op, e: Exec)
    requires d in cfg.parties && d in s.pc && PartyOk(cfg, s, d) && !e.applied && !Applies(s.net.store, op)
    ensures OkIn(cfg, s, d, Serve(s.net.store, op).0, s.net.log + [e])
  {
    ServeIsCompareAndSwap(s.net.store, op);
    RefusedKeeps(cfg, s, d, e);
  }

  lemma ServedIsWritten(store: Store, op: Op)
    requires Applies(store, op)
    ensures Serve(store, op).0 == store[op.key := Written(op)]
  {
    ServeIsCompareAndSwap(store, op);
  }

  lemma ExecuteOther(cfg: Config, s: LockState, c: Client, d: Client, e: Exec)
    requires Inv(cfg, s) && c in cfg.parties && c in s.net.calls && d in cfg.parties && d != c
    requires e.id == s.net.calls[c].id && e.applied == Applies(s.net.store, s.net.calls[c].op)
    ensures OkIn(cfg, s, d, Serve(s.net.store, s.net.calls[c].op).0, s.net.log + [e])
  {
    if e.applied {
      AppliedKeeps(cfg, s, c, d, e);
      ServedIsWritten(s.net.store, s.net.calls[c].op);
    } else {
      assert PartyOk(cfg, s, d);
      RefusedOther(cfg, s, d, s.net.calls[c].op, e);
    }
  }

  lemma ExecuteParty(cfg: Config, s: LockState, c: Client)
    requires Inv(cfg, s) && c in cfg.parties && Enabled(s.net, Execute(c))
    ensures PartiesOk(cfg, s.(net := Next(s.net, Execute(c))))
  {
    var e := Next(s.net, Execute(c)).log[|s.net.log|];
    OwnExecute(cfg, s, c);
    forall d | d in cfg.parties && d != c
      ensures OkIn(cfg, s, d, Serve(s.net.store, s.net.calls[c].op).0, s.net.log + [e])
    {
      ExecuteOther(cfg, s, c, d, e);
    }
    ExecuteThere(cfg, s, c, e);
  }

  lemma ExecuteThere(cfg: Config, s: LockState, c: Client, e: Exec)
    requires s.pc.Keys == cfg.parties.Keys && Enabled(s.net, Execute(c))
    requires e == Next(s.net, Execute(c)).log[|s.net.log|]
    requires forall d :: d in cfg.parties && d != c ==>
               OkIn(cfg, s, d, Serve(s.net.store, s.net.calls[c].op).0, s.net.log + [e])
    ensures forall d :: d in cfg.parties && d != c ==> PartyOk(cfg, s.(net := Next(s.net, Execute(c))), d)
  {
    var t := s.(net := Next(s.net, Execute(c)));
    forall d | d in cfg.parties && d != c
      ensures PartyOk(cfg, t, d)
    {
      OkInThere(cfg, s, t, d);
    }
  }

  lemma ElsewhereKeeps(cfg: Config, s: LockState, d: Client, op: Op, e: Exec)
    requires d in cfg.parties && d in s.pc && PartyOk(cfg, s, d)
    requires op.Put? && FreeOp(cfg, op) && op.version == VersionOf(s.net.store, op.key)
    requires d in s.net.calls ==> e.id != s.net.calls[d].id
    ensures OkIn(cfg, s, d, s.net.store[op.key := Written(op)], s.net.log + [e])
  {
    if d in s.net.calls {
      AppliedByAppend(s.net.log, e, s.net.calls[d].id);
    }
    if op.key in Relied(s.pc[d]) {
      RelianceIsOwnership(cfg, s, d, op.key);
    }
    UnrelatedKeeps(cfg, s, d, op.key, Written(op), s.net.log + [e]);
  }

  /** A request on an uncontrolled key, or one that is refused, disturbs no lock user. */
  lemma HarmlessKeeps(cfg: Config, s: LockState, d: Client, op: Op, e: Exec)
    requires d in cfg.parties && d in s.pc && PartyOk(cfg, s, d)
    requires e.applied == Applies(s.net.store, op) && (FreeOp(cfg, op) || !e.applied)
    requires e.applied && d in s.net.calls ==> e.id != s.net.calls[d].id
    ensures OkIn(cfg, s, d, Serve(s.net.store, op).0, s.net.log + [e])
  {
    if e.applied {
      ElsewhereKeeps(cfg, s, d, op, e);
      ServedIsWritten(s.net.store, op);
    } else {
      RefusedOther(cfg, s, d, op, e);
    }
  }

  lemma ExecuteStranger(cfg: Config, s: LockState, c: Client)
    requires Inv(cfg, s) && c !in cfg.parties && Enabled(s.net, Execute(c))
    ensures PartiesOk(cfg, s.(net := Next(s.net, Execute(c))))
  {
    var e := Next(s.net, Execute(c)).log[|s.net.log|];
    forall d | d in cfg.parties
      ensures OkIn(cfg, s, d, Serve(s.net.store, s.net.calls[c].op).0, s.net.log + [e])
    {
      if d in s.net.calls {
        DistinctIds(s, c, d);
      }
      assert PartyOk(cfg, s, d);
      HarmlessKeeps(cfg, s, d, s.net.calls[c].op, e);
    }
    ExecuteThere(cfg, s, c, e);
  }

  lemma ExecuteHarmlessLate(cfg: Config, s: LockState, r: Request)
    requires Inv(cfg, s) && r in s.net.late && (FreeOp(cfg, r.op) || !Applies(s.net.store, r.op))
    ensures PartiesOk(cfg, s.(net := Next(s.net, ExecuteLate(r))))
  {
    var t := s.(net := Next(s.net, ExecuteLate(r)));
    forall d | d in cfg.parties
      ensures PartyOk(cfg, t, d)
    {
      if d in s.net.calls && s.net.calls[d].op.Put? {
        PartyOpControlled(cfg, s, d);
      }
      assert d in s.net.calls ==> Open(s.net.hist, d, s.net.calls[d]);
      assert IsCall(s.net.hist, r.id, r.op);
      assert PartyOk(cfg, s, d);
      HarmlessKeeps(cfg, s, d, r.op, t.net.log[|s.net.log|]);
      OkInThere(cfg, s, t, d);
    }
  }

  lemma ExecuteLiveLate(cfg: Config, s: LockState, r: Request)
    requires Inv(cfg, s) && r in s.net.late && !FreeOp(cfg, r.op) && Applies(s.net.store, r.op)
    ensures PartiesOk(cfg, s.(net := Next(s.net, ExecuteLate(r))))
  {
    var t := s.(net := Next(s.net, ExecuteLate(r)));
    var c, e := r.client, t.net.log[|s.net.log|];
    assert LateOk(cfg, s.net, r);
    forall d | d in cfg.parties
      ensures OkIn(cfg, s, d, s.net.store[r.op.key := Written(r.op)], s.net.log + [e])
    {
      LiveLateKeeps(cfg, s, c, d, e);
    }
    LateThere(cfg, s, r, e);
  }

  lemma LateThere(cfg: Config, s: LockState, r: Request, e: Exec)
    requires s.pc.Keys == cfg.parties.Keys && r in s.net.late && r.op.Put? && Applies(s.net.store, r.op)
    requires e == Next(s.net, ExecuteLate(r)).log[|s.net.log|]
    requires forall d :: d in cfg.parties ==> OkIn(cfg, s, d, s.net.store[r.op.key := Written(r.op)], s.net.log + [e])
    ensures PartiesOk(cfg, s.(net := Next(s.net, ExecuteLate(r))))
  {
    var t := s.(net := Next(s.net, ExecuteLate(r)));
    ServedIsWritten(s.net.store, r.op);
    assert t.net.log == s.net.log + [e];
    forall d | d in cfg.parties
      ensures PartyOk(cfg, t, d)
    {
      OkInThere(cfg, s, t, d);
    }
  }

  lemma LiveLateKeeps(cfg: Config, s: LockState, c: Client, d: Client, e: Exec)
    requires Inv(cfg, s) && Live(cfg, s, c) && s.net.calls[c].retried && d in cfg.parties
    requires e.id == s.net.calls[c].id && e.applied
    ensures var op := s.net.calls[c].op; OkIn(cfg, s, d, s.net.store[op.key := Written(op)], s.net.log + [e])
  {
    if d == c {
      OwnLate(cfg, s, c, e);
    } else {
      AppliedKeeps(cfg, s, c, d, e);
    }
  }

  lemma ExecuteStep(cfg: Config, s: LockState, c: Client)
    requires Inv(cfg, s) && Enabled(s.net, Execute(c))
    ensures Inv(cfg, s.(net := Next(s.net, Execute(c))))
  {
    BaseStep(s.net, Execute(c));
    ServePositive(s.net.store, s.net.calls[c].op);
    HandledKeepsLates(cfg, s.net, Next(s.net, Execute(c)));
    if c in cfg.parties {
      ExecuteParty(cfg, s, c);
    } else {
      ExecuteStranger(cfg, s, c);
    }
  }

  lemma ExecuteLateStep(cfg: Config, s: LockState, r: Request)
    requires Inv(cfg, s) && r in s.net.late
    ensures Inv(cfg, s.(net := Next(s.net, ExecuteLate(r))))
  {
    BaseStep(s.net, ExecuteLate(r));
    ServePositive(s.net.store, r.op);
    HandledKeepsLates(cfg, s.net, Next(s.net, ExecuteLate(r)));
    if FreeOp(cfg, r.op) || !Applies(s.net.store, r.op) {
      ExecuteHarmlessLate(cfg, s, r);
    } else {
      ExecuteLiveLate(cfg, s, r);
    }
  }

  /** Nothing that concerns client d changed. */
  lemma UntouchedKeeps(cfg: Config, s: LockState, t: LockState, d: Client)
    requires d in cfg.parties && d in s.pc && PartyOk(cfg, s, d)
    requires t.net.store == s.net.store && t.net.log == s.net.log
    requires d in t.pc && t.pc[d] == s.pc[d]
    requires if d in s.net.calls then d in t.net.calls && t.net.calls[d] == s.net.calls[d] else d !in t.net.calls
    ensures PartyOk(cfg, t, d)
  {
  }

  lemma OwnResend(guards: map<string, string>, p: Party, store: Store, log: seq<Exec>, pc: Pc, call: Call)
    requires Waiting(pc) && CallOk(guards, p, store, log, pc, call)
    ensures CallOk(guards, p, store, log, pc, Resend(call))
  {
  }

  lemma ResendParties(cfg: Config, s: LockState, a: Action)
    requires PartiesOk(cfg, s) && Enabled(s.net, a) && (a.DropRequest? || a.DropReply? || a.Abandon?)
    ensures PartiesOk(cfg, s.(net := Next(s.net, a)))
  {
    var t := s.(net := Next(s.net, a));
    var c := a.client;
    forall d | d in cfg.parties
      ensures PartyOk(cfg, t, d)
    {
      assert PartyOk(cfg, s, d);
      if d == c {
        OwnResend(cfg.guards, cfg.parties[c], s.net.store, s.net.log, s.pc[c], s.net.calls[c]);
      } else {
        UntouchedKeeps(cfg, s, t, d);
      }
    }
  }

  lemma ResendLates(cfg: Config, s: LockState, a: Action)
    requires Inv(cfg, s) && Enabled(s.net, a) && (a.DropRequest? || a.DropReply? || a.Abandon?)
    ensures LatesOk(cfg, Next(s.net, a))
  {
    var t := Next(s.net, a);
    forall r | r in t.late
      ensures LateOk(cfg, t, r)
    {
      if r in s.net.late {
        assert LateOk(cfg, s.net, r);
      } else {
        assert a.client !in cfg.parties ==> FreeOp(cfg, s.net.calls[a.client].op);
      }
    }
  }

  /** Losing a message: the clerk resends. */
  lemma ResendStep(cfg: Config, s: LockState, a: Action)
    requires Inv(cfg, s) && Enabled(s.net, a) && (a.DropRequest? || a.DropReply? || a.Abandon?)
    ensures Inv(cfg, s.(net := Next(s.net, a)))
  {
    BaseStep(s.net, a);
    ResendParties(cfg, s, a);
    ResendLates(cfg, s, a);
  }

  lemma StrangerParties(cfg: Config, s: LockState, a: Action)
    requires PartiesOk(cfg, s) && (a.Invoke? || a.Deliver?) && Enabled(s.net, a) && a.client !in cfg.parties
    ensures PartiesOk(cfg, s.(net := Next(s.net, a)))
  {
    var t := s.(net := Next(s.net, a));
    forall d | d in cfg.parties
      ensures PartyOk(cfg, t, d)
    {
      UntouchedKeeps(cfg, s, t, d);
    }
  }

  lemma StrangerLates(cfg: Config, net: State, a: Action)
    requires LatesOk(cfg, net) && (a.Invoke? || a.Deliver?) && Enabled(net, a) && a.client !in cfg.parties
    ensures LatesOk(cfg, Next(net, a))
  {
    var net' := Next(net, a);
    forall r | r in net'.late
      ensures LateOk(cfg, net', r)
    {
      assert LateOk(cfg, net, r);
    }
  }

  lemma StrangerStep(cfg: Config, s: LockState, a: Action)
    requires Inv(cfg, s) && CanMove(cfg, s, Network(a)) && (a.Invoke? || a.Deliver?)
    ensures Inv(cfg, s.(net := Next(s.net, a)))
  {
    BaseStep(s.net, a);
    StrangerParties(cfg, s, a);
    StrangerLates(cfg, s.net, a);
  }

  // ---------------------------------------------------------------------------------------
  // Steps of lock users
  // ---------------------------------------------------------------------------------------

  /** A call not yet executed has written nothing. */
  lemma NewCallUnapplied(net: State)
    requires Base(net)
    ensures AppliedBy(net.log, |net.hist|) == 0
  {
    assert forall i :: 0 <= i < |net.log| ==> IsCall(net.hist, net.log[i].id, net.log[i].op);
    NeverApplied(net.log, |net.hist|);
  }

  lemma {:induction false} NeverApplied(log: seq<Exec>, id: CallId)
    requires forall i :: 0 <= i < |log| ==> log[i].id != id
    ensures AppliedBy(log, id) == 0
  {
    if log != [] {
      NeverApplied(log[..|log|-1], id);
    }
  }

  lemma IssueParties(cfg: Config, s: LockState, c: Client, pc: Pc)
    requires PartiesOk(cfg, s) && Free(cfg, s, c) && Asking(pc)
    requires CallOk(cfg.guards, cfg.parties[c], s.net.store, s.net.log, pc,
                    Call(|s.net.hist|, OpFor(cfg.parties[c], pc), false, Sent))
    ensures PartiesOk(cfg, Issue(cfg, s, c, pc))
  {
    var t := Issue(cfg, s, c, pc);
    forall d | d in cfg.parties
      ensures d in t.pc && PartyOk(cfg, t, d)
    {
      if d != c {
        UntouchedKeeps(cfg, s, t, d);
      }
    }
  }

  lemma IssueLates(cfg: Config, s: LockState, c: Client, pc: Pc)
    requires LatesOk(cfg, s.net) && Free(cfg, s, c) && Asking(pc)
    ensures LatesOk(cfg, Issue(cfg, s, c, pc).net)
  {
    var t := Issue(cfg, s, c, pc);
    forall r | r in t.net.late
      ensures LateOk(cfg, t.net, r)
    {
      assert LateOk(cfg, s.net, r);
    }
  }

  lemma IssueStep(cfg: Config, s: LockState, c: Client, pc: Pc)
    requires Inv(cfg, s) && Free(cfg, s, c) && Asking(pc)
    requires CallOk(cfg.guards, cfg.parties[c], s.net.store, s.net.log, pc,
                    Call(|s.net.hist|, OpFor(cfg.parties[c], pc), false, Sent))
    ensures Inv(cfg, Issue(cfg, s, c, pc))
  {
    BaseStep(s.net, Invoke(c, OpFor(cfg.parties[c], pc)));
    IssueParties(cfg, s, c, pc);
    IssueLates(cfg, s, c, pc);
  }

  /** The call that a client between calls makes next. */
  predicate Follows(guards: map<string, string>, p: Party, pc: Pc, pc': Pc) {
    match pc
    case Idle => pc'.Creating? && pc'.key in guards
    case Held(view) =>
      || pc'.RelGetting?
      || (pc'.Reading? && pc'.view == view && pc'.key in guards && guards[pc'.key] == p.name)
      || (pc'.Writing? && pc'.view == view && pc'.key in view)
    case AcqStart => pc' == NextCall(pc)
    case AcqReady(_) => pc' == NextCall(pc)
    case RelReady(_) => pc' == NextCall(pc)
    case _ => false
  }

  lemma FollowsOk(guards: map<string, string>, p: Party, store: Store, log: seq<Exec>, pc: Pc, pc': Pc, id: CallId)
    requires Positive(store) && AppliedBy(log, id) == 0
    requires !Waiting(pc) && RestOk(guards, p, store, pc) && Follows(guards, p, pc, pc')
    ensures Asking(pc') && CallOk(guards, p, store, log, pc', Call(id, OpFor(p, pc'), false, Sent))
  {
  }

  lemma NewCallStep(cfg: Config, s: LockState, c: Client, pc: Pc)
    requires Inv(cfg, s) && Free(cfg, s, c) && Follows(cfg.guards, cfg.parties[c], s.pc[c], pc)
    ensures Asking(pc) && Inv(cfg, Issue(cfg, s, c, pc))
  {
    assert PartyOk(cfg, s, c);
    NewCallUnapplied(s.net);
    FollowsOk(cfg.guards, cfg.parties[c], s.net.store, s.net.log, s.pc[c], pc, |s.net.hist|);
    IssueStep(cfg, s, c, pc);
  }

  lemma StartStep(cfg: Config, s: LockState, m: Move)
    requires Inv(cfg, s) && CanMove(cfg, s, m) && !m.Return? && !m.Network?
    ensures Inv(cfg, Moved(cfg, s, m))
  {
    match m
    case StartAcquire(c) => StartAcquireStep(cfg, s, c);
    case StartRelease(c) => NewCallStep(cfg, s, c, RelGetting);
    case CallNext(c) => NewCallStep(cfg, s, c, NextCall(s.pc[c]));
    case Read(c, key) => NewCallStep(cfg, s, c, Reading(s.pc[c].view, key));
    case Write(c, key, value) => NewCallStep(cfg, s, c, Writing(s.pc[c].view, key, value));
    case Create(c, key, value) => NewCallStep(cfg, s, c, Creating(key, value));
  }

  lemma StartAcquireStep(cfg: Config, s: LockState, c: Client)
    requires Inv(cfg, s) && CanMove(cfg, s, StartAcquire(c))
    ensures Inv(cfg, Moved(cfg, s, StartAcquire(c)))
  {
    var t := Moved(cfg, s, StartAcquire(c));
    forall d | d in cfg.parties
      ensures d in t.pc && PartyOk(cfg, t, d)
    {
      assert PartyOk(cfg, s, d);
    }
  }

  /** What a client knows when its call returns. */
  lemma OwnReturn(guards: map<string, string>, p: Party, store: Store, log: seq<Exec>, pc: Pc, call: Call)
    requires Usual(guards, p, store) && Waiting(pc) && CallOk(guards, p, store, log, pc, call) && call.wire.Answered?
    ensures var pc' := AfterReply(p, pc, ClerkReply(call.op, call.retried, call.wire.reply));
            !Waiting(pc') && RestOk(guards, p, store, pc')
  {
  }

  lemma ReturnOwn(cfg: Config, s: LockState, c: Client)
    requires WellFormed(cfg) && Positive(s.net.store) && PartiesOk(cfg, s) && CanMove(cfg, s, Return(c))
    ensures PartyOk(cfg, Moved(cfg, s, Return(c)), c)
  {
    assert PartyOk(cfg, s, c);
    OwnReturn(cfg.guards, cfg.parties[c], s.net.store, s.net.log, s.pc[c], s.net.calls[c]);
  }

  lemma ReturnOther(cfg: Config, s: LockState, c: Client, d: Client)
    requires PartiesOk(cfg, s) && CanMove(cfg, s, Return(c)) && d in cfg.parties && d != c
    ensures d in Moved(cfg, s, Return(c)).pc && PartyOk(cfg, Moved(cfg, s, Return(c)), d)
  {
    UntouchedKeeps(cfg, s, Moved(cfg, s, Return(c)), d);
  }

  lemma ReturnParties(cfg: Config, s: LockState, c: Client)
    requires WellFormed(cfg) && Positive(s.net.store) && PartiesOk(cfg, s) && CanMove(cfg, s, Return(c))
    ensures PartiesOk(cfg, Moved(cfg, s, Return(c)))
  {
    var t := Moved(cfg, s, Return(c));
    forall d | d in cfg.parties
      ensures d in t.pc && PartyOk(cfg, t, d)
    {
      if d == c {
        ReturnOwn(cfg, s, c);
      } else {
        ReturnOther(cfg, s, c, d);
      }
    }
  }

  lemma AnsweredSpent(cfg: Config, s: LockState, c: Client)
    requires PartiesOk(cfg, s) && CanMove(cfg, s, Return(c))
    ensures s.net.calls[c].op.Put? ==> s.net.calls[c].op.version < VersionOf(s.net.store, s.net.calls[c].op.key)
  {
    assert PartyOk(cfg, s, c);
  }

  /** A returned Put is spent, so what is late of it is dead. */
  lemma ReturnLates(cfg: Config, net: State, c: Client)
    requires LatesOk(cfg, net) && Enabled(net, Deliver(c))
    requires net.calls[c].op.Put? ==> net.calls[c].op.version < VersionOf(net.store, net.calls[c].op.key)
    ensures LatesOk(cfg, Next(net, Deliver(c)))
  {
    var t := Next(net, Deliver(c));
    forall r | r in t.late
      ensures LateOk(cfg, t, r)
    {
      assert LateOk(cfg, net, r);
    }
  }

  lemma ReturnStep(cfg: Config, s: LockState, c: Client)
    requires Inv(cfg, s) && CanMove(cfg, s, Return(c))
    ensures Inv(cfg, Moved(cfg, s, Return(c)))
  {
    BaseStep(s.net, Deliver(c));
    ReturnParties(cfg, s, c);
    AnsweredSpent(cfg, s, c);
    ReturnLates(cfg, s.net, c);
  }

  lemma InvStep(cfg: Config, s: LockState, m: Move)
    requires Inv(cfg, s) && CanMove(cfg, s, m)
    ensures Inv(cfg, Moved(cfg, s, m))
  {
    match m
    case Return(c) => ReturnStep(cfg, s, c);
    case Network(a) =>
      if a.Execute? {
        ExecuteStep(cfg, s, a.client);
      } else if a.ExecuteLate? {
        ExecuteLateStep(cfg, s, a.request);
      } else if a.Invoke? || a.Deliver? {
        StrangerStep(cfg, s, a);
      } else {
        ResendStep(cfg, s, a);
      }
    case _ => StartStep(cfg, s, m);
  }

  lemma InvStart(cfg: Config)
    requires WellFormed(cfg)
    ensures Inv(cfg, Start(cfg))
  {
  }

  lemma {:induction false} InvRun(cfg: Config, s: LockState, run: seq<Move>)
    requires Inv(cfg, s) && Plays(cfg, s, run)
    ensures Inv(cfg, Played(cfg, s, run))
    decreases |run|
  {
    if run != [] {
      InvStep(cfg, s, run[0]);
      InvRun(cfg, Moved(cfg, s, run[0]), run[1..]);
    }
  }
}
