/** The distributed lock: any number of clients acquire and release locks that are keys of the
    server, and while they hold a lock they read and write the data keys it guards. Every Get and
    Put goes through a clerk over the lossy network, late duplicates included. */
module LockProtocol {
  import opened KvServer
  import opened KvNetwork

  /** One Lock object: its holder id and the key that is the lock. */
  datatype Party = Party(id: string, name: string)

  /** The lock users, and for each data key the lock that guards it. */
  datatype Config = Config(parties: map<Client, Party>, guards: map<string, string>)

  /** Holder ids are non-empty and differ among the contenders of one lock; data keys are not locks. */
  ghost predicate WellFormed(cfg: Config) {
    && (forall c :: c in cfg.parties ==> cfg.parties[c].id != "" && cfg.parties[c].name !in cfg.guards)
    && (forall c, d :: c in cfg.parties && d in cfg.parties && c != d && cfg.parties[c].name == cfg.parties[d].name ==>
          cfg.parties[c].id != cfg.parties[d].id)
  }

  /** Where a lock user is. A holder remembers, in `view`, what it read or wrote of the guarded
      data since it acquired the lock. */
  datatype Pc =
    | Idle
    | Creating(key: string, value: string)
    | AcqStart
    | AcqGetting
    | AcqReady(version: nat)
    | AcqPutting(version: nat)
    | Held(view: map<string, Entry>)
    | Reading(view: map<string, Entry>, key: string)
    | Writing(view: map<string, Entry>, key: string, value: string)
    | RelGetting
    | RelReady(version: nat)
    | RelPutting(version: nat)

  /** `written` records, for each data key, the last write a holder completed. */
  datatype LockState = LockState(net: State, pc: map<Client, Pc>, written: map<string, Entry>)

  datatype Move =
    | StartAcquire(client: Client)
    | StartRelease(client: Client)
    | CallNext(client: Client)
    | Read(client: Client, key: string)
    | Write(client: Client, key: string, value: string)
    | Create(client: Client, key: string, value: string)
    | Return(client: Client)
    | Network(action: Action)

  // ---------------------------------------------------------------------------------------
  // Control flow of Acquire and Release
  // ---------------------------------------------------------------------------------------

  predicate Waiting(pc: Pc) {
    pc.Creating? || pc.AcqGetting? || pc.AcqPutting? || pc.Reading? || pc.Writing? || pc.RelGetting? || pc.RelPutting?
  }

  /** A waiting client that writes has read what it writes. */
  predicate Asking(pc: Pc) {
    Waiting(pc) && (pc.Writing? ==> pc.key in pc.view)
  }

  /** The call a waiting client has in progress. */
  function OpFor(p: Party, pc: Pc): Op
    requires Asking(pc)
  {
    match pc
    case Creating(key, value) => Put(key, value, 0)
    case AcqGetting => Get(p.name)
    case AcqPutting(version) => Put(p.name, p.id, version)
    case Reading(_, key) => Get(key)
    case Writing(view, key, value) => Put(key, value, view[key].version)
    case RelGetting => Get(p.name)
    case RelPutting(version) => Put(p.name, "", version)
  }

  function AfterAcquireGet(p: Party, r: Reply): Pc {
    if r.err != OK then AcqReady(0)
    else if r.value != p.id then
      if r.value == "" then AcqReady(r.version) else AcqStart
    else Held(map[])
  }

  function AfterReply(p: Party, pc: Pc, r: Reply): Pc
    requires Asking(pc)
  {
    match pc
    case Creating(_, _) => Idle
    case AcqGetting => AfterAcquireGet(p, r)
    case AcqPutting(_) => if r.err != OK then AcqStart else Held(map[])
    case Reading(view, key) => Held(if r.err == OK then view[key := Entry(r.value, r.version)] else view)
    case Writing(view, key, value) => Held(view[key := Entry(value, view[key].version + 1)])
    case RelGetting => RelReady(r.version)
    case RelPutting(_) => Idle
  }

  /** The next call of a client that is between calls. */
  function NextCall(pc: Pc): Pc
    requires pc.AcqStart? || pc.AcqReady? || pc.RelReady?
  {
    match pc
    case AcqStart => AcqGetting
    case AcqReady(version) => AcqPutting(version)
    case RelReady(version) => RelPutting(version)
  }

  // ---------------------------------------------------------------------------------------
  // Steps
  // ---------------------------------------------------------------------------------------

  /** Clients that use no lock may do as they like with keys that are neither locks nor guarded. */
  ghost predicate FreeOp(cfg: Config, op: Op) {
    op.Get? || (op.key !in cfg.guards && forall c :: c in cfg.parties ==> cfg.parties[c].name != op.key)
  }

  /** Client c uses a lock and has no call in progress. */
  predicate Free(cfg: Config, s: LockState, c: Client) {
    c in cfg.parties && c in s.pc && c !in s.net.calls
  }

  ghost predicate CanMove(cfg: Config, s: LockState, m: Move) {
    match m
    case StartAcquire(c) => Free(cfg, s, c) && s.pc[c].Idle?
    case StartRelease(c) => Free(cfg, s, c) && s.pc[c].Held?
    case CallNext(c) => Free(cfg, s, c) && (s.pc[c].AcqStart? || s.pc[c].AcqReady? || s.pc[c].RelReady?)
    case Read(c, key) =>
      Free(cfg, s, c) && s.pc[c].Held? && key in cfg.guards && cfg.guards[key] == cfg.parties[c].name
    case Write(c, key, _) => Free(cfg, s, c) && s.pc[c].Held? && key in s.pc[c].view
    case Create(c, key, _) => Free(cfg, s, c) && s.pc[c].Idle? && key in cfg.guards
    case Return(c) =>
      && c in cfg.parties && c in s.pc && Asking(s.pc[c])
      && Enabled(s.net, Deliver(c))
    case Network(a) =>
      && Enabled(s.net, a)
      && (a.Invoke? ==> a.client !in cfg.parties && FreeOp(cfg, a.op))
      && (a.Deliver? ==> a.client !in cfg.parties)
  }

  /** Client c moves to `pc` and issues the call that goes with it. */
  function Issue(cfg: Config, s: LockState, c: Client, pc: Pc): (t: LockState)
    requires c in cfg.parties && c !in s.net.calls && Asking(pc)
    ensures t.net.store == s.net.store && t.written == s.written
  {
    s.(net := Next(s.net, Invoke(c, OpFor(cfg.parties[c], pc))), pc := s.pc[c := pc])
  }

  ghost function Moved(cfg: Config, s: LockState, m: Move): LockState
    requires CanMove(cfg, s, m)
  {
    match m
    case Network(a) => s.(net := Next(s.net, a))
    case StartAcquire(c) => s.(pc := s.pc[c := AcqStart])
    case StartRelease(c) => Issue(cfg, s, c, RelGetting)
    case CallNext(c) => Issue(cfg, s, c, NextCall(s.pc[c]))
    case Read(c, key) => Issue(cfg, s, c, Reading(s.pc[c].view, key))
    case Write(c, key, value) => Issue(cfg, s, c, Writing(s.pc[c].view, key, value))
    case Create(c, key, value) => Issue(cfg, s, c, Creating(key, value))
    case Return(c) =>
      var pc, call := s.pc[c], s.net.calls[c];
      var reply := ClerkReply(call.op, call.retried, call.wire.reply);
      var pc' := AfterReply(cfg.parties[c], pc, reply);
      LockState(Next(s.net, Deliver(c)), s.pc[c := pc'],
                if pc.Writing? then s.written[pc.key := pc'.view[pc.key]] else s.written)
  }

  /** Everyone idle, an empty store, a silent network. */
  ghost function Start(cfg: Config): LockState {
    LockState(INIT, map c | c in cfg.parties :: Idle, map[])
  }

  ghost predicate Plays(cfg: Config, s: LockState, run: seq<Move>)
    decreases |run|
  {
    run == [] || (CanMove(cfg, s, run[0]) && Plays(cfg, Moved(cfg, s, run[0]), run[1..]))
  }

  ghost function Played(cfg: Config, s: LockState, run: seq<Move>): LockState
    requires Plays(cfg, s, run)
    decreases |run|
  {
    if run == [] then s else Played(cfg, Moved(cfg, s, run[0]), run[1..])
  }

  /** Between a returned Acquire and the clearing of the lock by Release. */
  predicate InSection(pc: Pc) {
    pc.Held? || pc.Reading? || pc.Writing? || pc.RelGetting? || pc.RelReady?
  }
}
