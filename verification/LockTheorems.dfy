/** Safety of the lock over whole runs. */
module LockTheorems {
  import opened KvServer
  import opened KvNetwork
  import opened LockProtocol
  import opened LockProof

  // ---------------------------------------------------------------------------------------
  // Mutual exclusion, and what a release does
  // ---------------------------------------------------------------------------------------

  lemma Reached(cfg: Config, run: seq<Move>)
    requires WellFormed(cfg) && Plays(cfg, Start(cfg), run)
    ensures Inv(cfg, Played(cfg, Start(cfg), run))
  {
    InvStart(cfg);
    InvRun(cfg, Start(cfg), run);
  }

  lemma SectionOwns(cfg: Config, s: LockState, c: Client)
    requires PartiesOk(cfg, s) && c in cfg.parties && c in s.pc && InSection(s.pc[c])
    ensures Owns(cfg.parties[c], s.net.store)
  {
    assert PartyOk(cfg, s, c);
  }

  /** In every run, with any losses and late duplicates: whoever is in the section of a lock is
      named by the lock's value, and nobody else is in it. */
  lemma MutualExclusion(cfg: Config, run: seq<Move>, c: Client, d: Client)
    requires WellFormed(cfg) && Plays(cfg, Start(cfg), run)
    requires c in cfg.parties && d in cfg.parties && cfg.parties[c].name == cfg.parties[d].name
    requires var s := Played(cfg, Start(cfg), run);
             c in s.pc && d in s.pc && InSection(s.pc[c]) && InSection(s.pc[d])
    ensures c == d
    ensures ValueOf(Played(cfg, Start(cfg), run).net.store, cfg.parties[c].name) == cfg.parties[c].id
  {
    Reached(cfg, run);
    var s := Played(cfg, Start(cfg), run);
    SectionOwns(cfg, s, c);
    SectionOwns(cfg, s, d);
    OneOwner(cfg, c, d, s.net.store);
  }

  /** The reply a client is about to receive. */
  function Pending(s: LockState, c: Client): Reply
    requires c in s.net.calls && s.net.calls[c].wire.Answered?
  {
    var call := s.net.calls[c];
    ClerkReply(call.op, call.retried, call.wire.reply)
  }

  /** What the invariant says of a client with a call in progress. */
  lemma CallOfParty(cfg: Config, s: LockState, c: Client)
    requires PartiesOk(cfg, s) && c in cfg.parties && c in s.pc && Waiting(s.pc[c])
    ensures c in s.net.calls
    ensures CallOk(cfg.guards, cfg.parties[c], s.net.store, s.net.log, s.pc[c], s.net.calls[c])
  {
    assert PartyOk(cfg, s, c);
  }

  lemma ReleasePutAnswered(guards: map<string, string>, p: Party, store: Store, log: seq<Exec>, pc: Pc, call: Call)
    requires pc.RelPutting? && CallOk(guards, p, store, log, pc, call) && call.wire.Answered?
    ensures var err := ClerkReply(call.op, call.retried, call.wire.reply).err; err == OK || err == ErrMaybe
    ensures AppliedBy(log, call.id) == 1 && !Owns(p, store)
  {
  }

  lemma ReleaseInState(cfg: Config, s: LockState, c: Client)
    requires PartiesOk(cfg, s) && CanMove(cfg, s, Return(c)) && s.pc[c].RelPutting?
    ensures (Pending(s, c).err == OK || Pending(s, c).err == ErrMaybe)
    ensures AppliedBy(s.net.log, s.net.calls[c].id) == 1
    ensures ValueOf(s.net.store, cfg.parties[c].name) != cfg.parties[c].id
  {
    CallOfParty(cfg, s, c);
    ReleasePutAnswered(cfg.guards, cfg.parties[c], s.net.store, s.net.log, s.pc[c], s.net.calls[c]);
  }

  /** When the Put of a Release returns it answers OK or ErrMaybe, never ErrVersion; it has been
      written exactly once, and the caller no longer owns the lock. */
  lemma ReleaseTakesEffect(cfg: Config, run: seq<Move>, c: Client)
    requires WellFormed(cfg) && Plays(cfg, Start(cfg), run)
    requires var s := Played(cfg, Start(cfg), run); CanMove(cfg, s, Return(c)) && s.pc[c].RelPutting?
    ensures var s := Played(cfg, Start(cfg), run);
            && (Pending(s, c).err == OK || Pending(s, c).err == ErrMaybe)
            && AppliedBy(s.net.log, s.net.calls[c].id) == 1
            && ValueOf(s.net.store, cfg.parties[c].name) != cfg.parties[c].id
  {
    Reached(cfg, run);
    ReleaseInState(cfg, Played(cfg, Start(cfg), run), c);
  }

  lemma DataPutAnswered(guards: map<string, string>, p: Party, store: Store, log: seq<Exec>, pc: Pc, call: Call)
    requires pc.Writing? && CallOk(guards, p, store, log, pc, call) && call.wire.Answered?
    ensures var err := ClerkReply(call.op, call.retried, call.wire.reply).err; err == OK || err == ErrMaybe
    ensures AppliedBy(log, call.id) == 1
    ensures pc.key in guards && pc.key in store && store[pc.key] == Entry(pc.value, pc.view[pc.key].version + 1)
  {
  }

  lemma WriteInState(cfg: Config, s: LockState, c: Client)
    requires PartiesOk(cfg, s) && CanMove(cfg, s, Return(c)) && s.pc[c].Writing?
    ensures var key := s.pc[c].key;
            && (Pending(s, c).err == OK || Pending(s, c).err == ErrMaybe)
            && AppliedBy(s.net.log, s.net.calls[c].id) == 1
            && key in s.net.store && s.net.store[key] == Entry(s.pc[c].value, s.pc[c].view[key].version + 1)
  {
    CallOfParty(cfg, s, c);
    DataPutAnswered(cfg.guards, cfg.parties[c], s.net.store, s.net.log, s.pc[c], s.net.calls[c]);
  }

  /** A write of guarded data at the version the holder knows answers OK or ErrMaybe, and in both
      cases has been written exactly once and is what the server holds. */
  lemma GuardedWriteTakesEffect(cfg: Config, run: seq<Move>, c: Client)
    requires WellFormed(cfg) && Plays(cfg, Start(cfg), run)
    requires var s := Played(cfg, Start(cfg), run); CanMove(cfg, s, Return(c)) && s.pc[c].Writing?
    ensures var s := Played(cfg, Start(cfg), run);
            var key := s.pc[c].key;
            && (Pending(s, c).err == OK || Pending(s, c).err == ErrMaybe)
            && AppliedBy(s.net.log, s.net.calls[c].id) == 1
            && key in s.net.store && s.net.store[key] == Entry(s.pc[c].value, s.pc[c].view[key].version + 1)
  {
    Reached(cfg, run);
    WriteInState(cfg, Played(cfg, Start(cfg), run), c);
  }

  /** Whatever a holder read or wrote since it acquired the lock is still what the server holds. */
  lemma HolderViewExact(cfg: Config, run: seq<Move>, c: Client, key: string)
    requires WellFormed(cfg) && Plays(cfg, Start(cfg), run)
    requires var s := Played(cfg, Start(cfg), run);
             c in cfg.parties && c in s.pc && s.pc[c].Held? && key in s.pc[c].view
    ensures var s := Played(cfg, Start(cfg), run); key in s.net.store && s.net.store[key] == s.pc[c].view[key]
  {
    Reached(cfg, run);
    assert PartyOk(cfg, Played(cfg, Start(cfg), run), c);
  }
}
