/** Data guarded by a lock: a later holder sees the previous holder's last write. */
module LockData {
  import opened KvServer
  import opened KvNetwork
  import opened LockProtocol
  import opened LockProof
  import opened LockTheorems
  import opened LockOwnership

  predicate WritingKey(s: LockState, c: Client, key: string) {
    c in s.pc && s.pc[c].Writing? && s.pc[c].key == key
  }

  /** A guarded key holds the last completed write, unless a holder is writing it right now. */
  ghost predicate WritesKept(cfg: Config, s: LockState) {
    forall k :: k in s.written ==>
      && k in cfg.guards && k in s.net.store
      && (s.net.store[k] == s.written[k] || exists c :: c in cfg.parties && WritingKey(s, c, k))
  }

  lemma DataWriter(cfg: Config, s: LockState, c: Client, k: string)
    requires Inv(cfg, s) && Live(cfg, s, c) && s.net.calls[c].op.key == k && k in cfg.guards && k in s.net.store
    ensures WritingKey(s, c, k)
  {
    assert PartyOk(cfg, s, c);
  }

  lemma NetworkWritesKept(cfg: Config, s: LockState, m: Move)
    requires Inv(cfg, s) && CanMove(cfg, s, m) && m.Network? && WritesKept(cfg, s)
    ensures WritesKept(cfg, Moved(cfg, s, m))
  {
    var t := Moved(cfg, s, m);
    var w := ChangeCause(cfg, s, m);
    forall k | k in t.written
      ensures k in cfg.guards && k in t.net.store
      ensures t.net.store[k] == t.written[k] || exists c :: c in cfg.parties && WritingKey(t, c, k)
    {
      assert k in s.written && Controlled(cfg, k);
      if !Elsewhere(cfg, s.net.store, t.net.store) && s.net.calls[w].op.key == k {
        DataWriter(cfg, s, w, k);
        assert WritingKey(t, w, k);
      } else if s.net.store[k] != s.written[k] {
        var c :| c in cfg.parties && WritingKey(s, c, k);
        assert WritingKey(t, c, k);
      }
    }
  }

  lemma ReturnWritesKept(cfg: Config, s: LockState, c: Client)
    requires PartiesOk(cfg, s) && CanMove(cfg, s, Return(c)) && WritesKept(cfg, s)
    ensures WritesKept(cfg, Moved(cfg, s, Return(c)))
  {
    var t := Moved(cfg, s, Return(c));
    assert PartyOk(cfg, s, c);
    if s.pc[c].Writing? {
      DataPutAnswered(cfg.guards, cfg.parties[c], s.net.store, s.net.log, s.pc[c], s.net.calls[c]);
    }
    OthersStillWrite(cfg, s, t, c);
  }

  /** A move of client c that leaves the store alone. */
  lemma OthersStillWrite(cfg: Config, s: LockState, t: LockState, c: Client)
    requires WritesKept(cfg, s) && t.net.store == s.net.store
    requires forall d :: d in s.pc && d != c ==> d in t.pc && t.pc[d] == s.pc[d]
    requires if c in s.pc && s.pc[c].Writing?
             then var k := s.pc[c].key;
                  && k in cfg.guards && k in t.written && t.written == s.written[k := t.written[k]]
                  && k in t.net.store && t.written[k] == t.net.store[k]
             else t.written == s.written
    ensures WritesKept(cfg, t)
  {
    forall k | k in t.written
      ensures k in cfg.guards && k in t.net.store
      ensures t.net.store[k] == t.written[k] || exists d :: d in cfg.parties && WritingKey(t, d, k)
    {
      if !WritingKey(s, c, k) && s.net.store[k] != s.written[k] {
        var d :| d in cfg.parties && WritingKey(s, d, k);
        assert WritingKey(t, d, k);
      }
    }
  }

  lemma StartWritesKept(cfg: Config, s: LockState, m: Move)
    requires Inv(cfg, s) && CanMove(cfg, s, m) && !m.Network? && !m.Return? && WritesKept(cfg, s)
    ensures WritesKept(cfg, Moved(cfg, s, m))
  {
    OthersStillWrite(cfg, s, Moved(cfg, s, m), m.client);
  }

  lemma WritesKeptStep(cfg: Config, s: LockState, m: Move)
    requires Inv(cfg, s) && WritesKept(cfg, s) && CanMove(cfg, s, m)
    ensures WritesKept(cfg, Moved(cfg, s, m))
  {
    if m.Network? {
      NetworkWritesKept(cfg, s, m);
    } else if m.Return? {
      ReturnWritesKept(cfg, s, m.client);
    } else {
      StartWritesKept(cfg, s, m);
    }
  }

  lemma {:induction false} WritesKeptRun(cfg: Config, s: LockState, run: seq<Move>)
    requires Inv(cfg, s) && WritesKept(cfg, s) && Plays(cfg, s, run)
    ensures WritesKept(cfg, Played(cfg, s, run))
    decreases |run|
  {
    if run != [] {
      InvStep(cfg, s, run[0]);
      WritesKeptStep(cfg, s, run[0]);
      WritesKeptRun(cfg, Moved(cfg, s, run[0]), run[1..]);
    }
  }

  /** A holder that was told that a guarded key does not exist was told so rightly: nobody has
      completed a write of it. */
  ghost predicate MissesHonest(cfg: Config, s: LockState) {
    forall c :: c in cfg.parties ==> MissHonest(s, c)
  }

  predicate MissHonest(s: LockState, c: Client) {
    (&& c in s.pc && s.pc[c].Reading? && c in s.net.calls
     && s.net.calls[c].wire.Answered? && s.net.calls[c].wire.reply.err != OK)
    ==> s.pc[c].key !in s.written
  }

  /** A Get is answered with what the server has. */
  lemma ReadExecuted(cfg: Config, s: LockState, c: Client)
    requires PartiesOk(cfg, s) && WritesKept(cfg, s) && c in cfg.parties && c in s.pc && Enabled(s.net, Execute(c))
    ensures MissHonest(s.(net := Next(s.net, Execute(c))), c)
  {
    assert PartyOk(cfg, s, c);
  }

  lemma NetworkMiss(s: LockState, a: Action, c: Client)
    requires Enabled(s.net, a) && a != Execute(c) && MissHonest(s, c)
    requires a.Invoke? || a.Deliver? ==> a.client != c
    ensures MissHonest(s.(net := Next(s.net, a)), c)
  {
  }

  lemma NetworkMisses(cfg: Config, s: LockState, a: Action)
    requires PartiesOk(cfg, s) && CanMove(cfg, s, Network(a)) && WritesKept(cfg, s) && MissesHonest(cfg, s)
    ensures MissesHonest(cfg, Moved(cfg, s, Network(a)))
  {
    forall c | c in cfg.parties
      ensures MissHonest(Moved(cfg, s, Network(a)), c)
    {
      if a == Execute(c) {
        ReadExecuted(cfg, s, c);
      } else {
        NetworkMiss(s, a, c);
      }
    }
  }

  /** Nobody completes a write of a key that another holder is reading. */
  lemma ReturnMisses(cfg: Config, s: LockState, c: Client)
    requires WellFormed(cfg) && PartiesOk(cfg, s) && CanMove(cfg, s, Return(c)) && MissesHonest(cfg, s)
    ensures MissesHonest(cfg, Moved(cfg, s, Return(c)))
  {
    var t := Moved(cfg, s, Return(c));
    forall d | d in cfg.parties
      ensures MissHonest(t, d)
    {
      assert MissHonest(s, d);
      if d != c && s.pc[c].Writing? && s.pc[d].Reading? && s.pc[d].key == s.pc[c].key {
        CallOfParty(cfg, s, c);
        CallOfParty(cfg, s, d);
        OneOwner(cfg, c, d, s.net.store);
      }
    }
  }

  lemma StartMisses(cfg: Config, s: LockState, m: Move)
    requires CanMove(cfg, s, m) && !m.Network? && !m.Return? && MissesHonest(cfg, s)
    ensures MissesHonest(cfg, Moved(cfg, s, m))
  {
    var t := Moved(cfg, s, m);
    forall c | c in cfg.parties
      ensures MissHonest(t, c)
    {
      assert MissHonest(s, c);
    }
  }

  lemma {:induction false} MissesHonestRun(cfg: Config, s: LockState, run: seq<Move>)
    requires Inv(cfg, s) && WritesKept(cfg, s) && MissesHonest(cfg, s) && Plays(cfg, s, run)
    ensures MissesHonest(cfg, Played(cfg, s, run))
    decreases |run|
  {
    if run != [] {
      var m := run[0];
      InvStep(cfg, s, m);
      WritesKeptStep(cfg, s, m);
      if m.Network? {
        NetworkMisses(cfg, s, m.action);
      } else if m.Return? {
        ReturnMisses(cfg, s, m.client);
      } else {
        StartMisses(cfg, s, m);
      }
      MissesHonestRun(cfg, Moved(cfg, s, m), run[1..]);
    }
  }

  lemma ReadsWritten(cfg: Config, s: LockState, c: Client)
    requires WellFormed(cfg) && PartiesOk(cfg, s) && WritesKept(cfg, s) && MissesHonest(cfg, s)
    requires CanMove(cfg, s, Return(c)) && s.pc[c].Reading? && s.pc[c].key in s.written
    ensures Pending(s, c).err == OK
    ensures Entry(Pending(s, c).value, Pending(s, c).version) == s.written[s.pc[c].key]
  {
    assert PartyOk(cfg, s, c) && MissHonest(s, c);
    var k := s.pc[c].key;
    if exists d :: d in cfg.parties && WritingKey(s, d, k) {
      var d :| d in cfg.parties && WritingKey(s, d, k);
      assert PartyOk(cfg, s, d);
      OneOwner(cfg, c, d, s.net.store);
    }
  }

  /** Reading guarded data in the section succeeds and yields the last write any holder completed,
      whoever held the lock then. */
  lemma SeesLastWrite(cfg: Config, run: seq<Move>, c: Client)
    requires WellFormed(cfg) && Plays(cfg, Start(cfg), run)
    requires var s := Played(cfg, Start(cfg), run);
             CanMove(cfg, s, Return(c)) && s.pc[c].Reading? && s.pc[c].key in s.written
    ensures var s := Played(cfg, Start(cfg), run);
            && Pending(s, c).err == OK
            && Entry(Pending(s, c).value, Pending(s, c).version) == s.written[s.pc[c].key]
  {
    Reached(cfg, run);
    InvStart(cfg);
    WritesKeptRun(cfg, Start(cfg), run);
    MissesHonestRun(cfg, Start(cfg), run);
    ReadsWritten(cfg, Played(cfg, Start(cfg), run), c);
  }
}
