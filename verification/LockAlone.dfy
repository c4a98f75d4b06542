/** Undisturbed, Acquire and Release succeed; and what a Release by a client that does not hold the
    lock would do. */
module LockAlone {
  import opened KvServer
  import opened KvNetwork
  import opened LockProtocol
  import opened LockProof

  lemma PlayCons(cfg: Config, s: LockState, m: Move, rest: seq<Move>)
    requires CanMove(cfg, s, m) && Plays(cfg, Moved(cfg, s, m), rest)
    ensures Plays(cfg, s, [m] + rest) && Played(cfg, s, [m] + rest) == Played(cfg, Moved(cfg, s, m), rest)
  {
    assert ([m] + rest)[1..] == rest;
  }

  lemma ConsConcat(run: seq<Move>, more: seq<Move>)
    requires run != []
    ensures run + more == [run[0]] + (run[1..] + more)
  {
  }

  lemma {:induction false} PlayConcat(cfg: Config, s: LockState, run: seq<Move>, more: seq<Move>)
    requires Plays(cfg, s, run) && Plays(cfg, Played(cfg, s, run), more)
    ensures Plays(cfg, s, run + more) && Played(cfg, s, run + more) == Played(cfg, Played(cfg, s, run), more)
    decreases |run|
  {
    if run == [] {
      assert run + more == more;
    } else {
      PlayConcat(cfg, Moved(cfg, s, run[0]), run[1..], more);
      ConsConcat(run, more);
      PlayCons(cfg, s, run[0], run[1..] + more);
    }
  }

  /** A call that has just been issued: its request and its reply get through at once. */
  lemma AnsweredAtOnce(cfg: Config, s: LockState, c: Client, pc: Pc) returns (run: seq<Move>)
    requires Free(cfg, s, c) && Asking(pc)
    ensures Plays(cfg, Issue(cfg, s, c, pc), run) && |run| == 2
    ensures GotAnswer(cfg, s, Played(cfg, Issue(cfg, s, c, pc), run), c, pc)
  {
    var t := Issue(cfg, s, c, pc);
    var u := Moved(cfg, t, Network(Execute(c)));
    PlayCons(cfg, u, Return(c), []);
    PlayCons(cfg, t, Network(Execute(c)), [Return(c)] + []);
    run := [Network(Execute(c))] + ([Return(c)] + []);
    assert Moved(cfg, u, Return(c)).net.calls == s.net.calls;
  }

  /** In `t` client c has its answer to the call it made from `s`, and nobody else moved. */
  ghost predicate GotAnswer(cfg: Config, s: LockState, t: LockState, c: Client, pc: Pc)
    requires c in cfg.parties && Asking(pc)
  {
    var (store, reply) := Serve(s.net.store, OpFor(cfg.parties[c], pc));
    && t.net.calls == s.net.calls && t.net.store == store
    && t.pc == s.pc[c := AfterReply(cfg.parties[c], pc, reply)]
    && t.written == if pc.Writing? then s.written[pc.key := Entry(pc.value, pc.view[pc.key].version + 1)] else s.written
  }

  /** One call whose request and reply get through at once. */
  lemma CallThrough(cfg: Config, s: LockState, c: Client, m: Move, pc: Pc) returns (run: seq<Move>)
    requires Free(cfg, s, c) && CanMove(cfg, s, m) && Asking(pc) && Moved(cfg, s, m) == Issue(cfg, s, c, pc)
    ensures Plays(cfg, s, run) && |run| == 3 && GotAnswer(cfg, s, Played(cfg, s, run), c, pc)
  {
    var rest := AnsweredAtOnce(cfg, s, c, pc);
    PlayCons(cfg, s, m, rest);
    run := [m] + rest;
  }

  /** Two calls, one after the other. */
  lemma CallAgain(cfg: Config, s: LockState, first: seq<Move>, c: Client) returns (run: seq<Move>)
    requires Plays(cfg, s, first) && Free(cfg, Played(cfg, s, first), c)
    requires var pc := Played(cfg, s, first).pc[c]; pc.AcqStart? || pc.AcqReady? || pc.RelReady?
    ensures Plays(cfg, s, run) && |run| == |first| + 3
    ensures var t := Played(cfg, s, first); GotAnswer(cfg, t, Played(cfg, s, run), c, NextCall(t.pc[c]))
  {
    var t := Played(cfg, s, first);
    var more := CallThrough(cfg, t, c, CallNext(c), NextCall(t.pc[c]));
    PlayConcat(cfg, s, first, more);
    run := first + more;
  }

  /** A client that finds the lock free or its own gets it in at most two calls. */
  lemma AcquireAlone(cfg: Config, s: LockState, c: Client) returns (run: seq<Move>)
    requires Free(cfg, s, c) && cfg.parties[c].id != "" && s.pc[c].AcqStart?
    requires ValueOf(s.net.store, cfg.parties[c].name) == "" || Owns(cfg.parties[c], s.net.store)
    ensures Plays(cfg, s, run) && |run| <= 6
    ensures var t := Played(cfg, s, run);
            t.pc == s.pc[c := Held(map[])] && t.net.calls == s.net.calls && Owns(cfg.parties[c], t.net.store)
  {
    run := CallThrough(cfg, s, c, CallNext(c), AcqGetting);
    if !Played(cfg, s, run).pc[c].Held? {
      run := CallAgain(cfg, s, run, c);
    }
  }

  /** Whoever starts a Release empties the lock, undisturbed, in two calls. */
  lemma ReleaseEmpties(cfg: Config, s: LockState, c: Client) returns (run: seq<Move>)
    requires Free(cfg, s, c) && cfg.parties[c].name in s.net.store
    ensures Plays(cfg, Issue(cfg, s, c, RelGetting), run)
    ensures var t := Played(cfg, Issue(cfg, s, c, RelGetting), run);
            && t.pc == s.pc[c := Idle] && t.net.calls == s.net.calls
            && ValueOf(t.net.store, cfg.parties[c].name) == ""
  {
    run := AnsweredAtOnce(cfg, s, c, RelGetting);
    run := CallAgain(cfg, Issue(cfg, s, c, RelGetting), run, c);
  }

  /** A holder frees the lock in two calls. */
  lemma ReleaseAlone(cfg: Config, s: LockState, c: Client) returns (run: seq<Move>)
    requires WellFormed(cfg) && PartiesOk(cfg, s) && Free(cfg, s, c) && s.pc[c].Held?
    ensures Plays(cfg, s, run)
    ensures var t := Played(cfg, s, run);
            && t.pc == s.pc[c := Idle] && t.net.calls == s.net.calls
            && ValueOf(t.net.store, cfg.parties[c].name) == ""
  {
    assert PartyOk(cfg, s, c);
    var rest := ReleaseEmpties(cfg, s, c);
    PlayCons(cfg, s, StartRelease(c), rest);
    run := [StartRelease(c)] + rest;
  }

  /** Guarded data that was never written is created by one call, and is left alone otherwise. */
  lemma CreateAlone(cfg: Config, s: LockState, c: Client, key: string, value: string) returns (run: seq<Move>)
    requires Free(cfg, s, c) && s.pc[c].Idle? && key in cfg.guards
    ensures Plays(cfg, s, run) && |run| == 3
    ensures var t := Played(cfg, s, run);
            && t.pc == s.pc && t.net.calls == s.net.calls
            && t.net.store == if VersionOf(s.net.store, key) > 0 then s.net.store
                              else s.net.store[key := Entry(value, 1)]
  {
    run := CallThrough(cfg, s, c, Create(c, key, value), Creating(key, value));
    assert s.pc[c := Idle] == s.pc;
  }

  lemma ReadAlone(cfg: Config, s: LockState, c: Client, key: string) returns (run: seq<Move>)
    requires Free(cfg, s, c) && s.pc[c].Held? && key in cfg.guards && cfg.guards[key] == cfg.parties[c].name
    requires key in s.net.store
    ensures Plays(cfg, s, run) && |run| == 3
    ensures var t := Played(cfg, s, run);
            && t.net.store == s.net.store && t.net.calls == s.net.calls && t.written == s.written
            && t.pc == s.pc[c := Held(s.pc[c].view[key := s.net.store[key]])]
  {
    run := CallThrough(cfg, s, c, Read(c, key), Reading(s.pc[c].view, key));
  }

  lemma WriteAlone(cfg: Config, s: LockState, c: Client, key: string, value: string) returns (run: seq<Move>)
    requires Free(cfg, s, c) && s.pc[c].Held? && key in s.pc[c].view
    requires key in s.net.store && s.net.store[key] == s.pc[c].view[key]
    ensures Plays(cfg, s, run) && |run| == 3
    ensures var t, entry := Played(cfg, s, run), Entry(value, s.net.store[key].version + 1);
            && t.net.store == s.net.store[key := entry] && t.net.calls == s.net.calls
            && t.pc == s.pc[c := Held(s.pc[c].view[key := entry])] && t.written == s.written[key := entry]
  {
    run := CallThrough(cfg, s, c, Write(c, key, value), Writing(s.pc[c].view, key, value));
  }

  /** A holder reads guarded data that exists and writes it, undisturbed, in two calls: the value is
      replaced, the version grows by one, and nothing else changes. */
  lemma UpdateAlone(cfg: Config, s: LockState, c: Client, key: string, value: string) returns (run: seq<Move>)
    requires Free(cfg, s, c) && s.pc[c].Held? && key in cfg.guards && cfg.guards[key] == cfg.parties[c].name
    requires key in s.net.store
    ensures Plays(cfg, s, run) && |run| == 6
    ensures var t, entry := Played(cfg, s, run), Entry(value, s.net.store[key].version + 1);
            && t.net.store == s.net.store[key := entry] && t.net.calls == s.net.calls
            && t.pc == s.pc[c := Held(s.pc[c].view[key := entry])] && t.written == s.written[key := entry]
  {
    var first := ReadAlone(cfg, s, c, key);
    var more := WriteAlone(cfg, Played(cfg, s, first), c, key, value);
    PlayConcat(cfg, s, first, more);
    run := first + more;
    var view, entry := s.pc[c].view, Entry(value, s.net.store[key].version + 1);
    assert view[key := s.net.store[key]][key := entry] == view[key := entry];
  }

  /** That the caller of Release holds the lock is needed: if any other contender d calls it while c
      holds the lock, then c and another contender e, which may be d itself, can both be in the
      section. */
  lemma ReleaseByOtherBreaks(cfg: Config, s: LockState, c: Client, d: Client, e: Client) returns (run: seq<Move>)
    requires WellFormed(cfg) && PartiesOk(cfg, s) && c in cfg.parties && c in s.pc && s.pc[c].Held?
    requires Free(cfg, s, d) && s.pc[d].Idle? && Free(cfg, s, e) && s.pc[e].Idle?
    requires cfg.parties[c].name == cfg.parties[d].name == cfg.parties[e].name
    ensures Plays(cfg, Issue(cfg, s, d, RelGetting), run)
    ensures var t := Played(cfg, Issue(cfg, s, d, RelGetting), run);
            && c != e && c in t.pc && e in t.pc && InSection(t.pc[c]) && InSection(t.pc[e])
  {
    assert PartyOk(cfg, s, c);
    var s1 := Issue(cfg, s, d, RelGetting);
    var r1 := ReleaseEmpties(cfg, s, d);
    var s2 := Played(cfg, s1, r1);
    var s3 := Moved(cfg, s2, StartAcquire(e));
    var r3 := AcquireAlone(cfg, s3, e);
    PlayCons(cfg, s2, StartAcquire(e), r3);
    PlayConcat(cfg, s1, r1, [StartAcquire(e)] + r3);
    run := r1 + ([StartAcquire(e)] + r3);
  }
}
