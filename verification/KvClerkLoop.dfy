/** The clerk's retry loops, run against a server that other clients use meanwhile. What the
    network does is given as a list of rounds, one for each transmission. */
module KvClerkLoop {
  import opened KvServer
  import opened KvNetwork
  import opened Options

  datatype Fate = LoseRequest | LoseReply | GiveUp | Through

  /** What reaches the server between two transmissions: another client's request, or the handler of
      a transmission of the same call that the clerk gave up, if there is one left. */
  datatype Happening = Other(op: Op) | Late

  datatype Round = Round(meanwhile: seq<Happening>, fate: Fate)

  /** The store, and how many transmissions given up have a handler still to run. */
  function Happened(store: Store, op: Op, left: nat, h: Happening): (Store, nat) {
    match h
    case Other(o) => (Serve(store, o).0, left)
    case Late => if left > 0 then (Serve(store, op).0, left - 1) else (store, left)
  }

  function Meanwhile(store: Store, op: Op, left: nat, hs: seq<Happening>): (Store, nat)
    decreases |hs|
  {
    if hs == [] then (store, left)
    else var (store', left') := Happened(store, op, left, hs[0]); Meanwhile(store', op, left', hs[1..])
  }

  /** The state after one transmission, and the server's reply if it arrived. */
  function Transmit(store: Store, op: Op, left: nat, round: Round): (Store, nat, Option<Reply>) {
    var (seen, left') := Meanwhile(store, op, left, round.meanwhile);
    match round.fate
    case LoseRequest => (seen, left', None)
    case LoseReply => (Serve(seen, op).0, left', None)
    case GiveUp => (seen, left' + 1, None)
    case Through => (Serve(seen, op).0, left', Some(Serve(seen, op).1))
  }

  /** The state and the clerk's answer after the given rounds; None while it is still resending. */
  function Insist(store: Store, op: Op, retried: bool, left: nat, rounds: seq<Round>): (Store, nat, Option<Reply>)
    decreases |rounds|
  {
    if rounds == [] then (store, left, None)
    else
      var (store', left', reply) := Transmit(store, op, left, rounds[0]);
      if reply.None? then Insist(store', op, true, left', rounds[1..])
      else (store', left', Some(ClerkReply(op, retried, reply.value)))
  }

  class Clerk {
    const server: KVServer
    /** Transmissions of the current call that were given up and whose handlers have yet to run;
        those of earlier calls are among the requests that arrive meanwhile. */
    var left: nat

    constructor (server: KVServer)
      ensures this.server == server && left == 0
    {
      this.server, left := server, 0;
    }

    /** One RPC over the network. */
    method Call(op: Op, round: Round) returns (ok: bool, reply: Reply)
      modifies this, server
      ensures (server.KVStore, left, if ok then Some(reply) else None)
           == Transmit(old(server.KVStore), op, old(left), round)
    {
      ok, reply := false, PutReply(OK);
      var i := 0;
      while i < |round.meanwhile|
        invariant 0 <= i <= |round.meanwhile|
        invariant Meanwhile(server.KVStore, op, left, round.meanwhile[i..])
               == Meanwhile(old(server.KVStore), op, old(left), round.meanwhile)
      {
        Happen(op, round.meanwhile[i]);
        assert round.meanwhile[i..][1..] == round.meanwhile[i+1..];
        i := i + 1;
      }
      if round.fate == LoseRequest {
        return;
      }
      if round.fate == GiveUp {
        left := left + 1;
        return;
      }
      reply := Handle(op);
      ok := round.fate == Through;
    }

    method Happen(op: Op, h: Happening)
      modifies this, server
      ensures (server.KVStore, left) == Happened(old(server.KVStore), op, old(left), h)
    {
      match h
      case Other(o) => var _ := Handle(o);
      case Late =>
        if left > 0 {
          var _ := Handle(op);
          left := left - 1;
        }
    }

    method Handle(op: Op) returns (reply: Reply)
      modifies server
      ensures (server.KVStore, reply) == Serve(old(server.KVStore), op)
    {
      match op
      case Get(key) => reply := server.Get(key);
      case Put(key, value, version) => reply := server.Put(key, value, version);
    }

    method Get(key: string, rounds: seq<Round>) returns (r: Option<Reply>)
      modifies this, server
      ensures (server.KVStore, left, r) == Insist(old(server.KVStore), Op.Get(key), false, 0, rounds)
    {
      left := 0;
      var i := 0;
      ghost var retried := false;
      while i < |rounds|
        invariant 0 <= i <= |rounds|
        invariant Insist(server.KVStore, Op.Get(key), retried, left, rounds[i..])
               == Insist(old(server.KVStore), Op.Get(key), false, 0, rounds)
      {
        var ok, reply := Call(Op.Get(key), rounds[i]);
        if ok {
          return Some(reply);
        }
        assert rounds[i..][1..] == rounds[i+1..];
        i, retried := i + 1, true;
      }
      r := None;
    }

    method Put(key: string, value: string, version: nat, rounds: seq<Round>) returns (r: Option<Err>)
      modifies this, server
      ensures var (store, l, reply) := Insist(old(server.KVStore), Op.Put(key, value, version), false, 0, rounds);
              && server.KVStore == store && left == l
              && r == if reply.None? then None else Some(reply.value.err)
    {
      var op := Op.Put(key, value, version);
      left := 0;
      var i := 0;
      var retried := false;
      while i < |rounds|
        invariant 0 <= i <= |rounds|
        invariant Insist(server.KVStore, op, retried, left, rounds[i..])
               == Insist(old(server.KVStore), op, false, 0, rounds)
      {
        var ok, reply := Call(op, rounds[i]);
        assert rounds[i..][1..] == rounds[i+1..];
        i := i + 1;
        if !ok {
          retried := true;
          continue;
        }
        if reply.err == ErrVersion && retried {
          return Some(ErrMaybe);
        }
        return Some(reply.err);
      }
      r := None;
    }
  }

  // ---------------------------------------------------------------------------------------
  // The loop is a run of the network
  // ---------------------------------------------------------------------------------------

  /** Client c waits for an answer, client d is idle, and `left` transmissions of c's call are late. */
  predicate Calling(s: State, c: Client, d: Client, left: nat) {
    && c in s.calls && s.calls[c].wire.Sent? && d !in s.calls
    && s.late[Request(c, s.calls[c].id, s.calls[c].op)] == left
  }

  /** Between two transmissions: the idle client makes a call that gets through, or a late handler
      runs. */
  lemma HappenedRun(s: State, c: Client, d: Client, left: nat, h: Happening) returns (run: seq<Action>)
    requires Calling(s, c, d, left)
    ensures Legal(s, run)
    ensures var t := After(s, run);
            t.calls == s.calls && Happened(s.store, s.calls[c].op, left, h) == (t.store, t.late[LateOf(s, c)])
  {
    match h
    case Other(o) =>
      var t := Next(s, Invoke(d, o));
      var u := Next(t, Execute(d));
      RunCons(u, Deliver(d), []);
      RunCons(t, Execute(d), [Deliver(d)] + []);
      RunCons(s, Invoke(d, o), [Execute(d)] + ([Deliver(d)] + []));
      run := [Invoke(d, o)] + ([Execute(d)] + ([Deliver(d)] + []));
      assert Next(u, Deliver(d)).calls == s.calls;
    case Late =>
      if left > 0 {
        RunCons(s, ExecuteLate(LateOf(s, c)), []);
        run := [ExecuteLate(LateOf(s, c))] + [];
      } else {
        run := [];
      }
  }

  function LateOf(s: State, c: Client): Request
    requires c in s.calls
  {
    Request(c, s.calls[c].id, s.calls[c].op)
  }

  lemma {:induction false} MeanwhileRun(s: State, c: Client, d: Client, left: nat, hs: seq<Happening>)
    returns (run: seq<Action>)
    requires Calling(s, c, d, left)
    ensures Legal(s, run)
    ensures var t := After(s, run);
            t.calls == s.calls && Meanwhile(s.store, s.calls[c].op, left, hs) == (t.store, t.late[LateOf(s, c)])
    decreases |hs|
  {
    if hs == [] {
      run := [];
    } else {
      var run0 := HappenedRun(s, c, d, left, hs[0]);
      var t := After(s, run0);
      var rest := MeanwhileRun(t, c, d, t.late[LateOf(s, c)], hs[1..]);
      RunConcat(s, run0, rest);
      run := run0 + rest;
    }
  }

  /** What the network does to the transmission itself. */
  lemma FateRun(s: State, c: Client, d: Client, left: nat, fate: Fate) returns (run: seq<Action>)
    requires Calling(s, c, d, left)
    ensures Legal(s, run)
    ensures var call, t := s.calls[c], After(s, run);
            var (store, left', reply) := Transmit(s.store, call.op, left, Round([], fate));
            && t.store == store && t.late[LateOf(s, c)] == left'
            && t.calls == s.calls[c := if reply.None? then Resend(call) else call.(wire := Answered(reply.value))]
  {
    match fate
    case LoseRequest =>
      RunCons(s, DropRequest(c), []);
      run := [DropRequest(c)] + [];
    case LoseReply =>
      var t := Next(s, Execute(c));
      RunCons(t, DropReply(c), []);
      RunCons(s, Execute(c), [DropReply(c)] + []);
      run := [Execute(c)] + ([DropReply(c)] + []);
    case GiveUp =>
      RunCons(s, Abandon(c), []);
      run := [Abandon(c)] + [];
    case Through =>
      RunCons(s, Execute(c), []);
      run := [Execute(c)] + [];
  }

  /** One transmission of client c's call. */
  lemma TransmitRun(s: State, c: Client, d: Client, left: nat, round: Round) returns (run: seq<Action>)
    requires Calling(s, c, d, left)
    ensures Legal(s, run)
    ensures var call, t := s.calls[c], After(s, run);
            var (store, left', reply) := Transmit(s.store, call.op, left, round);
            && t.store == store && t.late[LateOf(s, c)] == left'
            && t.calls == s.calls[c := if reply.None? then Resend(call) else call.(wire := Answered(reply.value))]
  {
    var run0 := MeanwhileRun(s, c, d, left, round.meanwhile);
    var t := After(s, run0);
    var rest := FateRun(t, c, d, t.late[LateOf(s, c)], round.fate);
    RunConcat(s, run0, rest);
    run := run0 + rest;
  }

  /** Client c's call ended in `t` with this answer, or is still being resent. */
  predicate Ended(s: State, t: State, c: Client, reply: Option<Reply>)
    requires c in s.calls
  {
    match reply
    case Some(r) => t.calls == s.calls - {c} && t.hist != [] && t.hist[|t.hist|-1] == Returned(s.calls[c].id, r)
    case None => c in t.calls && t.calls[c].id == s.calls[c].id && t.calls[c].wire.Sent?
  }

  lemma DeliverRun(s: State, t: State, c: Client, reply: Reply)
    requires c in s.calls && t.calls == s.calls[c := s.calls[c].(wire := Answered(reply))]
    ensures Legal(t, [Deliver(c)] + [])
    ensures var call := s.calls[c];
            && Ended(s, After(t, [Deliver(c)] + []), c, Some(ClerkReply(call.op, call.retried, reply)))
            && After(t, [Deliver(c)] + []).store == t.store && After(t, [Deliver(c)] + []).late == t.late
  {
    RunCons(t, Deliver(c), []);
    assert Next(t, Deliver(c)).calls == s.calls - {c};
  }

  /** Whatever the network does, the clerk's loop is a run of the machine in which its call ends
      with the answer the loop returns, so everything proved of runs holds of the loop. */
  lemma {:induction false} InsistRun(s: State, c: Client, d: Client, left: nat, rounds: seq<Round>)
    returns (run: seq<Action>)
    requires Calling(s, c, d, left)
    ensures Legal(s, run)
    ensures var call, t := s.calls[c], After(s, run);
            var (store, left', reply) := Insist(s.store, call.op, call.retried, left, rounds);
            t.store == store && t.late[LateOf(s, c)] == left' && Ended(s, t, c, reply)
    decreases |rounds|
  {
    if rounds == [] {
      run := [];
    } else {
      var run0 := TransmitRun(s, c, d, left, rounds[0]);
      var t := After(s, run0);
      var rest;
      if t.calls[c].wire.Sent? {
        rest := InsistRun(t, c, d, t.late[LateOf(s, c)], rounds[1..]);
      } else {
        rest := [Deliver(c)] + [];
        DeliverRun(s, t, c, t.calls[c].wire.reply);
      }
      RunConcat(s, run0, rest);
      run := run0 + rest;
    }
  }
}
