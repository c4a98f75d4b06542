/** Acquire and Release as loops are what a client of the lock machine does: in every run, on the replies
    the client's calls really receive, the loop asks the client's calls in order and is where the client
    is. So what is proved of every run of the machine holds of the loops. */
module LockRefinement {
  import opened KvServer
  import opened KvNetwork
  import opened LockProtocol
  import opened LockLoop

  predicate IsMoveOf(m: Move, c: Client) {
    !m.Network? && m.client == c
  }

  /** Client c does nothing but go on with the Acquire or Release it is in. */
  predicate GoesOn(run: seq<Move>, c: Client) {
    forall m :: m in run && IsMoveOf(m, c) ==> m.CallNext? || m.Return?
  }

  /** What client c's clerk returns to it. */
  function ReplyOf(call: Call): Reply
    requires call.wire.Answered?
  {
    ClerkReply(call.op, call.retried, call.wire.reply)
  }

  /** The replies that client c receives in a run, in order. */
  ghost function Received(cfg: Config, s: LockState, run: seq<Move>, c: Client): seq<Reply>
    requires Plays(cfg, s, run)
    decreases |run|
  {
    if run == [] then []
    else
      var rest := Received(cfg, Moved(cfg, s, run[0]), run[1..], c);
      if run[0] == Return(c) then [ReplyOf(s.net.calls[c])] + rest else rest
  }

  /** The calls that client c makes in a run, in order, as the network sees them. */
  ghost function Issued(cfg: Config, s: LockState, run: seq<Move>, c: Client): seq<Op>
    requires Plays(cfg, s, run)
    decreases |run|
  {
    if run == [] then []
    else
      var t := Moved(cfg, s, run[0]);
      var rest := Issued(cfg, t, run[1..], c);
      if c !in s.net.calls && c in t.net.calls then [t.net.calls[c].op] + rest else rest
  }

  /** Client c waits for the call that goes with its program counter, or is between calls. */
  ghost predicate Linked(cfg: Config, s: LockState, c: Client) {
    && c in cfg.parties && c in s.pc
    && (if c in s.net.calls then Asking(s.pc[c]) && s.net.calls[c].op == OpFor(cfg.parties[c], s.pc[c])
        else !Waiting(s.pc[c]))
  }

  /** The loop that is where `pc` says, on further answers: where it gets, and what it asks. */
  function Continue(p: Party, pc: Pc, answers: seq<Reply>): (Pc, seq<Op>)
    decreases |answers|
  {
    if Ready(pc) then Walk(p, NextCall(pc), answers, [])
    else if !Asking(pc) || answers == [] then (pc, [])
    else Continue(p, AfterReply(p, pc, answers[0]), answers[1..])
  }

  lemma {:induction false} WalkContinues(p: Party, asking: Pc, answers: seq<Reply>, asked: seq<Op>)
    requires asking.AcqGetting? || asking.AcqPutting? || asking.RelGetting? || asking.RelPutting?
    ensures Walk(p, asking, answers, asked).0 == Continue(p, asking, answers).0
    ensures Walk(p, asking, answers, asked).1 == asked + [OpFor(p, asking)] + Continue(p, asking, answers).1
    decreases |answers|
  {
    if answers != [] {
      var pc := AfterReply(p, asking, answers[0]);
      if Ready(pc) {
        WalkContinues(p, NextCall(pc), answers[1..], asked + [OpFor(p, asking)]);
        WalkContinues(p, NextCall(pc), answers[1..], []);
      }
    }
  }

  /** Where client c is in the protocol of Acquire or Release, or done with it. */
  predicate InLoop(pc: Pc) {
    || Ready(pc) || pc.AcqGetting? || pc.AcqPutting? || pc.RelGetting? || pc.RelPutting?
    || pc.Held? || pc.Idle?
  }

  /** A move that is not client c's leaves it and its call's operation alone. */
  lemma OthersMove(cfg: Config, s: LockState, m: Move, c: Client)
    requires Linked(cfg, s, c) && CanMove(cfg, s, m) && !IsMoveOf(m, c)
    ensures var t := Moved(cfg, s, m);
            Linked(cfg, t, c) && t.pc[c] == s.pc[c] && (c in t.net.calls <==> c in s.net.calls)
  {
  }

  /** A move of client c is a step of the loop: it asks the next call, or takes the next answer. */
  lemma OwnMove(cfg: Config, s: LockState, m: Move, c: Client, answers: seq<Reply>)
    requires Linked(cfg, s, c) && InLoop(s.pc[c]) && CanMove(cfg, s, m) && (m == CallNext(c) || m == Return(c))
    ensures var p, t := cfg.parties[c], Moved(cfg, s, m);
            && Linked(cfg, t, c) && InLoop(t.pc[c]) && (m.CallNext? <==> c in t.net.calls)
            && (m.CallNext? ==>
                  var (pc, asked) := Continue(p, t.pc[c], answers);
                  c !in s.net.calls && Continue(p, s.pc[c], answers) == (pc, [t.net.calls[c].op] + asked))
            && (m.Return? ==>
                  Continue(p, s.pc[c], [ReplyOf(s.net.calls[c])] + answers) == Continue(p, t.pc[c], answers))
  {
    if m.CallNext? {
      WalkContinues(cfg.parties[c], NextCall(s.pc[c]), answers, []);
      assert [] + [OpFor(cfg.parties[c], NextCall(s.pc[c]))] == [OpFor(cfg.parties[c], NextCall(s.pc[c]))];
    } else {
      assert ([ReplyOf(s.net.calls[c])] + answers)[1..] == answers;
    }
  }

  /** In every run the loop on client c's replies asks its calls and is where it is. */
  lemma {:induction false} RunIsLoop(cfg: Config, s: LockState, run: seq<Move>, c: Client)
    requires Plays(cfg, s, run) && Linked(cfg, s, c) && InLoop(s.pc[c]) && GoesOn(run, c)
    ensures var t := Played(cfg, s, run);
            && Linked(cfg, t, c)
            && (!Ready(t.pc[c]) ==>
                  Continue(cfg.parties[c], s.pc[c], Received(cfg, s, run, c)) == (t.pc[c], Issued(cfg, s, run, c)))
    decreases |run|
  {
    if run != [] {
      var p, m := cfg.parties[c], run[0];
      assert m in run;
      assert forall n :: n in run[1..] ==> n in run;
      var s1 := Moved(cfg, s, m);
      if IsMoveOf(m, c) {
        OwnMove(cfg, s, m, c, Received(cfg, s1, run[1..], c));
      } else {
        OthersMove(cfg, s, m, c);
      }
      RunIsLoop(cfg, s1, run[1..], c);
    }
  }

  /** Acquire: from any state of the machine in which client c is about to make its first call, and in any
      run in which it goes on with its Acquire, the loop on the replies that c receives asks exactly the
      calls that c makes, and has returned or is stuck where c is. Between two calls of c the machine lets
      it make the next one, as the loop does. */
  lemma AcquireIsRun(cfg: Config, s: LockState, run: seq<Move>, c: Client)
    requires Plays(cfg, s, run) && Free(cfg, s, c) && s.pc[c].AcqStart? && GoesOn(run, c)
    ensures var t := Played(cfg, s, run);
            && c in t.pc
            && (!Ready(t.pc[c]) ==>
                  Walk(cfg.parties[c], AcqGetting, Received(cfg, s, run, c), []) == (t.pc[c], Issued(cfg, s, run, c)))
            && (Ready(t.pc[c]) ==> CanMove(cfg, t, CallNext(c)))
  {
    RunIsLoop(cfg, s, run, c);
  }

  /** Release: the same from the moment a holder starts it. */
  lemma ReleaseIsRun(cfg: Config, s: LockState, run: seq<Move>, c: Client)
    requires Free(cfg, s, c) && s.pc[c].Held?
    requires Plays(cfg, Moved(cfg, s, StartRelease(c)), run) && GoesOn(run, c)
    ensures var s1 := Moved(cfg, s, StartRelease(c));
            var t := Played(cfg, s1, run);
            && c in t.pc
            && (!Ready(t.pc[c]) ==>
                  var asked := [Get(cfg.parties[c].name)] + Issued(cfg, s1, run, c);
                  Walk(cfg.parties[c], RelGetting, Received(cfg, s1, run, c), []) == (t.pc[c], asked))
            && (Ready(t.pc[c]) ==> CanMove(cfg, t, CallNext(c)))
  {
    var s1 := Moved(cfg, s, StartRelease(c));
    RunIsLoop(cfg, s1, run, c);
    WalkContinues(cfg.parties[c], RelGetting, Received(cfg, s1, run, c), []);
    assert [] + [Get(cfg.parties[c].name)] == [Get(cfg.parties[c].name)];
  }
}
