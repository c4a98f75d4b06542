/** Acquire and Release as the source writes them, issuing their calls one after the other to a
    clerk, and the proof that they follow the control flow of the protocol. */
module LockLoop {
  import opened KvServer
  import opened LockProtocol
  import opened Options

  /** A clerk whose answers are given in advance; it records what it was asked. When they run out
      the current call has not returned yet. */
  class ScriptedClerk {
    var answers: seq<Reply>
    var asked: seq<Op>

    constructor (answers: seq<Reply>)
      ensures this.answers == answers && asked == []
    {
      this.answers, asked := answers, [];
    }

    method Ask(op: Op) returns (r: Option<Reply>)
      modifies this
      ensures asked == old(asked) + [op]
      ensures old(answers) == [] ==> r == None && answers == []
      ensures old(answers) != [] ==> r == Some(old(answers)[0]) && answers == old(answers)[1..]
    {
      asked := asked + [op];
      if answers == [] {
        return None;
      }
      r := Some(answers[0]);
      answers := answers[1..];
    }
  }

  predicate Ready(pc: Pc) {
    pc.AcqStart? || pc.AcqReady? || pc.RelReady?
  }

  /** Follow the protocol from the call that `asking` stands for through the given answers: where
      it stops, and everything asked so far. */
  function Walk(p: Party, asking: Pc, answers: seq<Reply>, asked: seq<Op>): (Pc, seq<Op>)
    requires Asking(asking)
    decreases |answers|
  {
    var asked' := asked + [OpFor(p, asking)];
    if answers == [] then (asking, asked')
    else
      var pc := AfterReply(p, asking, answers[0]);
      if Ready(pc) then Walk(p, NextCall(pc), answers[1..], asked') else (pc, asked')
  }

  // ---------------------------------------------------------------------------------------
  // What the loops ask, call by call
  // ---------------------------------------------------------------------------------------

  /** Having asked `op` and been answered `r`, Acquire goes on and asks `next`. */
  predicate AcquireGoesOn(p: Party, op: Op, r: Reply, next: Op) {
    if op == Get(p.name) then
      || (r.err != OK && next == Put(p.name, p.id, 0))
      || (r.err == OK && r.value != p.id && r.value == "" && next == Put(p.name, p.id, r.version))
      || (r.err == OK && r.value != p.id && r.value != "" && next == Get(p.name))
    else r.err != OK && next == Get(p.name)
  }

  /** This answer lets Acquire return: the lock is the caller's already, or its Put was acknowledged. */
  predicate AcquireReturns(p: Party, op: Op, r: Reply) {
    r.err == OK && (op == Get(p.name) ==> r.value == p.id)
  }

  /** The call a stuck loop is waiting for. */
  predicate StuckIn(p: Party, op: Op, at: Pc) {
    match at
    case AcqGetting => op == Get(p.name)
    case AcqPutting(version) => op == Put(p.name, p.id, version)
    case RelGetting => op == Get(p.name)
    case RelPutting(version) => op == Put(p.name, "", version)
    case _ => false
  }

  /** What Acquire asked from its call `first` on, for the given answers, and where that left it. */
  predicate AcquireTrace(p: Party, first: Op, answers: seq<Reply>, asked: seq<Op>, at: Pc) {
    && asked != [] && asked[0] == first && |asked| <= |answers| + 1
    && (forall k :: 0 <= k < |asked| - 1 ==> AcquireGoesOn(p, asked[k], answers[k], asked[k+1]))
    && var last := |asked| - 1;
       if |asked| <= |answers| then at.Held? && AcquireReturns(p, asked[last], answers[last])
       else (at.AcqGetting? || at.AcqPutting?) && StuckIn(p, asked[last], at)
  }

  /** What Release asked for the given answers, and where that left it. */
  predicate ReleaseTrace(p: Party, answers: seq<Reply>, asked: seq<Op>, at: Pc) {
    && asked == [Get(p.name)] + (if answers == [] then [] else [Put(p.name, "", answers[0].version)])
    && if |answers| >= 2 then at == Idle else (at.RelGetting? || at.RelPutting?) && StuckIn(p, asked[|asked|-1], at)
  }

  lemma TraceCons(p: Party, asking: Pc, r: Reply, answers: seq<Reply>, asked: seq<Op>, at: Pc)
    requires asking.AcqGetting? || asking.AcqPutting?
    requires Ready(AfterReply(p, asking, r))
    requires AcquireTrace(p, OpFor(p, NextCall(AfterReply(p, asking, r))), answers, asked, at)
    ensures AcquireTrace(p, OpFor(p, asking), [r] + answers, [OpFor(p, asking)] + asked, at)
  {
    var asked' := [OpFor(p, asking)] + asked;
    forall k | 0 <= k < |asked'| - 1
      ensures AcquireGoesOn(p, asked'[k], ([r] + answers)[k], asked'[k+1])
    {
      if k > 0 {
        assert asked'[k] == asked[k-1] && asked'[k+1] == asked[k] && ([r] + answers)[k] == answers[k-1];
      }
    }
  }

  /** The protocol, written out call by call. */
  lemma {:induction false} WalkAcquires(p: Party, asking: Pc, answers: seq<Reply>, asked: seq<Op>)
    returns (more: seq<Op>)
    requires asking.AcqGetting? || asking.AcqPutting?
    ensures Walk(p, asking, answers, asked).1 == asked + more
    ensures AcquireTrace(p, OpFor(p, asking), answers, more, Walk(p, asking, answers, asked).0)
    decreases |answers|
  {
    var op := OpFor(p, asking);
    if answers == [] || !Ready(AfterReply(p, asking, answers[0])) {
      more := [op];
    } else {
      var rest := answers[1..];
      assert answers == [answers[0]] + rest;
      more := WalkAcquires(p, NextCall(AfterReply(p, asking, answers[0])), rest, asked + [op]);
      TraceCons(p, asking, answers[0], rest, more, Walk(p, asking, answers, asked).0);
      more := [op] + more;
    }
  }

  class Lock {
    const ck: ScriptedClerk
    const holderID: string
    const lockname: string

    constructor (ck: ScriptedClerk, holderID: string, lockname: string)
      ensures this.ck == ck && this.holderID == holderID && this.lockname == lockname
    {
      this.ck, this.holderID, this.lockname := ck, holderID, lockname;
    }

    /** Returns Held, or the call it is stuck in. */
    method Acquire() returns (at: Pc)
      modifies ck
      ensures at.Held? || at.AcqGetting? || at.AcqPutting?
      ensures (at, ck.asked) == Walk(Party(holderID, lockname), AcqGetting, old(ck.answers), old(ck.asked))
      ensures old(ck.asked) <= ck.asked
      ensures AcquireTrace(Party(holderID, lockname), Get(lockname), old(ck.answers), ck.asked[|old(ck.asked)|..], at)
    {
      ghost var p := Party(holderID, lockname);
      ghost var more := WalkAcquires(p, AcqGetting, ck.answers, ck.asked);
      while true
        invariant Walk(p, AcqGetting, ck.answers, ck.asked)
               == Walk(p, AcqGetting, old(ck.answers), old(ck.asked))
        decreases |ck.answers|
      {
        var got := ck.Ask(Get(lockname));
        if got.None? {
          return AcqGetting;
        }
        var val, version := got.value.value, got.value.version;
        if got.value.err != OK {
          var put := ck.Ask(Put(lockname, holderID, 0));
          if put.None? {
            return AcqPutting(0);
          }
          if put.value.err != OK {
            continue;
          }
          return Held(map[]);
        }
        if val != holderID {
          if val == "" {
            var put := ck.Ask(Put(lockname, holderID, version));
            if put.None? {
              return AcqPutting(version);
            }
            if put.value.err != OK {
              continue;
            }
            return Held(map[]);
          } else {
            continue;
          }
        }
        return Held(map[]);
      }
    }

    /** Returns Idle, or the call it is stuck in. */
    method Release() returns (at: Pc)
      modifies ck
      ensures (at, ck.asked) == Walk(Party(holderID, lockname), RelGetting, old(ck.answers), old(ck.asked))
      ensures old(ck.asked) <= ck.asked
      ensures ReleaseTrace(Party(holderID, lockname), old(ck.answers), ck.asked[|old(ck.asked)|..], at)
    {
      var got := ck.Ask(Get(lockname));
      if got.None? {
        return RelGetting;
      }
      var put := ck.Ask(Put(lockname, "", got.value.version));
      if put.None? {
        return RelPutting(got.value.version);
      }
      at := Idle;
    }
  }
}
