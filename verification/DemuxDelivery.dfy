/** Calls get their own replies: the failure is handed out only after the connection failed, a call on a
    healthy connection can always be answered, and exactly the calls made after the end are refused. */
module DemuxDelivery {
  import opened Demux
  import opened DemuxProof

  // ---------------------------------------------------------------------------------------
  // Failure is answered only after a failure
  // ---------------------------------------------------------------------------------------

  /** As long as the reader will read again, every answer given or on its way is a reply. */
  predicate Unfailed(s: State) {
    Live(s.reader) ==>
      && (s.reader.Sending? ==> s.reader.answer.Got?)
      && forall i :: 0 <= i < |s.callers| && s.callers[i].stage.Answered? ==> s.callers[i].stage.answer.Got?
  }

  lemma UnfailedStep(s: State, a: Action)
    requires ReaderOk(s) && Unfailed(s) && Enabled(s, a)
    ensures Unfailed(Next(s, a))
  {
  }

  lemma LiveStep(s: State, a: Action)
    requires Inv(s) && Live(s.reader) && Enabled(s, a) && a != ReadError
    ensures Live(Next(s, a).reader)
  {
    if a.Read? {
      assert s.wire[a.k].tag in s.table.calls;
    }
  }

  lemma {:induction false} LiveRun(s: State, run: seq<Action>)
    requires Inv(s) && Unfailed(s) && Legal(s, run)
    ensures Unfailed(After(s, run))
    ensures Live(s.reader) && ReadError !in run ==> Live(After(s, run).reader)
    decreases |run|
  {
    if run != [] {
      assert run[0] in run && forall a :: a in run[1..] ==> a in run;
      UnfailedStep(s, run[0]);
      InvStep(s, run[0]);
      if Live(s.reader) && run[0] != ReadError {
        LiveStep(s, run[0]);
      }
      LiveRun(Next(s, run[0]), run[1..]);
    }
  }

  /** In every run: while the reader reads, and always if no read failed, every answer is the server's
      reply to that very request. */
  lemma FailedOnlyAfterError(run: seq<Action>)
    requires Legal(INIT, run)
    ensures var s := After(INIT, run);
            Live(s.reader) || ReadError !in run ==>
              forall c :: c in s.callers && c.stage.Answered? ==>
                c.stage.answer.Got? && Served(c.tag, c.req, c.stage.answer.reply, c.stage.answer.ok) in s.served
  {
    LiveRun(INIT, run);
    NoLostReply(run);
  }

  // ---------------------------------------------------------------------------------------
  // A call on a healthy connection
  // ---------------------------------------------------------------------------------------

  lemma RunCons(s: State, a: Action, rest: seq<Action>)
    requires Enabled(s, a) && Legal(Next(s, a), rest)
    ensures Legal(s, [a] + rest) && After(s, [a] + rest) == After(Next(s, a), rest)
  {
    assert ([a] + rest)[1..] == rest;
  }

  /** The request is written. */
  lemma Asks(s: State, req: Data) returns (t: State, run: seq<Action>)
    requires TagsOk(s) && !s.table.closed
    ensures Legal(s, run) && After(s, run) == t && |run| == 3
    ensures t == s.(nextTag := s.nextTag + 1, table := s.table.(calls := s.table.calls[s.nextTag := |s.callers|]),
                    callers := s.callers + [Caller(req, s.nextTag, Waiting)],
                    wire := s.wire + [Request(s.nextTag, req)])
  {
    var i := |s.callers|;
    var s1 := Next(s, Call(req));
    var s2 := Next(s1, Register(i));
    t := Next(s2, Write(i));
    RunCons(s2, Write(i), []);
    RunCons(s1, Register(i), [Write(i)] + []);
    RunCons(s, Call(req), [Register(i)] + ([Write(i)] + []));
    run := [Call(req)] + ([Register(i)] + ([Write(i)] + []));
    assert t.callers == s.callers + [Caller(req, s.nextTag, Waiting)];
  }

  /** The server answers the last packet. */
  lemma Answers(s: State, reply: Data, ok: bool) returns (t: State, run: seq<Action>)
    requires s.wire != [] && s.wire[|s.wire|-1].Request?
    ensures Legal(s, run) && After(s, run) == t && |run| == 2
    ensures var k, m := |s.wire| - 1, s.wire[|s.wire|-1];
            t == s.(wire := s.wire[..k] + [Response(m.tag, reply, ok)],
                    served := s.served + {Served(m.tag, m.data, reply, ok)})
  {
    var k := |s.wire| - 1;
    var s1 := Next(s, ServerRead(k));
    t := Next(s1, Serve(k, reply, ok));
    RunCons(s1, Serve(k, reply, ok), []);
    RunCons(s, ServerRead(k), [Serve(k, reply, ok)] + []);
    run := [ServerRead(k)] + ([Serve(k, reply, ok)] + []);
    assert t.wire == s.wire[..k] + [Response(s.wire[k].tag, reply, ok)];
  }

  /** The reader hands the last packet to its caller. */
  lemma Hands(s: State, i: nat) returns (t: State, run: seq<Action>)
    requires s.reader.Reading? && s.wire != [] && s.wire[|s.wire|-1].Response?
    requires var m := s.wire[|s.wire|-1]; m.tag in s.table.calls && s.table.calls[m.tag] == i
    requires i < |s.callers| && s.callers[i].stage.Waiting?
    ensures Legal(s, run) && After(s, run) == t && |run| == 2
    ensures var k, m := |s.wire| - 1, s.wire[|s.wire|-1];
            t == s.(wire := s.wire[..k], table := Removed(s.table, m.tag),
                    callers := s.callers[i := s.callers[i].(stage := Answered(Got(m.data, m.ok)))])
  {
    var k := |s.wire| - 1;
    var s1 := Next(s, Read(k));
    t := Next(s1, Deliver);
    RunCons(s1, Deliver, []);
    RunCons(s, Read(k), [Deliver] + []);
    run := [Read(k)] + ([Deliver] + []);
    assert Without(s.wire, k) == s.wire[..k];
  }

  /** After any run, as long as the reader reads and nobody closed the connection: a new call with any
      request can be registered, written, served with any reply and answered with exactly that reply, in
      seven steps that leave everybody else as they were. */
  lemma CallSucceeds(run: seq<Action>, req: Data, reply: Data, ok: bool) returns (more: seq<Action>)
    requires Legal(INIT, run) && After(INIT, run).reader.Reading? && !After(INIT, run).table.closed
    ensures Legal(After(INIT, run), more) && |more| == 7
    ensures var s := After(INIT, run);
            var t := After(s, more);
            && t.callers == s.callers + [Caller(req, s.nextTag, Answered(Got(reply, ok)))]
            && t.table == s.table && t.wire == s.wire && t.reader == s.reader
            && t.served == s.served + {Served(s.nextTag, req, reply, ok)}
  {
    InvRun(INIT, run);
    more := SucceedsFrom(After(INIT, run), req, reply, ok);
  }

  lemma SucceedsFrom(s: State, req: Data, reply: Data, ok: bool) returns (more: seq<Action>)
    requires TagsOk(s) && s.nextTag !in s.table.calls && s.reader.Reading? && !s.table.closed
    ensures Legal(s, more) && |more| == 7
    ensures var t := After(s, more);
            && t.callers == s.callers + [Caller(req, s.nextTag, Answered(Got(reply, ok)))]
            && t.table == s.table && t.wire == s.wire && t.reader == s.reader
            && t.served == s.served + {Served(s.nextTag, req, reply, ok)}
  {
    var i := |s.callers|;
    var s1, r1 := Asks(s, req);
    var s2, r2 := Answers(s1, reply, ok);
    var s3, r3 := Hands(s2, i);
    RunThen(s1, r2, r3);
    RunThen(s, r1, r2 + r3);
    more := r1 + (r2 + r3);
    assert s.table.calls[s.nextTag := i] - {s.nextTag} == s.table.calls;
    assert s1.wire[..|s.wire|] == s.wire && s2.wire[..|s.wire|] == s.wire;
    assert s3.callers == s.callers + [Caller(req, s.nextTag, Answered(Got(reply, ok)))];
  }

  /** The reader finds the connection broken and fails the only registered call. */
  lemma FailsOne(s: State, tag: Tag, i: nat) returns (t: State, run: seq<Action>)
    requires s.reader.Reading? && s.table.calls == map[tag := i] && i < |s.callers| && s.callers[i].stage.Waiting?
    ensures Legal(s, run) && After(s, run) == t && |run| == 5
    ensures t == s.(table := Table(true, map[]), callers := At(s, i, Answered(Failed)), reader := Stopped)
  {
    assert s.table.calls.Keys == {tag} && multiset([tag]) == multiset({tag});
    var s1 := Next(s, ReadError);
    var s2 := Next(s1, List([tag]));
    var s3 := Next(s2, Flush);
    var s4 := Next(s3, Deliver);
    t := Next(s4, Flush);
    RunCons(s4, Flush, []);
    RunCons(s3, Deliver, [Flush] + []);
    RunCons(s2, Flush, [Deliver] + ([Flush] + []));
    RunCons(s1, List([tag]), [Flush] + ([Deliver] + ([Flush] + [])));
    RunCons(s, ReadError, [List([tag])] + ([Flush] + ([Deliver] + ([Flush] + []))));
    run := [ReadError] + ([List([tag])] + ([Flush] + ([Deliver] + ([Flush] + []))));
    assert s.table.calls - {tag} == map[];
  }

  /** A call whose request is lost is answered with the failure once a read fails. */
  lemma LostRequestFails(run: seq<Action>, req: Data) returns (more: seq<Action>)
    requires Legal(INIT, run)
    requires var s := After(INIT, run); s.reader.Reading? && s.table == Table(false, map[])
    ensures Legal(After(INIT, run), more) && |more| == 9
    ensures var s := After(INIT, run);
            var t := After(s, more);
            && t.callers == s.callers + [Caller(req, s.nextTag, Answered(Failed))]
            && t.reader.Stopped? && t.wire == s.wire && t.served == s.served && t.table == Table(true, map[])
  {
    InvRun(INIT, run);
    var s := After(INIT, run);
    var s1, r1 := Asks(s, req);
    var lose := Lose(|s.wire|);
    var s2 := Next(s1, lose);
    assert s2.wire == s.wire;
    var s3, r3 := FailsOne(s2, s.nextTag, |s.callers|);
    RunCons(s1, lose, r3);
    RunThen(s, r1, [lose] + r3);
    more := r1 + ([lose] + r3);
    assert s3.callers == s.callers + [Caller(req, s.nextTag, Answered(Failed))];
  }

  // ---------------------------------------------------------------------------------------
  // Closing
  // ---------------------------------------------------------------------------------------

  /** The table is closed exactly if `Close` was called or a read failed. */
  lemma {:induction false} ClosedIff(s: State, run: seq<Action>)
    requires Legal(s, run)
    ensures After(s, run).table.closed <==> s.table.closed || Close in run || ReadError in run
    decreases |run|
  {
    if run != [] {
      ClosedIff(Next(s, run[0]), run[1..]);
      assert run == [run[0]] + run[1..];
    }
  }

  /** Only calls that find the table closed are refused. */
  ghost predicate RefusedOk(s: State) {
    forall i :: 0 <= i < |s.callers| && s.callers[i].stage.Refused? ==> s.table.closed
  }

  lemma {:induction false} RefusedRun(s: State, run: seq<Action>)
    requires Legal(s, run) && RefusedOk(s)
    ensures RefusedOk(After(s, run))
    decreases |run|
  {
    if run != [] {
      RefusedRun(Next(s, run[0]), run[1..]);
    }
  }

  /** A call that has not registered when the table is closed never does. */
  lemma {:induction false} RefusedLater(s: State, run: seq<Action>, i: nat)
    requires Legal(s, run) && s.table.closed && i < |After(s, run).callers|
    requires i < |s.callers| ==> s.callers[i].stage.Tagged? || s.callers[i].stage.Refused?
    ensures var stage := After(s, run).callers[i].stage; stage.Tagged? || stage.Refused?
    decreases |run|
  {
    if run != [] {
      RefusedLater(Next(s, run[0]), run[1..], i);
    }
  }

  /** In every run: a call is refused only if `Close` was called or a read failed before; and from then on
      every call that had not registered yet, or is made later, is refused when it tries. */
  lemma CloseRefuses(run: seq<Action>, more: seq<Action>, i: nat)
    requires Legal(INIT, run) && Legal(After(INIT, run), more) && i < |After(After(INIT, run), more).callers|
    ensures var s := After(INIT, run);
            var t := After(s, more);
            && (t.callers[i].stage.Refused? ==> Close in run + more || ReadError in run + more)
            && ((Close in run || ReadError in run) && (i < |s.callers| ==> s.callers[i].stage.Tagged?) ==>
                  t.callers[i].stage.Tagged? || t.callers[i].stage.Refused?)
            && ((Close in run || ReadError in run) && t.callers[i].stage.Tagged? ==>
                  Next(t, Register(i)).callers[i].stage.Refused? && Next(t, Register(i)).table == t.table)
  {
    var s := After(INIT, run);
    RunThen(INIT, run, more);
    ClosedIff(INIT, run);
    ClosedIff(s, more);
    RefusedRun(INIT, run + more);
    assert forall a :: a in run || a in more ==> a in run + more;
    if (Close in run || ReadError in run) && (i < |s.callers| ==> s.callers[i].stage.Tagged?) {
      RefusedLater(s, more, i);
    }
  }
}
