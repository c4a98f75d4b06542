/** Every registered call gets exactly one reply: its own, or the failure of the connection. */
module DemuxProof {
  import opened Demux

  /** The call is registered, or was until the reader took it off the table. */
  predicate Open(c: Caller) {
    c.stage.Registered? || c.stage.Waiting?
  }

  /** The request has been written. */
  predicate Written(c: Caller) {
    c.stage.Waiting? || c.stage.Answered?
  }

  /** Tags are given out in order, so the caller with tag `t` is number `t - 1`. */
  ghost predicate TagsOk(s: State) {
    && s.nextTag == |s.callers| + 1
    && (forall i :: 0 <= i < |s.callers| ==> s.callers[i].tag == i + 1)
  }

  /** Registered tags lead to open calls. */
  ghost predicate TableOk(callers: seq<Caller>, calls: map<Tag, nat>) {
    forall t :: t in calls ==> 0 < t <= |callers| && calls[t] == t - 1 && Open(callers[t - 1])
  }

  /** An open call is registered, unless the reader is about to answer it. */
  ghost predicate NoneLost(s: State) {
    forall i :: 0 <= i < |s.callers| && Open(s.callers[i]) ==>
      i + 1 in s.table.calls || (s.reader.Sending? && s.reader.ch == i)
  }

  /** The reply is one the server computed for this call. */
  predicate Genuine(served: set<Served>, c: Caller, answer: Answer) {
    answer.Got? ==> Served(c.tag, c.req, answer.reply, answer.ok) in served
  }

  ghost predicate AnswersOk(s: State) {
    forall i :: 0 <= i < |s.callers| && s.callers[i].stage.Answered? ==>
      Genuine(s.served, s.callers[i], s.callers[i].stage.answer)
  }

  /** Between reads, or failing exactly the calls that are registered. */
  ghost predicate NextOk(table: Table, r: Reader) {
    r.Reading? || (r.Flushing? && table.closed && multiset(r.rest) == multiset(table.calls.Keys))
  }

  ghost predicate ReaderOk(s: State) {
    match s.reader
    case Reading => true
    case Snapshot => s.table.closed
    case Flushing(_) => NextOk(s.table, s.reader)
    case Sending(ch, answer, next) =>
      && ch < |s.callers| && Open(s.callers[ch]) && s.callers[ch].tag !in s.table.calls
      && (next.Reading? ==> s.callers[ch].stage.Waiting?)
      && Genuine(s.served, s.callers[ch], answer) && NextOk(s.table, next)
    case Stopped => s.table.closed && s.table.calls == map[]
    case Fatal => false
  }

  /** The reader will read again. */
  predicate Live(r: Reader) {
    r.Reading? || (r.Sending? && r.next.Reading?)
  }

  /** A message under way belongs to a call that was written; a reply is the server's to it. */
  ghost predicate PacketOk(callers: seq<Caller>, served: set<Served>, m: Packet) {
    && 0 < m.tag <= |callers| && Written(callers[m.tag - 1])
    && (m.Response? ==> Served(m.tag, callers[m.tag - 1].req, m.data, m.ok) in served)
    && (!m.Response? ==> m.data == callers[m.tag - 1].req && forall x :: x in served ==> x.tag != m.tag)
  }

  ghost predicate WireOk(s: State) {
    && (forall k :: 0 <= k < |s.wire| ==> PacketOk(s.callers, s.served, s.wire[k]))
    && (forall k, l :: 0 <= k < l < |s.wire| ==> s.wire[k].tag != s.wire[l].tag)
    && (Live(s.reader) ==> forall k :: 0 <= k < |s.wire| ==> s.wire[k].tag in s.table.calls)
  }

  /** The server replied once to each call it served, and to what the caller asked. */
  ghost predicate ServedOk(s: State) {
    && (forall x :: x in s.served ==>
          0 < x.tag <= |s.callers| && Written(s.callers[x.tag - 1]) && x.req == s.callers[x.tag - 1].req)
    && (forall x, y :: x in s.served && y in s.served && x.tag == y.tag ==> x == y)
  }

  /** The client's side. */
  ghost predicate Core(s: State) {
    TagsOk(s) && TableOk(s.callers, s.table.calls) && NoneLost(s) && AnswersOk(s) && ReaderOk(s)
  }

  /** The connection and the server. */
  ghost predicate Net(s: State) {
    WireOk(s) && ServedOk(s)
  }

  ghost predicate Inv(s: State) {
    Core(s) && Net(s)
  }

  // ---------------------------------------------------------------------------------------
  // Every step keeps the invariant
  // ---------------------------------------------------------------------------------------

  lemma CallStep(s: State, a: Action)
    requires Inv(s) && a.Call? && Enabled(s, a)
    ensures Inv(Next(s, a))
  {
  }

  lemma RegisterCore(s: State, a: Action)
    requires Core(s) && a.Register? && Enabled(s, a)
    ensures Core(Next(s, a))
  {
    assert s.callers[a.i].tag == a.i + 1;
  }

  lemma RegisterNet(s: State, a: Action)
    requires Net(s) && a.Register? && Enabled(s, a)
    ensures Net(Next(s, a))
  {
    var s' := Next(s, a);
    forall k | 0 <= k < |s'.wire|
      ensures PacketOk(s'.callers, s'.served, s'.wire[k])
    {
      assert PacketOk(s.callers, s.served, s.wire[k]);
    }
  }

  lemma WriteCore(s: State, a: Action)
    requires Core(s) && a.Write? && Enabled(s, a)
    ensures Core(Next(s, a))
  {
  }

  /** The caller had not written before, so nothing has its tag. */
  lemma TagUnused(s: State, i: nat)
    requires TagsOk(s) && Net(s) && i < |s.callers| && !Written(s.callers[i])
    ensures forall x :: x in s.served ==> x.tag != s.callers[i].tag
    ensures forall k :: 0 <= k < |s.wire| ==> s.wire[k].tag != s.callers[i].tag
  {
    forall k | 0 <= k < |s.wire|
      ensures s.wire[k].tag != s.callers[i].tag
    {
      assert PacketOk(s.callers, s.served, s.wire[k]);
    }
  }

  lemma WritePackets(s: State, i: nat)
    requires TagsOk(s) && Net(s) && Enabled(s, Write(i))
    ensures var s' := Next(s, Write(i)); forall k :: 0 <= k < |s'.wire| ==> PacketOk(s'.callers, s'.served, s'.wire[k])
  {
    var s' := Next(s, Write(i));
    TagUnused(s, i);
    forall k | 0 <= k < |s'.wire|
      ensures PacketOk(s'.callers, s'.served, s'.wire[k])
    {
      assert k < |s.wire| ==> PacketOk(s.callers, s.served, s.wire[k]);
    }
  }

  /** The new packet is the only one with its tag, and its call is registered. */
  lemma WriteNet(s: State, a: Action)
    requires Inv(s) && a.Write? && Enabled(s, a)
    ensures Net(Next(s, a))
  {
    TagUnused(s, a.i);
    WritePackets(s, a.i);
    if Live(s.reader) {
      assert s.callers[a.i].tag in s.table.calls;
    }
  }

  lemma ServeCore(s: State, a: Action)
    requires Core(s) && (a.ServerRead? || a.Serve? || a.Lose?) && Enabled(s, a)
    ensures Core(Next(s, a))
  {
  }

  lemma ServeNet(s: State, a: Action)
    requires Net(s) && (a.ServerRead? || a.Serve?) && Enabled(s, a)
    ensures Net(Next(s, a))
  {
    var s' := Next(s, a);
    assert PacketOk(s.callers, s.served, s.wire[a.k]);
    forall k | 0 <= k < |s'.wire|
      ensures PacketOk(s'.callers, s'.served, s'.wire[k]) && s'.wire[k].tag == s.wire[k].tag
    {
      assert PacketOk(s.callers, s.served, s.wire[k]);
    }
  }

  /** Taking one packet off leaves none with its tag. */
  lemma WithoutOne(s: State, k: nat)
    requires WireOk(s) && k < |s.wire|
    ensures forall l :: 0 <= l < |Without(s.wire, k)| ==>
              PacketOk(s.callers, s.served, Without(s.wire, k)[l]) && Without(s.wire, k)[l].tag != s.wire[k].tag
    ensures forall l, m :: 0 <= l < m < |Without(s.wire, k)| ==> Without(s.wire, k)[l].tag != Without(s.wire, k)[m].tag
    ensures Live(s.reader) ==> forall l :: 0 <= l < |Without(s.wire, k)| ==> Without(s.wire, k)[l].tag in s.table.calls
  {
    forall l | 0 <= l < |Without(s.wire, k)|
      ensures Without(s.wire, k)[l] == s.wire[if l < k then l else l + 1]
    {
    }
  }

  lemma LoseNet(s: State, a: Action)
    requires Net(s) && a.Lose? && Enabled(s, a)
    ensures Net(Next(s, a))
  {
    WithoutOne(s, a.k);
  }

  lemma ReplyCore(s: State, tag: Tag, answer: Answer, next: Reader)
    requires Core(s) && (s.reader.Reading? || s.reader.Flushing?) && tag in s.table.calls
    requires Genuine(s.served, s.callers[tag - 1], answer) && NextOk(Removed(s.table, tag), next)
    requires next.Reading? ==> s.callers[tag - 1].stage.Waiting?
    ensures Core(Reply(s, tag, answer, next))
  {
  }

  /** The reply that is read has a registered call. */
  lemma ReadStep(s: State, a: Action)
    requires Inv(s) && a.Read? && Enabled(s, a)
    ensures Inv(Next(s, a))
  {
    var m := s.wire[a.k];
    assert PacketOk(s.callers, s.served, m) && m.tag in s.table.calls;
    WithoutOne(s, a.k);
    var s1 := s.(wire := Without(s.wire, a.k));
    ReplyCore(s1, m.tag, Got(m.data, m.ok), Reading);
  }

  lemma FirstOfRest(rest: seq<Tag>, keys: set<Tag>)
    requires multiset(rest) == multiset(keys)
    ensures rest == [] ==> keys == {}
    ensures rest != [] ==> rest[0] in keys && multiset(rest[1..]) == multiset(keys - {rest[0]})
  {
    if rest == [] {
      assert forall t :: t in keys ==> t in multiset(rest);
    } else {
      assert rest == [rest[0]] + rest[1..];
      assert rest[0] in multiset(rest);
      assert multiset(keys) == multiset(keys - {rest[0]}) + multiset{rest[0]};
      assert multiset(rest[1..]) == multiset(rest) - multiset{rest[0]};
    }
  }

  /** The call that is failed is registered. */
  lemma FlushStep(s: State, a: Action)
    requires Inv(s) && a.Flush? && Enabled(s, a)
    ensures Inv(Next(s, a))
  {
    var rest, calls := s.reader.rest, s.table.calls;
    FirstOfRest(rest, calls.Keys);
    if rest != [] {
      assert (calls - {rest[0]}).Keys == calls.Keys - {rest[0]};
      ReplyCore(s, rest[0], Failed, Flushing(rest[1..]));
    }
  }

  lemma DeliverCore(s: State, a: Action)
    requires Core(s) && a.Deliver? && Enabled(s, a)
    ensures Core(Next(s, a))
  {
  }

  lemma DeliverNet(s: State, a: Action)
    requires Inv(s) && a.Deliver? && Enabled(s, a)
    ensures Net(Next(s, a))
  {
    var s' := Next(s, a);
    forall k | 0 <= k < |s'.wire|
      ensures PacketOk(s'.callers, s'.served, s'.wire[k])
    {
      assert PacketOk(s.callers, s.served, s.wire[k]);
    }
  }

  lemma CloseStep(s: State, a: Action)
    requires Inv(s) && (a.Close? || a.ReadError? || a.List?) && Enabled(s, a)
    ensures Inv(Next(s, a))
  {
  }

  lemma InvStep(s: State, a: Action)
    requires Inv(s) && Enabled(s, a)
    ensures Inv(Next(s, a))
  {
    match a
    case Call(_) => CallStep(s, a);
    case Register(_) => RegisterCore(s, a); RegisterNet(s, a);
    case Write(_) => WriteCore(s, a); WriteNet(s, a);
    case ServerRead(_) => ServeCore(s, a); ServeNet(s, a);
    case Serve(_, _, _) => ServeCore(s, a); ServeNet(s, a);
    case Lose(_) => ServeCore(s, a); LoseNet(s, a);
    case Read(_) => ReadStep(s, a);
    case Flush => FlushStep(s, a);
    case Deliver => DeliverCore(s, a); DeliverNet(s, a);
    case ReadError => CloseStep(s, a);
    case List(_) => CloseStep(s, a);
    case Close => CloseStep(s, a);
  }

  lemma {:induction false} InvRun(s: State, run: seq<Action>)
    requires Inv(s) && Legal(s, run)
    ensures Inv(After(s, run))
    decreases |run|
  {
    if run != [] {
      InvStep(s, run[0]);
      InvRun(Next(s, run[0]), run[1..]);
    }
  }

  // ---------------------------------------------------------------------------------------
  // What every run keeps
  // ---------------------------------------------------------------------------------------

  /** Whatever callers, reader, `Close` and the connection do: the reader never meets a reply
      without its call, an answer is the server's only reply to that very request or the failure,
      and when the reader has stopped no call that was registered is without its answer. */
  lemma NoLostReply(run: seq<Action>)
    requires Legal(INIT, run)
    ensures var s := After(INIT, run);
            && !s.reader.Fatal?
            && (forall c :: c in s.callers && c.stage.Answered? ==> Genuine(s.served, c, c.stage.answer))
            && (forall x, y :: x in s.served && y in s.served && x.tag == y.tag ==> x == y)
            && (s.reader.Stopped? ==> forall c :: c in s.callers ==> !Open(c))
  {
    InvRun(INIT, run);
  }

  /** The reader never waits in vain: the caller it hands an answer to has had none and is waiting,
      or will be after its next step; and no other call is registered under that caller's tag. */
  lemma ReaderNeverBlocked(run: seq<Action>)
    requires Legal(INIT, run) && After(INIT, run).reader.Sending?
    ensures var s := After(INIT, run);
            var ch := s.reader.ch;
            && ch < |s.callers| && Open(s.callers[ch]) && s.callers[ch].tag !in s.table.calls
            && (Enabled(s, Deliver) || (Enabled(s, Write(ch)) && Enabled(Next(s, Write(ch)), Deliver)))
  {
    InvRun(INIT, run);
  }

  /** Once the reader has listed the registered calls, none is added: those left are exactly those
      it has yet to fail. */
  lemma NoneAfterSnapshot(run: seq<Action>)
    requires Legal(INIT, run)
    ensures var s := After(INIT, run);
            && (s.reader.Flushing? ==> multiset(s.reader.rest) == multiset(s.table.calls.Keys))
            && (s.reader.Sending? && s.reader.next.Flushing? ==>
                  multiset(s.reader.next.rest) == multiset(s.table.calls.Keys))
            && (s.reader.Stopped? ==> s.table.calls == map[])
            && (!s.reader.Reading? && !(s.reader.Sending? && s.reader.next.Reading?) ==> s.table.closed)
  {
    InvRun(INIT, run);
  }

  /** What becomes of a call in one step: an answer is final, and an open call stays open until it
      is answered. */
  predicate Later(c: Caller, c': Caller) {
    && c'.req == c.req && c'.tag == c.tag
    && (c.stage.Answered? || c.stage.Refused? ==> c' == c)
    && (Open(c) ==> Open(c') || c'.stage.Answered?)
  }

  lemma {:induction false} LaterRun(s: State, run: seq<Action>, i: nat)
    requires Legal(s, run) && i < |s.callers|
    ensures i < |After(s, run).callers| && Later(s.callers[i], After(s, run).callers[i])
    decreases |run|
  {
    if run != [] {
      LaterRun(Next(s, run[0]), run[1..], i);
    }
  }

  lemma {:induction false} RunThen(s: State, run: seq<Action>, more: seq<Action>)
    requires Legal(s, run) && Legal(After(s, run), more)
    ensures Legal(s, run + more) && After(s, run + more) == After(After(s, run), more)
    decreases |run|
  {
    if run == [] {
      assert run + more == more;
    } else {
      assert (run + more)[1..] == run[1..] + more;
      RunThen(Next(s, run[0]), run[1..], more);
    }
  }

  /** A call that was registered at some moment is answered by the time the reader has stopped, and
      the answer it gets is the only one: it never changes afterwards. */
  lemma ExactlyOneReply(run: seq<Action>, more: seq<Action>, i: nat)
    requires Legal(INIT, run) && Legal(After(INIT, run), more)
    requires i < |After(INIT, run).callers| && i in After(INIT, run).table.calls.Values
    ensures var s' := After(After(INIT, run), more);
            && i < |s'.callers| && (Open(s'.callers[i]) || s'.callers[i].stage.Answered?)
            && (s'.reader.Stopped? ==>
                  s'.callers[i].stage.Answered? && Genuine(s'.served, s'.callers[i], s'.callers[i].stage.answer))
  {
    InvRun(INIT, run);
    LaterRun(After(INIT, run), more, i);
    RunThen(INIT, run, more);
    NoLostReply(run + more);
  }

  /** How far the reader is from its end if the connection fails now. */
  function Distance(s: State): nat {
    match s.reader
    case Sending(ch, _, next) =>
      3 * |s.table.calls| + (if next.Reading? then 5 else 3)
      + if ch < |s.callers| && s.callers[ch].stage.Registered? then 1 else 0
    case Reading => 3 * |s.table.calls| + 4
    case Snapshot => 3 * |s.table.calls| + 3
    case Flushing(_) => 3 * |s.table.calls| + 2
    case Stopped => 0
    case Fatal => 0
  }

  lemma FlushNearer(s: State)
    requires s.reader.Flushing? && NextOk(s.table, s.reader)
    ensures Distance(Next(s, Flush)) < Distance(s)
  {
    var rest := s.reader.rest;
    FirstOfRest(rest, s.table.calls.Keys);
    if rest != [] {
      RemovedIsSmaller(s.table.calls, rest[0]);
    }
  }

  lemma SendNearer(s: State) returns (a: Action)
    requires Inv(s) && s.reader.Sending?
    ensures (a.Write? || a.Deliver?) && Enabled(s, a) && Distance(Next(s, a)) < Distance(s)
  {
    var ch := s.reader.ch;
    a := if s.callers[ch].stage.Registered? then Write(ch) else Deliver;
  }

  /** The next step towards the end: the reader's own, or that of the caller it waits for. */
  lemma OneStepNearer(s: State) returns (a: Action)
    requires Inv(s) && !s.reader.Stopped?
    ensures Enabled(s, a) && Distance(Next(s, a)) < Distance(s)
    ensures a.Write? || a.Deliver? || a.ReadError? || a.List? || a.Flush?
  {
    match s.reader
    case Reading => a := ReadError;
    case Snapshot =>
      var tags := SomeOrder(s.table.calls.Keys);
      a := List(tags);
    case Flushing(_) =>
      a := Flush;
      FlushNearer(s);
    case Sending(_, _, _) => a := SendNearer(s);
  }

  lemma RemovedIsSmaller(calls: map<Tag, nat>, t: Tag)
    requires t in calls
    ensures |calls - {t}| == |calls| - 1
  {
    assert (calls - {t}).Keys == calls.Keys - {t};
  }

  lemma {:induction false} SomeOrder(keys: set<Tag>) returns (tags: seq<Tag>)
    ensures multiset(tags) == multiset(keys)
    decreases |keys|
  {
    SomeTag(keys);
    if |keys| == 0 {
      tags := [];
    } else {
      var t :| t in keys;
      var rest := SomeOrder(keys - {t});
      tags := rest + [t];
      assert multiset(keys) == multiset(keys - {t}) + multiset{t};
    }
  }

  lemma {:induction false} CanFinish(s: State) returns (run: seq<Action>)
    requires Inv(s)
    ensures Legal(s, run) && After(s, run).reader.Stopped? && |run| <= Distance(s)
    ensures forall a :: a in run ==> a.Write? || a.Deliver? || a.ReadError? || a.List? || a.Flush?
    decreases Distance(s)
  {
    if s.reader.Stopped? {
      run := [];
    } else {
      var a := OneStepNearer(s);
      InvStep(s, a);
      var rest := CanFinish(Next(s, a));
      run := [a] + rest;
      assert run[1..] == rest;
    }
  }

  /** After any run, if the connection fails, the reader comes to its end by its own steps and the
      writes of the callers it waits for, at most three for each registered call and five more. */
  lemma FailureAnswersAll(run: seq<Action>) returns (more: seq<Action>)
    requires Legal(INIT, run)
    ensures Legal(After(INIT, run), more) && |more| <= 3 * |After(INIT, run).table.calls| + 5
    ensures forall a :: a in more ==> a.Write? || a.Deliver? || a.ReadError? || a.List? || a.Flush?
    ensures After(After(INIT, run), more).reader.Stopped?
    ensures forall c :: c in After(After(INIT, run), more).callers ==> !Open(c)
  {
    InvRun(INIT, run);
    more := CanFinish(After(INIT, run));
    RunThen(INIT, run, more);
    NoLostReply(run + more);
  }
}
