/** Many callers share one connection: calls carry tags, and one reader hands out the replies. */
module Demux {

  /** Tags are counted without wrap-around; tag 0 is that of the opening message. */
  type Tag = nat

  type Data = string

  /** What a caller is given: the server's reply, or the failure of the connection. */
  datatype Answer = Got(reply: Data, ok: bool) | Failed

  /** A call: it takes a tag, registers (or is refused), writes its request and waits. */
  datatype Stage = Tagged | Refused | Registered | Waiting | Answered(answer: Answer)

  datatype Caller = Caller(req: Data, tag: Tag, stage: Stage)

  /** The registered calls; a caller's place in the list of callers stands for its channel. */
  datatype Table = Table(closed: bool, calls: map<Tag, nat>)

  function PutCall(table: Table, tag: Tag, ch: nat): Table {
    if table.closed then table else table.(calls := table.calls[tag := ch])
  }

  function Removed(table: Table, tag: Tag): Table {
    table.(calls := table.calls - {tag})
  }

  /** The table that is shared under its lock. */
  class CallMap {
    var closed: bool
    var calls: map<Tag, nat>

    function View(): Table
      reads this
    {
      Table(closed, calls)
    }

    constructor ()
      ensures View() == Table(false, map[])
    {
      closed, calls := false, map[];
    }

    method Close()
      modifies this
      ensures View() == old(View()).(closed := true)
    {
      closed := true;
    }

    method IsClosed() returns (r: bool)
      ensures r == View().closed
    {
      r := closed;
    }

    method Put(tag: Tag, ch: nat) returns (ok: bool)
      modifies this
      ensures View() == PutCall(old(View()), tag, ch) && ok == !old(closed)
      ensures ok ==> tag in calls && calls[tag] == ch
    {
      if closed {
        return false;
      }
      calls := calls[tag := ch];
      ok := true;
    }

    method Remove(tag: Tag) returns (ch: nat, ok: bool)
      modifies this
      ensures View() == Removed(old(View()), tag)
      ensures ok == (tag in old(calls)) && (ok ==> ch == old(calls[tag]))
    {
      if tag in calls {
        ch, ok := calls[tag], true;
        calls := calls - {tag};
      } else {
        ch, ok := 0, false;
        assert calls - {tag} == calls;
      }
    }

    /** The registered tags, each once, in any order. */
    method Outstanding() returns (ts: seq<Tag>)
      ensures multiset(ts) == multiset(calls.Keys)
    {
      ts := [];
      var rest := calls.Keys;
      while |rest| > 0
        invariant multiset(ts) + multiset(rest) == multiset(calls.Keys)
        decreases |rest|
      {
        SomeTag(rest);
        var t :| t in rest;
        assert multiset(rest) == multiset(rest - {t}) + multiset{t};
        ts, rest := ts + [t], rest - {t};
      }
      assert rest == {};
    }
  }

  lemma SomeTag(tags: set<Tag>)
    ensures |tags| == 0 || exists t :: t in tags
  {
    if forall t :: t !in tags {
      assert tags == {};
    }
  }

  /** A message under way: to the server, in the hands of one of its goroutines, or coming back. */
  datatype Packet =
    | Request(tag: Tag, data: Data)
    | Serving(tag: Tag, data: Data)
    | Response(tag: Tag, data: Data, ok: bool)

  /** The server's reply to a request, as it was computed. */
  datatype Served = Served(tag: Tag, req: Data, reply: Data, ok: bool)

  /** The reader: reading replies, about to list the registered calls after an error, failing those
      calls one by one, handing an answer to a caller before it goes on, or at its end. `Fatal` is
      a reply that no registered call matches. */
  datatype Reader =
    | Reading
    | Snapshot
    | Flushing(rest: seq<Tag>)
    | Sending(ch: nat, answer: Answer, next: Reader)
    | Stopped
    | Fatal

  datatype State = State(
    nextTag: Tag, table: Table, callers: seq<Caller>, wire: seq<Packet>, served: set<Served>, reader: Reader)

  datatype Action =
    | Call(req: Data)
    | Register(i: nat)
    | Write(i: nat)
    | ServerRead(k: nat)
    | Serve(k: nat, reply: Data, ok: bool)
    | Lose(k: nat)
    | Read(k: nat)
    | ReadError
    | List(tags: seq<Tag>)
    | Flush
    | Deliver
    | Close

  const INIT := State(1, Table(false, map[]), [], [], {}, Reading)

  predicate Enabled(s: State, a: Action) {
    match a
    case Call(_) => true
    case Register(i) => i < |s.callers| && s.callers[i].stage.Tagged?
    case Write(i) => i < |s.callers| && s.callers[i].stage.Registered?
    case ServerRead(k) => k < |s.wire| && s.wire[k].Request?
    case Serve(k, _, _) => k < |s.wire| && s.wire[k].Serving?
    case Lose(k) => k < |s.wire|
    case Read(k) => k < |s.wire| && s.wire[k].Response? && s.reader.Reading?
    case ReadError => s.reader.Reading?
    case List(tags) => s.reader.Snapshot? && multiset(tags) == multiset(s.table.calls.Keys)
    case Flush => s.reader.Flushing?
    case Deliver => s.reader.Sending? && s.reader.ch < |s.callers| && s.callers[s.reader.ch].stage.Waiting?
    case Close => true
  }

  function At(s: State, i: nat, stage: Stage): seq<Caller>
    requires i < |s.callers|
  {
    s.callers[i := s.callers[i].(stage := stage)]
  }

  /** Take the call with this tag off the table and answer it. */
  function Reply(s: State, tag: Tag, answer: Answer, next: Reader): State {
    if tag in s.table.calls then s.(table := Removed(s.table, tag), reader := Sending(s.table.calls[tag], answer, next))
    else s.(reader := Fatal)
  }

  function Without(wire: seq<Packet>, k: nat): seq<Packet>
    requires k < |wire|
  {
    wire[..k] + wire[k+1..]
  }

  function Next(s: State, a: Action): State
    requires Enabled(s, a)
  {
    match a
    case Call(req) => s.(nextTag := s.nextTag + 1, callers := s.callers + [Caller(req, s.nextTag, Tagged)])
    case Register(i) =>
      s.(table := PutCall(s.table, s.callers[i].tag, i),
         callers := At(s, i, if s.table.closed then Refused else Registered))
    case Write(i) => s.(wire := s.wire + [Request(s.callers[i].tag, s.callers[i].req)], callers := At(s, i, Waiting))
    case ServerRead(k) => s.(wire := s.wire[k := Serving(s.wire[k].tag, s.wire[k].data)])
    case Serve(k, reply, ok) =>
      s.(wire := s.wire[k := Response(s.wire[k].tag, reply, ok)],
         served := s.served + {Served(s.wire[k].tag, s.wire[k].data, reply, ok)})
    case Lose(k) => s.(wire := Without(s.wire, k))
    case Read(k) =>
      Reply(s.(wire := Without(s.wire, k)), s.wire[k].tag, Got(s.wire[k].data, s.wire[k].ok), Reading)
    case ReadError => s.(table := s.table.(closed := true), reader := Snapshot)
    case List(tags) => s.(reader := Flushing(tags))
    case Flush =>
      var rest := s.reader.rest;
      if rest == [] then s.(reader := Stopped) else Reply(s, rest[0], Failed, Flushing(rest[1..]))
    case Deliver => s.(callers := At(s, s.reader.ch, Answered(s.reader.answer)), reader := s.reader.next)
    case Close => s.(table := s.table.(closed := true))
  }

  predicate Legal(s: State, run: seq<Action>)
    decreases |run|
  {
    run == [] || (Enabled(s, run[0]) && Legal(Next(s, run[0]), run[1..]))
  }

  function After(s: State, run: seq<Action>): State
    requires Legal(s, run)
    decreases |run|
  {
    if run == [] then s else After(Next(s, run[0]), run[1..])
  }
}
