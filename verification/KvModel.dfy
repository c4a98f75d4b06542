/** The sequential specification against which histories are judged. */
module KvModel {
  import opened StringOrder
  import opened KvServer
  import opened KvNetwork

  datatype KvState = KvState(value: string, version: nat)

  /** The state of a key that was never written. */
  const INIT_STATE := KvState("", 0)

  /** `Porcupine` is the specification of the repository. `Exact` is what the server really
      promises: it also fixes the version and the error of a Get, and it knows that a Put with a
      non-zero version on a missing key answers ErrNoKey. */
  datatype Spec = Porcupine | Exact

  predicate Allows(spec: Spec, st: KvState, op: Op, out: Reply) {
    match spec
    case Porcupine => (
      match op
      case Get(_) => out.value == st.value
      case Put(_, _, version) =>
        if st.version == version then out.err == OK || out.err == ErrMaybe
        else out.err == ErrVersion || out.err == ErrMaybe)
    case Exact => (
      match op
      case Get(_) => out == Reply(st.value, st.version, if st.version == 0 then ErrNoKey else OK)
      case Put(_, _, version) =>
        && out == PutReply(out.err)
        && (if st.version == version then out.err == OK || out.err == ErrMaybe
            else if st.version == 0 then out.err == ErrNoKey
            else out.err == ErrVersion || out.err == ErrMaybe))
  }

  function Advance(st: KvState, op: Op): KvState {
    if op.Put? && st.version == op.version then KvState(op.value, st.version + 1) else st
  }

  function Step(spec: Spec, st: KvState, op: Op, out: Reply): (bool, KvState) {
    (Allows(spec, st, op, out), Advance(st, op))
  }

  /** What a store says of one key. */
  function Abstract(store: Store, key: string): KvState {
    KvState(ValueOf(store, key), VersionOf(store, key))
  }

  /** One operation of a proposed sequential order. */
  datatype Ordered = Ordered(id: CallId, op: Op, out: Reply)

  /** The operations on one key, in order: the specification describes a single key. */
  function OnKey(ops: seq<Ordered>, key: string): seq<Ordered> {
    if ops == [] then []
    else OnKey(ops[..|ops|-1], key) + (if ops[|ops|-1].op.key == key then [ops[|ops|-1]] else [])
  }

  /** Run the specification over operations on one key: were all accepted, and where does it end. */
  function StepAll(spec: Spec, ops: seq<Ordered>): (bool, KvState) {
    if ops == [] then (true, INIT_STATE)
    else
      var (ok, st) := StepAll(spec, ops[..|ops|-1]);
      var last := ops[|ops|-1];
      var (ok', st') := Step(spec, st, last.op, last.out);
      (ok && ok', st')
  }

  lemma OnKeyAppend(ops: seq<Ordered>, x: Ordered, key: string)
    ensures OnKey(ops + [x], key) == if x.op.key == key then OnKey(ops, key) + [x] else OnKey(ops, key)
  {
    assert (ops + [x])[..|ops|] == ops;
  }

  lemma StepAllAppend(spec: Spec, ops: seq<Ordered>, x: Ordered)
    ensures var (ok, st) := StepAll(spec, ops);
            StepAll(spec, ops + [x]) == (ok && Allows(spec, st, x.op, x.out), Advance(st, x.op))
  {
    assert (ops + [x])[..|ops|] == ops;
  }

  /** The specification accepts the operations on `key` and ends in `st`. */
  predicate EndsIn(spec: Spec, ops: seq<Ordered>, key: string, st: KvState) {
    StepAll(spec, OnKey(ops, key)) == (true, st)
  }

  /** Appending an allowed operation advances the key it is on and no other. */
  lemma AppendAllowed(spec: Spec, ops: seq<Ordered>, x: Ordered, key: string, st: KvState)
    requires EndsIn(spec, ops, key, st)
    requires x.op.key == key ==> Allows(spec, st, x.op, x.out)
    ensures EndsIn(spec, ops + [x], key, if x.op.key == key then Advance(st, x.op) else st)
  {
    OnKeyAppend(ops, x, key);
    StepAllAppend(spec, OnKey(ops, key), x);
  }

  ghost predicate Accepted(spec: Spec, ops: seq<Ordered>) {
    forall key :: StepAll(spec, OnKey(ops, key)).0
  }

  /** Each call appears once, and as it was invoked. */
  predicate Genuine(hist: seq<Event>, ops: seq<Ordered>) {
    && (forall i, j :: 0 <= i < j < |ops| ==> ops[i].id != ops[j].id)
    && (forall i :: 0 <= i < |ops| ==> IsCall(hist, ops[i].id, ops[i].op))
  }

  ghost predicate Contains(ops: seq<Ordered>, id: CallId, out: Reply) {
    exists i :: 0 <= i < |ops| && ops[i].id == id && ops[i].out == out
  }

  /** Every call that returned appears with the reply it returned. */
  ghost predicate Complete(hist: seq<Event>, ops: seq<Ordered>) {
    forall r :: IsReturn(hist, r) ==> Contains(ops, hist[r].id, hist[r].reply)
  }

  /** A call that returned before another was invoked comes before it. */
  ghost predicate Timely(hist: seq<Event>, ops: seq<Ordered>) {
    forall i, j, r :: 0 <= i < j < |ops| && IsReturn(hist, r) && hist[r].id == ops[j].id ==>
      ops[i].id < r
  }

  /** `ops` is a sequential order of the returned calls, and possibly of calls still in progress,
      that respects real time and that the specification accepts. */
  ghost predicate Explains(spec: Spec, hist: seq<Event>, ops: seq<Ordered>) {
    Genuine(hist, ops) && Complete(hist, ops) && Timely(hist, ops) && Accepted(spec, ops)
  }

  ghost predicate Linearizable(spec: Spec, hist: seq<Event>) {
    exists ops :: Explains(spec, hist, ops)
  }

  /** A Put answered that its key does not exist. */
  ghost predicate SawMissingKey(hist: seq<Event>) {
    exists r, op :: IsReturn(hist, r) && IsCall(hist, hist[r].id, op) && op.Put? && hist[r].reply.err == ErrNoKey
  }

  lemma {:induction false} SpecsAgree(ops: seq<Ordered>)
    requires StepAll(Exact, ops).0
    requires forall i :: 0 <= i < |ops| && ops[i].op.Put? ==> ops[i].out.err != ErrNoKey
    ensures StepAll(Porcupine, ops) == StepAll(Exact, ops)
  {
    if ops != [] {
      SpecsAgree(ops[..|ops|-1]);
    }
  }

  lemma {:induction false} OnKeyElements(ops: seq<Ordered>, key: string)
    ensures forall x :: x in OnKey(ops, key) <==> x in ops && x.op.key == key
  {
    if ops != [] {
      OnKeyElements(ops[..|ops|-1], key);
      assert ops == ops[..|ops|-1] + [ops[|ops|-1]];
    }
  }

  /** `at` lists the positions of the operations on a key, in ascending order. */
  predicate Positions(ops: seq<Ordered>, key: string, at: seq<nat>) {
    && (forall i, j :: 0 <= i < j < |at| ==> at[i] < at[j])
    && (forall i :: 0 <= i < |at| ==> at[i] < |ops| && ops[at[i]].op.key == key)
    && (forall k: nat :: k < |ops| && ops[k].op.key == key ==> k in at)
  }

  predicate Picks(ops: seq<Ordered>, at: seq<nat>, part: seq<Ordered>) {
    |part| == |at| && forall i :: 0 <= i < |at| ==> at[i] < |ops| && part[i] == ops[at[i]]
  }

  lemma PositionsAppend(ops: seq<Ordered>, x: Ordered, key: string, at: seq<nat>)
    requires Positions(ops, key, at)
    ensures Positions(ops + [x], key, if x.op.key == key then at + [|ops|] else at)
  {
    var at' := if x.op.key == key then at + [|ops|] else at;
    forall k: nat | k < |ops + [x]| && (ops + [x])[k].op.key == key
      ensures k in at'
    {
      if k == |ops| {
        assert at'[|at|] == k;
      } else {
        assert k in at;
      }
    }
  }

  lemma PicksAppend(ops: seq<Ordered>, x: Ordered, at: seq<nat>, part: seq<Ordered>)
    requires Picks(ops, at, part)
    ensures Picks(ops + [x], at, part) && Picks(ops + [x], at + [|ops|], part + [x])
  {
  }

  /** The operations on a key, all of them and in their order. */
  lemma {:induction false} OnKeyOrder(ops: seq<Ordered>, key: string) returns (at: seq<nat>)
    ensures Positions(ops, key, at) && Picks(ops, at, OnKey(ops, key))
  {
    if ops == [] {
      at := [];
    } else {
      var n := |ops| - 1;
      at := OnKeyOrder(ops[..n], key);
      assert ops == ops[..n] + [ops[n]];
      PositionsAppend(ops[..n], ops[n], key, at);
      PicksAppend(ops[..n], ops[n], at, OnKey(ops[..n], key));
      if ops[n].op.key == key {
        at := at + [n];
      }
    }
  }

  // ---------------------------------------------------------------------------------------
  // The partition
  // ---------------------------------------------------------------------------------------

  predicate Ascending(keys: seq<string>) {
    forall i, j :: 0 <= i < j < |keys| ==> LessEq(keys[i], keys[j]) && keys[i] != keys[j]
  }

  /** Insert a new key into an ascending list of keys. */
  method InsertKey(keys: seq<string>, key: string) returns (r: seq<string>)
    requires Ascending(keys) && key !in keys
    ensures Ascending(r) && forall k :: k in r <==> k in keys || k == key
  {
    var i := |keys|;
    while i > 0 && !LessEq(keys[i-1], key)
      invariant 0 <= i <= |keys|
      invariant forall k :: i <= k < |keys| ==> LessEq(key, keys[k])
    {
      LessEqTotal(keys[i-1], key);
      i := i - 1;
    }
    forall k | 0 <= k < i
      ensures LessEq(keys[k], key)
    {
      if k < i - 1 {
        LessEqTransitive(keys[k], keys[i-1], key);
      }
    }
    r := keys[..i] + [key] + keys[i..];
    Inserted(keys, i, key);
    InsertedKeys(keys, i, key);
  }

  lemma Inserted(keys: seq<string>, i: nat, key: string)
    requires Ascending(keys) && key !in keys && i <= |keys|
    requires forall k :: 0 <= k < i ==> LessEq(keys[k], key)
    requires forall k :: i <= k < |keys| ==> LessEq(key, keys[k])
    ensures Ascending(keys[..i] + [key] + keys[i..])
  {
    assert forall k :: 0 <= k < |keys| ==> keys[k] in keys;
  }

  lemma InsertedKeys(keys: seq<string>, i: nat, key: string)
    requires i <= |keys|
    ensures forall k :: k in keys[..i] + [key] + keys[i..] <==> k in keys || k == key
  {
    assert keys == keys[..i] + keys[i..];
  }

  lemma SomeKey(keys: set<string>)
    ensures keys == {} || exists k :: k in keys
  {
    if forall k :: k !in keys {
      assert keys == {};
    }
  }

  method SortKeys(keys: set<string>) returns (r: seq<string>)
    ensures Ascending(r) && forall k :: k in r <==> k in keys
  {
    r := [];
    var rest := keys;
    while rest != {}
      invariant rest <= keys && Ascending(r) && forall k :: k in r <==> k in keys - rest
      decreases rest
    {
      SomeKey(rest);
      var k :| k in rest;
      r := InsertKey(r, k);
      rest := rest - {k};
    }
  }

  function KeysOf(ops: seq<Ordered>): set<string> {
    set x | x in ops :: x.op.key
  }

  /** The operations collected under their keys. */
  predicate Collected(m: map<string, seq<Ordered>>, ops: seq<Ordered>) {
    m.Keys == KeysOf(ops) && forall k :: k in m ==> m[k] == OnKey(ops, k)
  }

  lemma {:induction false} OnKeyNone(ops: seq<Ordered>, key: string)
    requires key !in KeysOf(ops)
    ensures OnKey(ops, key) == []
  {
    if ops != [] {
      var n := |ops| - 1;
      KeysOfAppend(ops[..n], ops[n]);
      assert ops == ops[..n] + [ops[n]];
      OnKeyNone(ops[..n], key);
    }
  }

  lemma KeysOfAppend(ops: seq<Ordered>, v: Ordered)
    ensures KeysOf(ops + [v]) == KeysOf(ops) + {v.op.key}
  {
    assert v in ops + [v];
    assert forall x :: x in ops ==> x in ops + [v];
  }

  lemma CollectOne(m: map<string, seq<Ordered>>, ops: seq<Ordered>, v: Ordered)
    requires Collected(m, ops)
    ensures Collected(m[v.op.key := (if v.op.key in m then m[v.op.key] else []) + [v]], ops + [v])
  {
    var key := v.op.key;
    KeysOfAppend(ops, v);
    if key !in m {
      OnKeyNone(ops, key);
    }
    var m' := m[key := (if key in m then m[key] else []) + [v]];
    forall k | k in m'
      ensures m'[k] == OnKey(ops + [v], k)
    {
      OnKeyAppend(ops, v, k);
    }
  }

  method Collect(history: seq<Ordered>) returns (m: map<string, seq<Ordered>>)
    ensures Collected(m, history)
  {
    m := map[];
    for i := 0 to |history|
      invariant Collected(m, history[..i])
    {
      var v := history[i];
      CollectOne(m, history[..i], v);
      m := m[v.op.key := (if v.op.key in m then m[v.op.key] else []) + [v]];
      assert history[..i+1] == history[..i] + [v];
    }
    assert history[..|history|] == history;
  }

  /** The history by key: one part for each key that occurs, in ascending order of keys, each with
      the operations on that key in their order. */
  method Partition(history: seq<Ordered>) returns (ret: seq<seq<Ordered>>, keys: seq<string>)
    ensures |ret| == |keys| && Ascending(keys) && forall k :: k in keys <==> k in KeysOf(history)
    ensures forall i :: 0 <= i < |keys| ==> ret[i] == OnKey(history, keys[i])
  {
    var m := Collect(history);
    keys := SortKeys(m.Keys);
    ret := [];
    for i := 0 to |keys|
      invariant |ret| == i && forall j :: 0 <= j < i ==> ret[j] == OnKey(history, keys[j])
    {
      ret := ret + [m[keys[i]]];
    }
  }

  lemma {:induction false} AcceptedEach(ops: seq<Ordered>, i: nat)
    requires StepAll(Porcupine, ops).0 && i < |ops|
    ensures ops[i].op.Put? ==> ops[i].out.err != ErrNoKey
  {
    if i < |ops| - 1 {
      AcceptedEach(ops[..|ops|-1], i);
    }
  }

  /** The repository's specification can never explain a Put that answered ErrNoKey. */
  lemma MissingKeyUnexplained(hist: seq<Event>, ops: seq<Ordered>)
    requires Explains(Porcupine, hist, ops)
    ensures !SawMissingKey(hist)
  {
    if SawMissingKey(hist) {
      var r, op :| IsReturn(hist, r) && IsCall(hist, hist[r].id, op) && op.Put? && hist[r].reply.err == ErrNoKey;
      assert Contains(ops, hist[r].id, hist[r].reply);
      var i :| 0 <= i < |ops| && ops[i].id == hist[r].id && ops[i].out == hist[r].reply;
      var key := ops[i].op.key;
      OnKeyElements(ops, key);
      assert ops[i] in OnKey(ops, key);
      var j :| 0 <= j < |OnKey(ops, key)| && OnKey(ops, key)[j] == ops[i];
      AcceptedEach(OnKey(ops, key), j);
    }
  }
}
