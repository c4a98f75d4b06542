/** What the two specifications say, in terms of the server and of the replies alone: they accept no
    more than they should. */
module KvSpec {
  import opened KvServer
  import opened KvNetwork
  import opened KvModel

  // ---------------------------------------------------------------------------------------
  // The exact specification is the server
  // ---------------------------------------------------------------------------------------

  /** In every state of a server the exact specification allows the server's own reply and, for a Put
      that could have been refused or could be written, ErrMaybe; and no other reply. */
  lemma ExactIsServer(store: Store, op: Op, out: Reply)
    requires op.key in store ==> store[op.key].version > 0
    ensures Allows(Exact, Abstract(store, op.key), op, out)
       <==> || out == Serve(store, op).1
            || (op.Put? && out == PutReply(ErrMaybe) && (op.key in store || op.version == 0))
    ensures Advance(Abstract(store, op.key), op) == Abstract(Serve(store, op).0, op.key)
  {
  }

  // ---------------------------------------------------------------------------------------
  // Accepted orders, without running the specification
  // ---------------------------------------------------------------------------------------

  /** The positions of the Puts that take effect: those made with the number of earlier ones. */
  function Effects(ops: seq<Ordered>): (at: seq<nat>)
    ensures forall k :: 0 <= k < |at| ==> at[k] < |ops| && ops[at[k]].op.Put? && ops[at[k]].op.version == k
    ensures forall k, l :: 0 <= k < l < |at| ==> at[k] < at[l]
  {
    if ops == [] then []
    else
      var n := |ops| - 1;
      var at := Effects(ops[..n]);
      if ops[n].op.Put? && ops[n].op.version == |at| then at + [n] else at
  }

  /** The value of the last Put that took effect, or none. */
  function LastValue(ops: seq<Ordered>): string {
    var at := Effects(ops);
    if at == [] then "" else ops[at[|at|-1]].op.value
  }

  /** The state of a key is the number of Puts that took effect and the value of the last. */
  lemma {:induction false} StateIsEffects(spec: Spec, ops: seq<Ordered>)
    ensures StepAll(spec, ops).1 == KvState(LastValue(ops), |Effects(ops)|)
  {
    if ops != [] {
      StateIsEffects(spec, ops[..|ops|-1]);
    }
  }

  /** The reply of operation j agrees with the Puts that took effect before it. */
  predicate Fits(ops: seq<Ordered>, j: nat)
    requires j < |ops|
  {
    var out, before := ops[j].out, Effects(ops[..j]);
    match ops[j].op
    case Get(_) => out.value == LastValue(ops[..j])
    case Put(_, _, version) =>
      && (out.err == OK ==> version == |before|)
      && (out.err == ErrVersion ==> version != |before|)
      && out.err != ErrNoKey
  }

  lemma {:induction false} AllowedAt(spec: Spec, ops: seq<Ordered>, j: nat)
    requires StepAll(spec, ops).0 && j < |ops|
    ensures Allows(spec, StepAll(spec, ops[..j]).1, ops[j].op, ops[j].out)
  {
    var n := |ops| - 1;
    if j < n {
      AllowedAt(spec, ops[..n], j);
      assert ops[..n][..j] == ops[..j];
    }
  }

  lemma AcceptedPrefix(spec: Spec, ops: seq<Ordered>, j: nat)
    requires StepAll(spec, ops).0 && j < |ops|
    ensures Allows(spec, KvState(LastValue(ops[..j]), |Effects(ops[..j])|), ops[j].op, ops[j].out)
  {
    AllowedAt(spec, ops, j);
    StateIsEffects(spec, ops[..j]);
  }

  lemma FitsPrefix(ops: seq<Ordered>, n: nat, j: nat)
    requires j < n <= |ops|
    ensures Fits(ops[..n], j) <==> Fits(ops, j)
  {
    assert ops[..n][..j] == ops[..j];
  }

  /** The repository's specification accepts an order on one key if and only if every reply fits: OK
      only for a Put that took effect, ErrVersion only for one that did not, ErrMaybe for either,
      ErrNoKey for none, and for a Get the value of the last Put that took effect. */
  lemma {:induction false} PorcupineAcceptsIff(ops: seq<Ordered>)
    ensures StepAll(Porcupine, ops).0 <==> forall j :: 0 <= j < |ops| ==> Fits(ops, j)
  {
    if ops != [] {
      var n := |ops| - 1;
      PorcupineAcceptsIff(ops[..n]);
      StateIsEffects(Porcupine, ops[..n]);
      forall j | 0 <= j < n
        ensures Fits(ops[..n], j) <==> Fits(ops, j)
      {
        FitsPrefix(ops, n, j);
      }
      assert StepAll(Porcupine, ops).0 <==> StepAll(Porcupine, ops[..n]).0 && Fits(ops, n);
    }
  }

  lemma {:induction false} EffectsGrow(ops: seq<Ordered>, i: nat, n: nat)
    requires i < n <= |ops|
    ensures |Effects(ops[..n])| >= |Effects(ops[..i])|
    ensures ops[i].op.Put? && ops[i].op.version == |Effects(ops[..i])| ==> |Effects(ops[..n])| > |Effects(ops[..i])|
  {
    var m := n - 1;
    assert ops[..n][..m] == ops[..m];
    if i < m {
      EffectsGrow(ops, i, m);
    }
  }

  /** In an order that either specification accepts on one key, the Puts that answered OK have strictly
      increasing versions: none is lost. */
  lemma OksIncrease(spec: Spec, ops: seq<Ordered>, i: nat, j: nat)
    requires StepAll(spec, ops).0 && i < j < |ops|
    requires ops[i].op.Put? && ops[i].out.err == OK && ops[j].op.Put? && ops[j].out.err == OK
    ensures ops[i].op.version < ops[j].op.version
  {
    AcceptedPrefix(spec, ops, i);
    AcceptedPrefix(spec, ops, j);
    EffectsGrow(ops, i, j);
  }

  /** Where in an order the operation on `key` at position i stands among those on that key. */
  lemma PlaceOnKey(ops: seq<Ordered>, key: string, at: seq<nat>, i: nat) returns (k: nat)
    requires Positions(ops, key, at) && i < |ops| && ops[i].op.key == key
    ensures k < |at| && at[k] == i
  {
    assert i in at;
    k :| 0 <= k < |at| && at[k] == i;
  }

  lemma DistinctVersions(spec: Spec, ops: seq<Ordered>, i: nat, j: nat)
    requires Accepted(spec, ops) && i < j < |ops| && ops[i].op.key == ops[j].op.key
    requires ops[i].op.Put? && ops[i].out.err == OK && ops[j].op.Put? && ops[j].out.err == OK
    ensures ops[i].op.version < ops[j].op.version
  {
    var key := ops[i].op.key;
    var at := OnKeyOrder(ops, key);
    var k := PlaceOnKey(ops, key, at, i);
    var l := PlaceOnKey(ops, key, at, j);
    assert k < l;
    OksIncrease(spec, OnKey(ops, key), k, l);
  }

  /** No update is lost: in a linearizable history two Puts on one key that both returned OK were made
      with different versions. */
  lemma NoLostUpdate(spec: Spec, hist: seq<Event>, r: nat, q: nat, a: Op, b: Op)
    requires Linearizable(spec, hist) && IsReturn(hist, r) && IsReturn(hist, q) && hist[r].id != hist[q].id
    requires IsCall(hist, hist[r].id, a) && IsCall(hist, hist[q].id, b) && a.Put? && b.Put? && a.key == b.key
    requires hist[r].reply.err == OK && hist[q].reply.err == OK
    ensures a.version != b.version
  {
    var ops: seq<Ordered> :| Explains(spec, hist, ops);
    assert Contains(ops, hist[r].id, hist[r].reply) && Contains(ops, hist[q].id, hist[q].reply);
    var i :| 0 <= i < |ops| && ops[i].id == hist[r].id && ops[i].out == hist[r].reply;
    var j :| 0 <= j < |ops| && ops[j].id == hist[q].id && ops[j].out == hist[q].reply;
    if i < j {
      DistinctVersions(spec, ops, i, j);
    } else {
      DistinctVersions(spec, ops, j, i);
    }
  }
}
