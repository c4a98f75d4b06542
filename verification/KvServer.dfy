/** The versioned key/value server: one map from keys to (value, version), read by Get and
    changed only by Put's comparison of versions. */
module KvServer {

  datatype Err = OK | ErrNoKey | ErrVersion | ErrMaybe

  datatype Entry = Entry(value: string, version: nat)

  type Store = map<string, Entry>

  datatype Op = Get(key: string) | Put(key: string, value: string, version: nat)

  /** What a handler or a clerk answers; a Put leaves `value` and `version` at their zero values. */
  datatype Reply = Reply(value: string, version: nat, err: Err)

  function PutReply(err: Err): Reply {
    Reply("", 0, err)
  }

  /** An absent key reads as version 0. */
  function VersionOf(store: Store, key: string): nat {
    if key in store then store[key].version else 0
  }

  function ValueOf(store: Store, key: string): string {
    if key in store then store[key].value else ""
  }

  /** The handlers as one transition of the store. */
  function Serve(store: Store, op: Op): (Store, Reply) {
    match op
    case Get(key) =>
      if key !in store then (store, Reply("", 0, ErrNoKey))
      else (store, Reply(store[key].value, store[key].version, OK))
    case Put(key, value, version) =>
      if key !in store then
        if version == 0 then (store[key := Entry(value, 1)], PutReply(OK))
        else (store, PutReply(ErrNoKey))
      else if version != store[key].version then (store, PutReply(ErrVersion))
      else (store[key := Entry(value, store[key].version + 1)], PutReply(OK))
  }

  /** Whether executing `op` now would write. */
  predicate Applies(store: Store, op: Op) {
    op.Put? && op.version == VersionOf(store, op.key)
  }

  /** Compare-and-swap: the store changes exactly when the versions agree, and then only at the
      requested key, whose version grows by one. */
  lemma ServeIsCompareAndSwap(store: Store, op: Op)
    ensures var (store', reply) := Serve(store, op);
            && (Applies(store, op) ==>
                  store' == store[op.key := Entry(op.value, op.version + 1)] && reply == PutReply(OK))
            && (!Applies(store, op) ==> store' == store)
            && (op.Put? && !Applies(store, op) ==>
                  reply == PutReply(if op.key in store then ErrVersion else ErrNoKey))
            && (op.Get? ==> reply == Reply(ValueOf(store, op.key), VersionOf(store, op.key),
                                           if op.key in store then OK else ErrNoKey))
  {
  }

  class KVServer {
    var KVStore: Store

    constructor ()
      ensures KVStore == map[]
    {
      KVStore := map[];
    }

    method Get(key: string) returns (reply: Reply)
      ensures (KVStore, reply) == Serve(KVStore, Op.Get(key))
    {
      if key !in KVStore {
        return Reply("", 0, ErrNoKey);
      }
      var entry := KVStore[key];
      reply := Reply(entry.value, entry.version, OK);
    }

    method Put(key: string, value: string, version: nat) returns (reply: Reply)
      modifies this
      ensures (KVStore, reply) == Serve(old(KVStore), Op.Put(key, value, version))
    {
      if key !in KVStore {
        if version == 0 {
          KVStore := KVStore[key := Entry(value, 1)];
          return PutReply(OK);
        }
        return PutReply(ErrNoKey);
      }
      var entry := KVStore[key];
      if version != entry.version {
        return PutReply(ErrVersion);
      }
      KVStore := KVStore[key := Entry(value, entry.version + 1)];
      reply := PutReply(OK);
    }
  }
}
