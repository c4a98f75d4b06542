/** Splitting map output over the reduce tasks, and why reducing the parts separately yields the
    lines of the whole. */
module MrPartition {
  import opened MrReduce

  type HashFn = string -> nat

  /** The pairs of reduce task r, in order. */
  function Bucket(hash: HashFn, n: nat, kva: seq<KeyValue>, r: nat): seq<KeyValue>
    requires n > 0
  {
    if kva == [] then []
    else Bucket(hash, n, kva[..|kva|-1], r) + (if hash(kva[|kva|-1].key) % n == r then [kva[|kva|-1]] else [])
  }

  /** The worker's loop that hands each pair to the encoder of its reduce task. */
  method Partition(hash: HashFn, n: nat, kva: seq<KeyValue>) returns (files: seq<seq<KeyValue>>)
    requires n > 0
    ensures |files| == n
    ensures forall r :: 0 <= r < n ==> files[r] == Bucket(hash, n, kva, r)
  {
    files := seq(n, _ => []);
    for i := 0 to |kva|
      invariant |files| == n
      invariant forall r :: 0 <= r < n ==> files[r] == Bucket(hash, n, kva[..i], r)
    {
      var r := hash(kva[i].key) % n;
      files := files[r := files[r] + [kva[i]]];
      assert kva[..i+1][..i] == kva[..i];
    }
    assert kva[..|kva|] == kva;
  }

  lemma {:induction false} BucketCount(hash: HashFn, n: nat, kva: seq<KeyValue>, r: nat, kv: KeyValue)
    requires n > 0
    ensures multiset(Bucket(hash, n, kva, r))[kv] == if hash(kv.key) % n == r then multiset(kva)[kv] else 0
  {
    if kva != [] {
      var last := kva[|kva|-1];
      BucketCount(hash, n, kva[..|kva|-1], r, kv);
      assert kva == kva[..|kva|-1] + [last];
    }
  }

  /** A bucket's pairs depend only on which pairs were emitted. */
  lemma BucketPermutation(hash: HashFn, n: nat, a: seq<KeyValue>, b: seq<KeyValue>, r: nat)
    requires n > 0 && multiset(a) == multiset(b)
    ensures multiset(Bucket(hash, n, a, r)) == multiset(Bucket(hash, n, b, r))
  {
    forall kv
      ensures multiset(Bucket(hash, n, a, r))[kv] == multiset(Bucket(hash, n, b, r))[kv]
    {
      BucketCount(hash, n, a, r, kv);
      BucketCount(hash, n, b, r, kv);
    }
  }

  lemma {:induction false} BucketConcat(hash: HashFn, n: nat, a: seq<KeyValue>, b: seq<KeyValue>, r: nat)
    requires n > 0
    ensures Bucket(hash, n, a + b, r) == Bucket(hash, n, a, r) + Bucket(hash, n, b, r)
  {
    if b == [] {
      assert a + b == a;
    } else {
      assert (a + b)[..|a+b|-1] == a + b[..|b|-1];
      BucketConcat(hash, n, a, b[..|b|-1], r);
    }
  }

  lemma {:induction false} BucketValues(hash: HashFn, n: nat, kva: seq<KeyValue>, r: nat, key: string)
    requires n > 0 && hash(key) % n == r
    ensures ValuesFor(Bucket(hash, n, kva, r), key) == ValuesFor(kva, key)
  {
    if kva != [] {
      var init, last := kva[..|kva|-1], kva[|kva|-1];
      BucketValues(hash, n, init, r, key);
      assert kva == init + [last];
      ValuesForConcat(init, [last], key);
      if hash(last.key) % n == r {
        ValuesForConcat(Bucket(hash, n, init, r), [last], key);
      } else {
        assert Bucket(hash, n, kva, r) == Bucket(hash, n, init, r);
        assert ValuesFor([last], key) == [];
      }
    }
  }

  lemma BucketKeys(hash: HashFn, n: nat, kva: seq<KeyValue>, r: nat, key: string)
    requires n > 0
    ensures key in Keys(Bucket(hash, n, kva, r)) <==> key in Keys(kva) && hash(key) % n == r
  {
    var part := Bucket(hash, n, kva, r);
    if key in Keys(part) {
      var kv :| kv in part && kv.key == key;
      BucketCount(hash, n, kva, r, kv);
      assert multiset(part)[kv] > 0;
      assert kv in multiset(kva);
    }
    if key in Keys(kva) && hash(key) % n == r {
      var kv :| kv in kva && kv.key == key;
      BucketCount(hash, n, kva, r, kv);
      assert multiset(kva)[kv] > 0;
      assert kv in multiset(part);
    }
  }

  /** The lines of the keys of reduce tasks below r. */
  function LinesBelow(hash: HashFn, n: nat, reducef: ReduceFn, kva: seq<KeyValue>, r: nat): set<Line>
    requires n > 0
  {
    set key | key in Keys(kva) && hash(key) % n < r :: LineFor(reducef, kva, key)
  }

  lemma NextLinesBelow(hash: HashFn, n: nat, reducef: ReduceFn, kva: seq<KeyValue>, r: nat)
    requires n > 0
    ensures var part := LineSet(reducef, Bucket(hash, n, kva, r));
            var below := LinesBelow(hash, n, reducef, kva, r);
            LinesBelow(hash, n, reducef, kva, r + 1) == below + part && below !! part
  {
    var part := Bucket(hash, n, kva, r);
    forall key
      ensures key in Keys(part) <==> key in Keys(kva) && hash(key) % n == r
      ensures key in Keys(part) ==> LineFor(reducef, part, key) == LineFor(reducef, kva, key)
    {
      BucketKeys(hash, n, kva, r, key);
      if hash(key) % n == r {
        BucketValues(hash, n, kva, r, key);
      }
    }
  }

  /** All lines of the first r output files together. */
  function Gathered(outs: seq<seq<Line>>, r: nat): multiset<Line>
    requires r <= |outs|
  {
    if r == 0 then multiset{} else Gathered(outs, r - 1) + multiset(outs[r-1])
  }

  lemma DisjointUnion(a: set<Line>, b: set<Line>)
    requires a !! b
    ensures multiset(a + b) == multiset(a) + multiset(b)
  {
  }

  lemma GatherOne(outs: seq<seq<Line>>, i: nat, below: set<Line>, part: set<Line>)
    requires i < |outs| && Gathered(outs, i) == multiset(below) && multiset(outs[i]) == multiset(part) && below !! part
    ensures Gathered(outs, i + 1) == multiset(below + part)
  {
    DisjointUnion(below, part);
  }

  lemma {:induction false} GatheredBelow(hash: HashFn, n: nat, reducef: ReduceFn, kva: seq<KeyValue>,
                                         outs: seq<seq<Line>>, r: nat)
    requires n > 0 && |outs| == n && r <= n
    requires forall i :: 0 <= i < n ==> multiset(outs[i]) == multiset(LineSet(reducef, Bucket(hash, n, kva, i)))
    ensures Gathered(outs, r) == multiset(LinesBelow(hash, n, reducef, kva, r))
  {
    if r == 0 {
      assert LinesBelow(hash, n, reducef, kva, 0) == {};
    } else {
      var i := r - 1;
      GatheredBelow(hash, n, reducef, kva, outs, i);
      NextLinesBelow(hash, n, reducef, kva, i);
      assert i + 1 == r;
      GatherOne(outs, i, LinesBelow(hash, n, reducef, kva, i), LineSet(reducef, Bucket(hash, n, kva, i)));
    }
  }

  /** Reducing every bucket separately gives, all files together, the lines of the whole. */
  lemma PartsMakeTheWhole(hash: HashFn, n: nat, reducef: ReduceFn, kva: seq<KeyValue>, outs: seq<seq<Line>>)
    requires n > 0 && |outs| == n
    requires forall r :: 0 <= r < n ==> multiset(outs[r]) == multiset(LineSet(reducef, Bucket(hash, n, kva, r)))
    ensures Gathered(outs, n) == multiset(LineSet(reducef, kva))
  {
    GatheredBelow(hash, n, reducef, kva, outs, n);
    assert forall key :: hash(key) % n < n;
    assert LinesBelow(hash, n, reducef, kva, n) == LineSet(reducef, kva);
  }
}
