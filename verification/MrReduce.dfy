/** Grouping sorted key/value pairs and reducing each group: the loops shared by the sequential
    program and the reduce workers, and why partitioning and re-ordering do not change the lines. */
module MrReduce {
  import opened StringOrder

  datatype KeyValue = KeyValue(key: string, value: string)

  /** One line of output: a key and what reduce made of its values. */
  datatype Line = Line(key: string, output: string)

  type ReduceFn = (string, seq<string>) -> string

  /** Sorted by key; pairs with equal keys may come in any order, as the sort is not stable. */
  predicate Sorted(kva: seq<KeyValue>) {
    forall i, j :: 0 <= i < j < |kva| ==> LessEq(kva[i].key, kva[j].key)
  }

  // ---------------------------------------------------------------------------------------
  // Grouping
  // ---------------------------------------------------------------------------------------

  /** The length of the first run of equal keys. */
  function RunLength(kva: seq<KeyValue>): (n: nat)
    requires kva != []
    ensures 1 <= n <= |kva|
    ensures forall i :: 0 <= i < n ==> kva[i].key == kva[0].key
    ensures n < |kva| ==> kva[n].key != kva[0].key
  {
    if |kva| > 1 && kva[1].key == kva[0].key then 1 + RunLength(kva[1..]) else 1
  }

  function Values(kva: seq<KeyValue>): (vs: seq<string>)
    ensures |vs| == |kva| && forall i :: 0 <= i < |kva| ==> vs[i] == kva[i].value
  {
    seq(|kva|, i requires 0 <= i < |kva| => kva[i].value)
  }

  /** One line for each run of equal keys. */
  function Lines(reducef: ReduceFn, kva: seq<KeyValue>): seq<Line>
    decreases |kva|
  {
    if kva == [] then []
    else
      var n := RunLength(kva);
      [Line(kva[0].key, reducef(kva[0].key, Values(kva[..n])))] + Lines(reducef, kva[n..])
  }

  /** A run is determined by its ends. */
  lemma {:induction false} RunLengthIs(kva: seq<KeyValue>, n: nat)
    requires 1 <= n <= |kva|
    requires forall i :: 0 <= i < n ==> kva[i].key == kva[0].key
    requires n < |kva| ==> kva[n].key != kva[0].key
    ensures RunLength(kva) == n
  {
  }

  /** One round of the outer loop. */
  lemma LinesStep(reducef: ReduceFn, kva: seq<KeyValue>, i: nat, j: nat, out: seq<Line>)
    requires i < j <= |kva|
    requires forall k :: i <= k < j ==> kva[k].key == kva[i].key
    requires j < |kva| ==> kva[j].key != kva[i].key
    ensures out + Lines(reducef, kva[i..])
         == out + [Line(kva[i].key, reducef(kva[i].key, Values(kva[i..j])))] + Lines(reducef, kva[j..])
  {
    var rest := kva[i..];
    RunLengthIs(rest, j - i);
    Suffixes(kva, i, j);
    var line := Line(rest[0].key, reducef(rest[0].key, Values(rest[..j-i])));
    assert Lines(reducef, rest) == [line] + Lines(reducef, rest[j-i..]);
    Associates(out, [line], Lines(reducef, rest[j-i..]));
  }

  lemma Associates(a: seq<Line>, b: seq<Line>, c: seq<Line>)
    ensures a + (b + c) == a + b + c
  {
  }

  lemma Suffixes(kva: seq<KeyValue>, i: nat, j: nat)
    requires i <= j <= |kva|
    ensures kva[i..][..j-i] == kva[i..j] && kva[i..][j-i..] == kva[j..]
  {
  }

  /** The end of the run that starts at i. */
  method EndOfRun(kva: seq<KeyValue>, i: nat) returns (j: nat)
    requires i < |kva|
    ensures i < j <= |kva|
    ensures forall k :: i <= k < j ==> kva[k].key == kva[i].key
    ensures j < |kva| ==> kva[j].key != kva[i].key
  {
    j := i + 1;
    while j < |kva| && kva[j].key == kva[i].key
      invariant i < j <= |kva|
      invariant forall k :: i <= k < j ==> kva[k].key == kva[i].key
    {
      j := j + 1;
    }
  }

  method CollectValues(kva: seq<KeyValue>, i: nat, j: nat) returns (values: seq<string>)
    requires i <= j <= |kva|
    ensures values == Values(kva[i..j])
  {
    values := [];
    var k := i;
    while k < j
      invariant i <= k <= j
      invariant values == Values(kva[i..k])
    {
      values := values + [kva[k].value];
      k := k + 1;
    }
  }

  /** The grouping loops. The caller sorts first. */
  method ReduceHelper(reducef: ReduceFn, kva: seq<KeyValue>) returns (out: seq<Line>)
    ensures out == Lines(reducef, kva)
    ensures Sorted(kva) ==> multiset(out) == multiset(LineSet(reducef, kva)) && Ascending(out)
  {
    out := [];
    var i := 0;
    while i < |kva|
      invariant 0 <= i <= |kva|
      invariant out + Lines(reducef, kva[i..]) == Lines(reducef, kva)
    {
      var j := EndOfRun(kva, i);
      var values := CollectValues(kva, i, j);
      LinesStep(reducef, kva, i, j, out);
      out := out + [Line(kva[i].key, reducef(kva[i].key, values))];
      i := j;
    }
    assert kva[i..] == [];
    if Sorted(kva) {
      LinesAreLineSet(reducef, kva);
      LinesAscend(reducef, kva);
    }
  }

  // ---------------------------------------------------------------------------------------
  // What the lines are
  // ---------------------------------------------------------------------------------------

  function ValuesFor(kva: seq<KeyValue>, key: string): seq<string> {
    if kva == [] then []
    else (if kva[0].key == key then [kva[0].value] else []) + ValuesFor(kva[1..], key)
  }

  function Keys(kva: seq<KeyValue>): set<string> {
    set kv | kv in kva :: kv.key
  }

  function LineFor(reducef: ReduceFn, kva: seq<KeyValue>, key: string): Line {
    Line(key, reducef(key, ValuesFor(kva, key)))
  }

  /** The meaning of a reduce: one line for each key, computed from all its values. */
  function LineSet(reducef: ReduceFn, kva: seq<KeyValue>): set<Line> {
    set key | key in Keys(kva) :: LineFor(reducef, kva, key)
  }

  /** Reduce depends only on which values a key has, not on their order. */
  ghost predicate OrderBlind(reducef: ReduceFn) {
    forall key, vs, ws :: multiset(vs) == multiset(ws) ==> reducef(key, vs) == reducef(key, ws)
  }

  lemma {:induction false} ValuesForConcat(a: seq<KeyValue>, b: seq<KeyValue>, key: string)
    ensures ValuesFor(a + b, key) == ValuesFor(a, key) + ValuesFor(b, key)
  {
    if a == [] {
      assert a + b == b;
    } else {
      assert (a + b)[1..] == a[1..] + b;
      ValuesForConcat(a[1..], b, key);
    }
  }

  lemma {:induction false} ValuesForAll(kva: seq<KeyValue>, key: string)
    requires forall i :: 0 <= i < |kva| ==> kva[i].key == key
    ensures ValuesFor(kva, key) == Values(kva)
  {
    if kva != [] {
      ValuesForAll(kva[1..], key);
      assert Values(kva) == [kva[0].value] + Values(kva[1..]);
    }
  }

  lemma {:induction false} ValuesForNone(kva: seq<KeyValue>, key: string)
    requires key !in Keys(kva)
    ensures ValuesFor(kva, key) == []
  {
    if kva != [] {
      assert kva[0] in kva && kva[0].key in Keys(kva);
      assert Keys(kva[1..]) <= Keys(kva);
      ValuesForNone(kva[1..], key);
    }
  }

  /** `kva` begins with all the pairs of its first key, and they are the first n. */
  predicate HeadRun(kva: seq<KeyValue>, n: nat) {
    && 1 <= n <= |kva|
    && (forall i :: 0 <= i < n ==> kva[i].key == kva[0].key)
    && kva[0].key !in Keys(kva[n..])
  }

  /** After the first run of a sorted sequence its key does not come back. */
  lemma RunIsWhole(kva: seq<KeyValue>)
    requires Sorted(kva) && kva != []
    ensures HeadRun(kva, RunLength(kva)) && Sorted(kva[RunLength(kva)..])
  {
    var n := RunLength(kva);
    forall kv | kv in kva[n..]
      ensures kv.key != kva[0].key
    {
      var i :| n <= i < |kva| && kva[i] == kv;
      if kv.key == kva[0].key {
        assert LessEq(kva[0].key, kva[n].key);
        assert i > n ==> LessEq(kva[n].key, kva[i].key);
        LessEqAntisymmetric(kva[0].key, kva[n].key);
      }
    }
  }

  lemma RestSameLine(reducef: ReduceFn, kva: seq<KeyValue>, n: nat, key: string)
    requires n <= |kva| && key !in Keys(kva[..n])
    ensures LineFor(reducef, kva, key) == LineFor(reducef, kva[n..], key)
  {
    assert kva == kva[..n] + kva[n..];
    ValuesForConcat(kva[..n], kva[n..], key);
    ValuesForNone(kva[..n], key);
    assert [] + ValuesFor(kva[n..], key) == ValuesFor(kva[n..], key);
  }

  lemma FirstLine(reducef: ReduceFn, kva: seq<KeyValue>, n: nat)
    requires HeadRun(kva, n)
    ensures LineFor(reducef, kva, kva[0].key) == Line(kva[0].key, reducef(kva[0].key, Values(kva[..n])))
  {
    var key := kva[0].key;
    assert kva == kva[..n] + kva[n..];
    ValuesForConcat(kva[..n], kva[n..], key);
    ValuesForAll(kva[..n], key);
    ValuesForNone(kva[n..], key);
    assert Values(kva[..n]) + [] == Values(kva[..n]);
  }

  lemma SplitKeys(kva: seq<KeyValue>, n: nat)
    requires HeadRun(kva, n)
    ensures Keys(kva[..n]) == {kva[0].key} && Keys(kva) == {kva[0].key} + Keys(kva[n..])
  {
    assert kva[..n][0] in kva[..n];
    assert kva == kva[..n] + kva[n..];
  }

  lemma SplitLineSet(reducef: ReduceFn, kva: seq<KeyValue>, n: nat)
    requires HeadRun(kva, n)
    ensures LineSet(reducef, kva) == {LineFor(reducef, kva, kva[0].key)} + LineSet(reducef, kva[n..])
    ensures LineFor(reducef, kva, kva[0].key) !in LineSet(reducef, kva[n..])
  {
    SplitKeys(kva, n);
    forall key | key in Keys(kva[n..])
      ensures LineFor(reducef, kva, key) == LineFor(reducef, kva[n..], key)
    {
      RestSameLine(reducef, kva, n, key);
    }
  }

  lemma AddLine(first: Line, lines: seq<Line>, set0: set<Line>)
    requires first !in set0 && multiset(lines) == multiset(set0)
    ensures multiset([first] + lines) == multiset({first} + set0)
  {
    assert multiset({first} + set0) == multiset({first}) + multiset(set0);
  }

  /** On sorted input the loops write exactly one line for each key, from all its values. */
  lemma {:induction false} LinesAreLineSet(reducef: ReduceFn, kva: seq<KeyValue>)
    requires Sorted(kva)
    ensures multiset(Lines(reducef, kva)) == multiset(LineSet(reducef, kva))
    decreases |kva|
  {
    if kva == [] {
      assert LineSet(reducef, kva) == {};
    } else {
      var n := RunLength(kva);
      var rest := kva[n..];
      RunIsWhole(kva);
      LinesAreLineSet(reducef, rest);
      FirstLine(reducef, kva, n);
      SplitLineSet(reducef, kva, n);
      var first := LineFor(reducef, kva, kva[0].key);
      assert Lines(reducef, kva) == [first] + Lines(reducef, rest);
      AddLine(first, Lines(reducef, rest), LineSet(reducef, rest));
    }
  }

  /** Lines in ascending order of keys, no key twice. */
  predicate Ascending(lines: seq<Line>) {
    forall i, j :: 0 <= i < j < |lines| ==> lines[i].key != lines[j].key && LessEq(lines[i].key, lines[j].key)
  }

  /** Reduce writes lines for the keys it is given and for no others. */
  lemma LineKeys(reducef: ReduceFn, kva: seq<KeyValue>, key: string)
    requires Sorted(kva)
    ensures key in Keys(kva) <==> exists line :: line in Lines(reducef, kva) && line.key == key
  {
    LinesAreLineSet(reducef, kva);
    assert forall line :: line in Lines(reducef, kva) <==> line in multiset(Lines(reducef, kva));
    if key in Keys(kva) {
      assert LineFor(reducef, kva, key) in LineSet(reducef, kva);
    }
  }

  /** The key of a later line is the key of a later pair. */
  lemma LaterLine(reducef: ReduceFn, kva: seq<KeyValue>, n: nat, line: Line)
    requires Sorted(kva) && HeadRun(kva, n) && Sorted(kva[n..]) && line in Lines(reducef, kva[n..])
    ensures line.key != kva[0].key && LessEq(kva[0].key, line.key)
  {
    var rest := kva[n..];
    LineKeys(reducef, rest, line.key);
    var kv :| kv in rest && kv.key == line.key;
    var k :| 0 <= k < |rest| && rest[k] == kv;
    assert rest[k] == kva[n + k];
  }

  lemma AscendsFrom(line: Line, lines: seq<Line>)
    requires Ascending(lines)
    requires forall j :: 0 <= j < |lines| ==> lines[j].key != line.key && LessEq(line.key, lines[j].key)
    ensures Ascending([line] + lines)
  {
  }

  /** The lines come in the order of their keys. */
  lemma {:induction false} LinesAscend(reducef: ReduceFn, kva: seq<KeyValue>)
    requires Sorted(kva)
    ensures Ascending(Lines(reducef, kva))
    decreases |kva|
  {
    if kva != [] {
      var n := RunLength(kva);
      RunIsWhole(kva);
      LinesAscend(reducef, kva[n..]);
      var lines := Lines(reducef, kva[n..]);
      forall j | 0 <= j < |lines|
        ensures lines[j].key != kva[0].key && LessEq(kva[0].key, lines[j].key)
      {
        LaterLine(reducef, kva, n, lines[j]);
      }
      AscendsFrom(Lines(reducef, kva)[0], lines);
    }
  }

  // ---------------------------------------------------------------------------------------
  // Re-ordering
  // ---------------------------------------------------------------------------------------

  lemma {:induction false} ValuesForCount(kva: seq<KeyValue>, key: string, v: string)
    ensures multiset(ValuesFor(kva, key))[v] == multiset(kva)[KeyValue(key, v)]
  {
    if kva != [] {
      ValuesForCount(kva[1..], key, v);
      assert kva == [kva[0]] + kva[1..];
      var head := if kva[0].key == key then [kva[0].value] else [];
      assert ValuesFor(kva, key) == head + ValuesFor(kva[1..], key);
      assert multiset(head)[v] == if kva[0] == KeyValue(key, v) then 1 else 0;
    }
  }

  lemma SameKeys(a: seq<KeyValue>, b: seq<KeyValue>)
    requires multiset(a) == multiset(b)
    ensures Keys(a) <= Keys(b)
  {
    forall key | key in Keys(a)
      ensures key in Keys(b)
    {
      var kv :| kv in a && kv.key == key;
      assert kv in multiset(a);
      assert kv in b;
    }
  }

  lemma LineSetPermutation(reducef: ReduceFn, a: seq<KeyValue>, b: seq<KeyValue>)
    requires multiset(a) == multiset(b) && OrderBlind(reducef)
    ensures LineSet(reducef, a) == LineSet(reducef, b)
  {
    SameKeys(a, b);
    SameKeys(b, a);
    forall key | key in Keys(a)
      ensures LineFor(reducef, a, key) == LineFor(reducef, b, key)
    {
      forall v
        ensures multiset(ValuesFor(a, key))[v] == multiset(ValuesFor(b, key))[v]
      {
        ValuesForCount(a, key, v);
        ValuesForCount(b, key, v);
      }
      assert multiset(ValuesFor(a, key)) == multiset(ValuesFor(b, key));
    }
  }

  /** However equal pairs were ordered before, two sorts of the same pairs give the same lines. */
  lemma SortsAgree(reducef: ReduceFn, a: seq<KeyValue>, b: seq<KeyValue>)
    requires Sorted(a) && Sorted(b) && multiset(a) == multiset(b) && OrderBlind(reducef)
    ensures multiset(Lines(reducef, a)) == multiset(Lines(reducef, b))
  {
    LinesAreLineSet(reducef, a);
    LinesAreLineSet(reducef, b);
    LineSetPermutation(reducef, a, b);
  }
}
