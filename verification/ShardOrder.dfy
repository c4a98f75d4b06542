/** Which shards move and in which order: ties are broken by the lowest gid and the lowest shard. */
module ShardOrder {
  import opened ShardBalance

  // ---------------------------------------------------------------------------------------
  // A join into balanced groups
  // ---------------------------------------------------------------------------------------

  /** Of the shards of one group, those with the lowest numbers move. */
  predicate LowestMove(start: seq<Gid>, shards: seq<Gid>)
    requires |start| == |shards|
  {
    forall i, j :: 0 <= i < j < |start| && start[i] == start[j] && shards[j] != start[j] ==> shards[i] != start[i]
  }

  /** Of two groups that were equally full, the one with the lower gid gives first. */
  predicate LowestGive(start: seq<Gid>, shards: seq<Gid>, present: set<Gid>) {
    forall g, h :: g in present && h in present && g < h && Load(start, g) == Load(start, h) ==>
      Load(shards, g) <= Load(shards, h) <= Load(shards, g) + 1
  }

  /** Of two new groups, the one with the lower gid receives first. */
  predicate LowestReceive(shards: seq<Gid>, joining: set<Gid>) {
    forall g, h :: g in joining && h in joining && g < h ==> Load(shards, h) <= Load(shards, g) <= Load(shards, h) + 1
  }

  lemma MoveFirst(start: seq<Gid>, shards: seq<Gid>, present: set<Gid>, joining: set<Gid>, mg: Gid, lg: Gid)
    requires Joining(start, shards, present, joining) && LowestMove(start, shards)
    requires mg in present && lg in joining && Load(shards, mg) > 0
    ensures LowestMove(start, Move(shards, mg, lg))
  {
    var f := FirstOf(shards, mg);
    assert start[f] == mg;
  }

  lemma MovedLoad(shards: seq<Gid>, mg: Gid, lg: Gid, g: Gid)
    requires Load(shards, mg) > 0 && mg != lg
    ensures Load(shards, g) + (if g == lg then 1 else 0) == Load(Move(shards, mg, lg), g) + if g == mg then 1 else 0
  {
    MoveLoads(shards, mg, lg);
  }

  lemma MoveTies(start: seq<Gid>, shards: seq<Gid>, present: set<Gid>, joining: set<Gid>, mg: Gid, lg: Gid)
    requires present !! joining && LowestGive(start, shards, present) && LowestReceive(shards, joining)
    requires IsMost(shards, present + joining, mg) && IsLeast(shards, present + joining, lg)
    requires mg in present && lg in joining && Load(shards, mg) > 0
    ensures LowestGive(start, Move(shards, mg, lg), present) && LowestReceive(Move(shards, mg, lg), joining)
  {
    var m, m' := multiset(shards), multiset(Move(shards, mg, lg));
    forall g
      ensures m[g] + (if g == lg then 1 else 0) == m'[g] + if g == mg then 1 else 0
    {
      MovedLoad(shards, mg, lg, g);
    }
    assert LowestGive(start, Move(shards, mg, lg), present) by {
      TiesGive(multiset(start), m, m', present, mg);
    }
    assert LowestReceive(Move(shards, mg, lg), joining) by {
      TiesReceive(m, m', joining, lg);
    }
  }

  lemma TiesGive(m0: multiset<Gid>, m: multiset<Gid>, m': multiset<Gid>, present: set<Gid>, mg: Gid)
    requires forall g :: g in present ==> m[g] == m'[g] + if g == mg then 1 else 0
    requires forall g :: g in present ==> m[g] <= m[mg] && (m[g] == m[mg] ==> mg <= g)
    requires forall g, h :: g in present && h in present && g < h && m0[g] == m0[h] ==> m[g] <= m[h] <= m[g] + 1
    ensures forall g, h :: g in present && h in present && g < h && m0[g] == m0[h] ==> m'[g] <= m'[h] <= m'[g] + 1
  {
  }

  lemma TiesReceive(m: multiset<Gid>, m': multiset<Gid>, joining: set<Gid>, lg: Gid)
    requires forall g :: g in joining ==> m'[g] == m[g] + if g == lg then 1 else 0
    requires forall g :: g in joining ==> m[g] >= m[lg] && (m[g] == m[lg] ==> lg <= g)
    requires forall g, h :: g in joining && h in joining && g < h ==> m[h] <= m[g] <= m[h] + 1
    ensures forall g, h :: g in joining && h in joining && g < h ==> m'[h] <= m'[g] <= m'[h] + 1
  {
  }

  /** While levelling after a join. */
  ghost predicate InOrder(start: seq<Gid>, shards: seq<Gid>, present: set<Gid>, joining: set<Gid>) {
    && Joining(start, shards, present, joining) && LowestMove(start, shards)
    && LowestGive(start, shards, present) && LowestReceive(shards, joining)
  }

  lemma MoveInOrder(start: seq<Gid>, shards: seq<Gid>, present: set<Gid>, joining: set<Gid>, mg: Gid, lg: Gid)
    requires InOrder(start, shards, present, joining)
    requires IsMost(shards, present + joining, mg) && IsLeast(shards, present + joining, lg)
    requires Load(shards, mg) >= Load(shards, lg) + 2
    ensures InOrder(start, Move(shards, mg, lg), present, joining)
  {
    JoiningMove(start, shards, present, joining, mg, lg);
    JoiningEnds(start, shards, present, joining, mg, lg);
    MoveFirst(start, shards, present, joining, mg, lg);
    MoveTies(start, shards, present, joining, mg, lg);
  }

  lemma {:induction false} LevelInOrder(start: seq<Gid>, shards: seq<Gid>, present: set<Gid>, joining: set<Gid>)
    requires InOrder(start, shards, present, joining) && present + joining != {}
    ensures InOrder(start, Level(shards, present + joining), present, joining)
    decreases Energy(multiset(shards), present + joining)
  {
    var groups := present + joining;
    var mg, lg := Most(shards, groups), Least(shards, groups);
    if Load(shards, mg) >= Load(shards, lg) + 2 {
      MoveLowersEnergy(shards, groups, mg, lg);
      MoveInOrder(start, shards, present, joining, mg, lg);
      LevelInOrder(start, Move(shards, mg, lg), present, joining);
    }
  }

  /** When groups join a balanced assignment: of the shards of one group the lowest move, of two old groups
      that were equally full the lower gid gives first, and of two new groups the lower receives first. */
  lemma JoinInOrder(shards: seq<Gid>, present: set<Gid>, joining: set<Gid>)
    requires present != {} && present !! joining && Covered(shards, present) && Even(shards, present)
    ensures var r := Balance(shards, present + joining);
            LowestMove(shards, r) && LowestGive(shards, r, present) && LowestReceive(r, joining)
  {
    FillCovered(shards, present + joining, 0);
    forall w | w in joining
      ensures Load(shards, w) == 0
    {
      NoLoad(shards, w);
    }
    LevelInOrder(shards, shards, present, joining);
  }

  // ---------------------------------------------------------------------------------------
  // A join into nothing
  // ---------------------------------------------------------------------------------------

  /** `gs` lists the groups in ascending order. */
  ghost predicate Lists(gs: seq<Gid>, groups: set<Gid>) {
    Ascending(gs) && (forall g :: g in gs <==> g in groups)
  }

  /** The first m groups of the list have q + 1 shards, the others q. */
  predicate Dealt(shards: seq<Gid>, gs: seq<Gid>, q: nat, m: nat) {
    forall k :: 0 <= k < |gs| ==> Load(shards, gs[k]) == q + if k < m then 1 else 0
  }

  /** Whose turn it is at shard i. */
  function Turn(gs: seq<Gid>, i: nat): Gid
    requires gs != []
  {
    gs[i % |gs|]
  }

  lemma TurnIs(gs: seq<Gid>, i: nat, q: nat, m: nat)
    requires m < |gs| && i == q * |gs| + m
    ensures Turn(gs, i) == gs[m]
  {
    var n := |gs|;
    assert (q + 1) * n == q * n + n;
    FloorBelow(i, n, q + 1);
    FloorAtLeast(i, n, q);
    assert i / n == q;
  }

  lemma NextInTurn(shards: seq<Gid>, groups: set<Gid>, gs: seq<Gid>, q: nat, m: nat)
    requires Lists(gs, groups) && m < |gs| && Dealt(shards, gs, q, m)
    ensures groups != {} && Least(shards, groups) == gs[m]
  {
    assert gs[m] in groups;
    forall h | h in groups
      ensures Load(shards, gs[m]) <= Load(shards, h) && (Load(shards, gs[m]) == Load(shards, h) ==> gs[m] <= h)
    {
      var k :| 0 <= k < |gs| && gs[k] == h;
    }
    LeastUnique(shards, groups, gs[m]);
  }

  lemma DealOne(shards: seq<Gid>, gs: seq<Gid>, i: nat, q: nat, m: nat)
    requires Ascending(gs) && m < |gs| && Dealt(shards, gs, q, m) && i < |shards| && shards[i] !in gs
    ensures Dealt(shards[i := gs[m]], gs, q, m + 1)
  {
    var shards' := shards[i := gs[m]];
    assert multiset(shards') == multiset(shards) - multiset{shards[i]} + multiset{gs[m]};
    forall k | 0 <= k < |gs|
      ensures Load(shards', gs[k]) == q + if k < m + 1 then 1 else 0
    {
      assert gs[k] in gs;
    }
  }

  /** The next shard goes to the group whose turn it is. */
  lemma DealNext(shards: seq<Gid>, gs: seq<Gid>, i: nat, q: nat, m: nat) returns (q': nat, m': nat)
    requires Ascending(gs) && m < |gs| && i == q * |gs| + m && Dealt(shards, gs, q, m)
    requires i < |shards| && shards[i] !in gs
    ensures Turn(gs, i) == gs[m] && m' < |gs| && i + 1 == q' * |gs| + m'
    ensures Dealt(shards[i := gs[m]], gs, q', m')
  {
    TurnIs(gs, i, q, m);
    DealOne(shards, gs, i, q, m);
    if m + 1 < |gs| {
      q', m' := q, m + 1;
    } else {
      q', m' := q + 1, 0;
      assert (q + 1) * |gs| == q * |gs| + |gs|;
    }
  }

  lemma {:induction false} FillInTurn(shards: seq<Gid>, groups: set<Gid>, gs: seq<Gid>, i: nat, q: nat, m: nat)
    requires Lists(gs, groups) && m < |gs| && i <= |shards| && i == q * |gs| + m && Dealt(shards, gs, q, m)
    requires forall k :: i <= k < |shards| ==> shards[k] !in groups
    ensures groups != {}
    ensures forall k :: 0 <= k < |shards| ==> Fill(shards, groups, i)[k] == if k < i then shards[k] else Turn(gs, k)
    decreases |shards| - i
  {
    NextInTurn(shards, groups, gs, q, m);
    if i < |shards| {
      var q', m' := DealNext(shards, gs, i, q, m);
      FillInTurn(shards[i := gs[m]], groups, gs, i + 1, q', m');
    }
  }

  /** When groups join and no shard is in any of them, the shards are dealt out in turn, in ascending order
      of gid. */
  lemma FirstJoinDeals(shards: seq<Gid>, groups: set<Gid>, gs: seq<Gid>)
    requires Lists(gs, groups) && gs != [] && forall i :: 0 <= i < |shards| ==> shards[i] !in groups
    ensures forall i :: 0 <= i < |shards| ==> Balance(shards, groups)[i] == gs[i % |gs|]
  {
    forall g | g in groups
      ensures Load(shards, g) == 0
    {
      NoLoad(shards, g);
    }
    assert forall k :: 0 <= k < |gs| ==> gs[k] in gs;
    FillInTurn(shards, groups, gs, 0, 0, 0);
    FillKeepsEven(shards, groups, 0);
    var r := Fill(shards, groups, 0);
    assert Level(r, groups) == r;
    assert forall i :: 0 <= i < |shards| ==> r[i] == Turn(gs, i);
  }
}
