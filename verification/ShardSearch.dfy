/** The search for the emptiest group starts from the constant 257: what the rebalancing program
    computes with it for any number of shards and any groups, and for which that is right. */
module ShardSearch {
  import opened ShardBalance

  /** What the search for the emptiest group starts from. */
  const SENTINEL: nat := 257

  ghost predicate Findable(shards: seq<Gid>, groups: set<Gid>) {
    exists g :: g in groups && Load(shards, g) < SENTINEL
  }

  /** The group that the search returns, and the load it reports. */
  ghost function Found(shards: seq<Gid>, groups: set<Gid>): Gid {
    if Findable(shards, groups) then Least(shards, groups) else -1
  }

  ghost function FoundLoad(shards: seq<Gid>, groups: set<Gid>): nat {
    if Findable(shards, groups) then Load(shards, Least(shards, groups)) else SENTINEL
  }

  // ---------------------------------------------------------------------------------------
  // What the program computes
  // ---------------------------------------------------------------------------------------

  /** The first loop: give every shard from i on that has no group to the group that is found. */
  ghost function FillFound(shards: seq<Gid>, groups: set<Gid>, i: nat): (r: seq<Gid>)
    requires i <= |shards|
    ensures |r| == |shards|
    decreases |shards| - i
  {
    if i == |shards| then shards
    else if shards[i] in groups then FillFound(shards, groups, i + 1)
    else FillFound(shards[i := Found(shards, groups)], groups, i + 1)
  }

  /** At most 257 shards for each group. */
  predicate Roomy(n: nat, groups: set<Gid>) {
    groups == {} || n <= 257 * |groups|
  }

  /** When the second loop ends from every assignment. */
  predicate Ends(n: nat, groups: set<Gid>) {
    -1 !in groups || n <= 257 * |groups| + 1
  }

  lemma SquareFalls(a: nat)
    requires a > 0
    ensures (a - 1) * (a - 1) < a * a
  {
    assert (a - 1) * (a - 1) == a * a - 2 * a + 1;
  }

  lemma MoveAwayLowersEnergy(shards: seq<Gid>, groups: set<Gid>, from: Gid, to: Gid)
    requires from in groups && to !in groups && Load(shards, from) > 0
    ensures Energy(multiset(Move(shards, from, to)), groups) < Energy(multiset(shards), groups)
  {
    var m, m' := multiset(shards), multiset(Move(shards, from, to));
    MoveLoads(shards, from, to);
    EnergySplit(m, groups, from);
    EnergySplit(m', groups, from);
    EnergyAgree(m, m', groups - {from});
    assert m'[from] == m[from] - 1;
    SquareFalls(m[from]);
  }

  lemma LoadBound(shards: seq<Gid>, g: Gid)
    ensures Load(shards, g) <= |shards|
  {
    assert |multiset(shards)| == |shards|;
    assert multiset(shards) >= multiset{}[g := Load(shards, g)];
    assert |multiset{}[g := Load(shards, g)]| == Load(shards, g);
  }

  lemma {:induction false} WithinLength(shards: seq<Gid>, groups: set<Gid>)
    ensures Within(shards, groups) <= |shards|
    ensures Within(shards, groups) == |shards| ==> Covered(shards, groups)
  {
    if shards != [] {
      WithinLength(shards[..|shards|-1], groups);
      assert shards == shards[..|shards|-1] + [shards[|shards|-1]];
    }
  }

  /** If the search finds nothing, every group has 257 shards and the fullest has all the others. */
  lemma NotFound(shards: seq<Gid>, groups: set<Gid>, g: Gid)
    requires g in groups
    ensures Findable(shards, groups) || SENTINEL * (|groups| - 1) + Load(shards, g) <= Within(shards, groups)
  {
    if !Findable(shards, groups) {
      forall h | h in groups
        ensures SENTINEL <= Load(shards, h) <= |shards|
      {
        LoadBound(shards, h);
      }
      WithinAdd(shards, groups, g);
      WithinBounds(shards, groups - {g}, SENTINEL, |shards|);
      assert |groups - {g}| == |groups| - 1;
    }
  }

  /** One round of the second loop moves a shard: the sum of the squared loads falls. */
  lemma RoundLowersEnergy(shards: seq<Gid>, groups: set<Gid>)
    requires groups != {} && Ends(|shards|, groups)
    requires Load(shards, Most(shards, groups)) >= FoundLoad(shards, groups) + 2
    ensures Energy(multiset(Move(shards, Most(shards, groups), Found(shards, groups))), groups)
            < Energy(multiset(shards), groups)
  {
    var mg := Most(shards, groups);
    NotFound(shards, groups, mg);
    WithinLength(shards, groups);
    if Findable(shards, groups) {
      MoveLowersEnergy(shards, groups, mg, Least(shards, groups));
    } else {
      MoveAwayLowersEnergy(shards, groups, mg, -1);
    }
  }

  /** The second loop: move shards from the fullest group to the one that is found. */
  ghost function LevelFound(shards: seq<Gid>, groups: set<Gid>): (r: seq<Gid>)
    requires groups != {} && Ends(|shards|, groups)
    ensures |r| == |shards|
    decreases Energy(multiset(shards), groups)
  {
    if Load(shards, Most(shards, groups)) < FoundLoad(shards, groups) + 2 then shards
    else
      RoundLowersEnergy(shards, groups);
      LevelFound(Move(shards, Most(shards, groups), Found(shards, groups)), groups)
  }

  ghost function Rebalanced(shards: seq<Gid>, groups: set<Gid>): (r: seq<Gid>)
    requires Ends(|shards|, groups)
    ensures |r| == |shards|
  {
    if groups == {} then seq(|shards|, _ => 0) else LevelFound(FillFound(shards, groups, 0), groups)
  }

  // ---------------------------------------------------------------------------------------
  // Up to 257 shards for each group it is right
  // ---------------------------------------------------------------------------------------

  lemma FindableFromAll(shards: seq<Gid>, groups: set<Gid>, i: nat)
    requires groups != {} && Roomy(|shards|, groups) && i < |shards| && shards[i] !in groups
    ensures Findable(shards, groups)
  {
    var g := Pick(groups);
    NotFound(shards, groups, g);
    WithinLength(shards, groups);
    assert !Covered(shards, groups);
  }

  lemma {:induction false} FillRight(shards: seq<Gid>, groups: set<Gid>, i: nat)
    requires groups != {} && Roomy(|shards|, groups) && i <= |shards|
    ensures FillFound(shards, groups, i) == Fill(shards, groups, i)
    decreases |shards| - i
  {
    if i < |shards| {
      if shards[i] in groups {
        FillRight(shards, groups, i + 1);
      } else {
        FindableFromAll(shards, groups, i);
        FillRight(shards[i := Least(shards, groups)], groups, i + 1);
      }
    }
  }

  lemma {:induction false} LevelRight(shards: seq<Gid>, groups: set<Gid>)
    requires groups != {} && Roomy(|shards|, groups)
    ensures LevelFound(shards, groups) == Level(shards, groups)
    decreases Energy(multiset(shards), groups)
  {
    var mg, lg := Most(shards, groups), Least(shards, groups);
    NotFound(shards, groups, mg);
    WithinLength(shards, groups);
    if Load(shards, mg) >= Load(shards, lg) + 2 {
      assert Findable(shards, groups);
      MoveLowersEnergy(shards, groups, mg, lg);
      LevelRight(Move(shards, mg, lg), groups);
    }
  }

  lemma RebalanceRight(shards: seq<Gid>, groups: set<Gid>)
    requires groups == {} || |shards| <= 257 * |groups|
    ensures Rebalanced(shards, groups) == Balance(shards, groups)
  {
    if groups != {} {
      FillRight(shards, groups, 0);
      LevelRight(Fill(shards, groups, 0), groups);
    }
  }

  // ---------------------------------------------------------------------------------------
  // With more it is wrong
  // ---------------------------------------------------------------------------------------

  predicate AtMost(shards: seq<Gid>, groups: set<Gid>, k: nat) {
    forall g :: g in groups ==> Load(shards, g) <= k
  }

  lemma AssignLoads(shards: seq<Gid>, i: nat, to: Gid)
    requires i < |shards|
    ensures multiset(shards[i := to]) == multiset(shards) - multiset{shards[i]} + multiset{to}
  {
  }

  /** The first loop never gives a group more than 257 shards. */
  lemma {:induction false} FillStopsAt(shards: seq<Gid>, groups: set<Gid>, i: nat)
    requires -1 !in groups && i <= |shards| && AtMost(shards, groups, SENTINEL)
    ensures AtMost(FillFound(shards, groups, i), groups, SENTINEL)
    decreases |shards| - i
  {
    if i < |shards| {
      if shards[i] in groups {
        FillStopsAt(shards, groups, i + 1);
      } else {
        AssignLoads(shards, i, Found(shards, groups));
        FillStopsAt(shards[i := Found(shards, groups)], groups, i + 1);
      }
    }
  }

  lemma {:induction false} WithinMoved(shards: seq<Gid>, groups: set<Gid>, i: nat, to: Gid)
    requires i < |shards| && shards[i] in groups
    ensures Within(shards[i := to], groups) <= Within(shards, groups)
  {
    var n := |shards| - 1;
    if i == n {
      assert shards[i := to][..n] == shards[..n];
    } else {
      assert shards[i := to][..n] == shards[..n][i := to];
      WithinMoved(shards[..n], groups, i, to);
    }
  }

  /** The second loop brings no shard from outside into a group. */
  lemma {:induction false} LevelBringsNoneIn(shards: seq<Gid>, groups: set<Gid>)
    requires groups != {} && Ends(|shards|, groups)
    ensures Within(LevelFound(shards, groups), groups) <= Within(shards, groups)
    decreases Energy(multiset(shards), groups)
  {
    var mg, to := Most(shards, groups), Found(shards, groups);
    if Load(shards, mg) >= FoundLoad(shards, groups) + 2 {
      RoundLowersEnergy(shards, groups);
      WithinMoved(shards, groups, FirstOf(shards, mg), to);
      LevelBringsNoneIn(Move(shards, mg, to), groups);
    }
  }

  /** With more than 257 shards for each group: from every assignment in which no group has more than
      257, such as one with no shard assigned, some shard ends in no group. */
  lemma TooManyShards(shards: seq<Gid>, groups: set<Gid>)
    requires groups != {} && -1 !in groups && |shards| > 257 * |groups| && AtMost(shards, groups, 257)
    ensures !Covered(Rebalanced(shards, groups), groups)
  {
    var filled := FillFound(shards, groups, 0);
    FillStopsAt(shards, groups, 0);
    WithinBounds(filled, groups, 0, SENTINEL);
    LevelBringsNoneIn(filled, groups);
    var r := Rebalanced(shards, groups);
    assert Within(r, groups) < |r|;
    Uncovered(r, groups);
  }

  lemma Uncovered(shards: seq<Gid>, groups: set<Gid>)
    ensures Covered(shards, groups) ==> Within(shards, groups) == |shards|
  {
    if Covered(shards, groups) {
      WithinAll(shards, groups);
    }
  }

  /** When the second loop ends, no group has more than 258 shards. */
  lemma {:induction false} LevelStopsAt(shards: seq<Gid>, groups: set<Gid>)
    requires groups != {} && Ends(|shards|, groups)
    ensures AtMost(LevelFound(shards, groups), groups, SENTINEL + 1)
    decreases Energy(multiset(shards), groups)
  {
    var mg, to := Most(shards, groups), Found(shards, groups);
    if Load(shards, mg) >= FoundLoad(shards, groups) + 2 {
      RoundLowersEnergy(shards, groups);
      LevelStopsAt(Move(shards, mg, to), groups);
    }
  }

  /** With more than 258 shards for each group, from every assignment whatever. */
  lemma FarTooManyShards(shards: seq<Gid>, groups: set<Gid>)
    requires groups != {} && -1 !in groups && |shards| > 258 * |groups|
    ensures !Covered(Rebalanced(shards, groups), groups)
  {
    var r := Rebalanced(shards, groups);
    LevelStopsAt(FillFound(shards, groups, 0), groups);
    WithinBounds(r, groups, 0, SENTINEL + 1);
    Uncovered(r, groups);
  }

  /** An assignment that gives 257 shards to each of `groups`. */
  lemma {:induction false} FullFor(groups: set<Gid>) returns (shards: seq<Gid>)
    ensures |shards| == SENTINEL * |groups|
    ensures forall g :: Load(shards, g) == if g in groups then SENTINEL else 0
  {
    if groups == {} {
      shards := [];
    } else {
      var g := Pick(groups);
      var others := FullFor(groups - {g});
      var mine: seq<Gid> := seq(SENTINEL, _ => g);
      AllOne(mine, g);
      assert |groups - {g}| == |groups| - 1;
      shards := others + mine;
    }
  }

  lemma {:induction false} AllOne(shards: seq<Gid>, g: Gid)
    requires forall k :: 0 <= k < |shards| ==> shards[k] == g
    ensures multiset(shards) == multiset{}[g := |shards|]
  {
    if shards != [] {
      var n := |shards| - 1;
      assert shards == shards[..n] + [shards[n]];
      AllOne(shards[..n], g);
    }
  }

  /** `Ends` says exactly when the second loop ends: otherwise, from some assignment, a round moves a
      shard from the group -1 to itself, so nothing changes and the loop goes on. */
  lemma NeverLevel(n: nat, groups: set<Gid>) returns (shards: seq<Gid>)
    requires -1 in groups && n > 257 * |groups| + 1
    ensures |shards| == n
    ensures Load(shards, Most(shards, groups)) >= FoundLoad(shards, groups) + 2
    ensures Move(shards, Most(shards, groups), Found(shards, groups)) == shards
  {
    var others := FullFor(groups - {-1});
    assert |groups - {-1}| == |groups| - 1;
    var mine: seq<Gid> := seq(n - |others|, _ => -1);
    AllOne(mine, -1);
    shards := others + mine;
    assert Load(shards, -1) == |mine| >= SENTINEL + 2;
    forall g | g in groups && g != -1
      ensures Load(shards, g) == SENTINEL
    {
      assert Load(others, g) == SENTINEL && Load(mine, g) == 0;
    }
    assert Most(shards, groups) == -1 && !Findable(shards, groups);
  }

  /** The program balances every assignment of n shards to the groups exactly if there are at most 257
      shards for each group. */
  lemma RebalanceRightIff(n: nat, groups: set<Gid>)
    requires -1 !in groups
    ensures (forall shards {:trigger Rebalanced(shards, groups)} ::
               |shards| == n ==> Rebalanced(shards, groups) == Balance(shards, groups))
            <==> groups == {} || n <= 257 * |groups|
  {
    if Roomy(n, groups) {
      forall shards: seq<Gid> | |shards| == n
        ensures Rebalanced(shards, groups) == Balance(shards, groups)
      {
        RebalanceRight(shards, groups);
      }
    } else {
      var shards: seq<Gid> := seq(n, _ => -1);
      AllOne(shards, -1);
      TooManyShards(shards, groups);
      BalanceBalances(shards, groups);
      assert Rebalanced(shards, groups) != Balance(shards, groups);
    }
  }

  /** The repository's twelve shards: whatever the groups and the assignment, every shard ends in an existing
      group and loads differ by at most one; without groups every shard ends at 0. */
  lemma TwelveShards(shards: seq<Gid>, groups: set<Gid>)
    requires |shards| == 12
    ensures Ends(12, groups)
    ensures groups != {} ==> Covered(Rebalanced(shards, groups), groups) && Even(Rebalanced(shards, groups), groups)
    ensures groups == {} ==> forall i :: 0 <= i < 12 ==> Rebalanced(shards, groups)[i] == 0
  {
    RebalanceRight(shards, groups);
    BalanceBalances(shards, groups);
  }
}
