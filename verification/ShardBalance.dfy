/** Assigning shards to replica groups: filling, levelling, and how few shards that moves. */
module ShardBalance {

  type Gid = int

  function Load(shards: seq<Gid>, g: Gid): nat {
    multiset(shards)[g]
  }

  /** The first, in order of gid, of the groups with the fewest shards. */
  predicate IsLeast(shards: seq<Gid>, groups: set<Gid>, g: Gid) {
    g in groups && forall h :: h in groups ==>
      Load(shards, g) <= Load(shards, h) && (Load(shards, g) == Load(shards, h) ==> g <= h)
  }

  /** The first, in order of gid, of the groups with the most shards. */
  predicate IsMost(shards: seq<Gid>, groups: set<Gid>, g: Gid) {
    g in groups && forall h :: h in groups ==>
      Load(shards, g) >= Load(shards, h) && (Load(shards, g) == Load(shards, h) ==> g <= h)
  }

  lemma NonEmpty(groups: set<Gid>)
    ensures groups == {} || exists g :: g in groups
  {
    if forall g :: g !in groups {
      assert groups == {};
    }
  }

  ghost function Pick(groups: set<Gid>): (g: Gid)
    requires groups != {}
    ensures g in groups
  {
    NonEmpty(groups);
    var g :| g in groups;
    g
  }

  lemma {:induction false} LeastExists(shards: seq<Gid>, groups: set<Gid>)
    requires groups != {}
    ensures exists g :: IsLeast(shards, groups, g)
  {
    var x := Pick(groups);
    if groups == {x} {
      assert IsLeast(shards, groups, x);
    } else {
      LeastExists(shards, groups - {x});
      var g :| IsLeast(shards, groups - {x}, g);
      if Load(shards, x) < Load(shards, g) || (Load(shards, x) == Load(shards, g) && x < g) {
        assert IsLeast(shards, groups, x);
      } else {
        assert IsLeast(shards, groups, g);
      }
    }
  }

  lemma {:induction false} MostExists(shards: seq<Gid>, groups: set<Gid>)
    requires groups != {}
    ensures exists g :: IsMost(shards, groups, g)
  {
    var x := Pick(groups);
    if groups == {x} {
      assert IsMost(shards, groups, x);
    } else {
      MostExists(shards, groups - {x});
      var g :| IsMost(shards, groups - {x}, g);
      if Load(shards, x) > Load(shards, g) || (Load(shards, x) == Load(shards, g) && x < g) {
        assert IsMost(shards, groups, x);
      } else {
        assert IsMost(shards, groups, g);
      }
    }
  }

  ghost function Least(shards: seq<Gid>, groups: set<Gid>): (g: Gid)
    requires groups != {}
    ensures IsLeast(shards, groups, g)
  {
    LeastExists(shards, groups);
    var g :| IsLeast(shards, groups, g);
    g
  }

  ghost function Most(shards: seq<Gid>, groups: set<Gid>): (g: Gid)
    requires groups != {}
    ensures IsMost(shards, groups, g)
  {
    MostExists(shards, groups);
    var g :| IsMost(shards, groups, g);
    g
  }

  lemma LeastUnique(shards: seq<Gid>, groups: set<Gid>, g: Gid)
    requires IsLeast(shards, groups, g)
    ensures Least(shards, groups) == g
  {
  }

  lemma MostUnique(shards: seq<Gid>, groups: set<Gid>, g: Gid)
    requires IsMost(shards, groups, g)
    ensures Most(shards, groups) == g
  {
  }

  predicate Ascending(gs: seq<Gid>) {
    forall i, j :: 0 <= i < j < |gs| ==> gs[i] < gs[j]
  }

  // ---------------------------------------------------------------------------------------
  // Rebalancing
  // ---------------------------------------------------------------------------------------

  /** Give every shard from i on that has no group to the group with the fewest. */
  ghost function Fill(shards: seq<Gid>, groups: set<Gid>, i: nat): (r: seq<Gid>)
    requires groups != {} && i <= |shards|
    ensures |r| == |shards|
    decreases |shards| - i
  {
    if i == |shards| then shards
    else if shards[i] in groups then Fill(shards, groups, i + 1)
    else Fill(shards[i := Least(shards, groups)], groups, i + 1)
  }

  /** The first shard of group g. */
  function FirstOf(shards: seq<Gid>, g: Gid): (i: nat)
    requires Load(shards, g) > 0
    ensures i < |shards| && shards[i] == g
    ensures forall k :: 0 <= k < i ==> shards[k] != g
  {
    assert g in shards;
    if shards[0] == g then 0 else
      assert shards == [shards[0]] + shards[1..];
      1 + FirstOf(shards[1..], g)
  }

  function Move(shards: seq<Gid>, from: Gid, to: Gid): seq<Gid>
    requires Load(shards, from) > 0
  {
    shards[FirstOf(shards, from) := to]
  }

  lemma MoveLoads(shards: seq<Gid>, from: Gid, to: Gid)
    requires Load(shards, from) > 0
    ensures multiset(Move(shards, from, to)) == multiset(shards) - multiset{from} + multiset{to}
  {
  }

  /** The sum of the squared loads. */
  ghost function Energy(m: multiset<Gid>, groups: set<Gid>): nat {
    if groups == {} then 0
    else var g := Pick(groups); m[g] * m[g] + Energy(m, groups - {g})
  }

  lemma {:induction false} EnergySplit(m: multiset<Gid>, groups: set<Gid>, x: Gid)
    requires x in groups
    ensures Energy(m, groups) == m[x] * m[x] + Energy(m, groups - {x})
  {
    var g := Pick(groups);
    if g != x {
      EnergySplit(m, groups - {g}, x);
      EnergySplit(m, groups - {x}, g);
      assert groups - {g} - {x} == groups - {x} - {g};
    }
  }

  lemma {:induction false} EnergyAgree(m: multiset<Gid>, m': multiset<Gid>, groups: set<Gid>)
    requires forall g :: g in groups ==> m[g] == m'[g]
    ensures Energy(m, groups) == Energy(m', groups)
  {
    if groups != {} {
      var g := Pick(groups);
      EnergyAgree(m, m', groups - {g});
      EnergySplit(m, groups, g);
      EnergySplit(m', groups, g);
    }
  }

  lemma Squares(a: nat, b: nat)
    requires a >= b + 2
    ensures (a - 1) * (a - 1) + (b + 1) * (b + 1) < a * a + b * b
  {
    assert (a - 1) * (a - 1) == a * a - 2 * a + 1;
    assert (b + 1) * (b + 1) == b * b + 2 * b + 1;
  }

  lemma EnergyTwo(m: multiset<Gid>, groups: set<Gid>, x: Gid, y: Gid)
    requires x in groups && y in groups && x != y
    ensures Energy(m, groups) == m[x] * m[x] + m[y] * m[y] + Energy(m, groups - {x} - {y})
  {
    EnergySplit(m, groups, x);
    EnergySplit(m, groups - {x}, y);
  }

  /** Every move lowers the sum of the squared loads. */
  lemma MoveLowersEnergy(shards: seq<Gid>, groups: set<Gid>, from: Gid, to: Gid)
    requires from in groups && to in groups && Load(shards, from) >= Load(shards, to) + 2
    ensures Energy(multiset(Move(shards, from, to)), groups) < Energy(multiset(shards), groups)
  {
    var m, m' := multiset(shards), multiset(Move(shards, from, to));
    MoveLoads(shards, from, to);
    EnergyTwo(m, groups, from, to);
    EnergyTwo(m', groups, from, to);
    EnergyAgree(m, m', groups - {from} - {to});
    Squares(m[from], m[to]);
  }

  /** Move shards from the fullest to the emptiest group until they differ by less than two. */
  ghost function Level(shards: seq<Gid>, groups: set<Gid>): (r: seq<Gid>)
    requires groups != {}
    ensures |r| == |shards|
    decreases Energy(multiset(shards), groups)
  {
    var mg, lg := Most(shards, groups), Least(shards, groups);
    if Load(shards, mg) < Load(shards, lg) + 2 then shards
    else
      MoveLowersEnergy(shards, groups, mg, lg);
      Level(Move(shards, mg, lg), groups)
  }

  ghost function Balance(shards: seq<Gid>, groups: set<Gid>): (r: seq<Gid>)
    ensures |r| == |shards|
  {
    if groups == {} then seq(|shards|, _ => 0) else Level(Fill(shards, groups, 0), groups)
  }

  // ---------------------------------------------------------------------------------------
  // The result is balanced
  // ---------------------------------------------------------------------------------------

  predicate Covered(shards: seq<Gid>, groups: set<Gid>) {
    forall i :: 0 <= i < |shards| ==> shards[i] in groups
  }

  /** Loads differ by at most one. */
  predicate Even(shards: seq<Gid>, groups: set<Gid>) {
    forall g, h :: g in groups && h in groups ==> Load(shards, g) <= Load(shards, h) + 1
  }

  lemma {:induction false} FillCovers(shards: seq<Gid>, groups: set<Gid>, i: nat)
    requires groups != {} && i <= |shards|
    requires forall k :: 0 <= k < i ==> shards[k] in groups
    ensures Covered(Fill(shards, groups, i), groups)
    decreases |shards| - i
  {
    if i < |shards| {
      FillCovers(if shards[i] in groups then shards else shards[i := Least(shards, groups)], groups, i + 1);
    }
  }

  lemma {:induction false} LevelBalances(shards: seq<Gid>, groups: set<Gid>)
    requires groups != {} && Covered(shards, groups)
    ensures Covered(Level(shards, groups), groups) && Even(Level(shards, groups), groups)
    decreases Energy(multiset(shards), groups)
  {
    var mg, lg := Most(shards, groups), Least(shards, groups);
    if Load(shards, mg) >= Load(shards, lg) + 2 {
      MoveLowersEnergy(shards, groups, mg, lg);
      LevelBalances(Move(shards, mg, lg), groups);
    }
  }

  /** From any assignment: every shard ends in an existing group and loads differ by at most one;
      without groups every shard ends at 0. */
  lemma BalanceBalances(shards: seq<Gid>, groups: set<Gid>)
    ensures groups != {} ==> Covered(Balance(shards, groups), groups) && Even(Balance(shards, groups), groups)
    ensures groups == {} ==> forall i :: 0 <= i < |shards| ==> Balance(shards, groups)[i] == 0
  {
    if groups != {} {
      FillCovers(shards, groups, 0);
      LevelBalances(Fill(shards, groups, 0), groups);
    }
  }

  lemma {:induction false} FillCovered(shards: seq<Gid>, groups: set<Gid>, i: nat)
    requires groups != {} && i <= |shards| && Covered(shards, groups)
    ensures Fill(shards, groups, i) == shards
    decreases |shards| - i
  {
    if i < |shards| {
      FillCovered(shards, groups, i + 1);
    }
  }

  /** A balanced assignment is left alone. */
  lemma BalanceIdempotent(shards: seq<Gid>, groups: set<Gid>)
    requires groups != {} && Covered(shards, groups) && Even(shards, groups)
    ensures Balance(shards, groups) == shards
  {
    FillCovered(shards, groups, 0);
  }

  // ---------------------------------------------------------------------------------------
  // Leaving moves only the shards of the groups that leave
  // ---------------------------------------------------------------------------------------

  lemma AddToLeast(shards: seq<Gid>, groups: set<Gid>, i: nat, lg: Gid)
    requires i < |shards| && shards[i] !in groups && Even(shards, groups) && IsLeast(shards, groups, lg)
    ensures Even(shards[i := lg], groups)
  {
    var m := multiset(shards);
    assert multiset(shards[i := lg]) == m - multiset{shards[i]} + multiset{lg};
    assert forall g :: g in groups ==> Load(shards[i := lg], g) == m[g] + (if g == lg then 1 else 0);
  }

  lemma {:induction false} FillKeepsEven(shards: seq<Gid>, groups: set<Gid>, i: nat)
    requires groups != {} && i <= |shards| && Even(shards, groups)
    ensures Even(Fill(shards, groups, i), groups)
    ensures forall k :: 0 <= k < |shards| && shards[k] in groups ==> Fill(shards, groups, i)[k] == shards[k]
    decreases |shards| - i
  {
    if i < |shards| && shards[i] in groups {
      FillKeepsEven(shards, groups, i + 1);
    } else if i < |shards| {
      var lg := Least(shards, groups);
      AddToLeast(shards, groups, i, lg);
      FillKeepsEven(shards[i := lg], groups, i + 1);
    }
  }

  /** When groups leave a balanced assignment and some stay, a shard moves exactly if its group
      left. */
  lemma LeaveMovesOnlyOrphans(shards: seq<Gid>, before: set<Gid>, after: set<Gid>, i: nat)
    requires Covered(shards, before) && Even(shards, before) && after <= before && after != {} && i < |shards|
    ensures Balance(shards, after)[i] == shards[i] <==> shards[i] in after
  {
    FillKeepsEven(shards, after, 0);
    FillCovers(shards, after, 0);
    var r := Fill(shards, after, 0);
    assert Level(r, after) == r;
  }

  // ---------------------------------------------------------------------------------------
  // Joining moves shards only to the new groups, and as few as possible
  // ---------------------------------------------------------------------------------------

  /** While levelling after a join: old and new groups are each even, old ones are at least as
      full as new ones, and a shard is where it was or moved from an old to a new group. */
  ghost predicate Joining(start: seq<Gid>, shards: seq<Gid>, present: set<Gid>, joining: set<Gid>) {
    && |shards| == |start| && present !! joining
    && Covered(shards, present + joining) && Even(shards, present) && Even(shards, joining)
    && (forall o, w :: o in present && w in joining ==> Load(shards, o) >= Load(shards, w))
    && (forall i :: 0 <= i < |start| ==>
          start[i] in present && (shards[i] == start[i] || shards[i] in joining))
  }

  /** The fullest group is old and the emptiest is new as long as they differ by two. */
  lemma JoiningEnds(start: seq<Gid>, shards: seq<Gid>, present: set<Gid>, joining: set<Gid>, mg: Gid, lg: Gid)
    requires Joining(start, shards, present, joining)
    requires mg in present + joining && lg in present + joining && Load(shards, mg) >= Load(shards, lg) + 2
    ensures mg in present && lg in joining
  {
  }

  /** The loads after a move from the fullest to the emptiest group. */
  lemma JoiningLoads(m: multiset<Gid>, m': multiset<Gid>, present: set<Gid>, joining: set<Gid>, mg: Gid, lg: Gid)
    requires present !! joining && mg in present && lg in joining && m[mg] >= m[lg] + 2
    requires forall g :: m'[g] == if g == mg then m[g] - 1 else if g == lg then m[g] + 1 else m[g]
    requires forall g :: g in present ==> m[g] <= m[mg] <= m[g] + 1
    requires forall g :: g in joining ==> m[lg] <= m[g] <= m[lg] + 1
    ensures forall g, h :: g in present && h in present ==> m'[g] <= m'[h] + 1
    ensures forall g, h :: g in joining && h in joining ==> m'[g] <= m'[h] + 1
    ensures forall g, h :: g in present && h in joining ==> m'[g] >= m'[h]
  {
    assert forall g :: g in present ==> m[mg] - 1 <= m'[g] <= m[mg];
    assert forall g :: g in joining ==> m[lg] <= m'[g] <= m[lg] + 1;
  }

  lemma JoiningMove(start: seq<Gid>, shards: seq<Gid>, present: set<Gid>, joining: set<Gid>, mg: Gid, lg: Gid)
    requires Joining(start, shards, present, joining)
    requires IsMost(shards, present + joining, mg) && IsLeast(shards, present + joining, lg)
    requires Load(shards, mg) >= Load(shards, lg) + 2
    ensures Joining(start, Move(shards, mg, lg), present, joining)
  {
    JoiningEnds(start, shards, present, joining, mg, lg);
    MoveLoads(shards, mg, lg);
    JoiningLoads(multiset(shards), multiset(Move(shards, mg, lg)), present, joining, mg, lg);
  }

  lemma {:induction false} LevelJoining(start: seq<Gid>, shards: seq<Gid>, present: set<Gid>, joining: set<Gid>)
    requires Joining(start, shards, present, joining) && present + joining != {}
    ensures Joining(start, Level(shards, present + joining), present, joining)
    decreases Energy(multiset(shards), present + joining)
  {
    var groups := present + joining;
    var mg, lg := Most(shards, groups), Least(shards, groups);
    if Load(shards, mg) >= Load(shards, lg) + 2 {
      MoveLowersEnergy(shards, groups, mg, lg);
      JoiningMove(start, shards, present, joining, mg, lg);
      LevelJoining(start, Move(shards, mg, lg), present, joining);
    }
  }

  /** When groups join a balanced assignment, shards move only from old groups to new ones. */
  lemma JoinMovesOnlyToNew(shards: seq<Gid>, present: set<Gid>, joining: set<Gid>)
    requires present != {} && present !! joining && Covered(shards, present) && Even(shards, present)
    ensures Joining(shards, Balance(shards, present + joining), present, joining)
  {
    FillCovered(shards, present + joining, 0);
    forall w | w in joining
      ensures Load(shards, w) == 0
    {
      NoLoad(shards, w);
    }
    LevelJoining(shards, shards, present, joining);
  }

  lemma NoLoad(shards: seq<Gid>, g: Gid)
    requires forall i :: 0 <= i < |shards| ==> shards[i] != g
    ensures Load(shards, g) == 0
  {
    assert g !in shards;
  }

  /** The shards assigned to groups of a set. */
  function Within(shards: seq<Gid>, groups: set<Gid>): nat {
    if shards == [] then 0
    else Within(shards[..|shards|-1], groups) + (if shards[|shards|-1] in groups then 1 else 0)
  }

  lemma {:induction false} WithinAdd(shards: seq<Gid>, groups: set<Gid>, g: Gid)
    requires g in groups
    ensures Within(shards, groups) == Within(shards, groups - {g}) + Load(shards, g)
  {
    if shards != [] {
      var init, last := shards[..|shards|-1], shards[|shards|-1];
      WithinAdd(init, groups, g);
      assert shards == init + [last];
    }
  }

  lemma {:induction false} WithinAll(shards: seq<Gid>, groups: set<Gid>)
    requires Covered(shards, groups)
    ensures Within(shards, groups) == |shards|
  {
    if shards != [] {
      WithinAll(shards[..|shards|-1], groups);
    }
  }

  lemma {:induction false} WithinNone(shards: seq<Gid>)
    ensures Within(shards, {}) == 0
  {
    if shards != [] {
      WithinNone(shards[..|shards|-1]);
    }
  }

  /** Loads between lo and hi add up to between lo and hi times the number of groups. */
  lemma {:induction false} WithinBounds(shards: seq<Gid>, groups: set<Gid>, lo: nat, hi: nat)
    requires forall g :: g in groups ==> lo <= Load(shards, g) <= hi
    ensures lo * |groups| <= Within(shards, groups) <= hi * |groups|
  {
    if groups == {} {
      WithinNone(shards);
    } else {
      var g := Pick(groups);
      WithinBounds(shards, groups - {g}, lo, hi);
      WithinAdd(shards, groups, g);
      assert |groups| == |groups - {g}| + 1;
      assert lo * |groups| == lo * |groups - {g}| + lo && hi * |groups| == hi * |groups - {g}| + hi;
    }
  }

  /** In a balanced assignment every group has at least the floor of the average. */
  lemma EvenFloor(shards: seq<Gid>, groups: set<Gid>, g: Gid)
    requires Covered(shards, groups) && Even(shards, groups) && g in groups
    ensures Load(shards, g) >= |shards| / |groups|
  {
    var n, k := |groups|, Load(shards, g);
    WithinAll(shards, groups);
    WithinAdd(shards, groups, g);
    WithinBounds(shards, groups - {g}, 0, k + 1);
    assert |groups - {g}| == n - 1;
    assert |shards| <= k + (k + 1) * (n - 1);
    assert k + (k + 1) * (n - 1) == (k + 1) * n - 1;
    FloorBelow(|shards|, n, k + 1);
  }

  lemma FloorBelow(a: nat, n: nat, k: nat)
    requires n > 0 && a < k * n
    ensures a / n < k
  {
    var q, r := a / n, a % n;
    assert a == q * n + r;
    assert (k - q) * n == k * n - q * n > 0;
  }

  /** A group that no other is emptier than has exactly the floor of the average. */
  lemma SmallestIsFloor(shards: seq<Gid>, groups: set<Gid>, g: Gid)
    requires Covered(shards, groups) && Even(shards, groups) && g in groups
    requires forall h :: h in groups ==> Load(shards, h) >= Load(shards, g)
    ensures Load(shards, g) == |shards| / |groups|
  {
    EvenFloor(shards, groups, g);
    var n, k := |groups|, Load(shards, g);
    WithinAll(shards, groups);
    WithinBounds(shards, groups, k, k + 1);
    FloorAtLeast(|shards|, n, k);
  }

  lemma FloorAtLeast(a: nat, n: nat, k: nat)
    requires n > 0 && k * n <= a
    ensures k <= a / n
  {
    var q, r := a / n, a % n;
    assert a == q * n + r;
    assert (q + 1 - k) * n == q * n + n - k * n > 0;
  }

  /** How many shards are elsewhere. */
  function Displaced(a: seq<Gid>, b: seq<Gid>): nat
    requires |a| == |b|
  {
    if a == [] then 0
    else Displaced(a[..|a|-1], b[..|b|-1]) + (if a[|a|-1] == b[|b|-1] then 0 else 1)
  }

  lemma {:induction false} DisplacedIsLoad(a: seq<Gid>, b: seq<Gid>, g: Gid)
    requires |a| == |b|
    requires forall i :: 0 <= i < |a| ==> a[i] != g
    ensures Displaced(a, b) >= Load(b, g)
    ensures (forall i :: 0 <= i < |a| ==> b[i] == a[i] || b[i] == g) ==> Displaced(a, b) == Load(b, g)
  {
    if a != [] {
      DisplacedIsLoad(a[..|a|-1], b[..|b|-1], g);
      assert b == b[..|b|-1] + [b[|b|-1]];
    }
  }

  /** A single group joining n balanced groups receives exactly the floor of the new average, that
      is all that moves, and no balanced assignment to the enlarged set of groups is closer. */
  lemma JoinMovesLeast(shards: seq<Gid>, present: set<Gid>, g: Gid, other: seq<Gid>)
    requires present != {} && g !in present && Covered(shards, present) && Even(shards, present)
    requires |other| == |shards| && Covered(other, present + {g}) && Even(other, present + {g})
    ensures Displaced(shards, Balance(shards, present + {g})) == |shards| / (|present| + 1)
    ensures Displaced(shards, other) >= |shards| / (|present| + 1)
  {
    var groups := present + {g};
    var r := Balance(shards, groups);
    JoinMovesOnlyToNew(shards, present, {g});
    BalanceBalances(shards, groups);
    assert |groups| == |present| + 1;
    SmallestIsFloor(r, groups, g);
    DisplacedIsLoad(shards, r, g);
    EvenFloor(other, groups, g);
    DisplacedIsLoad(shards, other, g);
  }

  /** With no more groups than shards, the groups that have shards are exactly the groups. */
  lemma EveryGroupServes(shards: seq<Gid>, groups: set<Gid>, g: Gid)
    requires groups != {} && Covered(shards, groups) && Even(shards, groups) && |groups| <= |shards|
    ensures g in shards <==> g in groups
  {
    if g in groups {
      EvenFloor(shards, groups, g);
      FloorAtLeast(|shards|, |groups|, 1);
      assert Load(shards, g) > 0;
    }
  }
}
