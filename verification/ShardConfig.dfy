/** The shard configuration object, its changes, and what any sequence of changes keeps. */
module ShardConfig {
  import opened ShardBalance
  import opened ShardOrder
  import opened ShardSearch

  type Groups = map<Gid, seq<string>>

  lemma {:induction false} FirstOfIs(shards: seq<Gid>, g: Gid, i: nat)
    requires i < |shards| && shards[i] == g && forall k :: 0 <= k < i ==> shards[k] != g
    ensures Load(shards, g) > 0 && FirstOf(shards, g) == i
  {
    assert g in shards;
  }

  function Firsts(gs: seq<Gid>, n: nat): set<Gid>
    requires n <= |gs|
  {
    set k | 0 <= k < n :: gs[k]
  }

  ghost predicate FoundMost(shards: seq<Gid>, groups: set<Gid>, mg: Gid, mn: int) {
    if groups == {} then mg == -1 && mn == -1 else IsMost(shards, groups, mg) && mn == Load(shards, mg)
  }

  ghost predicate FoundLeast(shards: seq<Gid>, groups: set<Gid>, lg: Gid, ln: nat) {
    if Findable(shards, groups) then IsLeast(shards, groups, lg) && ln == Load(shards, lg)
    else lg == -1 && ln == SENTINEL
  }

  lemma FoundLeastIs(shards: seq<Gid>, groups: set<Gid>, lg: Gid, ln: nat)
    requires FoundLeast(shards, groups, lg, ln)
    ensures lg == Found(shards, groups) && ln == FoundLoad(shards, groups)
  {
    if Findable(shards, groups) {
      LeastUnique(shards, groups, lg);
    }
  }

  /** One round of the search, in ascending order of gid. */
  lemma AddGroup(shards: seq<Gid>, groups: set<Gid>, g: Gid, mg: Gid, mn: int, lg: Gid, ln: nat)
    requires FoundMost(shards, groups, mg, mn) && FoundLeast(shards, groups, lg, ln)
    requires forall h :: h in groups ==> h < g
    ensures var n := Load(shards, g);
            && FoundMost(shards, groups + {g}, if n > mn then g else mg, if n > mn then n else mn)
            && FoundLeast(shards, groups + {g}, if n < ln then g else lg, if n < ln then n else ln)
  {
    AddMost(shards, groups, g, mg, mn);
    AddLeast(shards, groups, g, lg, ln);
  }

  lemma AddMost(shards: seq<Gid>, groups: set<Gid>, g: Gid, mg: Gid, mn: int)
    requires FoundMost(shards, groups, mg, mn) && forall h :: h in groups ==> h < g
    ensures var n := Load(shards, g);
            FoundMost(shards, groups + {g}, if n > mn then g else mg, if n > mn then n else mn)
  {
    assert g in groups + {g};
  }

  lemma AddLeast(shards: seq<Gid>, groups: set<Gid>, g: Gid, lg: Gid, ln: nat)
    requires FoundLeast(shards, groups, lg, ln) && forall h :: h in groups ==> h < g
    ensures var n := Load(shards, g);
            FoundLeast(shards, groups + {g}, if n < ln then g else lg, if n < ln then n else ln)
  {
    assert g in groups + {g};
    if h :| h in groups && Load(shards, h) < SENTINEL {
      assert h in groups + {g};
    }
  }

  /** No server serves two groups. */
  predicate Disjoint(groups: Groups) {
    forall g, h :: g in groups && h in groups && g != h ==> !Share(groups[g], groups[h])
  }

  predicate Share(a: seq<string>, b: seq<string>) {
    exists s :: s in a && s in b
  }

  /** New groups are new and share no server with each other or with the present groups. */
  predicate CanJoin(groups: Groups, servers: Groups) {
    && servers != map[] && groups.Keys !! servers.Keys
    && (forall g, h :: g in servers && h in groups ==> !Share(groups[h], servers[g]))
    && Disjoint(servers)
  }

  /** The groups that leave are present and each is named once. */
  predicate CanLeave(groups: Groups, gids: seq<Gid>) {
    && gids != []
    && (forall i :: 0 <= i < |gids| ==> gids[i] in groups)
    && (forall i, j :: 0 <= i < j < |gids| ==> gids[i] != gids[j])
  }

  /** Some present group, or another of the new ones, has a server of this new group. */
  predicate Clashing(groups: Groups, servers: Groups, gid: Gid) {
    && gid in servers
    && (|| (exists h :: h in groups && Share(groups[h], servers[gid]))
        || (exists h :: h in servers && h != gid && Share(servers[h], servers[gid])))
  }

  /** Number i is the first of the gids that is not there to leave: it never was, or has left already. */
  predicate StopsAt(groups: Groups, gids: seq<Gid>, i: nat)
    requires i < |gids|
  {
    && (gids[i] !in groups || gids[i] in Firsts(gids, i))
    && forall k :: 0 <= k < i ==> gids[k] in groups && gids[k] !in Firsts(gids, k)
  }

  /** Every shard is in an existing group and loads differ by at most one; or there are no groups, and every
      shard is at 0. */
  predicate Spread(shards: seq<Gid>, groups: set<Gid>) {
    if groups == {} then forall i :: 0 <= i < |shards| ==> shards[i] == 0
    else Covered(shards, groups) && Even(shards, groups)
  }

  /** `Fatal` ends the process. */
  datatype Outcome = Ok | Refused | Fatal

  class ShardConfig {
    var Num: nat
    const Shards: array<Gid>
    var Groups: Groups

    constructor (nShards: nat)
      ensures fresh(Shards) && Shards.Length == nShards && Num == 0 && Groups == map[]
      ensures forall i :: 0 <= i < nShards ==> Shards[i] == 0
    {
      Num, Groups := 0, map[];
      Shards := new Gid[nShards](_ => 0);
    }

    /** The gids in ascending order, whatever order the map yields them in. */
    method SortedGroups() returns (gs: seq<Gid>)
      ensures Ascending(gs) && Firsts(gs, |gs|) == Groups.Keys
    {
      gs := [];
      var rest := Groups.Keys;
      while rest != {}
        invariant rest <= Groups.Keys && Ascending(gs) && Firsts(gs, |gs|) == Groups.Keys - rest
        decreases rest
      {
        NonEmpty(rest);
        var k :| k in rest;
        assert k !in Firsts(gs, |gs|);
        gs := Insert(gs, k);
        rest := rest - {k};
      }
    }

    static method Insert(gs: seq<Gid>, k: Gid) returns (r: seq<Gid>)
      requires Ascending(gs) && k !in Firsts(gs, |gs|)
      ensures Ascending(r) && Firsts(r, |r|) == Firsts(gs, |gs|) + {k}
    {
      var i := 0;
      while i < |gs| && gs[i] < k
        invariant 0 <= i <= |gs|
        invariant forall j :: 0 <= j < i ==> gs[j] < k
      {
        i := i + 1;
      }
      r := gs[..i] + [k] + gs[i..];
      assert i < |gs| ==> gs[i] in Firsts(gs, |gs|);
      InsertedFirsts(gs, i, k);
    }

    method CountLoads() returns (counts: map<Gid, nat>)
      ensures forall g :: Load(Shards[..], g) == if g in counts then counts[g] else 0
    {
      counts := map[];
      for i := 0 to Shards.Length
        invariant forall g :: Load(Shards[..i], g) == if g in counts then counts[g] else 0
      {
        var g := Shards[i];
        counts := counts[g := (if g in counts then counts[g] else 0) + 1];
        assert Shards[..i+1] == Shards[..i] + [g];
      }
      assert Shards[..Shards.Length] == Shards[..];
    }

    /** The fullest and the emptiest group with their loads; an emptiest group is found exactly if
        some group has fewer shards than the search starts from. */
    method Analyze() returns (mg: Gid, mn: int, lg: Gid, ln: nat)
      ensures FoundMost(Shards[..], Groups.Keys, mg, mn)
      ensures lg == Found(Shards[..], Groups.Keys) && ln == FoundLoad(Shards[..], Groups.Keys)
    {
      var counts := CountLoads();
      ghost var shards := Shards[..];
      mn, mg, ln, lg := -1, -1, SENTINEL, -1;
      var groups := SortedGroups();
      for i := 0 to |groups|
        invariant FoundMost(shards, Firsts(groups, i), mg, mn)
        invariant FoundLeast(shards, Firsts(groups, i), lg, ln)
      {
        var g := groups[i];
        assert Firsts(groups, i + 1) == Firsts(groups, i) + {g};
        AddGroup(shards, Firsts(groups, i), g, mg, mn, lg, ln);
        var n := if g in counts then counts[g] else 0;
        if n < ln {
          ln, lg := n, g;
        }
        if n > mn {
          mn, mg := n, g;
        }
      }
      FoundLeastIs(shards, Groups.Keys, lg, ln);
    }

    method LeastGroup() returns (lg: Gid)
      ensures lg == Found(Shards[..], Groups.Keys)
    {
      var mg, mn, ln;
      mg, mn, lg, ln := Analyze();
    }

    method FindShard(g: Gid) returns (s: nat)
      requires Load(Shards[..], g) > 0
      ensures s == FirstOf(Shards[..], g)
    {
      ghost var shards := Shards[..];
      s := 0;
      while Shards[s] != g
        invariant 0 <= s <= FirstOf(shards, g)
        decreases FirstOf(shards, g) - s
      {
        s := s + 1;
      }
      FirstOfIs(shards, g, s);
    }

    /** Give every shard without a group to the group with the fewest. */
    method FillShards()
      modifies Shards
      ensures Shards[..] == FillFound(old(Shards[..]), Groups.Keys, 0)
    {
      for s := 0 to Shards.Length
        invariant FillFound(Shards[..], Groups.Keys, s) == FillFound(old(Shards[..]), Groups.Keys, 0)
      {
        if Shards[s] !in Groups {
          ghost var before := Shards[..];
          var lg := LeastGroup();
          Shards[s] := lg;
          assert Shards[..] == before[s := lg];
        }
      }
    }

    /** Move one shard from the fullest to the emptiest group, unless they are level. */
    method MoveOne() returns (level: bool)
      requires Groups != map[] && Ends(Shards.Length, Groups.Keys)
      modifies Shards
      ensures LevelFound(Shards[..], Groups.Keys) == LevelFound(old(Shards[..]), Groups.Keys)
      ensures level ==> LevelFound(Shards[..], Groups.Keys) == Shards[..]
      ensures !level ==> Energy(multiset(Shards[..]), Groups.Keys) < Energy(multiset(old(Shards[..])), Groups.Keys)
    {
      ghost var before, keys := Shards[..], Groups.Keys;
      var mg, mn, lg, ln := Analyze();
      MostUnique(before, keys, mg);
      if mn < ln + 2 {
        return true;
      }
      var s := FindShard(mg);
      RoundLowersEnergy(before, keys);
      Shards[s] := lg;
      assert Shards[..] == Move(before, mg, lg);
      level := false;
    }

    /** Balance the assignment of shards to groups; it succeeds with up to 257 shards for each group. */
    method Rebalance()
      requires Ends(Shards.Length, Groups.Keys)
      modifies Shards
      ensures Shards[..] == Rebalanced(old(Shards[..]), Groups.Keys)
      ensures Groups == map[] || Shards.Length <= 257 * |Groups.Keys| ==>
                Shards[..] == Balance(old(Shards[..]), Groups.Keys)
    {
      if Roomy(Shards.Length, Groups.Keys) {
        RebalanceRight(Shards[..], Groups.Keys);
      }
      if |Groups| < 1 {
        for s := 0 to Shards.Length
          invariant forall k :: 0 <= k < s ==> Shards[k] == 0
        {
          Shards[s] := 0;
        }
        return;
      }
      FillShards();
      ghost var filled := Shards[..];
      while true
        invariant LevelFound(Shards[..], Groups.Keys) == LevelFound(filled, Groups.Keys)
        decreases Energy(multiset(Shards[..]), Groups.Keys)
      {
        var level := MoveOne();
        if level {
          break;
        }
      }
    }

    /** Some present group shares a server with the list. */
    method Clashes(servers: seq<string>) returns (clash: bool)
      ensures clash <==> exists x :: x in Groups && Share(Groups[x], servers)
    {
      var rest := Groups.Keys;
      while rest != {}
        invariant rest <= Groups.Keys
        invariant forall x :: x in Groups && x !in rest ==> !Share(Groups[x], servers)
        decreases rest
      {
        NonEmpty(rest);
        var x :| x in rest;
        var xservers := Groups[x];
        var found := Common(xservers, servers);
        if found {
          return true;
        }
        rest := rest - {x};
      }
      clash := false;
    }

    static method Common(a: seq<string>, b: seq<string>) returns (found: bool)
      ensures found <==> Share(a, b)
    {
      for i := 0 to |a|
        invariant forall k, l :: 0 <= k < i && 0 <= l < |b| ==> a[k] != b[l]
      {
        for j := 0 to |b|
          invariant forall l :: 0 <= l < j ==> a[i] != b[l]
        {
          if a[i] == b[j] {
            assert a[i] in a && a[i] in b;
            return true;
          }
        }
      }
      found := false;
    }

    /** Add groups, taken from the map in any order. */
    method Join(servers: Groups) returns (r: Outcome)
      modifies this
      ensures r == Ok <==> CanJoin(old(Groups), servers)
      ensures r == Ok ==> Groups == old(Groups) + servers && Num == old(Num) + 1
      ensures r != Ok ==> Num == old(Num) && exists done :: Added(old(Groups), servers, done, Groups)
      ensures r == Refused ==> exists gid :: gid in servers && gid in old(Groups)
      ensures r == Fatal ==> servers == map[] || exists gid :: Clashing(old(Groups), servers, gid)
    {
      var rest := servers.Keys;
      ghost var groups := Groups;
      ghost var done: set<Gid> := {};
      while rest != {}
        invariant done + rest == servers.Keys && done !! rest && Num == old(Num)
        invariant Added(groups, servers, done, Groups)
        decreases rest
      {
        NonEmpty(rest);
        var gid :| gid in rest;
        if gid in Groups {
          RejoinStops(groups, servers, done, gid);
          return Refused;
        }
        var clash := Clashes(servers[gid]);
        if clash {
          ClashStops(groups, servers, done, gid);
          return Fatal;
        }
        NoClashGoesOn(groups, servers, done, gid);
        Groups := Groups[gid := servers[gid]];
        rest, done := rest - {gid}, done + {gid};
      }
      if servers == map[] {
        return Fatal;
      }
      AllAdded(groups, servers, Groups);
      Num := Num + 1;
      r := Ok;
    }

    /** Remove groups one after the other. */
    method Leave(gids: seq<Gid>) returns (r: Outcome)
      modifies this
      ensures r == Ok <==> CanLeave(old(Groups), gids)
      ensures r == Ok ==> Groups == old(Groups) - Firsts(gids, |gids|) && Num == old(Num) + 1
      ensures r != Ok ==> Num == old(Num)
      ensures r == Fatal <==> gids == []
      ensures r == Refused ==>
                exists i :: 0 <= i < |gids| && StopsAt(old(Groups), gids, i) && Groups == old(Groups) - Firsts(gids, i)
    {
      for i := 0 to |gids|
        invariant Num == old(Num) && Groups == old(Groups) - Firsts(gids, i)
        invariant forall k :: 0 <= k < i ==> gids[k] in old(Groups)
        invariant forall k, l :: 0 <= k < l < i ==> gids[k] != gids[l]
      {
        if gids[i] !in Groups {
          assert StopsAt(old(Groups), gids, i);
          return Refused;
        }
        assert Firsts(gids, i + 1) == Firsts(gids, i) + {gids[i]};
        Groups := Groups - {gids[i]};
      }
      if gids == [] {
        return Fatal;
      }
      Num := Num + 1;
      r := Ok;
    }

    function View(): Cfg
      reads this, Shards
    {
      Cfg(Num, Shards[..], Groups)
    }

    method JoinBalance(servers: Groups) returns (r: Outcome)
      requires CanJoin(Groups, servers) ==> Ends(Shards.Length, NewGroups(Groups, JoinOf(servers)).Keys)
      modifies this, Shards
      ensures r == Ok <==> CanJoin(old(Groups), servers)
      ensures r == Ok ==> Num == old(Num) + 1 && Groups == NewGroups(old(Groups), JoinOf(servers))
      ensures r == Ok ==> Shards[..] == Rebalanced(old(Shards[..]), Groups.Keys)
      ensures r == Ok && (Groups == map[] || Shards.Length <= 257 * |Groups.Keys|) ==>
                View() == Changed(old(View()), JoinOf(servers))
      ensures r == Ok && Shards.Length == 12 ==> Spread(Shards[..], Groups.Keys)
      ensures r != Ok ==> Shards[..] == old(Shards[..]) && Num == old(Num)
    {
      r := Join(servers);
      if r == Ok {
        ghost var shards := Shards[..];
        Rebalance();
        if Shards.Length == 12 {
          TwelveShards(shards, Groups.Keys);
        }
      }
    }

    method LeaveBalance(gids: seq<Gid>) returns (r: Outcome)
      requires CanLeave(Groups, gids) ==> Ends(Shards.Length, NewGroups(Groups, LeaveOf(gids)).Keys)
      modifies this, Shards
      ensures r == Ok <==> CanLeave(old(Groups), gids)
      ensures r == Ok ==> Num == old(Num) + 1 && Groups == NewGroups(old(Groups), LeaveOf(gids))
      ensures r == Ok ==> Shards[..] == Rebalanced(old(Shards[..]), Groups.Keys)
      ensures r == Ok && (Groups == map[] || Shards.Length <= 257 * |Groups.Keys|) ==>
                View() == Changed(old(View()), LeaveOf(gids))
      ensures r == Ok && Shards.Length == 12 ==> Spread(Shards[..], Groups.Keys)
      ensures r != Ok ==> Shards[..] == old(Shards[..]) && Num == old(Num)
    {
      r := Leave(gids);
      if r == Ok {
        ghost var shards := Shards[..];
        Rebalance();
        if Shards.Length == 12 {
          TwelveShards(shards, Groups.Keys);
        }
      }
    }

    method IsMember(gid: Gid) returns (r: bool)
      ensures r <==> gid in Shards[..]
    {
      for i := 0 to Shards.Length
        invariant forall k :: 0 <= k < i ==> Shards[k] != gid
      {
        if Shards[i] == gid {
          return true;
        }
      }
      r := false;
    }
  }

  // ---------------------------------------------------------------------------------------
  // Joining, part by part
  // ---------------------------------------------------------------------------------------

  function Only(servers: Groups, gids: set<Gid>): Groups {
    map g | g in servers && g in gids :: servers[g]
  }

  /** The groups of `gids` can all be added. */
  ghost predicate Fresh(groups: Groups, servers: Groups, gids: set<Gid>) {
    && gids <= servers.Keys && groups.Keys !! gids
    && (forall g, h :: g in gids && h in groups ==> !Share(groups[h], servers[g]))
    && (forall g, h :: g in gids && h in gids && g != h ==> !Share(servers[g], servers[h]))
  }

  /** `now` is the groups with those of `done` added. */
  ghost predicate Added(groups: Groups, servers: Groups, done: set<Gid>, now: Groups) {
    Fresh(groups, servers, done) && now == groups + Only(servers, done)
  }

  lemma AllAdded(groups: Groups, servers: Groups, now: Groups)
    requires Added(groups, servers, servers.Keys, now) && servers != map[]
    ensures CanJoin(groups, servers) && now == groups + servers
  {
    assert Only(servers, servers.Keys) == servers;
  }

  lemma RejoinStops(groups: Groups, servers: Groups, done: set<Gid>, gid: Gid)
    requires gid in servers && gid !in done && gid in groups + Only(servers, done)
    ensures !CanJoin(groups, servers)
  {
    assert gid in groups;
  }

  lemma ShareSymmetric(a: seq<string>, b: seq<string>)
    ensures Share(a, b) <==> Share(b, a)
  {
  }

  lemma ClashStops(groups: Groups, servers: Groups, done: set<Gid>, gid: Gid)
    requires gid in servers && gid !in done
    requires exists x :: x in groups + Only(servers, done) && Share((groups + Only(servers, done))[x], servers[gid])
    ensures Clashing(groups, servers, gid) && !CanJoin(groups, servers)
  {
    var now := groups + Only(servers, done);
    var x :| x in now && Share(now[x], servers[gid]);
    assert x in Only(servers, done) ==> x in servers && x != gid && now[x] == servers[x];
  }

  lemma NoClashGoesOn(groups: Groups, servers: Groups, done: set<Gid>, gid: Gid)
    requires Fresh(groups, servers, done) && gid in servers && gid !in groups + Only(servers, done)
    requires forall x :: x in groups + Only(servers, done) ==> !Share((groups + Only(servers, done))[x], servers[gid])
    ensures Fresh(groups, servers, done + {gid})
    ensures (groups + Only(servers, done))[gid := servers[gid]] == groups + Only(servers, done + {gid})
  {
    var now := groups + Only(servers, done);
    assert forall h :: h in groups ==> h in now && now[h] == groups[h];
    forall g, h | g in done + {gid} && h in done + {gid} && g != h
      ensures !Share(servers[g], servers[h])
    {
      ShareSymmetric(servers[g], servers[h]);
      assert g in done ==> g in now && now[g] == servers[g];
      assert h in done ==> h in now && now[h] == servers[h];
    }
  }

  // ---------------------------------------------------------------------------------------
  // Sequences of changes
  // ---------------------------------------------------------------------------------------

  datatype Cfg = Cfg(num: nat, shards: seq<Gid>, groups: Groups)

  datatype Change = JoinOf(servers: Groups) | LeaveOf(gids: seq<Gid>)

  predicate Accepts(c: Cfg, change: Change) {
    match change
    case JoinOf(servers) => CanJoin(c.groups, servers)
    case LeaveOf(gids) => CanLeave(c.groups, gids)
  }

  function NewGroups(groups: Groups, change: Change): Groups {
    match change
    case JoinOf(servers) => groups + servers
    case LeaveOf(gids) => groups - Firsts(gids, |gids|)
  }

  /** The configuration after a successful change: a function of the one before, so it cannot
      depend on the order in which maps are traversed. */
  ghost function Changed(c: Cfg, change: Change): Cfg {
    var groups := NewGroups(c.groups, change);
    Cfg(c.num + 1, Balance(c.shards, groups.Keys), groups)
  }

  ghost predicate AcceptsAll(c: Cfg, changes: seq<Change>)
    decreases |changes|
  {
    changes == [] || (Accepts(c, changes[0]) && AcceptsAll(Changed(c, changes[0]), changes[1..]))
  }

  ghost function ChangedAll(c: Cfg, changes: seq<Change>): Cfg
    requires AcceptsAll(c, changes)
    decreases |changes|
  {
    if changes == [] then c else ChangedAll(Changed(c, changes[0]), changes[1..])
  }

  /** Balanced over the groups, or everything at 0 without groups; no server in two groups. */
  ghost predicate Settled(c: Cfg) {
    && (c.groups != map[] ==> Covered(c.shards, c.groups.Keys) && Even(c.shards, c.groups.Keys))
    && (c.groups == map[] ==> forall i :: 0 <= i < |c.shards| ==> c.shards[i] == 0)
    && Disjoint(c.groups)
  }

  lemma JoinKeepsDisjoint(groups: Groups, servers: Groups)
    requires Disjoint(groups) && CanJoin(groups, servers)
    ensures Disjoint(groups + servers)
  {
    var all := groups + servers;
    forall g, h | g in all && h in all && g != h
      ensures !Share(all[g], all[h])
    {
      ShareSymmetric(all[g], all[h]);
    }
  }

  lemma SettledStep(c: Cfg, change: Change)
    requires Settled(c) && Accepts(c, change)
    ensures Settled(Changed(c, change))
  {
    BalanceBalances(c.shards, NewGroups(c.groups, change).Keys);
    if change.JoinOf? {
      JoinKeepsDisjoint(c.groups, change.servers);
    }
  }

  lemma {:induction false} SettledRun(c: Cfg, changes: seq<Change>)
    requires Settled(c) && AcceptsAll(c, changes)
    ensures Settled(ChangedAll(c, changes)) && |ChangedAll(c, changes).shards| == |c.shards|
    ensures ChangedAll(c, changes).num == c.num + |changes|
    decreases |changes|
  {
    if changes != [] {
      SettledStep(c, changes[0]);
      SettledRun(Changed(c, changes[0]), changes[1..]);
    }
  }

  /** After any successful changes from the empty configuration: shards are balanced over the
      groups, no server is in two groups, and with between one group and as many as there are
      shards, the members are exactly the groups. */
  lemma ConfigurationSafety(nShards: nat, changes: seq<Change>, g: Gid)
    requires AcceptsAll(Cfg(0, seq(nShards, _ => 0), map[]), changes)
    ensures var c := ChangedAll(Cfg(0, seq(nShards, _ => 0), map[]), changes);
            && Settled(c) && c.num == |changes| && |c.shards| == nShards
            && (1 <= |c.groups| <= nShards ==> (g in c.shards <==> g in c.groups))
  {
    var c0 := Cfg(0, seq(nShards, _ => 0), map[]);
    SettledRun(c0, changes);
    var c := ChangedAll(c0, changes);
    if 1 <= |c.groups| <= nShards {
      assert |c.groups.Keys| == |c.groups|;
      EveryGroupServes(c.shards, c.groups.Keys, g);
    }
  }

  /** Along any run, a join that finds groups moves shards only from old groups to new ones, and of one
      group those with the lowest numbers; a leave that leaves groups moves exactly the shards of the
      groups that left. */
  lemma ChangesMoveLittle(nShards: nat, changes: seq<Change>, change: Change, i: nat)
    requires AcceptsAll(Cfg(0, seq(nShards, _ => 0), map[]), changes) && i < nShards
    requires var c := ChangedAll(Cfg(0, seq(nShards, _ => 0), map[]), changes); Accepts(c, change) && c.groups != map[]
    ensures var c := ChangedAll(Cfg(0, seq(nShards, _ => 0), map[]), changes);
            var d := Changed(c, change);
            && |c.shards| == |d.shards| == nShards
            && (change.JoinOf? ==>
                  && LowestMove(c.shards, d.shards)
                  && (d.shards[i] == c.shards[i] || (c.shards[i] in c.groups && d.shards[i] in change.servers)))
            && (change.LeaveOf? && d.groups != map[] ==> (d.shards[i] == c.shards[i] <==> c.shards[i] in d.groups))
  {
    var c0 := Cfg(0, seq(nShards, _ => 0), map[]);
    SettledRun(c0, changes);
    var c := ChangedAll(c0, changes);
    var d := Changed(c, change);
    match change
    case JoinOf(servers) =>
      assert d.groups.Keys == c.groups.Keys + servers.Keys;
      JoinMovesOnlyToNew(c.shards, c.groups.Keys, servers.Keys);
      JoinInOrder(c.shards, c.groups.Keys, servers.Keys);
    case LeaveOf(gids) =>
      if d.groups != map[] {
        LeaveMovesOnlyOrphans(c.shards, c.groups.Keys, d.groups.Keys, i);
      }
  }

  lemma InsertedFirsts(gs: seq<Gid>, i: nat, k: Gid)
    requires i <= |gs|
    ensures Firsts(gs[..i] + [k] + gs[i..], |gs| + 1) == Firsts(gs, |gs|) + {k}
  {
    var r := gs[..i] + [k] + gs[i..];
    forall g | g in Firsts(gs, |gs|) + {k}
      ensures g in Firsts(r, |r|)
    {
      if g == k {
        assert r[i] == k;
      } else {
        var j :| 0 <= j < |gs| && gs[j] == g;
        assert r[if j < i then j else j + 1] == g;
      }
    }
  }
}
