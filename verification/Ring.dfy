/**
  The hash ring: which members own a digest. Members are ordered by rendezvous score; the owners
  are the healthy ones among the first MaxReplica, with two fallbacks.
*/
module Ring {
  import opened Rendezvous
  import opened Seqs
  import HealthCheck
  import PassiveFilter

  const DEFAULT_WEIGHT := 100

  // ---- Reference -------------------------------------------------------------------------

  function First(o: seq<Node>, max: int): seq<Node> {
    if max <= 0 then [] else if max >= |o| then o else o[..max]
  }

  function HealthyNames(o: seq<Node>, healthy: set<string>): seq<string> {
    if o == [] then []
    else
      var rest := HealthyNames(o[..|o| - 1], healthy);
      if o[|o| - 1].name in healthy then rest + [o[|o| - 1].name] else rest
  }

  // All healthy members among the first max; if there is none, the first healthy member; if no
  // member is healthy, the first member.
  function Owners(o: seq<Node>, healthy: set<string>, max: int): seq<string>
    requires o != []
  {
    var replicas, all := HealthyNames(First(o, max), healthy), HealthyNames(o, healthy);
    if replicas != [] then replicas else if all != [] then [all[0]] else [o[0].name]
  }

  ghost predicate DistinctNames(o: seq<Node>) {
    forall i, j :: 0 <= i < j < |o| ==> o[i].name != o[j].name
  }

  ghost function Names(o: seq<Node>): set<string> {
    set x | x in o :: x.name
  }

  lemma {:induction false} HealthyNamesMeans(o: seq<Node>, healthy: set<string>)
    requires DistinctNames(o)
    ensures forall a :: a in HealthyNames(o, healthy) <==> a in Names(o) && a in healthy
    ensures Distinct(HealthyNames(o, healthy))
  {
    if o != [] {
      var front, x := o[..|o| - 1], o[|o| - 1];
      HealthyNamesMeans(front, healthy);
      assert forall y :: y in o <==> y in front || y == x;
      forall a | a in HealthyNames(front, healthy) ensures a != x.name {
        var y :| y in front && y.name == a;
      }
    }
  }

  // The owners are never empty, never repeat, are members, and are all healthy when anyone is.
  lemma OwnersMeans(o: seq<Node>, healthy: set<string>, max: int)
    requires o != [] && DistinctNames(o)
    ensures var r := Owners(o, healthy, max);
            && r != [] && Distinct(r)
            && (forall a :: a in r ==> a in Names(o))
            && ((exists a :: a in Names(o) && a in healthy) ==> forall a :: a in r ==> a in healthy)
            && (forall a :: a in Names(First(o, max)) && a in healthy ==> a in r)
            && (|r| > 1 ==> forall a :: a in r ==> a in Names(First(o, max)))
  {
    HealthyNamesMeans(o, healthy);
    HealthyNamesMeans(First(o, max), healthy);
    assert o[0] in o;
  }

  // `r` are, in order, the names of the healthy ones among the first max.
  ghost predicate HealthyReplicas(o: seq<Node>, healthy: set<string>, max: int, ix: seq<nat>, r: seq<string>) {
    && Ascending(ix, |o|) && |ix| == |r| && (forall j :: 0 <= j < |ix| ==> r[j] == o[ix[j]].name)
    && (forall i :: 0 <= i < |o| ==> (i in ix <==> i < max && o[i].name in healthy))
  }

  ghost predicate FirstHealthy(o: seq<Node>, healthy: set<string>, i: nat) {
    i < |o| && o[i].name in healthy && forall j :: 0 <= j < i ==> o[j].name !in healthy
  }

  // The owners, position by position, with both fallbacks.
  ghost predicate OwnersAre(o: seq<Node>, healthy: set<string>, max: int, r: seq<string>)
    requires o != []
  {
    if exists i :: 0 <= i < |o| && i < max && o[i].name in healthy then
      exists ix :: HealthyReplicas(o, healthy, max, ix, r)
    else if exists i :: 0 <= i < |o| && o[i].name in healthy then
      exists i: nat :: FirstHealthy(o, healthy, i) && r == [o[i].name]
    else r == [o[0].name]
  }

  lemma HealthyPush(o: seq<Node>, x: Node, healthy: set<string>, ix: seq<nat>, r: seq<string>)
    requires HealthyReplicas(o, healthy, |o|, ix, r)
    ensures x.name in healthy ==> HealthyReplicas(o + [x], healthy, |o| + 1, ix + [|o|], r + [x.name])
    ensures x.name !in healthy ==> HealthyReplicas(o + [x], healthy, |o| + 1, ix, r)
  {
    AscendingPush(ix, |o|);
    assert forall i :: 0 <= i < |o| ==> (o + [x])[i] == o[i];
  }

  lemma {:induction false} HealthyByIndex(o: seq<Node>, healthy: set<string>) returns (ix: seq<nat>)
    ensures HealthyReplicas(o, healthy, |o|, ix, HealthyNames(o, healthy))
  {
    ix := [];
    if o != [] {
      var front, x := o[..|o| - 1], o[|o| - 1];
      ix := HealthyByIndex(front, healthy);
      HealthyPush(front, x, healthy, ix, HealthyNames(front, healthy));
      assert o == front + [x];
      if x.name in healthy { ix := ix + [|front|]; }
    }
  }

  lemma HealthyAmongFirst(o: seq<Node>, healthy: set<string>, max: int) returns (ix: seq<nat>)
    ensures HealthyReplicas(o, healthy, max, ix, HealthyNames(First(o, max), healthy))
  {
    ix := HealthyByIndex(First(o, max), healthy);
    var k := |First(o, max)|;
    forall i | 0 <= i < |o| ensures i in ix <==> i < max && o[i].name in healthy {
      if i < k { assert First(o, max)[i] == o[i]; }
    }
  }

  lemma OwnersByPosition(o: seq<Node>, healthy: set<string>, max: int)
    requires o != []
    ensures OwnersAre(o, healthy, max, Owners(o, healthy, max))
  {
    var ix := HealthyAmongFirst(o, healthy, max);
    var all := HealthyByIndex(o, healthy);
    if ix != [] {
      assert ix[0] in ix && o[ix[0]].name in healthy;
    } else if all != [] {
      assert all[0] in all;
      assert FirstHealthy(o, healthy, all[0]);
    }
  }

  // ---- The result depends on membership and health only ----------------------------------

  ghost predicate DistinctFor(f: Score, key: string, addrs: set<string>) {
    forall a, b :: a in addrs && b in addrs && a != b
      ==> f(key, Node(a, DEFAULT_WEIGHT)) != f(key, Node(b, DEFAULT_WEIGHT))
  }

  // The hash holds one node of default weight for each member.
  ghost predicate Holds(nodes: seq<Node>, addrs: set<string>) {
    && DistinctNames(nodes) && Names(nodes) == addrs
    && forall x :: x in nodes ==> x.weight == DEFAULT_WEIGHT
  }

  lemma HoldsMeansDistinct(f: Score, key: string, nodes: seq<Node>, addrs: set<string>)
    requires Holds(nodes, addrs) && DistinctFor(f, key, addrs)
    ensures DistinctScores(f, key, nodes)
  {
    forall i, j | 0 <= i < j < |nodes| ensures f(key, nodes[i]) != f(key, nodes[j]) {
      assert nodes[i] in nodes && nodes[j] in nodes;
      assert nodes[i].name in addrs && nodes[j].name in addrs;
      assert nodes[i] == Node(nodes[i].name, DEFAULT_WEIGHT) && nodes[j] == Node(nodes[j].name, DEFAULT_WEIGHT);
    }
  }

  lemma {:induction false} MembersCounted(nodes: seq<Node>)
    requires DistinctNames(nodes)
    ensures |Names(nodes)| == |nodes|
  {
    if nodes != [] {
      var front, x := nodes[..|nodes| - 1], nodes[|nodes| - 1];
      MembersCounted(front);
      assert forall y :: y in nodes <==> y in front || y == x;
      assert x.name !in Names(front);
      assert Names(nodes) == Names(front) + {x.name};
    } else {
      assert Names(nodes) == {};
    }
  }

  lemma HoldsSameNodes(a: seq<Node>, b: seq<Node>, addrs: set<string>)
    requires Holds(a, addrs) && Holds(b, addrs)
    ensures SameNodes(a, b)
  {
    forall x | x in a ensures x in b {
      assert x.name in Names(a);
      var y :| y in b && y.name == x.name;
    }
    forall x | x in b ensures x in a {
      assert x.name in Names(b);
      var y :| y in a && y.name == x.name;
    }
  }

  lemma HoldsIsOrdered(f: Score, key: string, nodes: seq<Node>, addrs: set<string>)
    requires Holds(nodes, addrs) && DistinctFor(f, key, addrs)
    ensures |Order(f, key, nodes)| == |nodes| && DistinctNames(Order(f, key, nodes)) &&
      Names(Order(f, key, nodes)) == addrs
  {
    HoldsMeansDistinct(f, key, nodes, addrs);
    OrderMeans(f, key, nodes);
    var o := Order(f, key, nodes);
    forall i, j | 0 <= i < j < |o| ensures o[i].name != o[j].name {
      assert o[i] in nodes && o[j] in nodes && f(key, o[i]) > f(key, o[j]);
    }
  }

  // Two rings with the same members and health, however they came to them, answer every digest
  // alike: the order in which members were added plays no part.
  lemma OwnersDependOnMembership(f: Score, key: string, a: seq<Node>, b: seq<Node>, addrs: set<string>,
      healthy: set<string>, max: int)
    requires Holds(a, addrs) && Holds(b, addrs) && DistinctFor(f, key, addrs) && a != []
    ensures Order(f, key, a) != [] && Order(f, key, b) != []
    ensures Owners(Order(f, key, a), healthy, max) == Owners(Order(f, key, b), healthy, max)
  {
    HoldsMeansDistinct(f, key, a, addrs);
    HoldsMeansDistinct(f, key, b, addrs);
    HoldsSameNodes(a, b, addrs);
    OrderMeans(f, key, a);
    OrderIgnoresInsertionOrder(f, key, a, b);
  }

  // The first healthy node stays the first when another one is taken out.
  lemma {:induction false} FirstHealthyStays(o: seq<Node>, x: Node, healthy: set<string>)
    requires HealthyNames(o, healthy) != [] && HealthyNames(o, healthy)[0] != x.name
    ensures HealthyNames(Without(o, x), healthy) != [] &&
      HealthyNames(Without(o, x), healthy)[0] == HealthyNames(o, healthy)[0]
  {
    var rest := o[1..];
    assert o == [o[0]] + rest;
    HealthyNamesCons(o[0], rest, healthy);
    if o[0] == x {
      FirstHealthyStays(rest, x, healthy);
      assert Without(o, x) == Without(rest, x);
    } else {
      HealthyNamesCons(o[0], Without(rest, x), healthy);
      if o[0].name !in healthy { FirstHealthyStays(rest, x, healthy); }
    }
  }

  lemma {:induction false} HealthyNamesCons(y: Node, rest: seq<Node>, healthy: set<string>)
    ensures HealthyNames([y] + rest, healthy) ==
      (if y.name in healthy then [y.name] else []) + HealthyNames(rest, healthy)
  {
    if rest == [] {
      assert [y] + rest == [y] && [y][..0] == [];
    } else {
      assert ([y] + rest)[..|rest|] == [y] + rest[..|rest| - 1];
      HealthyNamesCons(y, rest[..|rest| - 1], healthy);
    }
  }

  // Whoever is first among all healthy members is an owner, replica or not.
  lemma FirstHealthyOwns(o: seq<Node>, healthy: set<string>, max: int)
    requires o != [] && HealthyNames(o, healthy) != []
    ensures HealthyNames(o, healthy)[0] in Owners(o, healthy, max)
  {
    var k := if max <= 0 then 0 else if max >= |o| then |o| else max;
    assert First(o, max) == o[..k] && o[..|o|] == o;
    HealthyNamesGrow(o, healthy, k, |o|);
  }

  // Joining, for an owner that is a healthy replica afterwards.
  lemma ReplicaOwnedBefore(f: Score, key: string, nodes: seq<Node>, x: Node, healthy: set<string>, max: int, a: string)
    requires DistinctScores(f, key, nodes + [x]) && DistinctNames(nodes + [x])
    requires a in HealthyNames(First(Order(f, key, nodes + [x]), max), healthy) && Order(f, key, nodes) != []
    ensures a == x.name || a in Owners(Order(f, key, nodes), healthy, max)
  {
    var before, after := Order(f, key, nodes), Order(f, key, nodes + [x]);
    OneMemberKeepsOrder(f, key, nodes, x);
    OrderedNames(f, key, nodes + [x]);
    MoreDistinct(nodes, x);
    OrderedNames(f, key, nodes);
    HealthyNamesMeans(First(after, max), healthy);
    HealthyNamesMeans(First(before, max), healthy);
    var y :| y in First(after, max) && y.name == a;
    assert max > 0 && y in Top(f, key, nodes + [x], max);
    TopKGainsOnlyTheNewNode(f, key, nodes, x, max, y);
  }

  // When one member x joins and the others' health is as before, only x can become an owner of a
  // digest: also when no replica is healthy, and when no member is.
  lemma JoiningDisplacesOnlyToItself(f: Score, key: string, nodes: seq<Node>, x: Node, healthy: set<string>, max: int,
      a: string)
    requires DistinctScores(f, key, nodes + [x]) && DistinctNames(nodes + [x]) && nodes != []
    requires Order(f, key, nodes + [x]) != [] && a in Owners(Order(f, key, nodes + [x]), healthy, max)
    ensures Order(f, key, nodes) != []
    ensures a == x.name || a in Owners(Order(f, key, nodes), healthy, max)
  {
    var before, after := Order(f, key, nodes), Order(f, key, nodes + [x]);
    OneMemberKeepsOrder(f, key, nodes, x);
    OrderMeans(f, key, nodes);
    if HealthyNames(First(after, max), healthy) != [] {
      ReplicaOwnedBefore(f, key, nodes, x, healthy, max, a);
    } else if HealthyNames(after, healthy) != [] {
      if a != x.name {
        FirstHealthyStays(after, x, healthy);
        FirstHealthyOwns(before, healthy, max);
      }
    } else {
      NobodyOwnsButTheFirst(f, key, nodes, x, healthy, max);
    }
  }

  lemma NobodyOwnsButTheFirst(f: Score, key: string, nodes: seq<Node>, x: Node, healthy: set<string>, max: int)
    requires DistinctScores(f, key, nodes + [x]) && DistinctNames(nodes + [x]) && nodes != []
    requires Order(f, key, nodes) != [] && Order(f, key, nodes + [x]) != []
    requires HealthyNames(Order(f, key, nodes + [x]), healthy) == []
    ensures Order(f, key, nodes + [x])[0] == x ||
      Owners(Order(f, key, nodes), healthy, max) == [Order(f, key, nodes + [x])[0].name]
  {
    var before, after := Order(f, key, nodes), Order(f, key, nodes + [x]);
    OneMemberKeepsOrder(f, key, nodes, x);
    OrderedNames(f, key, nodes + [x]);
    OrderMeans(f, key, nodes + [x]);
    WithoutKeepsOrder(f, key, after, x);
    HealthyNamesMeans(after, healthy);
    MoreDistinct(nodes, x);
    OrderedNames(f, key, nodes);
    HealthyNamesMeans(before, healthy);
    HealthyNamesMeans(First(before, max), healthy);
    NoneHealthy(before, after, healthy);
    NoneHealthy(First(before, max), after, healthy);
  }

  lemma NoneHealthy(o: seq<Node>, all: seq<Node>, healthy: set<string>)
    requires DistinctNames(o) && DistinctNames(all) && HealthyNames(all, healthy) == [] && forall y :: y in o ==>
      y in all
    ensures HealthyNames(o, healthy) == []
  {
    HealthyNamesMeans(o, healthy);
    HealthyNamesMeans(all, healthy);
    assert forall a :: a in Names(o) ==> a in Names(all);
    assert forall a :: a !in HealthyNames(o, healthy);
  }

  lemma OrderedNames(f: Score, key: string, nodes: seq<Node>)
    requires DistinctScores(f, key, nodes) && DistinctNames(nodes)
    ensures DistinctNames(Order(f, key, nodes))
  {
    OrderMeans(f, key, nodes);
    var o := Order(f, key, nodes);
    forall i, j | 0 <= i < j < |o| ensures o[i].name != o[j].name {
      assert o[i] in nodes && o[j] in nodes && f(key, o[i]) > f(key, o[j]);
    }
  }

  lemma MoreDistinct(nodes: seq<Node>, x: Node)
    requires DistinctNames(nodes + [x])
    ensures DistinctNames(nodes)
  {
    forall i, j | 0 <= i < j < |nodes| ensures nodes[i].name != nodes[j].name {
      assert (nodes + [x])[i] == nodes[i] && (nodes + [x])[j] == nodes[j];
    }
  }

  // ---- The ring as an object -------------------------------------------------------------

  class HashRing {
    const maxReplica: int
    var addrs: set<string>
    var hash: RendezvousHash
    var healthy: set<string>

    ghost predicate Valid()
      reads this, hash
    {
      addrs != {} && healthy <= addrs && Holds(hash.nodes, addrs)
    }

    // The first Refresh is part of construction.
    constructor (maxReplica: int, latest: set<string>, healthy: set<string>)
      requires latest != {} && healthy <= latest
      ensures Valid() && addrs == latest && this.healthy == healthy && this.maxReplica == maxReplica && fresh(hash)
    {
      this.maxReplica, this.addrs, this.healthy := maxReplica, latest, healthy;
      hash := new RendezvousHash();
      new;
      var h := BuildHash(latest);
      hash := h;
    }

    static method BuildHash(latest: set<string>) returns (h: RendezvousHash)
      ensures fresh(h) && Holds(h.nodes, latest)
    {
      h := new RendezvousHash();
      var left := latest;
      while left != {}
        invariant fresh(h) && left <= latest && Holds(h.nodes, latest - left)
        decreases left
      {
        var addr :| addr in left;
        ghost var was := h.nodes;
        h.AddNode(addr, DEFAULT_WEIGHT);
        AddingHolds(was, addr, latest - left);
        left := left - {addr};
        assert latest - left == (latest - left - {addr}) + {addr};
      }
      assert latest - left == latest;
    }

    // The cluster list is never empty, and either filter answers with a subset of what it was
    // asked about.
    method Refresh(latest: set<string>, nowHealthy: set<string>) returns (notified: bool)
      requires Valid() && latest != {} && nowHealthy <= latest
      modifies this
      ensures Valid() && addrs == latest && healthy == nowHealthy
      ensures notified <==> old(addrs) != latest
      ensures hash == old(hash) || fresh(hash)
    {
      notified := addrs != latest;
      var h := hash;
      if notified {
        h := BuildHash(latest);
      }
      addrs, hash, healthy := latest, h, nowHealthy;
    }

    // With the passive filter, the healthy members are those without a recent trip.
    method RefreshWithPassive(filter: PassiveFilter.Filter, latest: set<string>, now: int) returns (notified: bool)
      requires Valid() && latest != {} && filter.Valid() && filter.ClockReads(now)
      modifies this, filter
      ensures Valid() && filter.Valid() && addrs == latest && (hash == old(hash) || fresh(hash))
      ensures forall a :: a in healthy <==>
        a in latest && !PassiveFilter.Filtered(filter.config, old(filter.history), a, now)
    {
      var nowHealthy := filter.Run(latest, now);
      notified := Refresh(latest, nowHealthy);
    }

    // With the active filter, a lone member is healthy; of several, those are that their own history
    // of checks and absences says are.
    method RefreshWithActive(filter: HealthCheck.Filter, latest: set<string>, order: seq<string>, ok: string -> bool)
        returns (notified: bool)
      requires Valid() && latest != {} && filter.Valid()
      requires Distinct(order) && (set a | a in order) == latest
      modifies this, filter
      ensures Valid() && filter.Valid() && addrs == latest && (hash == old(hash) || fresh(hash))
      ensures filter.history == old(filter.history) + [HealthCheck.Round(latest, order, ok)]
      ensures |latest| == 1 ==> healthy == latest
      ensures |latest| != 1 ==> forall a :: a in healthy <==>
                HealthCheck.Life(filter.config, HealthCheck.UNKNOWN, HealthCheck.Events(filter.history, a)).healthy
    {
      var nowHealthy := filter.Run(latest, order, ok);
      notified := Refresh(latest, nowHealthy);
    }

    predicate Contains(addr: string)
      reads this
    {
      addr in addrs
    }

    method Locations(f: Score, key: string) returns (locs: seq<string>)
      requires Valid() && DistinctFor(f, key, addrs)
      ensures Order(f, key, hash.nodes) != [] && locs == Owners(Order(f, key, hash.nodes), healthy, maxReplica)
      ensures locs != [] && Distinct(locs) && forall a :: a in locs ==> Contains(a)
      ensures healthy != {} ==> forall a :: a in locs ==> a in healthy
      ensures healthy == {} ==> |locs| == 1
      ensures OwnersAre(Order(f, key, hash.nodes), healthy, maxReplica, locs)
    {
      HoldsIsOrdered(f, key, hash.nodes, addrs);
      ghost var o := Order(f, key, hash.nodes);
      MembersCounted(hash.nodes);
      var nodes := hash.GetOrderedNodes(f, key, |addrs|);
      assert nodes == o;
      // The fatal check: as many ordered nodes as members.
      assert |nodes| == |addrs|;
      NonEmptyNames(o);
      OwnersMeans(o, healthy, maxReplica);
      OwnersByPosition(o, healthy, maxReplica);
      HealthyNamesMeans(o, healthy);
      if healthy == {} {
        NobodyHealthy(o, healthy);
        NobodyHealthy(First(o, maxReplica), healthy);
        return [nodes[0].name];
      }
      ghost var someone :| someone in healthy;
      assert someone in HealthyNames(o, healthy);
      locs := Collect(nodes);
    }

    method Collect(nodes: seq<Node>) returns (locs: seq<string>)
      requires nodes != [] && HealthyNames(nodes, healthy) != []
      ensures locs == Owners(nodes, healthy, maxReplica)
    {
      locs := [];
      var i := 0;
      while i < |nodes| && (|locs| == 0 || i < maxReplica)
        invariant 0 <= i <= |nodes|
        invariant locs == HealthyNames(nodes[..i], healthy)
        invariant i > maxReplica && i > 0 ==> HealthyNames(nodes[..i - 1], healthy) == []
      {
        assert nodes[..i + 1][..i] == nodes[..i];
        var addr := nodes[i].name;
        if addr in healthy { locs := locs + [addr]; }
        i := i + 1;
      }
      assert nodes[..|nodes|] == nodes;
      LoopMeansOwners(nodes, healthy, maxReplica, i);
    }
  }

  lemma AddingHolds(nodes: seq<Node>, addr: string, addrs: set<string>)
    requires Holds(nodes, addrs) && addr !in addrs
    ensures Holds(nodes + [Node(addr, DEFAULT_WEIGHT)], addrs + {addr})
  {
    var more := nodes + [Node(addr, DEFAULT_WEIGHT)];
    forall i | 0 <= i < |nodes| ensures nodes[i].name in addrs && more[i] == nodes[i] {
      assert nodes[i] in nodes;
    }
    assert forall x :: x in more <==> x in nodes || x == Node(addr, DEFAULT_WEIGHT);
    assert Node(addr, DEFAULT_WEIGHT) in more;
  }

  lemma NonEmptyNames(o: seq<Node>)
    requires Names(o) != {}
    ensures o != []
  {
    var a :| a in Names(o);
    var x :| x in o && x.name == a;
  }

  lemma NobodyHealthy(o: seq<Node>, healthy: set<string>)
    requires healthy == {}
    ensures HealthyNames(o, healthy) == []
  {
  }

  lemma {:induction false} HealthyNamesGrow(o: seq<Node>, healthy: set<string>, i: nat, j: nat)
    requires i <= j <= |o|
    ensures HealthyNames(o[..i], healthy) <= HealthyNames(o[..j], healthy)
    decreases j
  {
    if i < j {
      HealthyNamesGrow(o, healthy, i, j - 1);
      assert o[..j][..j - 1] == o[..j - 1];
    }
  }

  // Where the loop of Locations stops, it has collected the owners.
  lemma LoopMeansOwners(o: seq<Node>, healthy: set<string>, max: int, i: nat)
    requires o != [] && i <= |o| && HealthyNames(o, healthy) != []
    requires i < |o| ==> HealthyNames(o[..i], healthy) != [] && i >= max
    requires i > max && i > 0 ==> HealthyNames(o[..i - 1], healthy) == []
    ensures HealthyNames(o[..i], healthy) == Owners(o, healthy, max)
  {
    var k := if max <= 0 then 0 else if max >= |o| then |o| else max;
    assert First(o, max) == o[..k] && o[..|o|] == o;
    if i > k {
      HealthyNamesGrow(o, healthy, k, i - 1);
      assert o[..i][..i - 1] == o[..i - 1];
      HealthyNamesGrow(o, healthy, i, |o|);
    }
  }
}
