/**
  Rendezvous hashing: every node has a score for a key, and the nodes of a key are ordered by
  falling score. The score is any function of key, label and weight; nodes compared have
  different scores.
*/
module Rendezvous {
  import opened Seqs

  datatype Node = Node(name: string, weight: int)

  type Score = (string, Node) -> real

  // ---- Order -----------------------------------------------------------------------------

  ghost predicate DistinctScores(f: Score, key: string, nodes: seq<Node>) {
    forall i, j :: 0 <= i < j < |nodes| ==> f(key, nodes[i]) != f(key, nodes[j])
  }

  ghost predicate Falling(f: Score, key: string, nodes: seq<Node>) {
    forall i, j :: 0 <= i < j < |nodes| ==> f(key, nodes[i]) > f(key, nodes[j])
  }

  ghost predicate SameNodes(a: seq<Node>, b: seq<Node>) {
    forall x :: x in a <==> x in b
  }

  function Insert(f: Score, key: string, x: Node, sorted: seq<Node>): seq<Node> {
    if sorted == [] || f(key, x) > f(key, sorted[0]) then [x] + sorted
    else [sorted[0]] + Insert(f, key, x, sorted[1..])
  }

  // The nodes by falling score.
  function Order(f: Score, key: string, nodes: seq<Node>): seq<Node> {
    if nodes == [] then [] else Insert(f, key, nodes[|nodes| - 1], Order(f, key, nodes[..|nodes| - 1]))
  }

  lemma {:induction false} InsertMeans(f: Score, key: string, x: Node, sorted: seq<Node>)
    requires Falling(f, key, sorted) && forall y :: y in sorted ==> f(key, y) != f(key, x)
    ensures Falling(f, key, Insert(f, key, x, sorted)) && |Insert(f, key, x, sorted)| == |sorted| + 1
    ensures forall y :: y in Insert(f, key, x, sorted) <==> y == x || y in sorted
  {
    var r := Insert(f, key, x, sorted);
    if sorted == [] || f(key, x) > f(key, sorted[0]) {
    } else {
      InsertMeans(f, key, x, sorted[1..]);
      var rest := Insert(f, key, x, sorted[1..]);
      assert forall i :: 0 <= i < |rest| ==> rest[i] in rest;
    }
  }

  lemma {:induction false} OrderMeans(f: Score, key: string, nodes: seq<Node>)
    requires DistinctScores(f, key, nodes)
    ensures Falling(f, key, Order(f, key, nodes)) && SameNodes(Order(f, key, nodes), nodes)
    ensures |Order(f, key, nodes)| == |nodes|
  {
    if nodes != [] {
      var front, x := nodes[..|nodes| - 1], nodes[|nodes| - 1];
      assert DistinctScores(f, key, front);
      OrderMeans(f, key, front);
      var o := Order(f, key, front);
      LastScoresApart(f, key, nodes);
      forall y | y in o ensures f(key, y) != f(key, x) {
        assert y in front;
      }
      InsertMeans(f, key, x, o);
      assert forall y :: y in nodes <==> y in front || y == x;
    }
  }

  lemma LastScoresApart(f: Score, key: string, nodes: seq<Node>)
    requires DistinctScores(f, key, nodes) && nodes != []
    ensures forall y :: y in nodes[..|nodes| - 1] ==> f(key, y) != f(key, nodes[|nodes| - 1])
  {
    var front := nodes[..|nodes| - 1];
    forall y | y in front ensures f(key, y) != f(key, nodes[|nodes| - 1]) {
      var i :| 0 <= i < |front| && front[i] == y;
      assert nodes[i] == y;
    }
  }

  // A falling order of a set of nodes is the only one.
  lemma {:induction false} OrderIsUnique(f: Score, key: string, a: seq<Node>, b: seq<Node>)
    requires Falling(f, key, a) && Falling(f, key, b) && SameNodes(a, b)
    ensures a == b
  {
    assert a != [] ==> a[0] in b;
    assert b != [] ==> b[0] in a;
    if a != [] && b != [] {
      assert a[0] == b[0];
      forall x | x in a[1..] ensures x in b[1..] {
        assert x in b && x != a[0];
      }
      forall x | x in b[1..] ensures x in a[1..] {
        assert x in a && x != b[0];
      }
      OrderIsUnique(f, key, a[1..], b[1..]);
    }
  }

  // The order in which nodes were added does not matter.
  lemma OrderIgnoresInsertionOrder(f: Score, key: string, a: seq<Node>, b: seq<Node>)
    requires DistinctScores(f, key, a) && DistinctScores(f, key, b) && SameNodes(a, b)
    ensures Order(f, key, a) == Order(f, key, b)
  {
    OrderMeans(f, key, a);
    OrderMeans(f, key, b);
    OrderIsUnique(f, key, Order(f, key, a), Order(f, key, b));
  }

  // ---- Changing one member ---------------------------------------------------------------

  lemma {:induction false} WithoutKeepsOrder(f: Score, key: string, nodes: seq<Node>, x: Node)
    requires Falling(f, key, nodes)
    ensures Falling(f, key, Without(nodes, x)) && forall y :: y in Without(nodes, x) <==> y in nodes && y != x
  {
    assert Distinct(nodes);
    WithoutMeans(nodes, x);
    if nodes != [] {
      WithoutKeepsOrder(f, key, nodes[1..], x);
      var rest := Without(nodes[1..], x);
      forall i | 0 <= i < |rest| ensures f(key, nodes[0]) > f(key, rest[i]) {
        assert rest[i] in nodes[1..];
      }
    }
  }

  // Adding or removing one member keeps the relative order of all the others.
  lemma OneMemberKeepsOrder(f: Score, key: string, nodes: seq<Node>, x: Node)
    requires DistinctScores(f, key, nodes + [x])
    ensures DistinctScores(f, key, nodes) && x !in nodes
    ensures Without(Order(f, key, nodes + [x]), x) == Order(f, key, nodes)
  {
    forall i, j | 0 <= i < j < |nodes| ensures f(key, nodes[i]) != f(key, nodes[j]) {
      assert (nodes + [x])[i] == nodes[i] && (nodes + [x])[j] == nodes[j];
    }
    forall i | 0 <= i < |nodes| ensures nodes[i] != x {
      assert (nodes + [x])[i] == nodes[i] && (nodes + [x])[|nodes|] == x;
    }
    OrderMeans(f, key, nodes);
    OrderMeans(f, key, nodes + [x]);
    WithoutKeepsOrder(f, key, Order(f, key, nodes + [x]), x);
    OrderIsUnique(f, key, Without(Order(f, key, nodes + [x]), x), Order(f, key, nodes));
  }

  function Top(f: Score, key: string, nodes: seq<Node>, k: nat): seq<Node> {
    var o := Order(f, key, nodes);
    if k >= |o| then o else o[..k]
  }

  lemma {:induction false} InsertAddsOne(f: Score, key: string, x: Node, sorted: seq<Node>)
    ensures |Insert(f, key, x, sorted)| == |sorted| + 1
  {
    if !(sorted == [] || f(key, x) > f(key, sorted[0])) { InsertAddsOne(f, key, x, sorted[1..]); }
  }

  lemma {:induction false} OrderHasAll(f: Score, key: string, nodes: seq<Node>)
    ensures |Order(f, key, nodes)| == |nodes|
  {
    if nodes != [] {
      OrderHasAll(f, key, nodes[..|nodes| - 1]);
      InsertAddsOne(f, key, nodes[|nodes| - 1], Order(f, key, nodes[..|nodes| - 1]));
    }
  }

  // The k best nodes, or all of them if there are fewer, by falling score; nobody left out scores
  // higher than anybody taken.
  ghost predicate Best(f: Score, key: string, nodes: seq<Node>, k: nat, top: seq<Node>) {
    && |top| == (if k < |nodes| then k else |nodes|)
    && Falling(f, key, top) && (forall x :: x in top ==> x in nodes)
    && forall x, y :: x in top && y in nodes && y !in top ==> f(key, x) > f(key, y)
  }

  lemma TopIsBest(f: Score, key: string, nodes: seq<Node>, k: nat)
    requires DistinctScores(f, key, nodes)
    ensures Best(f, key, nodes, k, Top(f, key, nodes, k))
  {
    OrderMeans(f, key, nodes);
    var o, top := Order(f, key, nodes), Top(f, key, nodes, k);
    forall x, y | x in top && y in nodes && y !in top ensures f(key, x) > f(key, y) {
      assert y in o;
      var i :| 0 <= i < |top| && top[i] == x;
      var j :| 0 <= j < |o| && o[j] == y;
      assert forall m :: 0 <= m < |top| ==> top[m] == o[m] && top[m] in top;
      assert i < |top| <= j;
    }
  }

  // Where removing x from a sequence leaves the element at i.
  lemma {:induction false} WithoutShifts(s: seq<Node>, x: Node, i: nat) returns (j: nat)
    requires i < |s| && s[i] != x
    ensures j < |Without(s, x)| && j <= i && Without(s, x)[j] == s[i]
  {
    if i == 0 {
      j := 0;
    } else {
      j := WithoutShifts(s[1..], x, i - 1);
      if s[0] != x { j := j + 1; }
    }
  }

  lemma {:induction false} WithoutShiftsBack(s: seq<Node>, x: Node, j: nat) returns (i: nat)
    requires j < |Without(s, x)| && Distinct(s)
    ensures j <= i <= j + 1 && i < |s| && s[i] == Without(s, x)[j]
  {
    if s[0] == x {
      WithoutAbsent(s[1..], x);
      i := j + 1;
    } else if j == 0 {
      i := 0;
    } else {
      i := WithoutShiftsBack(s[1..], x, j - 1);
      i := i + 1;
    }
  }

  // For every key the top k of the larger set lie in the top k of the smaller one together with
  // the new node.
  lemma TopKGainsOnlyTheNewNode(f: Score, key: string, nodes: seq<Node>, x: Node, k: nat, y: Node)
    requires DistinctScores(f, key, nodes + [x]) && y in Top(f, key, nodes + [x], k)
    ensures y == x || y in Top(f, key, nodes, k)
  {
    OneMemberKeepsOrder(f, key, nodes, x);
    var after, before := Order(f, key, nodes + [x]), Order(f, key, nodes);
    if y != x {
      var i := TopPosition(after, k, y);
      var j := WithoutShifts(after, x, i);
      assert before[j] == y && j < k;
      assert Top(f, key, nodes, k)[j] == y;
    }
  }

  lemma TopPosition(o: seq<Node>, k: nat, y: Node) returns (i: nat)
    requires y in if k >= |o| then o else o[..k]
    ensures i < |o| && i < k && o[i] == y
  {
    i :| 0 <= i < |o| && i < k && o[i] == y;
  }

  // And all but the last of the old top k stay.
  lemma TopKLosesOnlyTheLast(f: Score, key: string, nodes: seq<Node>, x: Node, k: nat, i: nat)
    requires DistinctScores(f, key, nodes + [x]) && i < |Order(f, key, nodes)| && i + 1 < k
    ensures Order(f, key, nodes)[i] in Top(f, key, nodes + [x], k)
  {
    OneMemberKeepsOrder(f, key, nodes, x);
    OrderMeans(f, key, nodes + [x]);
    assert Distinct(Order(f, key, nodes + [x]));
    var j := WithoutShiftsBack(Order(f, key, nodes + [x]), x, i);
    assert Top(f, key, nodes + [x], k)[j] == Order(f, key, nodes)[i];
  }

  function RemoveFirst(nodes: seq<Node>, name: string): seq<Node> {
    if nodes == [] then [] else if nodes[0].name == name then nodes[1..] else [nodes[0]] + RemoveFirst(nodes[1..], name)
  }

  lemma {:induction false} RemoveFirstMeans(nodes: seq<Node>, i: nat)
    requires i < |nodes| && forall j :: 0 <= j < i ==> nodes[j].name != nodes[i].name
    ensures RemoveFirst(nodes, nodes[i].name) == nodes[..i] + nodes[i + 1..]
  {
    if i > 0 { RemoveFirstMeans(nodes[1..], i - 1); }
  }

  ghost predicate FirstNamed(nodes: seq<Node>, name: string, i: nat) {
    i < |nodes| && nodes[i].name == name && forall j :: 0 <= j < i ==> nodes[j].name != name
  }

  lemma {:induction false} RemoveAbsent(nodes: seq<Node>, name: string)
    requires forall j :: 0 <= j < |nodes| ==> nodes[j].name != name
    ensures RemoveFirst(nodes, name) == nodes
  {
    if nodes != [] { RemoveAbsent(nodes[1..], name); }
  }

  // The same nodes with the i-th moved to the end.
  lemma MovedLast(f: Score, key: string, nodes: seq<Node>, i: nat)
    requires DistinctScores(f, key, nodes) && i < |nodes|
    ensures var moved := nodes[..i] + nodes[i + 1..] + [nodes[i]];
            DistinctScores(f, key, moved) && SameNodes(moved, nodes)
  {
    var moved := nodes[..i] + nodes[i + 1..] + [nodes[i]];
    assert forall a :: 0 <= a < |moved| ==> moved[a] == nodes[Position(|nodes|, i, a)];
    assert nodes == nodes[..i] + [nodes[i]] + nodes[i + 1..];
  }

  // RemoveNode takes its node out of every key's order and leaves the rest in place.
  lemma RemovalKeepsOrder(f: Score, key: string, nodes: seq<Node>, i: nat)
    requires DistinctScores(f, key, nodes) && i < |nodes| && forall j :: 0 <= j < i ==> nodes[j].name != nodes[i].name
    ensures Order(f, key, RemoveFirst(nodes, nodes[i].name)) == Without(Order(f, key, nodes), nodes[i])
  {
    RemoveFirstMeans(nodes, i);
    MovedLast(f, key, nodes, i);
    var less, x := nodes[..i] + nodes[i + 1..], nodes[i];
    OneMemberKeepsOrder(f, key, less, x);
    OrderIgnoresInsertionOrder(f, key, less + [x], nodes);
  }

  // Where the a-th of "all but i, then i" sits in the whole.
  function Position(n: nat, i: nat, a: nat): nat {
    if a < i then a else if a + 1 < n then a + 1 else i
  }

  // ---- The hash as an object -------------------------------------------------------------

  class RendezvousHash {
    var nodes: seq<Node>

    constructor ()
      ensures nodes == []
    {
      nodes := [];
    }

    method AddNode(name: string, weight: int)
      modifies this
      ensures nodes == old(nodes) + [Node(name, weight)]
    {
      nodes := nodes + [Node(name, weight)];
    }

    // The first node with that label goes, if there is one.
    method RemoveNode(name: string)
      modifies this
      ensures nodes == RemoveFirst(old(nodes), name)
      ensures (forall j :: 0 <= j < |old(nodes)| ==> old(nodes)[j].name != name) ==> nodes == old(nodes)
      ensures forall i: nat :: FirstNamed(old(nodes), name, i) ==> nodes == old(nodes)[..i] + old(nodes)[i + 1..]
    {
      for i := 0 to |nodes|
        invariant nodes == old(nodes)
        invariant forall j :: 0 <= j < i ==> nodes[j].name != name
      {
        if nodes[i].name == name {
          RemoveFirstMeans(nodes, i);
          assert forall k: nat :: FirstNamed(nodes, name, k) ==> k == i;
          nodes := nodes[..i] + nodes[i + 1..];
          return;
        }
      }
      RemoveAbsent(nodes, name);
    }

    method GetNode(name: string) returns (index: int)
      ensures index == -1 ==> forall j :: 0 <= j < |nodes| ==> nodes[j].name != name
      ensures index != -1 ==> 0 <= index < |nodes| && nodes[index].name == name
      ensures index != -1 ==> forall j :: 0 <= j < index ==> nodes[j].name != name
    {
      for i := 0 to |nodes|
        invariant forall j :: 0 <= j < i ==> nodes[j].name != name
      {
        if nodes[i].name == name { return i; }
      }
      index := -1;
    }

    // A sorted copy, cut to n. Any correct sort gives this result; insertion sort stands in for
    // the library's.
    method GetOrderedNodes(f: Score, key: string, n: nat) returns (top: seq<Node>)
      ensures top == Top(f, key, nodes, n) && |top| == if n < |nodes| then n else |nodes|
      ensures DistinctScores(f, key, nodes) ==> Best(f, key, nodes, n, top)
    {
      OrderHasAll(f, key, nodes);
      if DistinctScores(f, key, nodes) { TopIsBest(f, key, nodes, n); }
      var sorted := [];
      for i := 0 to |nodes|
        invariant sorted == Order(f, key, nodes[..i])
      {
        assert nodes[..i + 1][..i] == nodes[..i];
        sorted := Insert(f, key, nodes[i], sorted);
      }
      assert nodes[..|nodes|] == nodes;
      top := if n >= |sorted| then sorted else sorted[..n];
    }
  }
}
