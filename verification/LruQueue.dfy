/**
  The recency queue of lruFileMap and the map beside it: what a lookup, an addition and a removal
  do to them, and why the back of the queue is always the entry unused for longest.
*/
module LruQueue {
  import opened Seqs

  // A file entry object. Two entries for one name differ in `id`.
  datatype Entry = Entry(id: nat, name: string)

  // The queue (front = most recent) and the map, always changed together under the map lock.
  datatype Lru = Lru(queue: seq<Entry>, elements: map<string, Entry>)

  // Queue and map hold the same entries, once each and under their own names.
  ghost predicate WellFormed(l: Lru) {
    && Distinct(l.queue)
    && (forall e :: e in l.queue ==> e.name in l.elements && l.elements[e.name] == e)
    && (forall n :: n in l.elements ==> l.elements[n].name == n && l.elements[n] in l.queue)
  }

  // get: every lookup, a peek included, moves the entry to the front.
  function Touched(l: Lru, name: string): Lru {
    if name in l.elements then l.(queue := [l.elements[name]] + Without(l.queue, l.elements[name])) else l
  }

  function Removed(l: Lru, name: string): Lru {
    if name in l.elements then Lru(Without(l.queue, l.elements[name]), l.elements - {name}) else l
  }

  function Pushed(l: Lru, e: Entry): Lru {
    if e.name in l.elements then l else Lru([e] + l.queue, l.elements[e.name := e])
  }

  lemma TouchKeepsShape(l: Lru, name: string)
    requires WellFormed(l)
    ensures WellFormed(Touched(l, name)) && |Touched(l, name).queue| == |l.queue|
  {
    if name in l.elements { WithoutMeans(l.queue, l.elements[name]); }
  }

  lemma RemovalKeepsShape(l: Lru, name: string)
    requires WellFormed(l)
    ensures WellFormed(Removed(l, name)) &&
      |Removed(l, name).queue| == |l.queue| - (if name in l.elements then 1 else 0)
  {
    if name in l.elements { WithoutMeans(l.queue, l.elements[name]); }
  }

  lemma PushKeepsShape(l: Lru, e: Entry)
    requires WellFormed(l)
    ensures WellFormed(Pushed(l, e)) && |Pushed(l, e).queue| == |l.queue| + (if e.name in l.elements then 0 else 1)
  {
    assert e.name !in l.elements ==> e !in l.queue;
  }

  // Taking back an entry that was just added undoes the addition.
  lemma RemovedUndoesPushed(l: Lru, e: Entry)
    requires WellFormed(l) && e.name !in l.elements
    ensures Removed(Pushed(l, e), e.name) == l
  {
    assert e !in l.queue;
    WithoutHead(l.queue, e);
    assert l.elements[e.name := e] - {e.name} == l.elements;
  }

  // One element goes to the front and the others keep their order.
  ghost predicate MovedToFront(s: seq<Entry>, s': seq<Entry>, e: Entry) {
    exists i :: 0 <= i < |s| && s[i] == e && s' == [e] + s[..i] + s[i + 1..]
  }

  // One element goes and the others keep their order.
  ghost predicate TakenOut(s: seq<Entry>, s': seq<Entry>, e: Entry) {
    exists i :: 0 <= i < |s| && s[i] == e && s' == s[..i] + s[i + 1..]
  }

  lemma TouchMovesToFront(l: Lru, name: string)
    requires WellFormed(l) && name in l.elements
    ensures MovedToFront(l.queue, Touched(l, name).queue, l.elements[name])
  {
    var i :| 0 <= i < |l.queue| && l.queue[i] == l.elements[name];
    WithoutAt(l.queue, i);
    assert [l.queue[i]] + (l.queue[..i] + l.queue[i + 1..]) == [l.queue[i]] + l.queue[..i] + l.queue[i + 1..];
  }

  lemma RemovalTakesOut(l: Lru, name: string)
    requires WellFormed(l) && name in l.elements
    ensures TakenOut(l.queue, Removed(l, name).queue, l.elements[name])
  {
    var i :| 0 <= i < |l.queue| && l.queue[i] == l.elements[name];
    WithoutAt(l.queue, i);
  }

  // An eviction looks its entry up once more, and then removes it.
  lemma EvictionDropsTheBack(l: Lru)
    requires WellFormed(l) && l.queue != []
    ensures var n := |l.queue| - 1;
            var e := l.queue[n];
            e.name in l.elements && l.elements[e.name] == e && l.queue[..n] + [e] == l.queue &&
            Removed(Touched(l, e.name), e.name) == Lru(l.queue[..n], l.elements - {e.name})
  {
    var n := |l.queue| - 1;
    var e := l.queue[n];
    assert e in l.queue;
    WithoutAt(l.queue, n);
    assert l.queue[n + 1..] == [];
    assert Touched(l, e.name).queue == [e] + l.queue[..n];
    WithoutHead(l.queue[..n], e);
  }

  // ---- Order by last use -----------------------------------------------------------------

  // The uses so far, oldest first: every lookup that found an entry and every addition of one.
  function LastUse(uses: seq<Entry>, e: Entry): (t: int)
    ensures -1 <= t < |uses|
  {
    if uses == [] then -1
    else if uses[|uses| - 1] == e then |uses| - 1
    else LastUse(uses[..|uses| - 1], e)
  }

  lemma {:induction false} LastUseMeans(uses: seq<Entry>, e: Entry)
    ensures var t := LastUse(uses, e);
            (t >= 0 ==> uses[t] == e) && forall i :: t < i < |uses| ==> uses[i] != e
  {
    if uses != [] { LastUseMeans(uses[..|uses| - 1], e); }
  }

  // From front to back, each entry was last used before the one ahead of it.
  ghost predicate ByLastUse(queue: seq<Entry>, uses: seq<Entry>) {
    forall i, j :: 0 <= i < j < |queue| ==> LastUse(uses, queue[i]) > LastUse(uses, queue[j])
  }

  lemma UsedNow(uses: seq<Entry>, e: Entry, x: Entry)
    ensures LastUse(uses + [e], x) == if x == e then |uses| else LastUse(uses, x)
  {
    assert (uses + [e])[..|uses|] == uses;
  }

  // An entry that is used and put to the front of the others keeps the order.
  lemma FrontIsLatest(rest: seq<Entry>, uses: seq<Entry>, e: Entry)
    requires ByLastUse(rest, uses) && e !in rest
    ensures ByLastUse([e] + rest, uses + [e])
  {
    var q := [e] + rest;
    forall i, j | 0 <= i < j < |q| ensures LastUse(uses + [e], q[i]) > LastUse(uses + [e], q[j]) {
      UsedNow(uses, e, q[i]);
      UsedNow(uses, e, q[j]);
      assert q[j] == rest[j - 1] && (i > 0 ==> q[i] == rest[i - 1]);
    }
  }

  lemma WithoutKeepsOrder(queue: seq<Entry>, uses: seq<Entry>, e: Entry)
    requires ByLastUse(queue, uses) && Distinct(queue) && e in queue
    ensures ByLastUse(Without(queue, e), uses)
  {
    var k :| 0 <= k < |queue| && queue[k] == e;
    WithoutAt(queue, k);
    var q := queue[..k] + queue[k + 1..];
    forall i, j | 0 <= i < j < |q| ensures LastUse(uses, q[i]) > LastUse(uses, q[j]) {
      assert q[i] == queue[if i < k then i else i + 1] && q[j] == queue[if j < k then j else j + 1];
    }
  }

  // ---- Whole histories -------------------------------------------------------------------

  datatype MapOp = Get(name: string) | Put(e: Entry) | Drop(name: string)

  function Did(l: Lru, op: MapOp): Lru {
    match op
    case Get(name) => Touched(l, name)
    case Put(e) => Pushed(l, e)
    case Drop(name) => Removed(l, name)
  }

  // The entry an operation uses: the one it finds, or the one it adds.
  function UsedBy(l: Lru, op: MapOp): seq<Entry> {
    match op
    case Get(name) => if name in l.elements then [l.elements[name]] else []
    case Put(e) => if e.name in l.elements then [] else [e]
    case Drop(_) => []
  }

  lemma OpKeepsOrder(l: Lru, uses: seq<Entry>, op: MapOp)
    requires WellFormed(l) && ByLastUse(l.queue, uses)
    ensures WellFormed(Did(l, op)) && ByLastUse(Did(l, op).queue, uses + UsedBy(l, op))
  {
    assert uses + [] == uses;
    match op
    case Get(name) =>
      TouchKeepsShape(l, name);
      if name in l.elements {
        var e := l.elements[name];
        WithoutKeepsOrder(l.queue, uses, e);
        WithoutMeans(l.queue, e);
        FrontIsLatest(Without(l.queue, e), uses, e);
      }
    case Put(e) =>
      PushKeepsShape(l, e);
      if e.name !in l.elements { FrontIsLatest(l.queue, uses, e); }
    case Drop(name) =>
      RemovalKeepsShape(l, name);
      if name in l.elements { WithoutKeepsOrder(l.queue, uses, l.elements[name]); }
  }

  function After(ops: seq<MapOp>): Lru {
    if ops == [] then Lru([], map[]) else Did(After(ops[..|ops| - 1]), ops[|ops| - 1])
  }

  function UsesOf(ops: seq<MapOp>): seq<Entry> {
    if ops == [] then []
    else UsesOf(ops[..|ops| - 1]) + UsedBy(After(ops[..|ops| - 1]), ops[|ops| - 1])
  }

  // After any sequence of lookups, additions and removals the queue is ordered by last use.
  lemma {:induction false} QueueIsByLastUse(ops: seq<MapOp>)
    ensures WellFormed(After(ops)) && ByLastUse(After(ops).queue, UsesOf(ops))
  {
    if ops != [] {
      var before := ops[..|ops| - 1];
      QueueIsByLastUse(before);
      OpKeepsOrder(After(before), UsesOf(before), ops[|ops| - 1]);
    }
  }

  // So the entry at its back is the one whose last lookup or addition is the oldest.
  ghost predicate LeastRecent(queue: seq<Entry>, uses: seq<Entry>, e: Entry) {
    e in queue && forall x :: x in queue && x != e ==> LastUse(uses, x) > LastUse(uses, e)
  }

  lemma BackIsLeastRecent(queue: seq<Entry>, uses: seq<Entry>)
    requires ByLastUse(queue, uses) && queue != []
    ensures LeastRecent(queue, uses, queue[|queue| - 1])
  {
    var e := queue[|queue| - 1];
    forall x | x in queue && x != e ensures LastUse(uses, x) > LastUse(uses, e) {
      var i :| 0 <= i < |queue| && queue[i] == x;
    }
  }
}
