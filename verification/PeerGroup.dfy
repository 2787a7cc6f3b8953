/**
  One peer group of the tracker's in-memory store: the list of announced peers and the index
  over the same entries, the update made by an announce, and the removal of expired entries by
  swapping each with the last element, from the highest index down.
*/
module PeerGroup {
  import opened Seqs

  type PeerId = string

  datatype PeerInfo = PeerInfo(id: PeerId, ip: string, port: int, complete: bool)

  datatype Entry = Entry(info: PeerInfo, expiresAt: int)

  // ---- Specification on lists ------------------------------------------------------------

  ghost predicate DistinctIds(l: seq<Entry>) {
    forall i, j :: 0 <= i < j < |l| ==> l[i].info.id != l[j].info.id
  }

  ghost predicate HasId(l: seq<Entry>, id: PeerId) {
    exists i :: 0 <= i < |l| && l[i].info.id == id
  }

  // What an announce does: refresh the peer's entry in place, or append a new one.
  function Updated(l: seq<Entry>, e: Entry): seq<Entry> {
    if l == [] then [e]
    else if l[0].info.id == e.info.id then [e] + l[1..]
    else [l[0]] + Updated(l[1..], e)
  }

  // Exactly the announced peer changes, every other position keeps its entry, and ids stay distinct.
  lemma {:induction false} UpdatedMeans(l: seq<Entry>, e: Entry)
    requires DistinctIds(l)
    ensures var u := Updated(l, e);
            && DistinctIds(u) && |u| == (if HasId(l, e.info.id) then |l| else |l| + 1)
            && (forall i :: 0 <= i < |l| ==> u[i] == if l[i].info.id == e.info.id then e else l[i])
            && (|u| > |l| ==> u[|l|] == e)
  {
    if l != [] {
      UpdatedMeans(l[1..], e);
      if l[0].info.id != e.info.id {
        assert HasId(l, e.info.id) ==> HasId(l[1..], e.info.id) by {
          if HasId(l, e.info.id) {
            var i :| 0 <= i < |l| && l[i].info.id == e.info.id;
            assert l[1..][i - 1] == l[i];
          }
        }
        assert HasId(l[1..], e.info.id) ==> HasId(l, e.info.id) by {
          if HasId(l[1..], e.info.id) {
            var i :| 0 <= i < |l[1..]| && l[1..][i].info.id == e.info.id;
            assert l[i + 1] == l[1..][i];
          }
        }
      }
    }
  }

  lemma RefreshMeans(l: seq<Entry>, e: Entry, k: nat)
    requires DistinctIds(l) && k < |l| && l[k].info.id == e.info.id
    ensures Updated(l, e) == l[k := e]
  {
    UpdatedMeans(l, e);
    assert HasId(l, e.info.id);
  }

  lemma AppendMeans(l: seq<Entry>, e: Entry)
    requires DistinctIds(l) && !HasId(l, e.info.id)
    ensures Updated(l, e) == l + [e]
  {
    UpdatedMeans(l, e);
  }

  // The indexes whose entry has expired: the read-locked half of a cleanup pass.
  ghost predicate ExpiredAt(l: seq<Entry>, now: int, idx: seq<nat>) {
    Ascending(idx, |l|) && forall i :: 0 <= i < |l| ==> (i in idx <==> now > l[i].expiresAt)
  }

  function SwapDelete<T>(l: seq<T>, i: nat): seq<T>
    requires i < |l|
  {
    l[i := l[|l| - 1]][..|l| - 1]
  }

  lemma SwapDeleteMeans<T>(l: seq<T>, i: nat)
    requires i < |l| && forall a, b :: 0 <= a < b < |l| ==> l[a] != l[b]
    ensures var r := SwapDelete(l, i);
            && (forall a, b :: 0 <= a < b < |r| ==> r[a] != r[b])
            && forall x :: x in r <==> x in l && x != l[i]
  {
    var r := SwapDelete(l, i);
    assert forall k :: 0 <= k < |r| ==> r[k] == l[if k == i then |l| - 1 else k];
    forall x | x in l && x != l[i] ensures x in r {
      var k :| 0 <= k < |l| && l[k] == x;
      assert r[if k == |l| - 1 then i else k] == x;
    }
  }

  // The write-locked half: indexes from the back, each checked again before it is removed.
  function Sweep(l: seq<Entry>, idx: seq<nat>, now: int): seq<Entry>
    decreases |idx|
  {
    if idx == [] then l
    else
      var i := idx[|idx| - 1];
      Sweep(if i >= |l| || now < l[i].expiresAt then l else SwapDelete(l, i), idx[..|idx| - 1], now)
  }

  lemma SweepUnfolds(l: seq<Entry>, idx: seq<nat>, now: int)
    requires idx != []
    ensures var i := idx[|idx| - 1];
            Sweep(l, idx, now) ==
            Sweep(if i >= |l| || now < l[i].expiresAt then l else SwapDelete(l, i), idx[..|idx| - 1], now)
  {
  }

  // The entries a pass means to remove, read off the list as it was when the write lock was taken.
  function Doomed(l: seq<Entry>, idx: seq<nat>, now: int): multiset<Entry> {
    if idx == [] then multiset{}
    else
      var i := idx[|idx| - 1];
      Doomed(l, idx[..|idx| - 1], now) + if i >= |l| || now < l[i].expiresAt then multiset{} else multiset{l[i]}
  }

  lemma SwapDeleteRemovesOne<T>(l: seq<T>, i: nat)
    requires i < |l|
    ensures multiset(SwapDelete(l, i)) + multiset{l[i]} == multiset(l)
    ensures forall k :: 0 <= k < i ==> SwapDelete(l, i)[k] == l[k]
  {
    var r, last := SwapDelete(l, i), l[|l| - 1];
    assert l[i := last] == r + [last];
    assert multiset(r + [last]) == multiset(r) + multiset{last};
    forall x ensures (multiset(r) + multiset{l[i]})[x] == multiset(l)[x] {
      assert multiset(l[i := last])[x] + multiset{l[i]}[x] == multiset(l)[x] + multiset{last}[x];
    }
  }

  lemma {:induction false} DoomedDependsOnPrefix(l: seq<Entry>, l': seq<Entry>, idx: seq<nat>, now: int, n: nat)
    requires Ascending(idx, n) && n <= |l| && n <= |l'| && forall k :: 0 <= k < n ==> l[k] == l'[k]
    ensures Doomed(l, idx, now) == Doomed(l', idx, now)
  {
    if idx != [] { DoomedDependsOnPrefix(l, l', idx[..|idx| - 1], now, n); }
  }

  // A sweep removes exactly the listed entries that are expired at its own time: the swaps never
  // disturb an index that is still to be visited.
  lemma {:induction false} SweepRemovesTheDoomed(l: seq<Entry>, idx: seq<nat>, now: int)
    requires Ascending(idx, |l|)
    ensures multiset(Sweep(l, idx, now)) + Doomed(l, idx, now) == multiset(l)
    decreases |idx|
  {
    if idx != [] {
      var i, rest := idx[|idx| - 1], idx[..|idx| - 1];
      if now < l[i].expiresAt {
        SweepRemovesTheDoomed(l, rest, now);
      } else {
        SwapDeleteRemovesOne(l, i);
        var l1 := SwapDelete(l, i);
        assert Ascending(rest, i);
        SweepRemovesTheDoomed(l1, rest, now);
        DoomedDependsOnPrefix(l, l1, rest, now, i);
        assert multiset(Sweep(l1, rest, now)) + Doomed(l, rest, now) + multiset{l[i]} == multiset(l);
      }
    }
  }

  lemma {:induction false} DoomedCount(l: seq<Entry>, idx: seq<nat>, now: int, k: nat)
    requires DistinctIds(l) && Ascending(idx, |l|) && k < |l|
    ensures Doomed(l, idx, now)[l[k]] == if k in idx && now >= l[k].expiresAt then 1 else 0
  {
    if idx != [] {
      var i, rest := idx[|idx| - 1], idx[..|idx| - 1];
      DoomedCount(l, rest, now, k);
      assert idx == rest + [i];
      assert i != k ==> l[i] != l[k];
    }
  }

  lemma {:induction false} DistinctCount(l: seq<Entry>, k: nat)
    requires DistinctIds(l) && k < |l|
    ensures multiset(l)[l[k]] == 1
  {
    var front, last := l[..|l| - 1], l[|l| - 1];
    assert l == front + [last];
    if k < |front| {
      DistinctCount(front, k);
    } else {
      assert forall j :: 0 <= j < |front| ==> front[j] != last;
      assert last !in front;
    }
  }

  // The entry at position k survives the sweep unless it was listed and is expired now; nothing
  // appears from nowhere and ids stay distinct.
  lemma SweepExact(l: seq<Entry>, idx: seq<nat>, now: int)
    requires DistinctIds(l) && Ascending(idx, |l|)
    ensures forall k :: 0 <= k < |l| ==> (l[k] in Sweep(l, idx, now) <==> !(k in idx && now >= l[k].expiresAt))
    ensures forall e :: e in Sweep(l, idx, now) ==> e in l
    ensures DistinctIds(Sweep(l, idx, now))
  {
    SweepRemovesTheDoomed(l, idx, now);
    var s := Sweep(l, idx, now);
    forall k | 0 <= k < |l| ensures l[k] in s <==> !(k in idx && now >= l[k].expiresAt) {
      DoomedCount(l, idx, now, k);
      DistinctCount(l, k);
      assert (multiset(s) + Doomed(l, idx, now))[l[k]] == 1;
      assert l[k] in s <==> multiset(s)[l[k]] > 0;
    }
    forall e | e in s ensures e in l {
      assert multiset(s)[e] > 0;
      assert e in multiset(l);
    }
    forall i, j | 0 <= i < j < |s| ensures s[i].info.id != s[j].info.id {
      assert s[i] in s && s[j] in s;
      var a :| 0 <= a < |l| && l[a] == s[i];
      var b :| 0 <= b < |l| && l[b] == s[j];
      if a == b {
        DistinctCount(l, a);
        TwiceInBag(s, i, j);
        assert false;
      }
    }
  }

  lemma {:induction false} TwiceInBag<T>(s: seq<T>, i: nat, j: nat)
    requires i < j < |s| && s[i] == s[j]
    ensures multiset(s)[s[i]] >= 2
  {
    assert s == s[..j] + [s[j]] + s[j + 1..];
    assert s[i] in s[..j];
    assert multiset(s[..j])[s[i]] >= 1;
  }

  // ---- The group as an object ------------------------------------------------------------

  class PeerEntry {
    var info: PeerInfo
    var expiresAt: int

    constructor (info: PeerInfo, expiresAt: int)
      ensures this.info == info && this.expiresAt == expiresAt
    {
      this.info, this.expiresAt := info, expiresAt;
    }

    ghost function Value(): Entry
      reads this
    {
      Entry(info, expiresAt)
    }
  }

  ghost function Values(es: seq<PeerEntry>): (l: seq<Entry>)
    reads es
    ensures |l| == |es| && forall i :: 0 <= i < |l| ==> l[i] == es[i].Value()
  {
    seq(|es|, i requires 0 <= i < |es| reads es => es[i].Value())
  }

  // Every method is one region under the group's own lock.
  class Group {
    var peerList: seq<PeerEntry>
    var peerMap: map<PeerId, PeerEntry>
    var lastExpiresAt: int
    var deleted: bool

    // The list and the map hold the same entry objects, each under its own id.
    ghost predicate Valid()
      reads this`peerList, this`peerMap, peerList
    {
      && (forall e :: e in peerList ==> e.info.id in peerMap && peerMap[e.info.id] == e)
      && (forall id :: id in peerMap ==> peerMap[id] in peerList && peerMap[id].info.id == id)
      && (forall i, j :: 0 <= i < j < |peerList| ==> peerList[i] != peerList[j])
    }

    ghost function List(): (l: seq<Entry>)
      reads this`peerList, peerList
      ensures |l| == |peerList|
    {
      Values(peerList)
    }

    lemma ValidMeansDistinct()
      requires Valid()
      ensures DistinctIds(List())
    {
    }

    lemma UnmappedMeansAbsent(id: PeerId)
      requires Valid() && id !in peerMap
      ensures !HasId(List(), id)
    {
    }

    constructor (now: int, ttl: int)
      ensures Valid() && List() == [] && lastExpiresAt == now + ttl && !deleted && fresh(peerList)
    {
      peerList, peerMap, lastExpiresAt, deleted := [], map[], now + ttl, false;
    }

    method Update(p: PeerInfo, now: int, ttl: int)
      requires Valid()
      modifies this`peerList, this`peerMap, this`lastExpiresAt, peerList
      ensures Valid() && List() == Updated(old(List()), Entry(p, now + ttl))
      ensures lastExpiresAt == now + ttl
    {
      ghost var before, e := List(), Entry(p, now + ttl);
      ValidMeansDistinct();
      if p.id in peerMap {
        ghost var k := Refresh(p, now + ttl);
        assert List() == before[k := e];
        RefreshMeans(before, e, k);
      } else {
        UnmappedMeansAbsent(p.id);
        AppendMeans(before, e);
        Append(p, now + ttl);
        assert List() == before + [e];
      }
    }

    method Refresh(p: PeerInfo, expiresAt: int) returns (ghost k: nat)
      requires Valid() && p.id in peerMap
      modifies this`lastExpiresAt, peerMap[p.id]
      ensures k < |old(List())| && old(List())[k].info.id == p.id
      ensures Valid() && List() == old(List())[k := Entry(p, expiresAt)]
      ensures lastExpiresAt == expiresAt
    {
      var e := peerMap[p.id];
      k :| 0 <= k < |peerList| && peerList[k] == e;
      e.info := p;
      e.expiresAt := expiresAt;
      lastExpiresAt := e.expiresAt;
    }

    method Append(p: PeerInfo, expiresAt: int)
      requires Valid() && p.id !in peerMap
      modifies this`peerList, this`peerMap, this`lastExpiresAt
      ensures Valid() && List() == old(List()) + [Entry(p, expiresAt)]
      ensures lastExpiresAt == expiresAt
    {
      var e := new PeerEntry(p, expiresAt);
      ghost var l := peerList;
      assert e !in l;
      peerList := peerList + [e];
      assert forall x :: x in peerList <==> x in l || x == e;
      peerMap := peerMap[p.id := e];
      lastExpiresAt := e.expiresAt;
    }

    // Read lock: which entries have expired?
    method Expired(now: int) returns (idx: seq<nat>)
      ensures ExpiredAt(List(), now, idx)
    {
      idx := [];
      for i := 0 to |peerList|
        invariant Ascending(idx, i)
        invariant forall k :: 0 <= k < i ==> (k in idx <==> now > List()[k].expiresAt)
      {
        if now > peerList[i].expiresAt { idx := idx + [i]; }
      }
    }

    // Write lock: remove the listed entries that are still expired.
    method RemoveExpired(idx: seq<nat>, now: int)
      requires Valid() && Ascending(idx, |peerList|)
      modifies this`peerList, this`peerMap
      ensures Valid() && List() == Sweep(old(List()), idx, now)
    {
      ghost var target := Sweep(List(), idx, now);
      var j := |idx|;
      assert idx[..j] == idx;
      while j > 0
        invariant 0 <= j <= |idx| && Valid()
        invariant Sweep(List(), idx[..j], now) == target
      {
        j := j - 1;
        var i := idx[j];
        SweepUnfolds(List(), idx[..j + 1], now);
        assert idx[..j + 1][..j] == idx[..j];
        if i >= |peerList| { continue; }
        if now < peerList[i].expiresAt { continue; }
        RemoveAt(i);
      }
      assert idx[..0] == [];
    }

    method RemoveAt(i: nat)
      requires Valid() && i < |peerList|
      modifies this`peerList, this`peerMap
      ensures Valid() && List() == SwapDelete(old(List()), i)
    {
      var e := peerList[i];
      peerList := SwapDelete(peerList, i);
      peerMap := peerMap - {e.info.id};
      SwapDeleteMeans(old(peerList), i);
    }

    // GetPeers: `order` is a random permutation of the positions; the first n are handed out.
    method Sample(n: int, order: seq<nat>) returns (peers: seq<PeerInfo>)
      requires |order| == |peerList| && forall i :: 0 <= i < |order| ==> order[i] < |peerList|
      requires forall i, j :: 0 <= i < j < |order| ==> order[i] != order[j]
      ensures |peers| == if n <= 0 then 0 else if n < |peerList| then n else |peerList|
      ensures forall i :: 0 <= i < |peers| ==> peers[i] == List()[order[i]].info
      ensures Valid() ==> forall i, j :: 0 <= i < j < |peers| ==> peers[i].id != peers[j].id
    {
      peers := [];
      var m := if |peerList| < n then |peerList| else n;
      if m <= 0 { return; }
      for i := 0 to m
        invariant |peers| == i && forall k :: 0 <= k < i ==> peers[k] == List()[order[k]].info
      {
        peers := peers + [peerList[order[i]].info];
      }
      if Valid() {
        forall i, j | 0 <= i < j < |peers| ensures peers[i].id != peers[j].id {
          assert peerList[order[i]] != peerList[order[j]];
        }
      }
    }
  }
}
