/**
  What the sequential walk of module HdfsList lists, said by paths instead of by recursion: a name
  appears once for every place in the tree that bears it and can be reached through directories
  that exist and are neither ignored nor stopped at.
*/
module HdfsPaths {
  import opened Options
  import opened Seqs
  import opened HdfsList
  import HP = HdfsProofs

  // The directory reached from d by going, in turn, to the entries with these numbers.
  function DirAt(r: Rules, d: Node, path: seq<nat>): Option<Node>
    decreases |path|
  {
    if !d.Dir? then None
    else if path == [] then Some(d)
    else if !d.status.Found? || path[0] >= |d.status.entries| then None
    else
      var e := d.status.entries[path[0]];
      if r.ignore(e.path) || r.stop(e.path) then None else DirAt(r, e, path[1..])
  }

  predicate Enters(r: Rules, e: Node) {
    e.Dir? && !r.ignore(e.path) && !r.stop(e.path)
  }

  lemma FirstStep(r: Rules, d: Node, path: seq<nat>)
    requires path != [] && d.Dir? && d.status.Found?
    ensures var es, k := d.status.entries, path[0];
            DirAt(r, d, path) == if k < |es| && Enters(r, es[k]) then DirAt(r, es[k], path[1..]) else None
  {
    var es, k := d.status.entries, path[0];
    if k < |es| && !es[k].Dir? { assert DirAt(r, es[k], path[1..]) == None; }
  }

  // Entry number i of the directory at the end of a path.
  datatype Place = Place(path: seq<nat>, i: nat)

  ghost predicate Bears(r: Rules, d: Node, at: Place, n: string) {
    var x := DirAt(r, d, at.path);
    x.Some? && x.value.Dir? && x.value.status.Found? && at.i < |x.value.status.entries| &&
      IsNamed(r, x.value.status.entries[at.i], n)
  }

  // ---- What the walk finds, and where ----------------------------------------------------

  datatype Hit = Hit(at: Place, name: string)

  function Names(hs: seq<Hit>): seq<string> {
    seq(|hs|, i requires 0 <= i < |hs| => hs[i].name)
  }

  // The same hits, one directory further down.
  function Down(k: nat, hs: seq<Hit>): seq<Hit> {
    seq(|hs|, i requires 0 <= i < |hs| => Hit(Place([k] + hs[i].at.path, hs[i].at.i), hs[i].name))
  }

  function OwnHits(r: Rules, e: Node, k: nat): seq<Hit> {
    if OwnNames(r, e) == [] then [] else [Hit(Place([], k), OwnNames(r, e)[0])]
  }

  function HitsIn(r: Rules, es: seq<Node>): seq<Hit> {
    if es == [] then [] else HitsIn(r, es[..|es| - 1]) + OwnHits(r, es[|es| - 1], |es| - 1)
  }

  function Hits(r: Rules, d: Node): seq<Hit>
    decreases d, 1
  {
    if d.Dir? && d.status.Found? then HitsIn(r, d.status.entries) + HitsBelow(r, d.status.entries) else []
  }

  function HitsBelow(r: Rules, es: seq<Node>): seq<Hit>
    decreases es, 0
  {
    if es == [] then []
    else HitsBelow(r, es[..|es| - 1]) +
         if Enters(r, es[|es| - 1]) then Down(|es| - 1, Hits(r, es[|es| - 1])) else []
  }

  // Their names are what the walk lists.

  lemma NamesJoin(hs: seq<Hit>, gs: seq<Hit>)
    ensures Names(hs + gs) == Names(hs) + Names(gs)
  {
  }

  lemma {:induction false} HitsInHaveTheNames(r: Rules, es: seq<Node>)
    ensures Names(HitsIn(r, es)) == NamesIn(r, es)
  {
    if es != [] {
      var k := |es| - 1;
      HitsInHaveTheNames(r, es[..k]);
      NamesJoin(HitsIn(r, es[..k]), OwnHits(r, es[k], k));
      assert Names(OwnHits(r, es[k], k)) == OwnNames(r, es[k]);
    }
  }

  lemma {:induction false} HitsHaveTheNames(r: Rules, d: Node)
    ensures Names(Hits(r, d)) == Walk(r, d)
    decreases d, 1
  {
    if d.Dir? && d.status.Found? {
      HitsInHaveTheNames(r, d.status.entries);
      HitsBelowHaveTheNames(r, d.status.entries);
      NamesJoin(HitsIn(r, d.status.entries), HitsBelow(r, d.status.entries));
    }
  }

  lemma {:induction false} HitsBelowHaveTheNames(r: Rules, es: seq<Node>)
    ensures Names(HitsBelow(r, es)) == WalkBelow(r, es)
    decreases es, 0
  {
    if es != [] {
      var k := |es| - 1;
      HitsBelowHaveTheNames(r, es[..k]);
      if Enters(r, es[k]) {
        HitsHaveTheNames(r, es[k]);
        NamesJoin(HitsBelow(r, es[..k]), Down(k, Hits(r, es[k])));
        assert Names(Down(k, Hits(r, es[k]))) == Names(Hits(r, es[k]));
      } else {
        assert HitsBelow(r, es) == HitsBelow(r, es[..k]);
      }
    }
  }

  // And they are all that bears a name, each once.

  lemma DistinctJoin<T>(s: seq<T>, t: seq<T>)
    requires Distinct(s) && Distinct(t) && forall x :: x in s ==> x !in t
    ensures Distinct(s + t)
  {
    forall i, j | 0 <= i < j < |s + t| ensures (s + t)[i] != (s + t)[j] {
      if i < |s| <= j { assert s[i] in s && t[j - |s|] in t; }
    }
  }

  ghost predicate HitHere(r: Rules, es: seq<Node>, h: Hit) {
    h.at.path == [] && h.at.i < |es| && IsNamed(r, es[h.at.i], h.name)
  }

  lemma {:induction false} HitsInMean(r: Rules, es: seq<Node>)
    ensures Distinct(HitsIn(r, es)) && forall h :: h in HitsIn(r, es) <==> HitHere(r, es, h)
  {
    if es != [] {
      var k := |es| - 1;
      HitsInMean(r, es[..k]);
      DistinctJoin(HitsIn(r, es[..k]), OwnHits(r, es[k], k));
      forall h ensures h in HitsIn(r, es) <==> HitHere(r, es, h) {
        assert h in HitsIn(r, es[..k]) <==> HitHere(r, es[..k], h);
        if h.at.i < k { assert es[..k][h.at.i] == es[h.at.i]; }
      }
    }
  }

  // The hit, seen from the directory its path enters first.
  function Up(h: Hit): Hit
    requires h.at.path != []
  {
    Hit(Place(h.at.path[1..], h.at.i), h.name)
  }

  lemma DownMeans(k: nat, hs: seq<Hit>)
    requires Distinct(hs)
    ensures Distinct(Down(k, hs))
    ensures forall h :: h in Down(k, hs) <==> h.at.path != [] && h.at.path[0] == k && Up(h) in hs
  {
    var ds := Down(k, hs);
    assert forall i :: 0 <= i < |ds| ==> ds[i].at.path[0] == k && ds[i].at.path[1..] == hs[i].at.path;
    assert forall i :: 0 <= i < |ds| ==> Up(ds[i]) == hs[i];
    forall h: Hit | h.at.path != [] && h.at.path[0] == k && Up(h) in hs ensures h in ds {
      var i :| 0 <= i < |hs| && hs[i] == Up(h);
      assert h.at.path == [k] + h.at.path[1..] && ds[i] == h;
    }
  }

  ghost predicate HitBelow(r: Rules, es: seq<Node>, h: Hit) {
    h.at.path != [] && h.at.path[0] < |es| && Enters(r, es[h.at.path[0]]) &&
    Bears(r, es[h.at.path[0]], Up(h).at, h.name)
  }

  lemma {:induction false} HitsBelowMean(r: Rules, es: seq<Node>)
    ensures Distinct(HitsBelow(r, es)) && forall h :: h in HitsBelow(r, es) <==> HitBelow(r, es, h)
    decreases es, 0
  {
    if es != [] {
      var k := |es| - 1;
      var front, last := HitsBelow(r, es[..k]), Down(k, Hits(r, es[k]));
      HitsBelowMean(r, es[..k]);
      HitsMean(r, es[k]);
      DownMeans(k, Hits(r, es[k]));
      DistinctJoin(front, last);
      assert HitsBelow(r, es) == if Enters(r, es[k]) then front + last else front;
      forall h ensures h in HitsBelow(r, es) <==> HitBelow(r, es, h) {
        assert h in front <==> HitBelow(r, es[..k], h);
        if h.at.path != [] && h.at.path[0] < k { assert es[..k][h.at.path[0]] == es[h.at.path[0]]; }
        if h.at.path != [] { assert Up(h) in Hits(r, es[k]) <==> Bears(r, es[k], Up(h).at, Up(h).name); }
      }
    }
  }

  lemma {:induction false} HitsMean(r: Rules, d: Node)
    ensures Distinct(Hits(r, d)) && forall h :: h in Hits(r, d) <==> Bears(r, d, h.at, h.name)
    decreases d, 1
  {
    if d.Dir? && d.status.Found? {
      var es := d.status.entries;
      HitsInMean(r, es);
      HitsBelowMean(r, es);
      DistinctJoin(HitsIn(r, es), HitsBelow(r, es));
      forall h ensures h in Hits(r, d) <==> Bears(r, d, h.at, h.name) {
        assert h in HitsIn(r, es) <==> HitHere(r, es, h);
        assert h in HitsBelow(r, es) <==> HitBelow(r, es, h);
        if h.at.path != [] { FirstStep(r, d, h.at.path); }
      }
    }
  }

  lemma CountPush(s: seq<string>, x: string, n: string)
    ensures multiset(s + [x])[n] == multiset(s)[n] + if x == n then 1 else 0
  {
  }

  lemma InFrontOrLast(hs: seq<Hit>, h: Hit)
    requires hs != []
    ensures h in hs <==> h in hs[..|hs| - 1] || h == hs[|hs| - 1]
  {
    assert hs == hs[..|hs| - 1] + [hs[|hs| - 1]];
  }

  lemma OnePlaceMore(hs: seq<Hit>, n: string, ps: set<Place>)
    requires hs != [] && hs[|hs| - 1].name == n && hs[|hs| - 1] !in hs[..|hs| - 1]
    requires forall at :: at in ps <==> Hit(at, n) in hs[..|hs| - 1]
    ensures hs[|hs| - 1].at !in ps
    ensures forall at :: at in ps + {hs[|hs| - 1].at} <==> Hit(at, n) in hs
  {
    forall at ensures at in ps + {hs[|hs| - 1].at} <==> Hit(at, n) in hs {
      InFrontOrLast(hs, Hit(at, n));
    }
  }

  // As many positions hold a name as there are places it was found at.
  lemma {:induction false} PlacesOf(hs: seq<Hit>, n: string) returns (places: set<Place>)
    requires Distinct(hs)
    ensures |places| == multiset(Names(hs))[n]
    ensures forall at :: at in places <==> Hit(at, n) in hs
  {
    if hs == [] {
      places := {};
    } else {
      var front, last := hs[..|hs| - 1], hs[|hs| - 1];
      places := PlacesOf(front, n);
      assert Names(hs) == Names(front) + [last.name];
      CountPush(Names(front), last.name, n);
      if last.name == n {
        OnePlaceMore(hs, n, places);
        places := places + {last.at};
      } else {
        forall at ensures at in places <==> Hit(at, n) in hs { InFrontOrLast(hs, Hit(at, n)); }
      }
    }
  }

  // The walk lists a name exactly as often as there are places that bear it.
  lemma WalkListsPlaces(r: Rules, d: Node, n: string) returns (places: set<Place>)
    ensures forall at :: at in places <==> Bears(r, d, at, n)
    ensures multiset(Walk(r, d))[n] == |places|
  {
    HitsHaveTheNames(r, d);
    HitsMean(r, d);
    places := PlacesOf(Hits(r, d), n);
    forall at ensures at in places <==> Bears(r, d, at, n) {
      assert Hit(at, n) in Hits(r, d) <==> Bears(r, d, at, n);
    }
  }

  // ---- The directories the walk visits ---------------------------------------------------

  // The walk meets an error exactly if it gets to a directory that cannot be listed.
  lemma {:induction false} BreaksIff(r: Rules, d: Node)
    ensures Breaks(r, d) <==> exists path :: IsBroken(r, d, path)
    decreases d, 1
  {
    if d.Dir? && d.status.Broken? {
      assert IsBroken(r, d, []);
    } else if d.Dir? && d.status.Found? {
      BreaksBelowIff(r, d.status.entries);
      if Breaks(r, d) {
        var k, path :| 0 <= k < |d.status.entries| && Enters(r, d.status.entries[k]) &&
          IsBroken(r, d.status.entries[k], path);
        assert ([k] + path)[1..] == path;
        FirstStep(r, d, [k] + path);
        assert IsBroken(r, d, [k] + path);
      }
      if path :| IsBroken(r, d, path) {
        FirstStep(r, d, path);
        assert Enters(r, d.status.entries[path[0]]) && IsBroken(r, d.status.entries[path[0]], path[1..]);
      }
    }
  }

  ghost predicate IsBroken(r: Rules, d: Node, path: seq<nat>) {
    var x := DirAt(r, d, path);
    x.Some? && x.value.Dir? && x.value.status.Broken?
  }

  lemma {:induction false} BreaksBelowIff(r: Rules, es: seq<Node>)
    ensures BreaksBelow(r, es) <==>
      exists k, path :: 0 <= k < |es| && Enters(r, es[k]) && IsBroken(r, es[k], path)
    decreases es, 0
  {
    if es != [] {
      var last := |es| - 1;
      BreaksBelowIff(r, es[..last]);
      BreaksIff(r, es[last]);
      if BreaksBelow(r, es[..last]) {
        var k, path :| 0 <= k < last && Enters(r, es[..last][k]) && IsBroken(r, es[..last][k], path);
        assert es[k] == es[..last][k];
      }
      if k, path :| 0 <= k < |es| && Enters(r, es[k]) && IsBroken(r, es[k], path) {
        if k < last { assert es[..last][k] == es[k]; }
      }
    }
  }

  function Prefixed(k: nat, ps: seq<seq<nat>>): seq<seq<nat>> {
    seq(|ps|, i requires 0 <= i < |ps| => [k] + ps[i])
  }

  // The paths of the directories the walk visits.
  function Visits(r: Rules, d: Node): seq<seq<nat>>
    decreases d, 1
  {
    [[]] + if d.Dir? && d.status.Found? then VisitsBelow(r, d.status.entries) else []
  }

  function VisitsBelow(r: Rules, es: seq<Node>): seq<seq<nat>>
    decreases es, 0
  {
    if es == [] then []
    else VisitsBelow(r, es[..|es| - 1]) +
         if Enters(r, es[|es| - 1]) then Prefixed(|es| - 1, Visits(r, es[|es| - 1])) else []
  }

  lemma {:induction false} VisitsAreCounted(r: Rules, d: Node)
    ensures |Visits(r, d)| == Count(r, d)
    decreases d, 1
  {
    if d.Dir? && d.status.Found? { VisitsBelowAreCounted(r, d.status.entries); }
  }

  lemma {:induction false} VisitsBelowAreCounted(r: Rules, es: seq<Node>)
    ensures |VisitsBelow(r, es)| == CountBelow(r, es)
    decreases es, 0
  {
    if es != [] {
      VisitsBelowAreCounted(r, es[..|es| - 1]);
      VisitsAreCounted(r, es[|es| - 1]);
    }
  }

  lemma PrefixedMeans(k: nat, ps: seq<seq<nat>>)
    requires Distinct(ps)
    ensures Distinct(Prefixed(k, ps))
    ensures forall p :: p in Prefixed(k, ps) <==> p != [] && p[0] == k && p[1..] in ps
  {
    var qs := Prefixed(k, ps);
    assert forall i :: 0 <= i < |qs| ==> qs[i][0] == k && qs[i][1..] == ps[i];
    forall p: seq<nat> | p != [] && p[0] == k && p[1..] in ps ensures p in qs {
      var i :| 0 <= i < |ps| && ps[i] == p[1..];
      assert p == [k] + p[1..] && qs[i] == p;
    }
  }

  ghost predicate VisitBelow(r: Rules, es: seq<Node>, p: seq<nat>) {
    p != [] && p[0] < |es| && Enters(r, es[p[0]]) && DirAt(r, es[p[0]], p[1..]).Some?
  }

  lemma {:induction false} VisitsBelowMean(r: Rules, es: seq<Node>)
    ensures Distinct(VisitsBelow(r, es)) && forall p :: p in VisitsBelow(r, es) <==> VisitBelow(r, es, p)
    decreases es, 0
  {
    if es != [] {
      var k := |es| - 1;
      VisitsBelowMean(r, es[..k]);
      var front := VisitsBelow(r, es[..k]);
      if Enters(r, es[k]) {
        VisitsMean(r, es[k]);
        PrefixedMeans(k, Visits(r, es[k]));
        DistinctJoin(front, Prefixed(k, Visits(r, es[k])));
      } else {
        assert VisitsBelow(r, es) == front;
      }
      forall p ensures p in VisitsBelow(r, es) <==> VisitBelow(r, es, p) {
        assert p in front <==> VisitBelow(r, es[..k], p);
        if p != [] && p[0] < k { assert es[..k][p[0]] == es[p[0]]; }
        if p != [] && Enters(r, es[k]) { assert p[1..] in Visits(r, es[k]) <==> DirAt(r, es[k], p[1..]).Some?; }
      }
    }
  }

  lemma {:induction false} VisitsMean(r: Rules, d: Node)
    requires d.Dir?
    ensures Distinct(Visits(r, d)) && forall p :: p in Visits(r, d) <==> DirAt(r, d, p).Some?
    decreases d, 1
  {
    if d.status.Found? {
      VisitsBelowMean(r, d.status.entries);
      DistinctJoin([[]], VisitsBelow(r, d.status.entries));
      forall p ensures p in Visits(r, d) <==> DirAt(r, d, p).Some? {
        assert p in VisitsBelow(r, d.status.entries) <==> VisitBelow(r, d.status.entries, p);
        if p != [] { FirstStep(r, d, p); }
      }
    }
  }

  lemma {:induction false} ElementsOf<T>(s: seq<T>) returns (all: set<T>)
    requires Distinct(s)
    ensures |all| == |s| && forall x :: x in all <==> x in s
  {
    all := {};
    if s != [] {
      var front := ElementsOf(s[..|s| - 1]);
      assert s[|s| - 1] !in s[..|s| - 1];
      all := front + {s[|s| - 1]};
    }
  }

  // ---- The concurrent listing ------------------------------------------------------------

  // A listing that succeeds returns every name as often as there are places that bear it, and no
  // directory it could reach is broken; one that fails met a broken directory.
  lemma ListReturnsThePlaces(r: Rules, root: Node, run: Run, n: nat, name: string) returns (places: set<Place>)
    requires ValidRun(r, root, run) && n < |run.states|
    ensures forall at :: at in places <==> Bears(r, root, at, name)
    ensures run.states[n].result.Done? ==>
      multiset(run.states[n].files)[name] == |places| && forall path :: !IsBroken(r, root, path)
    ensures run.states[n].result.Failed? ==> exists path :: IsBroken(r, root, path)
  {
    places := WalkListsPlaces(r, root, name);
    BreaksIff(r, root);
    HP.ListAgreesWithWalk(r, root, run, n);
  }

  // No run takes more than three steps for each directory that can be reached.
  lemma ListingIsBounded(r: Rules, root: Node, run: Run) returns (dirs: set<seq<nat>>)
    requires ValidRun(r, root, run)
    ensures forall path :: path in dirs <==> DirAt(r, root, path).Some?
    ensures |run.actions| <= 3 * |dirs|
  {
    VisitsMean(r, root);
    VisitsAreCounted(r, root);
    dirs := ElementsOf(Visits(r, root));
    forall path ensures path in dirs <==> DirAt(r, root, path).Some? {
      assert path in Visits(r, root) <==> DirAt(r, root, path).Some?;
    }
    HP.ListingTerminates(r, root, run);
  }
}
