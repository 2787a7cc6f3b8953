/**
  The concurrent directory listing of the HDFS backend: a main loop that receives listings and
  counts pending directories, one sending goroutine per batch of subdirectories, and a fixed
  number of lister goroutines, joined by unbuffered channels.
*/
module HdfsList {
  import opened Options
  import opened Seqs
  import opened Sums

  // A directory tree that does not change while it is listed. `status` is what ListFileStatus
  // answers for a directory.
  datatype Node = File(path: string) | Dir(path: string, status: Status)
  datatype Status = Found(entries: seq<Node>) | NotFound | Broken

  // The ignore and stop patterns and the path-to-name conversion, as functions of the path.
  datatype Rules = Rules(ignore: string -> bool, stop: string -> bool, name: string -> Option<string>)

  // ---- What one listing contributes ------------------------------------------------------

  function LinkName(r: Rules, p: string): seq<string> {
    match r.name(p)
    case Some(n) => [n]
    case None => []
  }

  predicate Descends(r: Rules, e: Node) {
    e.Dir? && !r.ignore(e.path) && !r.stop(e.path)
  }

  // The names an entry adds by itself: none if ignored or a directory, the tag link if the walk
  // stops here, its own name otherwise. Paths without a name are skipped.
  function OwnNames(r: Rules, e: Node): seq<string> {
    if r.ignore(e.path) then []
    else if r.stop(e.path) then LinkName(r, e.path + "/tags/dummy/current/link")
    else if e.Dir? then []
    else LinkName(r, e.path)
  }

  function NamesIn(r: Rules, es: seq<Node>): seq<string> {
    if es == [] then [] else NamesIn(r, es[..|es| - 1]) + OwnNames(r, es[|es| - 1])
  }

  function DirsIn(r: Rules, es: seq<Node>): seq<Node> {
    if es == [] then []
    else DirsIn(r, es[..|es| - 1]) + if Descends(r, es[|es| - 1]) then [es[|es| - 1]] else []
  }

  // The name under which an entry is listed: a stopped one, file or directory, by its tag link, any
  // other file by its own path, an ignored one not at all.
  ghost predicate IsNamed(r: Rules, e: Node, n: string) {
    && !r.ignore(e.path)
    && if r.stop(e.path) then r.name(e.path + "/tags/dummy/current/link") == Some(n)
       else e.File? && r.name(e.path) == Some(n)
  }

  // `dirs` are the entries with the numbers `ix`: the directories that are not ignored or stopped.
  ghost predicate CollectsDirs(r: Rules, es: seq<Node>, dirs: seq<Node>, ix: seq<nat>) {
    && Ascending(ix, |es|) && |ix| == |dirs|
    && (forall j :: 0 <= j < |ix| ==> dirs[j] == es[ix[j]])
    && (forall i :: 0 <= i < |es| ==> (i in ix <==> es[i].Dir? && !r.ignore(es[i].path) && !r.stop(es[i].path)))
  }

  // `names` are the names of the entries with the numbers `ix`: the entries that have one.
  ghost predicate CollectsNames(r: Rules, es: seq<Node>, names: seq<string>, ix: seq<nat>) {
    && Ascending(ix, |es|) && |ix| == |names|
    && (forall j :: 0 <= j < |ix| ==> IsNamed(r, es[ix[j]], names[j]))
    && (forall i, n :: 0 <= i < |es| && IsNamed(r, es[i], n) ==> i in ix)
  }

  lemma {:induction false} DirsByIndex(r: Rules, es: seq<Node>) returns (ix: seq<nat>)
    ensures CollectsDirs(r, es, DirsIn(r, es), ix)
  {
    ix := [];
    if es != [] {
      var k := |es| - 1;
      ix := DirsByIndex(r, es[..k]);
      forall i | 0 <= i < k
        ensures i in ix <==> es[i].Dir? && !r.ignore(es[i].path) && !r.stop(es[i].path)
      {
        assert es[..k][i] == es[i];
      }
      if Descends(r, es[k]) { ix := ix + [k]; }
    }
  }

  lemma {:induction false} NamesByIndex(r: Rules, es: seq<Node>) returns (ix: seq<nat>)
    ensures CollectsNames(r, es, NamesIn(r, es), ix)
  {
    ix := [];
    if es != [] {
      var k := |es| - 1;
      ix := NamesByIndex(r, es[..k]);
      forall i, n | 0 <= i < k && IsNamed(r, es[i], n) ensures i in ix {
        assert es[..k][i] == es[i];
      }
      if OwnNames(r, es[k]) != [] {
        assert IsNamed(r, es[k], OwnNames(r, es[k])[0]);
        ix := ix + [k];
      }
    }
  }

  // The body of the receive loop, one listing at a time: the directories to list next and the
  // names found, both in the order of the listing.
  method ScanListing(r: Rules, es: seq<Node>) returns (dirs: seq<Node>, names: seq<string>)
    ensures dirs == DirsIn(r, es) && names == NamesIn(r, es)
    ensures exists ix :: CollectsDirs(r, es, dirs, ix)
    ensures exists ix :: CollectsNames(r, es, names, ix)
  {
    dirs, names := [], [];
    for i := 0 to |es|
      invariant dirs == DirsIn(r, es[..i]) && names == NamesIn(r, es[..i])
    {
      assert es[..i + 1][..i] == es[..i];
      var p, isDir := es[i].path, es[i].Dir?;
      if r.ignore(p) { continue; }
      if r.stop(p) { p, isDir := p + "/tags/dummy/current/link", false; }
      if isDir {
        dirs := dirs + [es[i]];
      } else {
        names := names + LinkName(r, p);
      }
    }
    assert es[..|es|] == es;
    var _ := DirsByIndex(r, es);
    var _ := NamesByIndex(r, es);
  }

  // ---- The sequential walk ---------------------------------------------------------------

  // All names below a directory, in the order a recursive walk meets them.
  function Walk(r: Rules, d: Node): seq<string>
    decreases d, 1
  {
    if d.Dir? && d.status.Found? then NamesIn(r, d.status.entries) + WalkBelow(r, d.status.entries) else []
  }

  function WalkBelow(r: Rules, es: seq<Node>): seq<string>
    decreases es, 0
  {
    if es == [] then []
    else WalkBelow(r, es[..|es| - 1]) + if Descends(r, es[|es| - 1]) then Walk(r, es[|es| - 1]) else []
  }

  // Whether the walk meets a directory that cannot be listed for another reason than absence.
  predicate Breaks(r: Rules, d: Node)
    decreases d, 1
  {
    d.Dir? && (d.status.Broken? || (d.status.Found? && BreaksBelow(r, d.status.entries)))
  }

  predicate BreaksBelow(r: Rules, es: seq<Node>)
    decreases es, 0
  {
    es != [] && (BreaksBelow(r, es[..|es| - 1]) || (Descends(r, es[|es| - 1]) && Breaks(r, es[|es| - 1])))
  }

  // Directories the walk visits.
  function Count(r: Rules, d: Node): nat
    decreases d, 1
  {
    1 + if d.Dir? && d.status.Found? then CountBelow(r, d.status.entries) else 0
  }

  function CountBelow(r: Rules, es: seq<Node>): nat
    decreases es, 0
  {
    if es == [] then 0
    else CountBelow(r, es[..|es| - 1]) + if Descends(r, es[|es| - 1]) then Count(r, es[|es| - 1]) else 0
  }

  function DirNames(r: Rules, d: Node): multiset<string> { multiset(Walk(r, d)) }
  function DirBreaks(r: Rules, d: Node): int { if Breaks(r, d) then 1 else 0 }
  function WalkBag(r: Rules): Node -> multiset<string> { (d: Node) => DirNames(r, d) }
  function BreakCount(r: Rules): Node -> int { (d: Node) => DirBreaks(r, d) }
  function CountOf(r: Rules): Node -> int { (d: Node) => Count(r, d) }

  // The walk below a listing is the walk over the directories the listing yields.
  lemma {:induction false} WalkBelowIsOverDirs(r: Rules, es: seq<Node>)
    ensures multiset(WalkBelow(r, es)) == Bag(WalkBag(r), DirsIn(r, es))
  {
    if es != [] {
      var front, last := es[..|es| - 1], es[|es| - 1];
      WalkBelowIsOverDirs(r, front);
      if Descends(r, last) {
        BagPush(WalkBag(r), DirsIn(r, front), last);
        assert multiset(WalkBelow(r, es)) == multiset(WalkBelow(r, front)) + multiset(Walk(r, last));
      } else {
        assert WalkBelow(r, es) == WalkBelow(r, front) && DirsIn(r, es) == DirsIn(r, front);
      }
    }
  }

  lemma {:induction false} CountBelowIsOverDirs(r: Rules, es: seq<Node>)
    ensures CountBelow(r, es) == Sum(CountOf(r), DirsIn(r, es))
  {
    if es != [] {
      var front, last := es[..|es| - 1], es[|es| - 1];
      CountBelowIsOverDirs(r, front);
      if Descends(r, last) {
        SumPush(CountOf(r), DirsIn(r, front), last);
      } else {
        assert DirsIn(r, es) == DirsIn(r, front);
      }
    }
  }

  lemma {:induction false} BreaksBelowIsOverDirs(r: Rules, es: seq<Node>)
    ensures 0 <= Sum(BreakCount(r), DirsIn(r, es))
    ensures BreaksBelow(r, es) <==> 0 < Sum(BreakCount(r), DirsIn(r, es))
  {
    if es != [] {
      var front, last := es[..|es| - 1], es[|es| - 1];
      BreaksBelowIsOverDirs(r, front);
      if Descends(r, last) {
        SumPush(BreakCount(r), DirsIn(r, front), last);
      } else {
        assert DirsIn(r, es) == DirsIn(r, front);
      }
    }
  }

  lemma {:induction false} DirsInAreDirs(r: Rules, es: seq<Node>)
    ensures forall d :: d in DirsIn(r, es) ==> d.Dir?
  {
    if es != [] { DirsInAreDirs(r, es[..|es| - 1]); }
  }

  // ---- The concurrent listing ------------------------------------------------------------

  datatype Lister = Free | Busy(dir: Node) | Ready(dir: Node)

  datatype Result = Running | Done | Failed

  // `senders` are the sendAll goroutines with the directories they still have to send; the first
  // is the main goroutine sending the root.
  datatype State = State(
    pending: int,
    files: seq<string>,
    senders: seq<seq<Node>>,
    listers: seq<Lister>,
    result: Result)

  datatype Action = Hand(i: nat, l: nat) | Listed(l: nat) | Receive(l: nat)

  // Receiving a listing, with the bookkeeping of the main loop.
  function Received(r: Rules, s: State, d: Node): State
    requires d.Dir?
  {
    var left := s.pending - 1;
    match d.status
    case NotFound => s.(pending := left, result := if left > 0 then Running else Done)
    case Broken => s.(pending := left, result := Failed)
    case Found(es) =>
      var dirs := DirsIn(r, es);
      s.(pending := left + |dirs|, files := s.files + NamesIn(r, es), senders := s.senders + [dirs],
         result := if left + |dirs| > 0 then Running else Done)
  }

  // Channels are unbuffered: a send and its receive are one step.
  ghost predicate Next(r: Rules, s: State, a: Action, s': State) {
    s.result.Running? && a.l < |s.listers| &&
    match a
    case Hand(i, l) =>
      i < |s.senders| && s.senders[i] != [] && s.listers[l].Free? &&
      s' == s.(senders := s.senders[i := s.senders[i][1..]], listers := s.listers[l := Busy(s.senders[i][0])])
    case Listed(l) =>
      s.listers[l].Busy? && s' == s.(listers := s.listers[l := Ready(s.listers[l].dir)])
    case Receive(l) =>
      s.listers[l].Ready? && s.listers[l].dir.Dir? &&
      s' == Received(r, s.(listers := s.listers[l := Free]), s.listers[l].dir)
  }

  ghost predicate Init(root: Node, s: State) {
    s == State(1, [], [[root]], s.listers, Running) && forall l :: 0 <= l < |s.listers| ==> s.listers[l].Free?
  }

  datatype Run = Run(states: seq<State>, actions: seq<Action>)

  ghost predicate ValidRun(r: Rules, root: Node, run: Run) {
    && root.Dir? && |run.states| == |run.actions| + 1
    && Init(root, run.states[0])
    && forall i :: 0 <= i < |run.actions| ==> Next(r, run.states[i], run.actions[i], run.states[i + 1])
  }

  // ---- What is outstanding ---------------------------------------------------------------

  function Length(ds: seq<Node>): int { |ds| }
  function Active(l: Lister): int { if l.Free? then 0 else 1 }
  function SenderNames(r: Rules): seq<Node> -> multiset<string> { (ds: seq<Node>) => Bag(WalkBag(r), ds) }
  function ListerNames(r: Rules): Lister -> multiset<string> {
    (l: Lister) => if l.Free? then multiset{} else DirNames(r, l.dir)
  }
  function SenderBreaks(r: Rules): seq<Node> -> int { (ds: seq<Node>) => Sum(BreakCount(r), ds) }
  function ListerBreaks(r: Rules): Lister -> int { (l: Lister) => if l.Free? then 0 else DirBreaks(r, l.dir) }
  function SenderWork(r: Rules): seq<Node> -> int { (ds: seq<Node>) => 3 * Sum(CountOf(r), ds) }
  function ListerWork(r: Rules): Lister -> int {
    (l: Lister) => match l
                   case Free => 0
                   case Busy(d) => 3 * Count(r, d) - 1
                   case Ready(d) => 3 * Count(r, d) - 2
  }

  // pending: directories not yet sent, being listed, or listed and not yet received.
  ghost predicate PendingIsExact(s: State) {
    s.pending == Sum(Length, s.senders) + Sum(Active, s.listers)
  }

  // How often a name has been found or will be found below an outstanding directory.
  ghost function Tally(r: Rules, s: State, name: string): int {
    multiset(s.files)[name] + Bag(SenderNames(r), s.senders)[name] + Bag(ListerNames(r), s.listers)[name]
  }

  ghost function BrokenLeft(r: Rules, s: State): int {
    Sum(SenderBreaks(r), s.senders) + Sum(ListerBreaks(r), s.listers)
  }

  ghost function Work(r: Rules, s: State): int {
    Sum(SenderWork(r), s.senders) + Sum(ListerWork(r), s.listers)
  }

  ghost predicate AllDirs(s: State) {
    && (forall i, d :: 0 <= i < |s.senders| && d in s.senders[i] ==> d.Dir?)
    && (forall l :: 0 <= l < |s.listers| && !s.listers[l].Free? ==> s.listers[l].dir.Dir?)
  }
}
