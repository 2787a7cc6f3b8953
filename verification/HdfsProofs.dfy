/**
  The concurrent listing agrees with the sequential walk: it ends, never gets stuck on the way,
  and returns the same names up to order, or an error exactly when the walk would meet one.
*/
module HdfsProofs {
  import opened Sums
  import opened HdfsList

  // ---- Non-negative parts ----------------------------------------------------------------

  lemma {:induction false} BreaksAreNatural(r: Rules, ds: seq<Node>)
    ensures Sum(BreakCount(r), ds) >= 0
  {
    if ds != [] { BreaksAreNatural(r, ds[1..]); }
  }

  lemma {:induction false} CountsAreNatural(r: Rules, ds: seq<Node>)
    ensures Sum(CountOf(r), ds) >= 0
  {
    if ds != [] { CountsAreNatural(r, ds[1..]); }
  }

  lemma {:induction false} SenderSumsAreNatural(r: Rules, ss: seq<seq<Node>>)
    ensures Sum(SenderBreaks(r), ss) >= 0 && Sum(SenderWork(r), ss) >= 0 && Sum(Length, ss) >= 0
  {
    if ss != [] {
      BreaksAreNatural(r, ss[0]);
      CountsAreNatural(r, ss[0]);
      SenderSumsAreNatural(r, ss[1..]);
    }
  }

  lemma {:induction false} ListerSumsAreNatural(r: Rules, ls: seq<Lister>)
    ensures Sum(ListerBreaks(r), ls) >= 0 && Sum(ListerWork(r), ls) >= 0 && Sum(Active, ls) >= 0
  {
    if ls != [] { ListerSumsAreNatural(r, ls[1..]); }
  }

  // ---- The pending counter ---------------------------------------------------------------

  lemma StepKeepsPending(r: Rules, s: State, a: Action, s': State)
    requires PendingIsExact(s) && Next(r, s, a, s')
    ensures PendingIsExact(s')
  {
    SumUpdate(Active, s.listers, a.l, s'.listers[a.l]);
    match a
    case Hand(i, _) => SumUpdate(Length, s.senders, i, s.senders[i][1..]);
    case Listed(_) =>
    case Receive(l) =>
      if s.listers[l].dir.status.Found? { SumPush(Length, s.senders, s'.senders[|s.senders|]); }
  }

  // ---- The names -------------------------------------------------------------------------

  lemma HandKeepsTally(r: Rules, s: State, i: nat, l: nat, s': State, name: string)
    requires Next(r, s, Hand(i, l), s')
    ensures Tally(r, s', name) == Tally(r, s, name)
  {
    var d, rest := s.senders[i][0], s.senders[i][1..];
    CountUpdate(ListerNames(r), s.listers, l, Busy(d), name);
    CountUpdate(SenderNames(r), s.senders, i, rest, name);
    assert SenderNames(r)(s.senders[i])[name] == DirNames(r, d)[name] + SenderNames(r)(rest)[name];
  }

  lemma FilesCount(files: seq<string>, names: seq<string>, name: string)
    ensures multiset(files + names)[name] == multiset(files)[name] + multiset(names)[name]
  {
  }

  // What a listing adds to the files and to the senders is what its directory owed.
  lemma ListingCounts(r: Rules, files: seq<string>, senders: seq<seq<Node>>, d: Node, name: string)
    requires d.Dir? && d.status.Found?
    ensures var dirs, names := DirsIn(r, d.status.entries), NamesIn(r, d.status.entries);
            multiset(files + names)[name] + Bag(SenderNames(r), senders + [dirs])[name] ==
            multiset(files)[name] + Bag(SenderNames(r), senders)[name] + DirNames(r, d)[name]
  {
    var dirs, names := DirsIn(r, d.status.entries), NamesIn(r, d.status.entries);
    FilesCount(files, names, name);
    CountPush(SenderNames(r), senders, dirs, name);
    assert SenderNames(r)(dirs) == Bag(WalkBag(r), dirs);
    ListingSplitsWalk(r, d, name);
  }

  lemma MissingCounts(r: Rules, d: Node, name: string)
    requires d.Dir? && !d.status.Found?
    ensures DirNames(r, d)[name] == 0
  {
  }

  lemma FreedListerCounts(r: Rules, listers: seq<Lister>, l: nat, name: string)
    requires l < |listers| && !listers[l].Free?
    ensures Bag(ListerNames(r), listers[l := Free])[name] + DirNames(r, listers[l].dir)[name] ==
      Bag(ListerNames(r), listers)[name]
  {
    CountUpdate(ListerNames(r), listers, l, Free, name);
    assert ListerNames(r)(listers[l]) == DirNames(r, listers[l].dir);
  }

  lemma ReceiveKeepsTally(r: Rules, s: State, l: nat, s': State, name: string)
    requires Next(r, s, Receive(l), s') && !s'.result.Failed?
    ensures Tally(r, s', name) == Tally(r, s, name)
  {
    var d := s.listers[l].dir;
    FreedListerCounts(r, s.listers, l, name);
    if d.status.Found? { ListingCounts(r, s.files, s.senders, d, name); } else { MissingCounts(r, d, name); }
  }

  lemma StepKeepsTally(r: Rules, s: State, a: Action, s': State, name: string)
    requires Next(r, s, a, s') && !s'.result.Failed?
    ensures Tally(r, s', name) == Tally(r, s, name)
  {
    match a
    case Hand(i, l) => HandKeepsTally(r, s, i, l, s', name);
    case Listed(l) => CountUpdate(ListerNames(r), s.listers, l, s'.listers[l], name);
    case Receive(l) => ReceiveKeepsTally(r, s, l, s', name);
  }

  // A directory's walk is its own names and the walks of the directories it yields.
  lemma ListingSplitsWalk(r: Rules, d: Node, name: string)
    requires d.Dir? && d.status.Found?
    ensures DirNames(r, d)[name] == multiset(NamesIn(r, d.status.entries))[name] +
      Bag(WalkBag(r), DirsIn(r, d.status.entries))[name]
  {
    WalkBelowIsOverDirs(r, d.status.entries);
  }

  // ---- The errors ------------------------------------------------------------------------

  lemma ReceiveKeepsBroken(r: Rules, s: State, l: nat, s': State)
    requires Next(r, s, Receive(l), s') && !s'.result.Failed?
    ensures BrokenLeft(r, s') > 0 <==> BrokenLeft(r, s) > 0
  {
    var d := s.listers[l].dir;
    SumUpdate(ListerBreaks(r), s.listers, l, Free);
    SenderSumsAreNatural(r, s.senders);
    ListerSumsAreNatural(r, s'.listers);
    if d.status.Found? {
      SumPush(SenderBreaks(r), s.senders, DirsIn(r, d.status.entries));
      BreaksBelowIsOverDirs(r, d.status.entries);
    }
  }

  lemma StepKeepsBroken(r: Rules, s: State, a: Action, s': State)
    requires Next(r, s, a, s') && !s'.result.Failed?
    ensures BrokenLeft(r, s') > 0 <==> BrokenLeft(r, s) > 0
  {
    match a
    case Hand(i, l) =>
      SumUpdate(ListerBreaks(r), s.listers, l, s'.listers[l]);
      SumUpdate(SenderBreaks(r), s.senders, i, s.senders[i][1..]);
    case Listed(l) => SumUpdate(ListerBreaks(r), s.listers, l, s'.listers[l]);
    case Receive(l) => ReceiveKeepsBroken(r, s, l, s');
  }

  lemma BrokenListerMeansBroken(r: Rules, s: State, l: nat)
    requires l < |s.listers| && !s.listers[l].Free? && Breaks(r, s.listers[l].dir)
    ensures BrokenLeft(r, s) > 0
  {
    SumUpdate(ListerBreaks(r), s.listers, l, Free);
    SenderSumsAreNatural(r, s.senders);
    ListerSumsAreNatural(r, s.listers[l := Free]);
  }

  // ---- Invariant -------------------------------------------------------------------------

  ghost predicate Inv(r: Rules, root: Node, s: State) {
    && AllDirs(s) && PendingIsExact(s)
    && (s.result.Running? <==> !s.result.Failed? && s.pending > 0)
    && (if s.result.Failed? then Breaks(r, root)
        else (forall n :: Tally(r, s, n) == multiset(Walk(r, root))[n]) && (BrokenLeft(r, s) > 0 <==> Breaks(r, root)))
  }

  lemma StepKeepsDirs(r: Rules, s: State, a: Action, s': State)
    requires AllDirs(s) && Next(r, s, a, s')
    ensures AllDirs(s')
  {
    match a
    case Hand(i, l) =>
      forall j, d | 0 <= j < |s'.senders| && d in s'.senders[j] ensures d.Dir? {
        assert d in s.senders[j];
      }
    case Listed(_) =>
    case Receive(l) =>
      if s.listers[l].dir.status.Found? { DirsInAreDirs(r, s.listers[l].dir.status.entries); }
  }

  // A listing that succeeds runs on exactly while directories are pending.
  lemma StepKeepsRunning(r: Rules, s: State, a: Action, s': State)
    requires Next(r, s, a, s') && (s.result.Running? <==> !s.result.Failed? && s.pending > 0)
    requires PendingIsExact(s')
    ensures s'.result.Running? <==> !s'.result.Failed? && s'.pending > 0
  {
    SenderSumsAreNatural(r, s'.senders);
    ListerSumsAreNatural(r, s'.listers);
  }

  lemma FailureMeansBroken(r: Rules, root: Node, s: State, a: Action, s': State)
    requires Inv(r, root, s) && Next(r, s, a, s') && s'.result.Failed?
    ensures Breaks(r, root)
  {
    BrokenListerMeansBroken(r, s, a.l);
  }

  lemma StepKeepsCounts(r: Rules, root: Node, s: State, a: Action, s': State)
    requires Inv(r, root, s) && Next(r, s, a, s') && !s'.result.Failed?
    ensures (forall n :: Tally(r, s', n) == multiset(Walk(r, root))[n]) && (BrokenLeft(r, s') > 0 <==> Breaks(r, root))
  {
    StepKeepsBroken(r, s, a, s');
    forall n ensures Tally(r, s', n) == multiset(Walk(r, root))[n] { StepKeepsTally(r, s, a, s', n); }
  }

  lemma StepKeepsInv(r: Rules, root: Node, s: State, a: Action, s': State)
    requires Inv(r, root, s) && Next(r, s, a, s')
    ensures Inv(r, root, s')
  {
    StepKeepsDirs(r, s, a, s');
    StepKeepsPending(r, s, a, s');
    StepKeepsRunning(r, s, a, s');
    if s'.result.Failed? { FailureMeansBroken(r, root, s, a, s'); } else { StepKeepsCounts(r, root, s, a, s'); }
  }

  lemma InitHasInv(r: Rules, root: Node, s: State)
    requires root.Dir? && Init(root, s)
    ensures Inv(r, root, s) && Work(r, s) == 3 * Count(r, root)
  {
    NoListerActive(r, s.listers);
    var one: seq<Node> := [root];
    var all: seq<seq<Node>> := [one];
    assert one[1..] == [] && all[1..] == [];
    assert Sum(Length, all) == 1;
    assert Sum(CountOf(r), one) == Count(r, root);
    assert Sum(BreakCount(r), one) == DirBreaks(r, root);
    assert Sum(SenderBreaks(r), all) == SenderBreaks(r)(one);
    assert Sum(SenderWork(r), all) == SenderWork(r)(one);
    forall n ensures Tally(r, s, n) == multiset(Walk(r, root))[n] {
      assert Bag(WalkBag(r), one) == multiset(Walk(r, root));
      assert Bag(SenderNames(r), all) == SenderNames(r)(one);
    }
  }

  lemma {:induction false} NoListerActive(r: Rules, ls: seq<Lister>)
    requires forall l :: 0 <= l < |ls| ==> ls[l].Free?
    ensures Sum(Active, ls) == 0 && Sum(ListerBreaks(r), ls) == 0 && Sum(ListerWork(r), ls) == 0
    ensures Bag(ListerNames(r), ls) == multiset{}
  {
    if ls != [] { NoListerActive(r, ls[1..]); }
  }

  lemma {:induction false} InvInEveryRun(r: Rules, root: Node, run: Run, n: nat)
    requires ValidRun(r, root, run) && n < |run.states|
    ensures Inv(r, root, run.states[n])
  {
    if n == 0 {
      InitHasInv(r, root, run.states[0]);
    } else {
      InvInEveryRun(r, root, run, n - 1);
      StepKeepsInv(r, root, run.states[n - 1], run.actions[n - 1], run.states[n]);
    }
  }

  // ---- The result ------------------------------------------------------------------------

  // With nothing pending there is nothing outstanding.
  lemma {:induction false} NothingUnsent(r: Rules, ss: seq<seq<Node>>)
    requires Sum(Length, ss) == 0
    ensures Bag(SenderNames(r), ss) == multiset{} && Sum(SenderBreaks(r), ss) == 0
  {
    if ss != [] {
      SenderSumsAreNatural(r, ss[1..]);
      assert ss[0] == [];
      NothingUnsent(r, ss[1..]);
    }
  }

  lemma {:induction false} NothingListed(r: Rules, ls: seq<Lister>)
    requires Sum(Active, ls) == 0
    ensures Bag(ListerNames(r), ls) == multiset{} && Sum(ListerBreaks(r), ls) == 0
  {
    if ls != [] {
      ListerSumsAreNatural(r, ls[1..]);
      NothingListed(r, ls[1..]);
    }
  }

  // List returns the names of the sequential walk, each as often, and an error only if the walk
  // would meet one; it does not succeed if the walk would not.
  lemma ListAgreesWithWalk(r: Rules, root: Node, run: Run, n: nat)
    requires ValidRun(r, root, run) && n < |run.states|
    ensures run.states[n].result.Done? ==> multiset(run.states[n].files) == multiset(Walk(r, root)) && !Breaks(r, root)
    ensures run.states[n].result.Failed? ==> Breaks(r, root)
  {
    InvInEveryRun(r, root, run, n);
    var s := run.states[n];
    if s.result.Done? {
      SenderSumsAreNatural(r, s.senders);
      ListerSumsAreNatural(r, s.listers);
      NothingUnsent(r, s.senders);
      NothingListed(r, s.listers);
      forall x ensures multiset(s.files)[x] == multiset(Walk(r, root))[x] {
        assert Tally(r, s, x) == multiset(Walk(r, root))[x];
      }
    }
  }

  // The comment in the source, made exact: pending is what is unsent, being listed or undelivered.
  lemma PendingCountsOutstanding(r: Rules, root: Node, run: Run, n: nat)
    requires ValidRun(r, root, run) && n < |run.states|
    ensures PendingIsExact(run.states[n])
  {
    InvInEveryRun(r, root, run, n);
  }

  // ---- It ends ---------------------------------------------------------------------------

  lemma StepShrinksWork(r: Rules, s: State, a: Action, s': State)
    requires Next(r, s, a, s')
    ensures Work(r, s') < Work(r, s)
  {
    SumUpdate(ListerWork(r), s.listers, a.l, s'.listers[a.l]);
    match a
    case Hand(i, l) => SumUpdate(SenderWork(r), s.senders, i, s.senders[i][1..]);
    case Listed(_) =>
    case Receive(l) =>
      var d := s.listers[l].dir;
      if d.status.Found? {
        SumPush(SenderWork(r), s.senders, DirsIn(r, d.status.entries));
        CountBelowIsOverDirs(r, d.status.entries);
      }
  }

  lemma RunStepShrinksWork(r: Rules, root: Node, run: Run, n: nat)
    requires ValidRun(r, root, run) && n < |run.actions|
    ensures Work(r, run.states[n + 1]) < Work(r, run.states[n])
  {
    StepShrinksWork(r, run.states[n], run.actions[n], run.states[n + 1]);
  }

  lemma {:induction false} WorkBoundsSteps(r: Rules, root: Node, run: Run, n: nat)
    requires ValidRun(r, root, run) && n < |run.states|
    ensures n + Work(r, run.states[n]) <= 3 * Count(r, root)
  {
    if n == 0 {
      InitHasInv(r, root, run.states[0]);
    } else {
      WorkBoundsSteps(r, root, run, n - 1);
      RunStepShrinksWork(r, root, run, n - 1);
    }
  }

  // No run takes more than three steps for each directory the walk visits.
  lemma ListingTerminates(r: Rules, root: Node, run: Run)
    requires ValidRun(r, root, run)
    ensures |run.actions| <= 3 * Count(r, root)
  {
    var n := |run.actions|;
    WorkBoundsSteps(r, root, run, n);
    SenderSumsAreNatural(r, run.states[n].senders);
    ListerSumsAreNatural(r, run.states[n].listers);
  }

  // As long as List has not returned, some goroutine can go on.
  lemma NeverStuck(r: Rules, root: Node, run: Run, n: nat)
    requires ValidRun(r, root, run) && n < |run.states|
    requires run.states[n].result.Running? && |run.states[n].listers| > 0
    ensures exists a, s' :: Next(r, run.states[n], a, s')
  {
    InvInEveryRun(r, root, run, n);
    var s := run.states[n];
    if l :| 0 <= l < |s.listers| && s.listers[l].Ready? {
      assert Next(r, s, Receive(l), Received(r, s.(listers := s.listers[l := Free]), s.listers[l].dir));
    } else if l :| 0 <= l < |s.listers| && s.listers[l].Busy? {
      assert Next(r, s, Listed(l), s.(listers := s.listers[l := Ready(s.listers[l].dir)]));
    } else {
      NoListerActive(r, s.listers);
      var i := SumWitness(Length, s.senders);
      assert Next(r, s, Hand(i, 0), s.(senders := s.senders[i := s.senders[i][1..]],
        listers := s.listers[0 := Busy(s.senders[i][0])]));
    }
  }
}
