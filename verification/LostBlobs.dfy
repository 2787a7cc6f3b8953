/**
  Runs from an empty origin to the two states in which a single step breaks the promise of
  write-back, and on to a lost blob.
*/
module LostBlobs {
  import opened TaskTable
  import opened WriteBack
  import opened Durability
  import opened UnsafeSteps

  lemma Calmly(c: Config, r: Run, a: Action, s: State) returns (r2: Run)
    requires ValidRun(c, r) && CalmFrom(r, 0) && Next(c, Last(r), a, s) && Calm(Last(r), a)
    ensures r2 == Extend(r, a, s) && ValidRun(c, r2) && CalmFrom(r2, 0) && Last(r2) == s
  {
    r2 := Extend(r, a, s);
    ExtendIsValid(c, r, a, s);
    ExtendIsCalm(r, 0, a, s);
  }

  const FRESH_MANAGER: Manager := Manager(map[], map[], [], [], [Worker(Incoming, Idle)], [], Resting)

  const DEMO_START: State := State(Down, false, 0, FRESH_MANAGER, Files({}, {}, {}), {}, {})

  // The manager of the runs below once the first task is stored.
  function DemoManager(c: Config, k: Key, incoming: seq<Key>, work: Work): Manager {
    Manager(map[k := NewRow(Pending, 0, 0, c.zeroTime)], map[k := 0], incoming, [], [Worker(Incoming, work)],
      [Returned], Resting)
  }

  function DemoState(m: Manager, name: string, backend: set<Key>, accepted: set<Key>): State {
    State(Up, false, 0, m, Files({name}, {name}, {name}), backend, accepted)
  }

  lemma DemoUp(c: Config) returns (r: Run)
    ensures ValidRun(c, r) && CalmFrom(r, 0) && Last(r) == DEMO_START.(mode := Up)
  {
    r := Run([DEMO_START], []);
    var s1 := DEMO_START.(mode := Recovering([]));
    assert ProcessStep(DEMO_START, Restart([]), s1);
    r := Calmly(c, r, Restart([]), s1);
    assert ProcessStep(s1, Start, s1.(mode := Up));
    r := Calmly(c, r, Start, s1.(mode := Up));
  }

  lemma DemoUpload(c: Config, k: Key) returns (r: Run)
    ensures ValidRun(c, r) && CalmFrom(r, 0)
    ensures Last(r) == DemoState(FRESH_MANAGER.(calls := [Persisted(k, 0, 0)]), k.name, {}, {})
  {
    r := DemoUp(c);
    var s2 := DEMO_START.(mode := Up);
    var s3 := s2.(f := Files({k.name}, {k.name}, {}));
    assert FileStep(s2.f, Commit(k.name), s3.f);
    r := Calmly(c, r, Commit(k.name), s3);
    var s4 := DemoState(FRESH_MANAGER.(calls := [Persisted(k, 0, 0)]), k.name, {}, {});
    assert CallStep(c, s3, StartWriteBack(k, 0), s4);
    r := Calmly(c, r, StartWriteBack(k, 0), s4);
  }

  lemma DemoAccept(c: Config, k: Key) returns (r: Run)
    requires c.incomingCap > 0
    ensures ValidRun(c, r) && CalmFrom(r, 0)
    ensures Last(r) == DemoState(DemoManager(c, k, [k], Idle), k.name, {}, {k})
  {
    r := DemoUpload(c, k);
    var s4 := Last(r);
    var s5 := s4.(m := s4.m.(calls := [Checked(k, 0, 0, true)]));
    assert CallStep(c, s4, CheckReady(0), s5);
    r := Calmly(c, r, CheckReady(0), s5);
    var s6 := s5.(m := DemoManager(c, k, [], Idle).(calls := [Sending(k)]));
    assert CallStep(c, s5, Insert(0), s6);
    r := Calmly(c, r, Insert(0), s6);
    var s7 := DemoState(DemoManager(c, k, [k], Idle), k.name, {}, {k});
    assert CallStep(c, s6, Send(0), s7);
    r := Calmly(c, r, Send(0), s7);
  }

  // The window is really entered: a calm run uploads a blob, has it accepted, and stops there.
  lemma WindowIsReachable(c: Config, k: Key) returns (r: Run)
    requires c.incomingCap > 0
    ensures ValidRun(c, r) && CalmFrom(r, 0)
    ensures Last(r) == DemoState(DemoManager(c, k, [], Window(k)), k.name, {}, {k}) && InWindow(Last(r), k.name)
  {
    r := DemoAccept(c, k);
    var s7 := Last(r);
    var s8 := s7.(m := DemoManager(c, k, [], Taken(k)));
    assert WorkerStep(s7, Take(0), s8);
    r := Calmly(c, r, Take(0), s8);
    var s9 := s8.(m := DemoManager(c, k, [], Missed(k)));
    assert WorkerStep(s8, Stat(0, false), s9);
    r := Calmly(c, r, Stat(0, false), s9);
    var s10 := s9.(m := DemoManager(c, k, [], Window(k)));
    assert s9.f == s9.f.(cached := s9.f.cached + {k.name});
    assert WorkerStep(s9, LookUp(0), s10);
    r := Calmly(c, r, LookUp(0), s10);
    assert s10.m.workers[0].work.Window?;
  }

  lemma DemoUploaded(c: Config, k: Key) returns (r: Run)
    requires c.incomingCap > 0
    ensures ValidRun(c, r) && CalmFrom(r, 0)
    ensures Last(r) == DemoState(DemoManager(c, k, [], Uploaded(k)), k.name, {k}, {k})
  {
    r := WindowIsReachable(c, k);
    var s10 := Last(r);
    var s11 := s10.(m := DemoManager(c, k, [], Opened(k)));
    assert WorkerStep(s10, Load(0), s11);
    r := Calmly(c, r, Load(0), s11);
    var s12 := DemoState(DemoManager(c, k, [], Uploaded(k)), k.name, {k}, {k});
    assert WorkerStep(s11, Upload(0), s12);
    r := Calmly(c, r, Upload(0), s12);
  }

  // The same name is written back under a second namespace while the first is being uploaded.
  lemma SharedNameIsReachable(c: Config, k: Key, other: Key) returns (r: Run)
    requires c.incomingCap > 0 && k.name == other.name && k != other
    ensures ValidRun(c, r) && CalmFrom(r, 0) && Last(r).mode.Up? && |Last(r).m.workers| == 1
    ensures Last(r).m.workers[0].work == Uploaded(k) && k.name in Last(r).f.disk && k.name in Last(r).f.persist
    ensures other in Last(r).m.table && other !in Last(r).backend && !OthersStored(Last(r), 0)
  {
    r := DemoUploaded(c, k);
    var s := Last(r);
    var s1 := s.(m := s.m.(calls := [Returned, Persisted(other, 0, 0)]));
    assert s.f.persist + {other.name} == s.f.persist;
    assert s.m.calls + [Persisted(other, 0, 0)] == s1.m.calls;
    assert CallStep(c, s, StartWriteBack(other, 0), s1);
    r := Calmly(c, r, StartWriteBack(other, 0), s1);
    var s2 := s1.(m := s1.m.(calls := [Returned, Checked(other, 0, 0, true)]));
    assert s2.m == SetCall(s1.m, 1, Checked(other, 0, 0, true));
    assert CallStep(c, s1, CheckReady(1), s2);
    r := Calmly(c, r, CheckReady(1), s2);
    StoredIsAStep(c, s2, 1);
    r := Calmly(c, r, Insert(1), Stored(c, s2, 1));
  }

  // Clearing persist for the first namespace uncovers the row of the second, and the next removal
  // takes its only copy.
  lemma SharedNameLosesBlob(c: Config, k: Key, other: Key) returns (r: Run)
    requires c.incomingCap > 0 && k.name == other.name && k != other
    ensures ValidRun(c, r) && other in Last(r).m.table && other !in Last(r).backend && other.name !in Last(r).f.disk
  {
    r := SharedNameIsReachable(c, k, other);
    var s1 := Cleared(Last(r), 0, true);
    ClearedIsAStep(c, Last(r), 0, true);
    ExtendIsValid(c, r, ClearPersist(0, true), s1);
    r := Extend(r, ClearPersist(0, true), s1);
    var s2 := Removed(s1, other.name);
    RemovedIsAStep(c, s1, other.name);
    ExtendIsValid(c, r, RemoveFile(other.name), s2);
    r := Extend(r, RemoveFile(other.name), s2);
  }
}
