/**
  The two conditions of a calm run are exact: a removal inside the window, and a deletion of persist
  metadata that something else relies on, can each be continued by calm steps to a broken promise.
*/
module UnsafeSteps {
  import opened TaskTable
  import opened WriteBack
  import opened RetryProofs
  import opened Durability

  // ---- Longer calm runs ------------------------------------------------------------------

  lemma ExtendIsCalm(r: Run, i: nat, a: Action, s: State)
    requires CalmFrom(r, i) && Calm(Last(r), a)
    ensures CalmFrom(Extend(r, a, s), i)
  {
  }

  // `r2` goes on from `r`, with calm steps only.
  ghost predicate ContinuesCalmly(c: Config, r: Run, r2: Run) {
    && ValidRun(c, r2) && r.states <= r2.states && r.actions <= r2.actions && CalmFrom(r2, |r.actions|)
  }

  lemma OneMore(c: Config, r1: Run, r: Run, a: Action, s: State) returns (r2: Run)
    requires ContinuesCalmly(c, r1, r) && Next(c, Last(r), a, s) && Calm(Last(r), a)
    ensures ContinuesCalmly(c, r1, r2) && r2 == Extend(r, a, s) && Last(r2) == s
  {
    r2 := Extend(r, a, s);
    ExtendIsValid(c, r, a, s);
    ExtendIsCalm(r, |r1.actions|, a, s);
  }

  lemma CalmContinuationsKeepPromise(c: Config, r: Run, r2: Run)
    requires CalmFrom(r, 0) && ContinuesCalmly(c, r, r2)
    ensures KeepsPromise(r2)
  {
    forall n | 0 <= n < |r2.actions| ensures Calm(r2.states[n], r2.actions[n]) {
      assert n < |r.actions| ==> r2.states[n] == r.states[n] && r2.actions[n] == r.actions[n];
    }
    CalmRunsKeepPromise(c, r2);
  }

  lemma LostAtTheEnd(r: Run)
    requires r.states != [] && !Durable(Last(r))
    ensures !KeepsPromise(r)
  {
  }

  // ---- A removal inside the window breaks the promise ------------------------------------

  function Removed(s: State, name: string): State {
    s.(f := s.f.(cached := s.f.cached - {name}, disk := if name in s.f.persist then s.f.disk else s.f.disk - {name}))
  }

  // With its entry gone the worker takes the blob for a missing file ...
  function Fooled(s: State, w: nat): State
    requires w < |s.m.workers| && s.m.workers[w].work.Window?
  {
    s.(m := SetWork(s.m, w, Uploaded(s.m.workers[w].work.key)))
  }

  // ... clears the persist metadata, or does not find it ...
  function Cleared(s: State, w: nat, found: bool): State
    requires w < |s.m.workers| && s.m.workers[w].work.Uploaded?
  {
    var key := s.m.workers[w].work.key;
    s.(m := SetWork(s.m, w, ExecOk(key)),
       f := if found then s.f.(persist := s.f.persist - {key.name}, cached := s.f.cached + {key.name}) else s.f)
  }

  // ... and removes the row.
  function Finished(s: State, w: nat): State
    requires w < |s.m.workers| && s.m.workers[w].work.ExecOk?
  {
    s.(m := SetWork(s.m, w, Idle).(table := s.m.table - {s.m.workers[w].work.key}))
  }

  lemma RemovedIsAStep(c: Config, s: State, name: string)
    requires s.mode.Up? && name in s.f.cached
    ensures Next(c, s, RemoveFile(name), Removed(s, name))
  {
    assert FileStep(s.f, RemoveFile(name), Removed(s, name).f);
  }

  lemma FooledIsAStep(c: Config, s: State, w: nat)
    requires s.mode.Up? && w < |s.m.workers| && s.m.workers[w].work.Window? &&
      s.m.workers[w].work.key.name !in s.f.cached
    ensures Next(c, s, Load(w), Fooled(s, w))
  {
    assert WorkerStep(s, Load(w), Fooled(s, w));
  }

  lemma ClearedIsAStep(c: Config, s: State, w: nat, found: bool)
    requires s.mode.Up? && w < |s.m.workers| && s.m.workers[w].work.Uploaded?
    requires found ==> s.m.workers[w].work.key.name in s.f.disk
    ensures Next(c, s, ClearPersist(w, found), Cleared(s, w, found))
  {
    assert WorkerStep(s, ClearPersist(w, found), Cleared(s, w, found));
  }

  lemma FinishedIsAStep(c: Config, s: State, w: nat)
    requires s.mode.Up? && w < |s.m.workers| && s.m.workers[w].work.ExecOk?
    ensures Next(c, s, Finish(w), Finished(s, w))
  {
    assert WorkerStep(s, Finish(w), Finished(s, w));
  }

  // The blob of a task inside the window is protected by its persist metadata alone.
  lemma WindowIsProtected(c: Config, r: Run, w: nat)
    requires ValidRun(c, r) && CalmFrom(r, 0) && Last(r).mode.Up? && w < |Last(r).m.workers|
    requires Last(r).m.workers[w].work.Window? && Last(r).m.workers[w].work.key !in Last(r).backend
    ensures var s, key := Last(r), Last(r).m.workers[w].work.key;
            key in s.m.table && key.name in s.f.cached && key.name in s.f.disk && key.name in s.f.persist
  {
    var s := Last(r);
    CalmRunsKeepInv(c, r, |r.states| - 1);
    OneCopyInEveryRun(c, r, |r.states| - 1);
    WorkerHoldsPending(s.m, w);
    assert WorkInv(s, s.m.workers[w].work);
  }

  // What the last three steps do to a fooled worker's row: it is gone, and the backend never had
  // the blob.
  lemma FooledForgets(c: Config, r1: Run, w: nat, key: Key) returns (r2: Run)
    requires ContinuesCalmly(c, r1, r1) && Last(r1).mode.Up? && w < |Last(r1).m.workers|
    requires Last(r1).m.workers[w].work == Window(key) && key.name !in Last(r1).f.cached
    requires key in Last(r1).m.table && key !in Last(r1).backend
    ensures ContinuesCalmly(c, r1, r2) && !KeepsPromise(r2)
  {
    var s2 := Fooled(Last(r1), w);
    FooledIsAStep(c, Last(r1), w);
    r2 := OneMore(c, r1, r1, Load(w), s2);
    var s3 := Cleared(s2, w, false);
    ClearedIsAStep(c, s2, w, false);
    r2 := OneMore(c, r1, r2, ClearPersist(w, false), s3);
    var s4, n := Finished(s3, w), |r2.states| - 1;
    FinishedIsAStep(c, s3, w);
    r2 := OneMore(c, r1, r2, Finish(w), s4);
    assert r2.states[n] == s3 && r2.states[n + 1] == s4;
    assert Forgets(r2, n, key);
  }

  // If nothing else relies on the persist metadata it is deleted too, and the next removal takes
  // the only copy.
  lemma FooledUncovers(c: Config, r1: Run, w: nat, key: Key) returns (r2: Run)
    requires ContinuesCalmly(c, r1, r1) && Last(r1).mode.Up? && w < |Last(r1).m.workers|
    requires Last(r1).m.workers[w].work == Window(key) && key.name !in Last(r1).f.cached && key.name in Last(r1).f.disk
    requires key in Last(r1).m.table && key !in Last(r1).backend && OthersStored(Last(r1), w)
    ensures ContinuesCalmly(c, r1, r2) && !Durable(Last(r2))
  {
    var s1 := Last(r1);
    var s2 := Fooled(s1, w);
    FooledIsAStep(c, s1, w);
    r2 := OneMore(c, r1, r1, Load(w), s2);
    var s3 := Cleared(s2, w, true);
    ClearedIsAStep(c, s2, w, true);
    FooledOthersStored(s1, w);
    r2 := OneMore(c, r1, r2, ClearPersist(w, true), s3);
    assert key in s3.m.table && !Kept(s3, key);
  }

  lemma FooledOthersStored(s: State, w: nat)
    requires w < |s.m.workers| && s.m.workers[w].work.Window? && OthersStored(s, w)
    ensures OthersStored(Fooled(s, w), w)
  {
    var s2, key := Fooled(s, w), s.m.workers[w].work.key;
    forall i | 0 <= i < |s2.m.calls| && Active(s2, s2.m.calls[i]) ensures CallStored(s2, s2.m.calls[i].key, key) {
      assert CallStored(s, s.m.calls[i].key, key);
    }
  }

  lemma RemovedOthersStored(s: State, w: nat, name: string)
    requires w < |s.m.workers| && !s.m.workers[w].work.Idle? && OthersStored(s, w)
    ensures OthersStored(Removed(s, name), w)
  {
    var s2, key := Removed(s, name), s.m.workers[w].work.key;
    forall i | 0 <= i < |s2.m.calls| && Active(s2, s2.m.calls[i]) ensures CallStored(s2, s2.m.calls[i].key, key) {
      assert CallStored(s, s.m.calls[i].key, key);
    }
  }

  lemma RemovalLosesProtection(c: Config, r: Run, w: nat) returns (r2: Run)
    requires ValidRun(c, r) && CalmFrom(r, 0) && Last(r).mode.Up? && w < |Last(r).m.workers|
    requires Last(r).m.workers[w].work.Window? && Last(r).m.workers[w].work.key !in Last(r).backend
    ensures var name := Last(r).m.workers[w].work.key.name;
            && ContinuesCalmly(c, Extend(r, RemoveFile(name), Removed(Last(r), name)), r2)
            && !KeepsPromise(r2) && (OthersStored(Last(r), w) ==> !Durable(Last(r2)))
  {
    var s, key := Last(r), Last(r).m.workers[w].work.key;
    WindowIsProtected(c, r, w);
    var s1 := Removed(s, key.name);
    RemovedIsAStep(c, s, key.name);
    ExtendIsValid(c, r, RemoveFile(key.name), s1);
    var r1 := Extend(r, RemoveFile(key.name), s1);
    if OthersStored(s, w) {
      RemovedOthersStored(s, w, key.name);
      r2 := FooledUncovers(c, r1, w, key);
      LostAtTheEnd(r2);
    } else {
      r2 := FooledForgets(c, r1, w, key);
    }
  }

  // After a calm run, removing an entry keeps the promise in every calm continuation exactly when
  // the executor is not inside the window for it.
  lemma RemovalIsSafeIffOutsideWindow(c: Config, r: Run, name: string)
    requires ValidRun(c, r) && CalmFrom(r, 0) && Last(r).mode.Up? && name in Last(r).f.cached
    ensures (forall r2 :: ContinuesCalmly(c, Extend(r, RemoveFile(name), Removed(Last(r), name)), r2) ==>
      KeepsPromise(r2))
       <==> !InWindow(Last(r), name)
  {
    var s1 := Removed(Last(r), name);
    var r1 := Extend(r, RemoveFile(name), s1);
    if InWindow(Last(r), name) {
      var w :| 0 <= w < |Last(r).m.workers| && Last(r).m.workers[w].work.Window? &&
               Last(r).m.workers[w].work.key.name == name && Last(r).m.workers[w].work.key !in Last(r).backend;
      var r2 := RemovalLosesProtection(c, r, w);
    } else {
      ExtendIsCalm(r, 0, RemoveFile(name), s1);
      forall r2 | ContinuesCalmly(c, r1, r2) ensures KeepsPromise(r2) {
        CalmContinuationsKeepPromise(c, r1, r2);
      }
    }
  }

  // ---- So does deleting metadata that something else relies on ---------------------------

  function Stored(c: Config, s: State, i: nat): State
    requires i < |s.m.calls| && s.m.calls[i].Checked? && s.m.calls[i].key !in s.m.table
  {
    var p := s.m.calls[i];
    var row := NewRow(if p.ready then Pending else Failed, s.now, p.delay, c.zeroTime);
    var m1 := s.m.(table := s.m.table[p.key := row], born := s.m.born[p.key := p.created]);
    if p.ready then s.(m := SetCall(m1, i, Sending(p.key)))
    else s.(m := SetCall(m1, i, Returned), accepted := s.accepted + {p.key})
  }

  lemma StoredIsAStep(c: Config, s: State, i: nat)
    requires s.mode.Up? && i < |s.m.calls| && s.m.calls[i].Checked? && s.m.calls[i].key !in s.m.table
    ensures Next(c, s, Insert(i), Stored(c, s, i))
    ensures s.m.calls[i].key in Stored(c, s, i).m.table && Stored(c, s, i).f == s.f &&
      Stored(c, s, i).backend == s.backend
  {
    assert CallStep(c, s, Insert(i), Stored(c, s, i));
  }

  // A call whose file lost its protection stores its row all the same.
  lemma CallStoresUnprotected(c: Config, r1: Run, r: Run, i: nat) returns (r2: Run)
    requires ContinuesCalmly(c, r1, r) && Last(r).mode.Up? && i < |Last(r).m.calls| && Last(r).m.calls[i].Checked?
    requires var s, k := Last(r), Last(r).m.calls[i].key; k !in s.m.table && k !in s.backend && k.name !in s.f.persist
    ensures ContinuesCalmly(c, r1, r2) && !Durable(Last(r2))
  {
    var s, k := Last(r), Last(r).m.calls[i].key;
    StoredIsAStep(c, s, i);
    r2 := OneMore(c, r1, r, Insert(i), Stored(c, s, i));
    assert !Kept(Last(r2), k);
  }

  lemma CallLosesBlob(c: Config, r1: Run, i: nat) returns (r2: Run)
    requires ContinuesCalmly(c, r1, r1) && Last(r1).mode.Up? && i < |Last(r1).m.calls| &&
      Active(Last(r1), Last(r1).m.calls[i])
    requires var s, k := Last(r1), Last(r1).m.calls[i].key; k !in s.m.table && k !in s.backend && k.name !in s.f.persist
    ensures ContinuesCalmly(c, r1, r2) && !Durable(Last(r2))
  {
    var s, p := Last(r1), Last(r1).m.calls[i];
    if p.Checked? {
      r2 := CallStoresUnprotected(c, r1, r1, i);
    } else {
      var s1 := s.(m := SetCall(s.m, i, Checked(p.key, p.created, p.delay, Elapsed(p.created, p.delay, s.now))));
      assert CallStep(c, s, CheckReady(i), s1);
      var r3 := OneMore(c, r1, r1, CheckReady(i), s1);
      r2 := CallStoresUnprotected(c, r1, r3, i);
    }
  }

  lemma ClearLosesProtection(c: Config, r: Run, w: nat) returns (r2: Run)
    requires ValidRun(c, r) && Last(r).mode.Up? && w < |Last(r).m.workers| && Last(r).m.workers[w].work.Uploaded?
    requires Last(r).m.workers[w].work.key.name in Last(r).f.disk && !OthersStored(Last(r), w)
    ensures ContinuesCalmly(c, Extend(r, ClearPersist(w, true), Cleared(Last(r), w, true)), r2) && !Durable(Last(r2))
  {
    var s, key := Last(r), Last(r).m.workers[w].work.key;
    var s1 := Cleared(s, w, true);
    ClearedIsAStep(c, s, w, true);
    ExtendIsValid(c, r, ClearPersist(w, true), s1);
    var r1 := Extend(r, ClearPersist(w, true), s1);
    if k :| k in s.m.table && k.name == key.name && k != key && k !in s.backend {
      r2 := r1;
      assert !Kept(s1, k);
    } else {
      var i :| 0 <= i < |s.m.calls| && Active(s, s.m.calls[i]) && !CallStored(s, s.m.calls[i].key, key);
      r2 := CallLosesBlob(c, r1, i);
    }
  }

  // After a calm run, deleting the persist metadata of an uploaded blob keeps the promise in every
  // calm continuation exactly when every other row and every call under way with that name is in
  // the backend.
  lemma ClearIsSafeIffOthersStored(c: Config, r: Run, w: nat)
    requires ValidRun(c, r) && CalmFrom(r, 0) && Last(r).mode.Up? && w < |Last(r).m.workers|
    requires Last(r).m.workers[w].work.Uploaded? && Last(r).m.workers[w].work.key.name in Last(r).f.disk
    ensures (forall r2 :: ContinuesCalmly(c, Extend(r, ClearPersist(w, true), Cleared(Last(r), w, true)), r2) ==>
      KeepsPromise(r2))
       <==> OthersStored(Last(r), w)
  {
    var s1 := Cleared(Last(r), w, true);
    var r1 := Extend(r, ClearPersist(w, true), s1);
    if OthersStored(Last(r), w) {
      ExtendIsCalm(r, 0, ClearPersist(w, true), s1);
      forall r2 | ContinuesCalmly(c, r1, r2) ensures KeepsPromise(r2) {
        CalmContinuationsKeepPromise(c, r1, r2);
      }
    } else {
      var r2 := ClearLosesProtection(c, r, w);
      LostAtTheEnd(r2);
    }
  }
}
