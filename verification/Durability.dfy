/**
  What write-back guarantees about blobs. A blob with a write-back row is in the backend, or on
  disk and protected by its persist metadata, and rows vanish only once the backend has the blob,
  in every run in which

    - no cache entry is removed while the executor is between the two halves of opening that
      entry's file (the reload and the load of localFileOp.lockHelper), and
    - persist metadata is deleted only when every other row, and every call under way, with that
      name is in the backend too. This is always so if no name is used in two namespaces.

  Both conditions are exact: a step that breaks one of them can always be continued to a broken
  promise.
*/
module Durability {
  import opened TaskTable
  import opened WriteBack
  import opened RetryProofs

  ghost predicate Kept(s: State, k: Key) {
    k in s.backend || (k.name in s.f.disk && k.name in s.f.persist)
  }

  // Every row's blob is kept, and so is every accepted blob.
  ghost predicate Durable(s: State) {
    && (forall k :: k in s.m.table ==> Kept(s, k))
    && (forall k :: k in s.accepted ==> Kept(s, k))
  }

  // Step n takes a row away whose blob the backend does not have.
  ghost predicate Forgets(r: Run, n: nat, k: Key)
    requires n + 1 < |r.states|
  {
    k in r.states[n].m.table && k !in r.states[n + 1].m.table && k !in r.states[n].backend
  }

  // The promise, over a whole run.
  ghost predicate KeepsPromise(r: Run) {
    && (forall n :: 0 <= n < |r.states| ==> Durable(r.states[n]))
    && (forall n, k :: 0 <= n < |r.states| - 1 ==> !Forgets(r, n, k))
  }

  // ---- Calm steps ------------------------------------------------------------------------

  // The executor is opening `name`, and the backend does not have it yet.
  ghost predicate InWindow(s: State, name: string) {
    exists w :: 0 <= w < |s.m.workers| && s.m.workers[w].work.Window? &&
                s.m.workers[w].work.key.name == name && s.m.workers[w].work.key !in s.backend
  }

  // A writeBack call that may yet store its row. Once the manager is closed, a call that has not
  // passed the check for it is refused.
  predicate Active(s: State, p: Call) {
    p.Checked? || (p.Persisted? && !s.closed)
  }

  // Whatever else relies on the persist metadata of worker w's file is in the backend already.
  ghost predicate OthersStored(s: State, w: nat)
    requires w < |s.m.workers| && !s.m.workers[w].work.Idle?
  {
    var key := s.m.workers[w].work.key;
    && (forall k :: k in s.m.table && k.name == key.name && k != key ==> k in s.backend)
    && (forall i :: 0 <= i < |s.m.calls| && Active(s, s.m.calls[i]) ==> CallStored(s, s.m.calls[i].key, key))
  }

  ghost predicate CallStored(s: State, k: Key, key: Key) {
    k.name == key.name && k != key ==> k in s.backend
  }

  ghost predicate Calm(s: State, a: Action) {
    && (a.RemoveFile? ==> !InWindow(s, a.name))
    && (a.ClearPersist? && a.found && a.w < |s.m.workers| && !s.m.workers[a.w].work.Idle? ==> OthersStored(s, a.w))
  }

  ghost predicate CalmFrom(r: Run, i: nat) {
    |r.states| == |r.actions| + 1 && forall n :: i <= n < |r.actions| ==> Calm(r.states[n], r.actions[n])
  }

  // ---- The invariant ---------------------------------------------------------------------

  ghost predicate CallInv(s: State, p: Call) {
    Active(s, p) ==> Kept(s, p.key)
  }

  ghost predicate WorkInv(s: State, work: Work) {
    && (work.Uploaded? || work.ExecOk? ==> work.key in s.backend)
    && (work.Window? ==> work.key in s.backend || work.key.name in s.f.cached)
  }

  ghost predicate DurableInv(s: State) {
    && s.f.persist <= s.f.disk && s.f.cached <= s.f.disk
    && (forall k :: k in s.m.table ==> Kept(s, k))
    && (forall k :: k in s.accepted ==> (k in s.m.table || k in s.backend))
    && (forall i :: 0 <= i < |s.m.calls| ==> CallInv(s, s.m.calls[i]))
    && (forall w :: 0 <= w < |s.m.workers| ==> WorkInv(s, s.m.workers[w].work))
  }

  lemma FileStepKeepsDurable(c: Config, s: State, a: Action, s': State)
    requires DurableInv(s) && Calm(s, a) && FileStep(s.f, a, s'.f) && s' == s.(f := s'.f)
    ensures DurableInv(s')
  {
    forall w | 0 <= w < |s'.m.workers| ensures WorkInv(s', s'.m.workers[w].work) {
      assert WorkInv(s, s.m.workers[w].work);
    }
    forall i | 0 <= i < |s'.m.calls| ensures CallInv(s', s'.m.calls[i]) {
      assert CallInv(s, s.m.calls[i]);
    }
  }

  lemma CallStepKeepsCalls(c: Config, s: State, a: Action, s': State)
    requires DurableInv(s) && Calm(s, a) && CallStep(c, s, a, s')
    ensures forall i :: 0 <= i < |s'.m.calls| ==> CallInv(s', s'.m.calls[i])
  {
    forall i | 0 <= i < |s'.m.calls| ensures CallInv(s', s'.m.calls[i]) {
      assert i < |s.m.calls| ==> CallInv(s, s.m.calls[i]);
    }
  }

  // The call that takes step a holds a copy of k.
  ghost predicate HoldsCopy(s: State, a: Action, k: Key) {
    (a.Send? || a.GiveBack?) && a.i < |s.m.calls| && (s.m.calls[a.i].Sending? || s.m.calls[a.i].CallFull?) &&
      s.m.calls[a.i].key == k
  }

  // A call adds no row but its own, and says it is accepted only then.
  lemma CallStepAddsOwnRow(c: Config, s: State, a: Action, s': State)
    requires CallStep(c, s, a, s')
    ensures s'.backend == s.backend && s'.f.disk == s.f.disk && s.f.persist <= s'.f.persist &&
      s.m.table.Keys <= s'.m.table.Keys
    ensures forall k :: k in s'.m.table && k !in s.m.table ==>
      a.Insert? && s.m.calls[a.i].Checked? && k == s.m.calls[a.i].key
    ensures forall k :: k in s'.accepted && k !in s.accepted ==> k in s'.m.table || HoldsCopy(s, a, k)
  {
  }

  lemma CallStepKeepsRows(c: Config, s: State, a: Action, s': State)
    requires DurableInv(s) && RetryInv(Up, s.m) && CallStep(c, s, a, s')
    ensures forall k :: k in s'.m.table ==> Kept(s', k)
    ensures forall k :: k in s'.accepted ==> k in s'.m.table || k in s'.backend
  {
    CallStepAddsOwnRow(c, s, a, s');
    if a.Insert? {
      assert CallInv(s, s.m.calls[a.i]);
    } else if a.Send? || a.GiveBack? {
      CallHoldsPending(s.m, a.i);
    }
    forall k | k in s'.m.table ensures Kept(s', k) {
      assert Kept(s, k);
    }
  }

  lemma CallStepKeepsFiles(c: Config, s: State, a: Action, s': State)
    requires CallStep(c, s, a, s') && s.f.cached <= s.f.disk && s.f.persist <= s.f.disk
    ensures s'.f.disk == s.f.disk && s'.f.cached == s.f.cached && s'.f.persist <= s.f.disk
    ensures s'.m.workers == s.m.workers && s'.backend == s.backend
  {
  }

  lemma CallStepKeepsDurable(c: Config, s: State, a: Action, s': State)
    requires DurableInv(s) && RetryInv(Up, s.m) && Calm(s, a) && CallStep(c, s, a, s')
    ensures DurableInv(s')
  {
    CallStepKeepsCalls(c, s, a, s');
    CallStepKeepsRows(c, s, a, s');
    CallStepKeepsFiles(c, s, a, s');
    forall w | 0 <= w < |s'.m.workers| ensures WorkInv(s', s'.m.workers[w].work) {
      assert WorkInv(s, s.m.workers[w].work);
    }
  }

  // Persist metadata is deleted only when the backend has the blob and everything else under its
  // name.
  lemma ClearKeepsKept(s: State, a: Action, s': State, k: Key)
    requires DurableInv(s) && a.ClearPersist? && WorkerStep(s, a, s') && Kept(s, k)
    requires a.found && k.name == s.m.workers[a.w].work.key.name && k != s.m.workers[a.w].work.key ==> k in s.backend
    ensures Kept(s', k)
  {
    assert WorkInv(s, s.m.workers[a.w].work);
  }

  lemma ClearKeepsDurable(s: State, a: Action, s': State)
    requires DurableInv(s) && Calm(s, a) && a.ClearPersist? && WorkerStep(s, a, s')
    ensures DurableInv(s')
  {
    forall k | k in s'.m.table ensures Kept(s', k) {
      ClearKeepsKept(s, a, s', k);
    }
    forall i | 0 <= i < |s'.m.calls| ensures CallInv(s', s'.m.calls[i]) {
      assert CallInv(s, s.m.calls[i]);
      if Active(s, s.m.calls[i]) {
        assert a.found ==> CallStored(s, s.m.calls[i].key, s.m.workers[a.w].work.key);
        ClearKeepsKept(s, a, s', s.m.calls[i].key);
      }
    }
    forall w | 0 <= w < |s'.m.workers| ensures WorkInv(s', s'.m.workers[w].work) {
      assert WorkInv(s, s.m.workers[w].work);
    }
  }

  // The worker that moves; a file it finds missing was never the last copy.
  lemma MovingWorkerKeepsInv(c: Config, s: State, a: Action, s': State)
    requires DurableInv(s) && RetryInv(Up, s.m) && WorkerStep(s, a, s') && !a.ClearPersist?
    ensures WorkInv(s', s'.m.workers[a.w].work)
  {
    assert WorkInv(s, s.m.workers[a.w].work);
    if !a.Take? { WorkerHoldsPending(s.m, a.w); }
  }

  lemma OtherWorkersKeepInv(s: State, a: Action, s': State, w: nat)
    requires WorkerStep(s, a, s') && !a.ClearPersist? && w < |s.m.workers| && w != a.w &&
      WorkInv(s, s.m.workers[w].work)
    ensures w < |s'.m.workers| && WorkInv(s', s'.m.workers[w].work)
  {
    assert s'.m.workers[w] == s.m.workers[w];
  }

  lemma WorkerStepKeepsWorkers(c: Config, s: State, a: Action, s': State)
    requires DurableInv(s) && RetryInv(Up, s.m) && WorkerStep(s, a, s') && !a.ClearPersist?
    ensures forall w :: 0 <= w < |s'.m.workers| ==> WorkInv(s', s'.m.workers[w].work)
  {
    assert |s'.m.workers| == |s.m.workers|;
    forall w | 0 <= w < |s'.m.workers| ensures WorkInv(s', s'.m.workers[w].work) {
      if w == a.w {
        MovingWorkerKeepsInv(c, s, a, s');
      } else {
        OtherWorkersKeepInv(s, a, s', w);
      }
    }
  }

  lemma WorkerStepKeepsRows(c: Config, s: State, a: Action, s': State)
    requires DurableInv(s) && WorkerStep(s, a, s') && !a.ClearPersist?
    ensures s'.f.persist == s.f.persist && s'.f.disk == s.f.disk && s'.f.cached <= s.f.disk && s.backend <= s'.backend
    ensures s'.m.table.Keys <= s.m.table.Keys && s'.m.calls == s.m.calls && s'.accepted == s.accepted
    ensures forall k :: k in s.m.table ==> k in s'.m.table || k in s'.backend
  {
    assert WorkInv(s, s.m.workers[a.w].work);
  }

  lemma WorkerStepKeepsDurable(c: Config, s: State, a: Action, s': State)
    requires DurableInv(s) && RetryInv(Up, s.m) && Calm(s, a) && WorkerStep(s, a, s')
    ensures DurableInv(s')
  {
    if a.ClearPersist? {
      ClearKeepsDurable(s, a, s');
    } else {
      WorkerStepKeepsWorkers(c, s, a, s');
      WorkerStepKeepsRows(c, s, a, s');
      forall i | 0 <= i < |s'.m.calls| ensures CallInv(s', s'.m.calls[i]) {
        assert CallInv(s, s.m.calls[i]);
      }
    }
  }

  lemma PollStepKeepsDurable(c: Config, s: State, a: Action, s': State)
    requires DurableInv(s) && PollStep(c, s.m, s.now, a, s'.m) && s' == s.(m := s'.m)
    ensures DurableInv(s')
  {
    forall w | 0 <= w < |s'.m.workers| ensures WorkInv(s', s'.m.workers[w].work) {
      assert WorkInv(s, s.m.workers[w].work);
    }
    forall i | 0 <= i < |s'.m.calls| ensures CallInv(s', s'.m.calls[i]) {
      assert CallInv(s, s.m.calls[i]);
    }
  }

  lemma ProcessStepKeepsDurable(c: Config, s: State, a: Action, s': State)
    requires DurableInv(s) && ProcessStep(s, a, s')
    ensures DurableInv(s')
  {
    forall w | 0 <= w < |s'.m.workers| ensures WorkInv(s', s'.m.workers[w].work) {
      assert WorkInv(s, s.m.workers[w].work);
    }
    forall i | 0 <= i < |s'.m.calls| ensures CallInv(s', s'.m.calls[i]) {
      assert CallInv(s, s.m.calls[i]);
    }
  }

  lemma StepKeepsDurable(c: Config, s: State, a: Action, s': State)
    requires DurableInv(s) && RetryInv(s.mode, s.m) && Calm(s, a) && Next(c, s, a, s')
    ensures DurableInv(s')
  {
    if ProcessStep(s, a, s') {
      ProcessStepKeepsDurable(c, s, a, s');
    } else if FileStep(s.f, a, s'.f) && s' == s.(f := s'.f) {
      FileStepKeepsDurable(c, s, a, s');
    } else if CallStep(c, s, a, s') {
      CallStepKeepsDurable(c, s, a, s');
    } else if WorkerStep(s, a, s') {
      WorkerStepKeepsDurable(c, s, a, s');
    } else {
      PollStepKeepsDurable(c, s, a, s');
    }
  }

  lemma {:induction false} CalmRunsKeepInv(c: Config, r: Run, n: nat)
    requires ValidRun(c, r) && CalmFrom(r, 0) && n < |r.states|
    ensures DurableInv(r.states[n])
  {
    if n > 0 {
      CalmRunsKeepInv(c, r, n - 1);
      OneCopyInEveryRun(c, r, n - 1);
      StepKeepsDurable(c, r.states[n - 1], r.actions[n - 1], r.states[n]);
    }
  }

  // ---- Nothing is lost in a calm run -----------------------------------------------------

  // Whenever a row exists its blob is in the backend, or on disk with persist set; accepted
  // blobs are never lost.
  lemma CalmRunsAreDurable(c: Config, r: Run, n: nat)
    requires ValidRun(c, r) && CalmFrom(r, 0) && n < |r.states|
    ensures Durable(r.states[n])
  {
    CalmRunsKeepInv(c, r, n);
  }

  // Rows vanish only once the backend has the blob.
  lemma RowsLeaveOnlyWhenStored(c: Config, r: Run, n: nat, k: Key)
    requires ValidRun(c, r) && CalmFrom(r, 0) && n < |r.actions|
    requires k in r.states[n].m.table && k !in r.states[n + 1].m.table
    ensures k in r.states[n].backend
  {
    CalmRunsKeepInv(c, r, n);
    RowsLeaveByCompletion(c, r.states[n], r.actions[n], r.states[n + 1], k);
    assert WorkInv(r.states[n], r.states[n].m.workers[r.actions[n].w].work);
  }

  lemma CalmRunsKeepPromise(c: Config, r: Run)
    requires ValidRun(c, r) && CalmFrom(r, 0)
    ensures KeepsPromise(r)
  {
    forall n | 0 <= n < |r.states| ensures Durable(r.states[n]) {
      CalmRunsAreDurable(c, r, n);
    }
    forall n, k | 0 <= n < |r.states| - 1 ensures !Forgets(r, n, k) {
      if Forgets(r, n, k) { RowsLeaveOnlyWhenStored(c, r, n, k); }
    }
  }
}
