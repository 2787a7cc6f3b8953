/**
  Names that belong to one namespace each. Then deleting persist metadata never uncovers anything,
  and the promise of write-back depends on removals alone.
*/
module OneNamespace {
  import opened TaskTable
  import opened WriteBack
  import opened RetryProofs
  import opened Durability

  predicate Homed(c: Config, k: Key) {
    k.ns == c.nsOf(k.name)
  }

  ghost predicate HomedInv(c: Config, s: State) {
    && (forall k :: k in s.m.table ==> Homed(c, k))
    && (forall i :: 0 <= i < |s.m.calls| ==> HomedCall(c, s.m.calls[i]))
  }

  ghost predicate HomedCall(c: Config, p: Call) {
    p.Persisted? || p.Checked? ==> Homed(c, p.key)
  }

  lemma CallStepKeepsHomed(c: Config, s: State, a: Action, s': State)
    requires HomedInv(c, s) && CallStep(c, s, a, s') && (a.StartWriteBack? ==> Homed(c, a.key))
    ensures HomedInv(c, s')
  {
    if !a.StartWriteBack? { assert HomedCall(c, s.m.calls[a.i]); }
    forall i | 0 <= i < |s'.m.calls| ensures HomedCall(c, s'.m.calls[i]) {
      assert i < |s.m.calls| ==> HomedCall(c, s.m.calls[i]);
    }
  }

  lemma OtherStepsAddNoRows(c: Config, s: State, a: Action, s': State)
    requires Next(c, s, a, s') && !CallStep(c, s, a, s')
    ensures s'.m.table.Keys <= s.m.table.Keys && (s'.m.calls == s.m.calls || s'.m.calls == [])
  {
    if WorkerStep(s, a, s') {
      WorkersAddNoRows(s, a, s');
    } else if PollStep(c, s.m, s.now, a, s'.m) {
      PollAddsNoRows(c, s.m, s.now, a, s'.m);
    }
  }

  lemma WorkersAddNoRows(s: State, a: Action, s': State)
    requires WorkerStep(s, a, s')
    ensures s'.m.table.Keys <= s.m.table.Keys && s'.m.calls == s.m.calls
  {
  }

  lemma PollAddsNoRows(c: Config, m: Manager, now: int, a: Action, m': Manager)
    requires PollStep(c, m, now, a, m')
    ensures m'.table.Keys <= m.table.Keys && m'.calls == m.calls
  {
  }

  lemma StepKeepsHomed(c: Config, s: State, a: Action, s': State)
    requires HomedInv(c, s) && Next(c, s, a, s') && (a.StartWriteBack? ==> Homed(c, a.key))
    ensures HomedInv(c, s')
  {
    if CallStep(c, s, a, s') {
      CallStepKeepsHomed(c, s, a, s');
    } else {
      OtherStepsAddNoRows(c, s, a, s');
      forall i | 0 <= i < |s'.m.calls| ensures HomedCall(c, s'.m.calls[i]) {
        assert HomedCall(c, s.m.calls[i]);
      }
    }
  }

  ghost predicate HomedRun(c: Config, r: Run) {
    forall n :: 0 <= n < |r.actions| && r.actions[n].StartWriteBack? ==> Homed(c, r.actions[n].key)
  }

  lemma {:induction false} HomedInEveryRun(c: Config, r: Run, n: nat)
    requires ValidRun(c, r) && HomedRun(c, r) && n < |r.states|
    ensures HomedInv(c, r.states[n])
  {
    if n > 0 {
      HomedInEveryRun(c, r, n - 1);
      StepKeepsHomed(c, r.states[n - 1], r.actions[n - 1], r.states[n]);
    }
  }

  lemma HomedMeansOthersStored(c: Config, s: State, w: nat)
    requires HomedInv(c, s) && OneCopyEach(s.m) && w < |s.m.workers| && !s.m.workers[w].work.Idle?
    ensures OthersStored(s, w)
  {
    WorkerHoldsPending(s.m, w);
    forall i | 0 <= i < |s.m.calls| && Active(s, s.m.calls[i])
      ensures CallStored(s, s.m.calls[i].key, s.m.workers[w].work.key) {
      assert HomedCall(c, s.m.calls[i]);
    }
  }

  lemma OnlyRunningWorkersClear(c: Config, s: State, a: Action, s': State)
    requires Next(c, s, a, s') && a.ClearPersist?
    ensures s.mode.Up?
  {
  }

  // If every name is written back under one namespace, deleting persist metadata is always calm:
  // the promise then depends on removals alone.
  lemma HomedRunsKeepPromise(c: Config, r: Run)
    requires ValidRun(c, r) && HomedRun(c, r)
    requires forall n :: 0 <= n < |r.actions| && r.actions[n].RemoveFile? ==> !InWindow(r.states[n], r.actions[n].name)
    ensures KeepsPromise(r)
  {
    forall n | 0 <= n < |r.actions| ensures Calm(r.states[n], r.actions[n]) {
      var s, a := r.states[n], r.actions[n];
      if a.ClearPersist? && a.w < |s.m.workers| && !s.m.workers[a.w].work.Idle? {
        OnlyRunningWorkersClear(c, s, a, r.states[n + 1]);
        HomedInEveryRun(c, r, n);
        OneCopyInEveryRun(c, r, n);
        HomedMeansOthersStored(c, s, a.w);
      }
    }
    CalmRunsKeepPromise(c, r);
  }
}
