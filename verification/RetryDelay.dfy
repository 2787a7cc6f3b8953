/**
  When a worker may run a task. A task is run only after its delay, measured from the creation
  time the process knows at Add or from the one the store recorded. The store rounds down to
  whole seconds, so the second measurement can be early, by less than a second.
*/
module RetryDelay {
  import opened TaskTable
  import opened WriteBack
  import opened RetryProofs

  ghost predicate WaitOver(row: Row, born: int, now: int) {
    Elapsed(born, row.delay, now) || Ready(row, now)
  }

  ghost predicate DelayInv(s: State) {
    && (forall k :: k in s.m.table ==> RowClock(s.m, k, s.now))
    && (forall i :: 0 <= i < |s.m.calls| ==> CallClock(s.m.calls[i], s.now))
    && (s.m.poller.Due? ==> s.m.poller.key in s.m.poller.snap && Ready(s.m.poller.snap[s.m.poller.key], s.now))
  }

  ghost predicate CallClock(p: Call, now: int) {
    && (p.Persisted? || p.Checked? ==> p.created <= now)
    && (p.Checked? && p.ready ==> Elapsed(p.created, p.delay, now))
  }

  ghost predicate RowClock(m: Manager, k: Key, now: int)
    requires k in m.table
  {
    && k in m.born && m.table[k].createdAt > m.born[k] - SECOND
    && (IsPending(m.table, k) ==> WaitOver(m.table[k], m.born[k], now))
  }

  lemma CallStepKeepsCalls(c: Config, s: State, a: Action, s': State)
    requires DelayInv(s) && CallStep(c, s, a, s')
    ensures forall i :: 0 <= i < |s'.m.calls| ==> CallClock(s'.m.calls[i], s'.now)
  {
    if !a.StartWriteBack? { assert CallClock(s.m.calls[a.i], s.now); }
    forall i | 0 <= i < |s'.m.calls| ensures CallClock(s'.m.calls[i], s'.now) {
      assert i < |s.m.calls| ==> CallClock(s.m.calls[i], s.now);
    }
  }

  lemma InsertKeepsRows(c: Config, s: State, i: nat, s': State, k: Key)
    requires DelayInv(s) && CallStep(c, s, Insert(i), s') && k in s'.m.table
    ensures RowClock(s'.m, k, s'.now)
  {
    assert CallClock(s.m.calls[i], s.now);
    assert k in s.m.table ==> RowClock(s.m, k, s.now);
  }

  lemma GiveBackKeepsRows(c: Config, s: State, i: nat, s': State, k: Key)
    requires DelayInv(s) && CallStep(c, s, Action.GiveBack(i), s') && k in s'.m.table
    ensures RowClock(s'.m, k, s'.now)
  {
    assert k in s.m.table && RowClock(s.m, k, s.now);
  }

  lemma CallStepKeepsRows(c: Config, s: State, a: Action, s': State, k: Key)
    requires DelayInv(s) && CallStep(c, s, a, s') && k in s'.m.table
    ensures RowClock(s'.m, k, s'.now)
  {
    if a.Insert? {
      InsertKeepsRows(c, s, a.i, s', k);
    } else if a.GiveBack? {
      GiveBackKeepsRows(c, s, a.i, s', k);
    } else {
      assert s'.m.table == s.m.table && s'.m.born == s.m.born && s'.now == s.now;
      assert RowClock(s.m, k, s.now);
    }
  }

  lemma CallStepKeepsDelayInv(c: Config, s: State, a: Action, s': State)
    requires RetryInv(Up, s.m) && DelayInv(s) && CallStep(c, s, a, s')
    ensures DelayInv(s')
  {
    CallStepKeepsCalls(c, s, a, s');
    forall k | k in s'.m.table ensures RowClock(s'.m, k, s'.now) {
      CallStepKeepsRows(c, s, a, s', k);
    }
    assert s'.m.poller == s.m.poller && s'.now == s.now;
  }

  lemma WorkerStepKeepsDelayInv(s: State, a: Action, s': State)
    requires DelayInv(s) && WorkerStep(s, a, s')
    ensures DelayInv(s')
  {
    assert s'.m.calls == s.m.calls && s'.m.poller == s.m.poller && s'.m.born == s.m.born && s'.now == s.now;
    forall k | k in s'.m.table ensures RowClock(s'.m, k, s'.now) {
      assert k in s.m.table && RowClock(s.m, k, s.now);
      assert IsPending(s'.m.table, k) ==> s'.m.table[k] == s.m.table[k];
    }
  }

  // The poller marks a row pending only after it found it ready.
  lemma PollMarkKeepsClocks(s: State, k: Key)
    requires RetryInv(Up, s.m) && DelayInv(s) && s.m.poller.Due? && k in s.m.table
    ensures RowClock(s.m.(table := Mark(s.m.table, s.m.poller.key, Pending, s.now)), k, s.now)
  {
    assert RowClock(s.m, k, s.now);
    assert Ahead(s.m.poller)[0] == s.m.poller.key;
  }

  lemma GiveBackKeepsClocks(s: State, key: Key, k: Key)
    requires DelayInv(s) && k in s.m.table
    ensures var m' := GivenBack(s.m, key, s.now); k in m'.table && RowClock(m', k, s.now)
  {
    assert RowClock(s.m, k, s.now);
  }

  lemma PollerKeepsDue(c: Config, s: State, a: Action, s': State)
    requires DelayInv(s) && PollStep(c, s.m, s.now, a, s'.m) && s' == s.(m := s'.m) && s'.m.poller.Due?
    ensures s'.m.poller.key in s'.m.poller.snap && Ready(s'.m.poller.snap[s'.m.poller.key], s'.now)
  {
  }

  lemma PollStepKeepsRows(c: Config, s: State, a: Action, s': State, k: Key)
    requires RetryInv(Up, s.m) && DelayInv(s) && PollStep(c, s.m, s.now, a, s'.m) && s' == s.(m := s'.m) &&
      k in s'.m.table
    ensures RowClock(s'.m, k, s'.now)
  {
    match a
    case Poll(_) => assert RowClock(s.m, k, s.now);
    case PollNext => assert RowClock(s.m, k, s.now);
    case PollMark => PollMarkKeepsClocks(s, k);
    case PollSend => assert RowClock(s.m, k, s.now);
    case PollGiveBack => GiveBackKeepsClocks(s, s.m.poller.key, k);
  }

  lemma PollStepKeepsCalls(c: Config, s: State, a: Action, s': State)
    requires PollStep(c, s.m, s.now, a, s'.m) && s' == s.(m := s'.m)
    ensures s'.m.calls == s.m.calls && s'.now == s.now
  {
  }

  lemma PollStepKeepsDelayInv(c: Config, s: State, a: Action, s': State)
    requires RetryInv(Up, s.m) && DelayInv(s) && PollStep(c, s.m, s.now, a, s'.m) && s' == s.(m := s'.m)
    ensures DelayInv(s')
  {
    forall k | k in s'.m.table ensures RowClock(s'.m, k, s'.now) {
      PollStepKeepsRows(c, s, a, s', k);
    }
    PollStepKeepsCalls(c, s, a, s');
    if s'.m.poller.Due? { PollerKeepsDue(c, s, a, s'); }
  }

  lemma ProcessStepKeepsDelayInv(s: State, a: Action, s': State)
    requires DelayInv(s) && ProcessStep(s, a, s')
    ensures DelayInv(s')
  {
    forall i | 0 <= i < |s'.m.calls| ensures CallClock(s'.m.calls[i], s'.now) {
      assert CallClock(s.m.calls[i], s.now);
    }
    forall k | k in s'.m.table ensures RowClock(s'.m, k, s'.now) {
      assert k in s.m.table && RowClock(s.m, k, s.now);
    }
  }

  lemma StepKeepsDelayInv(c: Config, s: State, a: Action, s': State)
    requires RetryInv(s.mode, s.m) && DelayInv(s) && Next(c, s, a, s')
    ensures DelayInv(s')
  {
    if ProcessStep(s, a, s') {
      ProcessStepKeepsDelayInv(s, a, s');
    } else if CallStep(c, s, a, s') {
      CallStepKeepsDelayInv(c, s, a, s');
    } else if WorkerStep(s, a, s') {
      WorkerStepKeepsDelayInv(s, a, s');
    } else if PollStep(c, s.m, s.now, a, s'.m) && s' == s.(m := s'.m) {
      PollStepKeepsDelayInv(c, s, a, s');
    }
  }

  lemma {:induction false} DelayInvInEveryRun(c: Config, r: Run, n: nat)
    requires ValidRun(c, r) && n < |r.states|
    ensures DelayInv(r.states[n])
  {
    if n > 0 {
      DelayInvInEveryRun(c, r, n - 1);
      OneCopyInEveryRun(c, r, n - 1);
      StepKeepsDelayInv(c, r.states[n - 1], r.actions[n - 1], r.states[n]);
    }
  }

  // No worker runs a task before its delay has elapsed, up to the second the store rounds away, and
  // not even that if the stored creation time is not before the real one.
  lemma NoEarlyRun(c: Config, r: Run, n: nat, w: nat)
    requires ValidRun(c, r) && n < |r.states|
    requires w < |r.states[n].m.workers| && !r.states[n].m.workers[w].work.Idle?
    ensures var s, k := r.states[n], r.states[n].m.workers[w].work.key;
            && k in s.m.table && k in s.m.born
            && WaitOver(s.m.table[k], s.m.born[k], s.now)
            && s.now > s.m.born[k] + s.m.table[k].delay - SECOND
            && (s.m.table[k].createdAt >= s.m.born[k] ==> s.now - s.m.born[k] >= s.m.table[k].delay)
  {
    DelayInvInEveryRun(c, r, n);
    OneCopyInEveryRun(c, r, n);
    WorkerHoldsPending(r.states[n].m, w);
    assert RowClock(r.states[n].m, r.states[n].m.workers[w].work.key, r.states[n].now);
  }

  // ---- Retries wait ----------------------------------------------------------------------

  // What the poller has found out about the row it is about to mark pending.
  ghost predicate Waited(c: Config, row: Row, now: int) {
    now - row.createdAt >= row.delay && now - row.lastAttempt > c.retryInterval
  }

  ghost predicate DueWaited(c: Config, s: State) {
    s.m.poller.Due? ==> s.m.poller.key in s.m.poller.snap && Waited(c, s.m.poller.snap[s.m.poller.key], s.now)
  }

  lemma ProcessKeepsPoller(s: State, a: Action, s': State)
    requires ProcessStep(s, a, s')
    ensures s'.now >= s.now && (s'.m.poller == s.m.poller || s'.m.poller.Resting?)
  {
  }

  lemma CallsKeepPoller(c: Config, s: State, a: Action, s': State)
    requires CallStep(c, s, a, s')
    ensures s'.m.poller == s.m.poller && s'.now == s.now
  {
  }

  lemma WorkersKeepPoller(s: State, a: Action, s': State)
    requires WorkerStep(s, a, s')
    ensures s'.m.poller == s.m.poller && s'.now == s.now
  {
  }

  lemma PollStepKeepsDueWaited(c: Config, s: State, a: Action, s': State)
    requires PollStep(c, s.m, s.now, a, s'.m) && s' == s.(m := s'.m)
    ensures DueWaited(c, s')
  {
  }

  lemma StepKeepsDueWaited(c: Config, s: State, a: Action, s': State)
    requires DueWaited(c, s) && Next(c, s, a, s')
    ensures DueWaited(c, s')
  {
    if ProcessStep(s, a, s') {
      ProcessKeepsPoller(s, a, s');
    } else if CallStep(c, s, a, s') {
      CallsKeepPoller(c, s, a, s');
    } else if WorkerStep(s, a, s') {
      WorkersKeepPoller(s, a, s');
    } else if PollStep(c, s.m, s.now, a, s'.m) && s' == s.(m := s'.m) {
      PollStepKeepsDueWaited(c, s, a, s');
    }
  }

  lemma {:induction false} DueWaitedInEveryRun(c: Config, r: Run, n: nat)
    requires ValidRun(c, r) && n < |r.states|
    ensures DueWaited(c, r.states[n])
  {
    if n > 0 {
      DueWaitedInEveryRun(c, r, n - 1);
      StepKeepsDueWaited(c, r.states[n - 1], r.actions[n - 1], r.states[n]);
    }
  }

  // A step after which a failed row of k, if there still is one, has failed.
  ghost predicate StaysFailed(t: Table, t': Table, k: Key) {
    k in t && t[k].status.Failed? && k in t' ==> t'[k].status.Failed?
  }

  lemma ProcessRetriesNothing(s: State, a: Action, s': State, k: Key)
    requires ProcessStep(s, a, s')
    ensures StaysFailed(s.m.table, s'.m.table, k)
  {
  }

  lemma CallsRetryNothing(c: Config, s: State, a: Action, s': State, k: Key)
    requires CallStep(c, s, a, s')
    ensures StaysFailed(s.m.table, s'.m.table, k)
  {
  }

  lemma WorkersRetryNothing(s: State, a: Action, s': State, k: Key)
    requires WorkerStep(s, a, s')
    ensures StaysFailed(s.m.table, s'.m.table, k)
  {
  }

  lemma PollStepRetries(c: Config, m: Manager, now: int, a: Action, m': Manager, k: Key)
    requires PollStep(c, m, now, a, m') && !StaysFailed(m.table, m'.table, k)
    ensures a.PollMark? && m.poller.Due? && m.poller.key == k && m'.table[k] == m.table[k].(status := Pending)
  {
  }

  // Only pollRetries makes a failed row pending.
  lemma OnlyThePollerRetries(c: Config, s: State, a: Action, s': State, k: Key)
    requires Next(c, s, a, s') && !StaysFailed(s.m.table, s'.m.table, k)
    ensures s.mode.Up? && s.m.poller.Due? && s.m.poller.key == k
    ensures s'.m.table[k] == s.m.table[k].(status := Pending)
  {
    if ProcessStep(s, a, s') {
      ProcessRetriesNothing(s, a, s', k);
    } else if CallStep(c, s, a, s') {
      CallsRetryNothing(c, s, a, s', k);
    } else if WorkerStep(s, a, s') {
      WorkersRetryNothing(s, a, s', k);
    } else if PollStep(c, s.m, s.now, a, s'.m) && s' == s.(m := s'.m) {
      PollStepRetries(c, s.m, s.now, a, s'.m, k);
    }
  }

  // In every run a failed row turns pending only when its delay is over and its last attempt lies
  // more than the retry interval back, and then nothing else in it changes.
  lemma RetriesWait(c: Config, r: Run, n: nat, k: Key)
    requires ValidRun(c, r) && n < |r.actions|
    requires k in r.states[n].m.table && r.states[n].m.table[k].status.Failed?
    requires k in r.states[n + 1].m.table && r.states[n + 1].m.table[k].status.Pending?
    ensures var row, now := r.states[n].m.table[k], r.states[n].now;
            && now - row.createdAt >= row.delay && now - row.lastAttempt > c.retryInterval
            && r.states[n + 1].m.table[k] == row.(status := Pending)
  {
    var s := r.states[n];
    OnlyThePollerRetries(c, s, r.actions[n], r.states[n + 1], k);
    DueWaitedInEveryRun(c, r, n);
    OneCopyInEveryRun(c, r, n);
    assert Ahead(s.m.poller)[0] == k;
  }

  // And a poller that comes to a row picks it exactly if the row, as it is now, has waited.
  lemma PollerPicksTheDue(c: Config, r: Run, n: nat)
    requires ValidRun(c, r) && n < |r.actions| && r.actions[n].PollNext?
    requires r.states[n].m.poller.Polling? && r.states[n].m.poller.rest != []
    ensures var s, s', k := r.states[n], r.states[n + 1], r.states[n].m.poller.rest[0];
            && k in s.m.table && s.m.table[k].status.Failed?
            && (s'.m.poller.Due? <==>
                s.now - s.m.table[k].createdAt >= s.m.table[k].delay &&
                s.now - s.m.table[k].lastAttempt > c.retryInterval)
            && (s'.m.poller.Due? ==> s'.m.poller.key == k)
            && Ahead(s'.m.poller) == if s'.m.poller.Due? then s.m.poller.rest else s.m.poller.rest[1..]
  {
    var s := r.states[n];
    assert Next(c, s, PollNext, r.states[n + 1]);
    OneCopyInEveryRun(c, r, n);
    assert Ahead(s.m.poller)[0] == s.m.poller.rest[0];
  }

  // ---- Early runs happen -----------------------------------------------------------------

  // A task asked for at `created` and stored, not yet ready, at `inserted`.
  datatype Case = Case(key: Key, created: int, inserted: int, delay: int)

  function CaseRow(c: Config, x: Case): Row {
    NewRow(Failed, x.inserted, x.delay, c.zeroTime)
  }

  const ONE_WORKER: Manager := Manager(map[], map[], [], [], [Worker(Retries, Idle)], [], Resting)

  function Stored(c: Config, x: Case): Manager {
    ONE_WORKER.(table := map[x.key := CaseRow(c, x)], born := map[x.key := x.created], calls := [Returned])
  }

  function CaseState(m: Manager, x: Case, now: int, accepted: set<Key>): State {
    State(Up, false, now, m, Files({x.key.name}, {x.key.name}, {x.key.name}), {}, accepted)
  }

  lemma CaseAsked(c: Config, x: Case) returns (r: Run)
    ensures ValidRun(c, r) && Last(r) ==
      CaseState(ONE_WORKER.(calls := [Persisted(x.key, x.created, x.delay)]), x, x.created, {})
  {
    var s0 := State(Down, false, x.created, ONE_WORKER, Files({}, {}, {}), {}, {});
    var s1 := s0.(mode := Recovering([]));
    assert ProcessStep(s0, Restart([]), s1);
    ExtendIsValid(c, Run([s0], []), Restart([]), s1);
    r := Extend(Run([s0], []), Restart([]), s1);
    var s2 := s1.(mode := Up);
    assert ProcessStep(s1, Start, s2);
    ExtendIsValid(c, r, Start, s2);
    r := Extend(r, Start, s2);
    var s3 := s2.(f := Files({x.key.name}, {x.key.name}, {}));
    assert FileStep(s2.f, Commit(x.key.name), s3.f);
    ExtendIsValid(c, r, Commit(x.key.name), s3);
    r := Extend(r, Commit(x.key.name), s3);
    var s4 := CaseState(ONE_WORKER.(calls := [Persisted(x.key, x.created, x.delay)]), x, x.created, {});
    assert CallStep(c, s3, StartWriteBack(x.key, x.delay), s4);
    ExtendIsValid(c, r, StartWriteBack(x.key, x.delay), s4);
    r := Extend(r, StartWriteBack(x.key, x.delay), s4);
  }

  lemma CaseStored(c: Config, x: Case) returns (r: Run)
    requires x.created <= x.inserted && !Elapsed(x.created, x.delay, x.inserted)
    ensures ValidRun(c, r) && Last(r) == CaseState(Stored(c, x), x, x.inserted, {x.key})
  {
    r := CaseAsked(c, x);
    var s1 := Last(r).(now := x.inserted);
    assert ProcessStep(Last(r), Tick(x.inserted), s1);
    ExtendIsValid(c, r, Tick(x.inserted), s1);
    r := Extend(r, Tick(x.inserted), s1);
    var s2 := s1.(m := SetCall(s1.m, 0, Checked(x.key, x.created, x.delay, false)));
    assert CallStep(c, s1, CheckReady(0), s2);
    ExtendIsValid(c, r, CheckReady(0), s2);
    r := Extend(r, CheckReady(0), s2);
    var s3 := CaseState(Stored(c, x), x, x.inserted, {x.key});
    assert SetCall(s2.m, 0, Returned).calls == [Returned];
    assert CallStep(c, s2, Insert(0), s3);
    ExtendIsValid(c, r, Insert(0), s3);
    r := Extend(r, Insert(0), s3);
  }

  // The poller finds the row due, and a worker takes it.
  lemma CaseDue(c: Config, x: Case, now: int) returns (r: Run)
    requires x.created <= x.inserted <= now && !Elapsed(x.created, x.delay, x.inserted)
    requires RetryDue(CaseRow(c, x), now, c.retryInterval)
    ensures ValidRun(c, r) && Last(r) ==
      CaseState(Stored(c, x).(poller := Due(x.key, [], Stored(c, x).table)), x, now, {x.key})
  {
    r := CaseStored(c, x);
    var m := Stored(c, x);
    var s1 := CaseState(m, x, now, {x.key});
    assert ProcessStep(Last(r), Tick(now), s1);
    ExtendIsValid(c, r, Tick(now), s1);
    r := Extend(r, Tick(now), s1);
    var s2 := s1.(m := m.(poller := Polling([x.key], m.table)));
    assert WithStatus(m.table, Failed) == {x.key};
    assert PollStep(c, m, now, Poll([x.key]), s2.m);
    ExtendIsValid(c, r, Poll([x.key]), s2);
    r := Extend(r, Poll([x.key]), s2);
    var s3 := s1.(m := m.(poller := Due(x.key, [], m.table)));
    assert [x.key][1..] == [];
    assert PollStep(c, s2.m, now, PollNext, s3.m);
    ExtendIsValid(c, r, PollNext, s3);
    r := Extend(r, PollNext, s3);
  }

  lemma CaseTaken(c: Config, x: Case, now: int) returns (r: Run)
    requires x.created <= x.inserted <= now && !Elapsed(x.created, x.delay, x.inserted) && c.retryCap > 0
    requires RetryDue(CaseRow(c, x), now, c.retryInterval)
    ensures ValidRun(c, r) && Last(r).now == now && Holding(r, |r.states| - 1, 0, x)
  {
    r := CaseDue(c, x, now);
    var m, k := Stored(c, x), x.key;
    var m1 := m.(table := map[k := CaseRow(c, x).(status := Pending)], poller := Requeuing(k, [], m.table));
    var s1 := CaseState(m1, x, now, {k});
    assert Mark(m.table, k, Pending, now) == m1.table;
    assert PollStep(c, Last(r).m, now, PollMark, m1);
    ExtendIsValid(c, r, PollMark, s1);
    r := Extend(r, PollMark, s1);
    var m2 := m1.(retries := [k], poller := Polling([], m.table));
    var s2 := CaseState(m2, x, now, {k});
    assert PollStep(c, m1, now, PollSend, m2);
    ExtendIsValid(c, r, PollSend, s2);
    r := Extend(r, PollSend, s2);
    var s3 := s2.(m := m2.(retries := [], workers := [Worker(Retries, Taken(k))]));
    assert SetChannel(SetWork(m2, 0, Taken(k)), Retries, m2.retries[1..]) == s3.m;
    assert WorkerStep(s2, Take(0), s3);
    ExtendIsValid(c, r, Take(0), s3);
    r := Extend(r, Take(0), s3);
  }

  // In state n worker w is at work on the case.
  ghost predicate Holding(r: Run, n: nat, w: nat, x: Case) {
    && n < |r.states|
    && var m := r.states[n].m;
       && w < |m.workers| && !m.workers[w].work.Idle? && m.workers[w].work.key == x.key
       && x.key in m.table && m.table[x.key].createdAt == CurrentTimestamp(x.inserted) &&
            m.table[x.key].delay == x.delay
       && x.key in m.born && m.born[x.key] == x.created
  }

  // A task that was not ready when it was stored is never run early, in any run, exactly if the
  // store's rounding does not go back past its creation.
  lemma RunsWaitIff(c: Config, x: Case)
    requires x.created <= x.inserted && x.inserted - x.created < x.delay
    requires c.retryCap > 0 && x.inserted - c.zeroTime > c.retryInterval
    ensures (forall r, n: nat, w: nat :: ValidRun(c, r) && Holding(r, n, w, x) ==>
      r.states[n].now - x.created >= x.delay)
       <==> CurrentTimestamp(x.inserted) >= x.created
  {
    DelayRespectedIff(x.created, x.inserted, x.delay);
    if CurrentTimestamp(x.inserted) >= x.created {
      forall r, n: nat, w: nat | ValidRun(c, r) && Holding(r, n, w, x)
        ensures r.states[n].now - x.created >= x.delay {
        NoEarlyRun(c, r, n, w);
      }
    } else {
      var now :| now >= x.inserted && Elapsed(CurrentTimestamp(x.inserted), x.delay, now) &&
        !Elapsed(x.created, x.delay, now);
      var r := CaseTaken(c, x, now);
    }
  }
}
