/**
  The retry manager keeps exactly one copy of every pending task, in every interleaving and
  across crashes, and forgets a task only after an Exec of it has returned nil.
*/
module RetryProofs {
  import opened Sums
  import opened TaskTable
  import opened WriteBack

  // ---- How the copies move ---------------------------------------------------------------

  lemma CopiesAfterWork(m: Manager, w: nat, work: Work, k: Key)
    requires w < |m.workers|
    ensures Copies(SetWork(m, w, work), k) + WorkerKeys(m.workers[w])[k]
         == Copies(m, k) + WorkerKeys(m.workers[w].(work := work))[k]
  {
    CountUpdate(WorkerKeys, m.workers, w, m.workers[w].(work := work), k);
  }

  lemma CopiesAfterCall(m: Manager, i: nat, call: Call, k: Key)
    requires i < |m.calls|
    ensures Copies(SetCall(m, i, call), k) + CallKeys(m.calls[i])[k] == Copies(m, k) + CallKeys(call)[k]
  {
    CountUpdate(CallKeys, m.calls, i, call, k);
  }

  lemma CopiesAfterHand(m: Manager, j: Key, q: Queue, k: Key)
    ensures Copies(Handed(m, j, q), k) == Copies(m, k) + multiset{j}[k]
  {
    assert multiset(Channel(m, q) + [j])[k] == multiset(Channel(m, q))[k] + multiset{j}[k];
  }

  lemma CopiesAfterPop(m: Manager, q: Queue, k: Key)
    requires Channel(m, q) != []
    ensures Copies(SetChannel(m, q, Channel(m, q)[1..]), k) + multiset{Channel(m, q)[0]}[k] == Copies(m, k)
  {
    var ch := Channel(m, q);
    assert ch == [ch[0]] + ch[1..];
    assert multiset(ch)[k] == multiset{ch[0]}[k] + multiset(ch[1..])[k];
  }

  lemma CopiesAfterTake(m: Manager, w: nat, k: Key)
    requires w < |m.workers| && m.workers[w].work.Idle? && Channel(m, m.workers[w].queue) != []
    ensures var q := m.workers[w].queue;
            Copies(SetChannel(SetWork(m, w, Taken(Channel(m, q)[0])), q, Channel(m, q)[1..]), k) == Copies(m, k)
  {
    var q := m.workers[w].queue;
    var m1 := SetWork(m, w, Taken(Channel(m, q)[0]));
    CopiesAfterWork(m, w, Taken(Channel(m, q)[0]), k);
    assert Channel(m1, q) == Channel(m, q);
    CopiesAfterPop(m1, q, k);
  }

  lemma CopiesIgnoreTable(m: Manager, t: Table, born: map<Key, int>, k: Key)
    ensures Copies(m.(table := t, born := born), k) == Copies(m, k)
  {
  }

  // ---- Whoever holds a copy holds a pending row ------------------------------------------

  lemma WorkerHoldsPending(m: Manager, w: nat)
    requires OneCopyEach(m) && w < |m.workers| && !m.workers[w].work.Idle?
    ensures IsPending(m.table, m.workers[w].work.key)
  {
    BagMember(WorkerKeys, m.workers, w);
    assert Copies(m, m.workers[w].work.key) > 0;
  }

  lemma CallHoldsPending(m: Manager, i: nat)
    requires OneCopyEach(m) && i < |m.calls| && (m.calls[i].Sending? || m.calls[i].CallFull?)
    ensures IsPending(m.table, m.calls[i].key)
  {
    BagMember(CallKeys, m.calls, i);
    assert Copies(m, m.calls[i].key) > 0;
  }

  lemma PollerHoldsPending(m: Manager)
    requires OneCopyEach(m) && (m.poller.Requeuing? || m.poller.PollFull?)
    ensures IsPending(m.table, m.poller.key)
  {
    assert Copies(m, m.poller.key) > 0;
  }

  lemma HeadIsPending(m: Manager, q: Queue)
    requires OneCopyEach(m) && Channel(m, q) != []
    ensures IsPending(m.table, Channel(m, q)[0])
  {
    var k := Channel(m, q)[0];
    CopiesAfterPop(m, q, k);
    assert Copies(m, k) > 0;
  }

  // ---- One lemma per kind of move --------------------------------------------------------

  lemma WorkKeepsOneCopy(m: Manager, w: nat, work: Work)
    requires OneCopyEach(m) && w < |m.workers| && WorkerKeys(m.workers[w]) == WorkerKeys(m.workers[w].(work := work))
    ensures OneCopyEach(SetWork(m, w, work))
  {
    forall k ensures Copies(SetWork(m, w, work), k) == Copies(m, k) {
      CopiesAfterWork(m, w, work, k);
    }
  }

  lemma TakeKeepsOneCopy(m: Manager, w: nat)
    requires OneCopyEach(m) && w < |m.workers| && m.workers[w].work.Idle? && Channel(m, m.workers[w].queue) != []
    ensures var q := m.workers[w].queue;
            OneCopyEach(SetChannel(SetWork(m, w, Taken(Channel(m, q)[0])), q, Channel(m, q)[1..]))
  {
    var q := m.workers[w].queue;
    var m' := SetChannel(SetWork(m, w, Taken(Channel(m, q)[0])), q, Channel(m, q)[1..]);
    forall k ensures Copies(m', k) == Copies(m, k) {
      CopiesAfterTake(m, w, k);
    }
  }

  // The worker gives up its copy exactly when the row stops being pending.
  lemma FinishKeepsOneCopy(m: Manager, w: nat, t: Table)
    requires OneCopyEach(m) && w < |m.workers| && !m.workers[w].work.Idle?
    requires forall k :: IsPending(t, k) <==> IsPending(m.table, k) && k != m.workers[w].work.key
    ensures OneCopyEach(SetWork(m, w, Idle).(table := t))
  {
    WorkerHoldsPending(m, w);
    var m' := SetWork(m, w, Idle).(table := t);
    forall k ensures Copies(m', k) == if IsPending(t, k) then 1 else 0 {
      CopiesAfterWork(m, w, Idle, k);
      assert Copies(m', k) == Copies(SetWork(m, w, Idle), k);
    }
  }

  lemma CallKeepsOneCopy(m: Manager, i: nat, call: Call)
    requires OneCopyEach(m) && i < |m.calls| && CallKeys(m.calls[i]) == CallKeys(call)
    ensures OneCopyEach(SetCall(m, i, call))
  {
    forall k ensures Copies(SetCall(m, i, call), k) == Copies(m, k) {
      CopiesAfterCall(m, i, call, k);
    }
  }

  lemma NewCallKeepsOneCopy(m: Manager, call: Call)
    requires OneCopyEach(m) && CallKeys(call) == multiset{}
    ensures OneCopyEach(m.(calls := m.calls + [call]))
  {
    forall k ensures Copies(m.(calls := m.calls + [call]), k) == Copies(m, k) {
      CountPush(CallKeys, m.calls, call, k);
    }
  }

  lemma CopiesAfterInsert(m: Manager, i: nat, t: Table, born: map<Key, int>, call: Call, k: Key)
    requires i < |m.calls| && m.calls[i].Checked?
    ensures Copies(SetCall(m.(table := t, born := born), i, call), k) == Copies(m, k) + CallKeys(call)[k]
  {
    var m1 := m.(table := t, born := born);
    CopiesIgnoreTable(m, t, born, k);
    CopiesAfterCall(m1, i, call, k);
    assert CallKeys(m1.calls[i])[k] == 0;
  }

  // One copy of k if its row is pending, none otherwise.
  ghost predicate OneCopyOf(m: Manager, k: Key) {
    Copies(m, k) == if IsPending(m.table, k) then 1 else 0
  }

  lemma InsertKeepsCopyOf(m: Manager, i: nat, row: Row, born: map<Key, int>, call: Call, k: Key)
    requires OneCopyOf(m, k) && i < |m.calls| && m.calls[i].Checked? && m.calls[i].key !in m.table
    requires call == if row.status.Pending? then Sending(m.calls[i].key) else Returned
    ensures OneCopyOf(SetCall(m.(table := m.table[m.calls[i].key := row], born := born), i, call), k)
  {
    CopiesAfterInsert(m, i, m.table[m.calls[i].key := row], born, call, k);
  }

  lemma InsertKeepsOneCopy(m: Manager, i: nat, row: Row, born: map<Key, int>)
    requires OneCopyEach(m) && i < |m.calls| && m.calls[i].Checked? && m.calls[i].key !in m.table
    ensures var k := m.calls[i].key;
            OneCopyEach(SetCall(m.(table := m.table[k := row], born := born), i,
                                if row.status.Pending? then Sending(k) else Returned))
  {
    var key := m.calls[i].key;
    var call := if row.status.Pending? then Sending(key) else Returned;
    var m' := SetCall(m.(table := m.table[key := row], born := born), i, call);
    forall k ensures Copies(m', k) == if IsPending(m'.table, k) then 1 else 0 {
      assert OneCopyOf(m, k);
      InsertKeepsCopyOf(m, i, row, born, call, k);
    }
  }

  lemma SendKeepsCopyOf(m: Manager, i: nat, k: Key)
    requires OneCopyOf(m, k) && i < |m.calls| && m.calls[i].Sending?
    ensures OneCopyOf(SetCall(Handed(m, m.calls[i].key, Incoming), i, Returned), k)
  {
    CopiesAfterHand(m, m.calls[i].key, Incoming, k);
    CopiesAfterCall(Handed(m, m.calls[i].key, Incoming), i, Returned, k);
  }

  lemma SendKeepsOneCopy(m: Manager, i: nat)
    requires OneCopyEach(m) && i < |m.calls| && m.calls[i].Sending?
    ensures OneCopyEach(SetCall(Handed(m, m.calls[i].key, Incoming), i, Returned))
  {
    var m' := SetCall(Handed(m, m.calls[i].key, Incoming), i, Returned);
    forall k ensures Copies(m', k) == if IsPending(m'.table, k) then 1 else 0 {
      assert OneCopyOf(m, k);
      SendKeepsCopyOf(m, i, k);
    }
  }

  // However long after the channel was found full, and whatever room there is by now.
  lemma GiveBackKeepsCopyOf(m: Manager, i: nat, now: int, k: Key)
    requires OneCopyOf(m, k) && i < |m.calls| && m.calls[i].CallFull? && IsPending(m.table, m.calls[i].key)
    ensures OneCopyOf(SetCall(GivenBack(m, m.calls[i].key, now), i, Returned), k)
  {
    var m1 := GivenBack(m, m.calls[i].key, now);
    CopiesIgnoreTable(m, m1.table, m.born, k);
    CopiesAfterCall(m1, i, Returned, k);
  }

  lemma GiveBackKeepsOneCopy(m: Manager, i: nat, now: int)
    requires OneCopyEach(m) && i < |m.calls| && m.calls[i].CallFull?
    ensures OneCopyEach(SetCall(GivenBack(m, m.calls[i].key, now), i, Returned))
  {
    CallHoldsPending(m, i);
    var m' := SetCall(GivenBack(m, m.calls[i].key, now), i, Returned);
    forall k ensures Copies(m', k) == if IsPending(m'.table, k) then 1 else 0 {
      assert OneCopyOf(m, k);
      GiveBackKeepsCopyOf(m, i, now, k);
    }
  }

  lemma PollSendKeepsOneCopy(m: Manager, p: Poller)
    requires OneCopyEach(m) && m.poller.Requeuing? && p.Polling?
    ensures OneCopyEach(Handed(m, m.poller.key, Retries).(poller := p))
  {
    var m1 := Handed(m, m.poller.key, Retries);
    forall k ensures Copies(m1.(poller := p), k) == Copies(m, k) {
      CopiesAfterHand(m, m.poller.key, Retries, k);
      assert Copies(m1.(poller := p), k) + PollerKeys(m.poller)[k] == Copies(m1, k);
    }
  }

  lemma PollGiveBackKeepsOneCopy(m: Manager, now: int, p: Poller)
    requires OneCopyEach(m) && m.poller.PollFull? && p.Polling?
    ensures OneCopyEach(GivenBack(m, m.poller.key, now).(poller := p))
  {
    PollerHoldsPending(m);
    var m' := GivenBack(m, m.poller.key, now).(poller := p);
    forall k ensures Copies(m', k) == if IsPending(m'.table, k) then 1 else 0 {
      assert Copies(m, k) == if IsPending(m.table, k) then 1 else 0;
      assert Copies(m', k) + PollerKeys(m.poller)[k] == Copies(m, k);
    }
  }

  // A row that has just become pending goes into a channel, or is given back as failed.
  lemma EnqueueKeepsOneCopy(c: Config, m: Manager, key: Key, t: Table, q: Queue, now: int)
    requires OneCopyEach(m) && !IsPending(m.table, key)
    requires forall k :: IsPending(t, k) <==> IsPending(m.table, k) || k == key
    ensures OneCopyEach(Enqueue(c, m.(table := t), key, q, now))
  {
    var m1 := m.(table := t);
    var m2 := Enqueue(c, m1, key, q, now);
    forall k ensures Copies(m2, k) == if IsPending(m2.table, k) then 1 else 0 {
      CopiesIgnoreTable(m, t, m.born, k);
      CopiesAfterHand(m1, key, q, k);
      CopiesIgnoreTable(m1, m2.table, m.born, k);
      assert Copies(m, k) == if IsPending(m.table, k) then 1 else 0;
    }
  }

  lemma AddKeepsOneCopy(c: Config, m: Manager, key: Key, t: Table, now: int)
    requires OneCopyEach(m) && key !in m.table && key in t && t[key].status.Pending? && t == m.table[key := t[key]]
    ensures OneCopyEach(Enqueue(c, m.(table := t), key, Incoming, now))
  {
    assert forall k :: IsPending(t, k) <==> IsPending(m.table, k) || k == key;
    EnqueueKeepsOneCopy(c, m, key, t, Incoming, now);
  }

  lemma RequeueKeepsOneCopy(c: Config, m: Manager, key: Key, now: int)
    requires OneCopyEach(m) && key in m.table && m.table[key].status.Failed?
    ensures OneCopyEach(Enqueue(c, m.(table := Mark(m.table, key, Pending, now)), key, Retries, now))
  {
    var t := Mark(m.table, key, Pending, now);
    assert forall k :: IsPending(t, k) <==> IsPending(m.table, k) || k == key;
    EnqueueKeepsOneCopy(c, m, key, t, Retries, now);
  }

  lemma PollMarkKeepsOneCopy(m: Manager, now: int)
    requires OneCopyEach(m) && m.poller.Due? && m.poller.key in m.table && m.table[m.poller.key].status.Failed?
    ensures OneCopyEach(m.(table := Mark(m.table, m.poller.key, Pending, now),
                           poller := Requeuing(m.poller.key, m.poller.rest, m.poller.snap)))
  {
    var m' := m.(table := Mark(m.table, m.poller.key, Pending, now),
                 poller := Requeuing(m.poller.key, m.poller.rest, m.poller.snap));
    forall k ensures Copies(m', k) == if IsPending(m'.table, k) then 1 else 0 {
      assert Copies(m', k) == Copies(m, k) + PollerKeys(m'.poller)[k];
    }
  }

  lemma RestKeepsOneCopy(m: Manager, p: Poller)
    requires OneCopyEach(m) && PollerKeys(m.poller) == PollerKeys(p)
    ensures OneCopyEach(m.(poller := p))
  {
    forall k ensures Copies(m.(poller := p), k) == Copies(m, k) { }
  }

  // ---- The poller's list stays right -----------------------------------------------------

  // The rows the poller still has to visit are failed, and only the poller touches failed rows.
  lemma TableChangeKeepsSnapshot(m: Manager, m': Manager)
    requires FreshSnapshot(m) && m'.poller == m.poller
    requires forall k :: k in m.table && m.table[k].status.Failed? ==> k in m'.table && m'.table[k] == m.table[k]
    ensures FreshSnapshot(m')
  {
  }

  lemma PollNextKeepsSnapshot(m: Manager, p: Poller)
    requires FreshSnapshot(m) && m.poller.Polling?
    requires p.Resting? || (m.poller.rest != [] && p == Due(m.poller.rest[0], m.poller.rest[1..], m.poller.snap))
          || (m.poller.rest != [] && p == Polling(m.poller.rest[1..], m.poller.snap))
    ensures FreshSnapshot(m.(poller := p))
  {
    var before, after := Ahead(m.poller), Ahead(p);
    assert !p.Resting? ==> forall i :: 0 <= i < |after| ==> after[i] == before[i + |before| - |after|];
  }

  lemma PollMarkKeepsSnapshot(m: Manager, now: int, p: Poller)
    requires FreshSnapshot(m) && m.poller.Due?
    requires p == Requeuing(m.poller.key, m.poller.rest, m.poller.snap) || p == Polling(m.poller.rest, m.poller.snap)
    ensures FreshSnapshot(m.(table := Mark(m.table, m.poller.key, Pending, now), poller := p))
  {
    var before, rest := Ahead(m.poller), m.poller.rest;
    assert forall i :: 0 <= i < |rest| ==> rest[i] == before[i + 1];
    assert before[0] == m.poller.key;
    forall k | k in rest ensures k in before && k != m.poller.key { }
  }

  // The row the poller gives back is not one it still has to visit: it was pending until now.
  lemma PollGiveBackKeepsSnapshot(m: Manager, now: int)
    requires OneCopyEach(m) && FreshSnapshot(m) && m.poller.PollFull?
    ensures FreshSnapshot(GivenBack(m, m.poller.key, now).(poller := Polling(m.poller.rest, m.poller.snap)))
  {
    PollerHoldsPending(m);
  }

  // ---- Every step ------------------------------------------------------------------------

  lemma CallStepKeepsSnapshot(c: Config, s: State, a: Action, s': State)
    requires RetryInv(Up, s.m) && CallStep(c, s, a, s')
    ensures FreshSnapshot(s'.m)
  {
    if a.GiveBack? { CallHoldsPending(s.m, a.i); }
    TableChangeKeepsSnapshot(s.m, s'.m);
  }

  lemma InsertStepKeepsOneCopy(c: Config, s: State, i: nat, s': State)
    requires OneCopyEach(s.m) && CallStep(c, s, Insert(i), s')
    ensures OneCopyEach(s'.m)
  {
    var key := s.m.calls[i].key;
    if key in s.m.table {
      CallKeepsOneCopy(s.m, i, Returned);
    } else {
      InsertKeepsOneCopy(s.m, i, s'.m.table[key], s'.m.born);
    }
  }

  lemma SendStepKeepsOneCopy(c: Config, s: State, i: nat, s': State)
    requires OneCopyEach(s.m) && CallStep(c, s, Send(i), s')
    ensures OneCopyEach(s'.m)
  {
    if HasRoom(c, s.m, Incoming) {
      SendKeepsOneCopy(s.m, i);
    } else {
      CallKeepsOneCopy(s.m, i, CallFull(s.m.calls[i].key));
    }
  }

  lemma CallStepKeepsOneCopy(c: Config, s: State, a: Action, s': State)
    requires OneCopyEach(s.m) && CallStep(c, s, a, s')
    ensures OneCopyEach(s'.m)
  {
    match a
    case StartWriteBack(key, delay) => NewCallKeepsOneCopy(s.m, Persisted(key, s.now, delay));
    case CheckReady(i) => CallKeepsOneCopy(s.m, i, s'.m.calls[i]);
    case Insert(i) => InsertStepKeepsOneCopy(c, s, i, s');
    case Send(i) => SendStepKeepsOneCopy(c, s, i, s');
    case GiveBack(i) => GiveBackKeepsOneCopy(s.m, i, s.now);
  }

  lemma CallStepKeepsRetryInv(c: Config, s: State, a: Action, s': State)
    requires RetryInv(Up, s.m) && CallStep(c, s, a, s')
    ensures RetryInv(Up, s'.m)
  {
    CallStepKeepsOneCopy(c, s, a, s');
    CallStepKeepsSnapshot(c, s, a, s');
  }

  lemma TakeKeepsRetryInv(m: Manager, w: nat)
    requires RetryInv(Up, m) && w < |m.workers| && m.workers[w].work.Idle? && Channel(m, m.workers[w].queue) != []
    ensures var q := m.workers[w].queue;
            RetryInv(Up, SetChannel(SetWork(m, w, Taken(Channel(m, q)[0])), q, Channel(m, q)[1..]))
  {
    var q := m.workers[w].queue;
    TakeKeepsOneCopy(m, w);
    TableChangeKeepsSnapshot(m, SetChannel(SetWork(m, w, Taken(Channel(m, q)[0])), q, Channel(m, q)[1..]));
  }

  lemma WorkKeepsRetryInv(m: Manager, w: nat, work: Work)
    requires RetryInv(Up, m) && w < |m.workers| && WorkerKeys(m.workers[w]) == WorkerKeys(m.workers[w].(work := work))
    ensures RetryInv(Up, SetWork(m, w, work))
  {
    WorkKeepsOneCopy(m, w, work);
    TableChangeKeepsSnapshot(m, SetWork(m, w, work));
  }

  lemma FinishKeepsRetryInv(m: Manager, w: nat, now: int, ok: bool)
    requires RetryInv(Up, m) && w < |m.workers| && !m.workers[w].work.Idle?
    ensures var key := m.workers[w].work.key;
            RetryInv(Up, SetWork(m, w, Idle).(table := if ok then m.table - {key} else Mark(m.table, key, Failed, now)))
  {
    var key := m.workers[w].work.key;
    var t := if ok then m.table - {key} else Mark(m.table, key, Failed, now);
    WorkerHoldsPending(m, w);
    FinishKeepsOneCopy(m, w, t);
    TableChangeKeepsSnapshot(m, SetWork(m, w, Idle).(table := t));
  }

  // A worker between taking a task and finishing it only moves on.
  lemma WorkerMovesOn(s: State, a: Action, s': State)
    requires WorkerStep(s, a, s') && !a.Take? && !a.Finish?
    ensures var work := s'.m.workers[a.w].work;
            s'.m == SetWork(s.m, a.w, work) &&
              WorkerKeys(s.m.workers[a.w]) == WorkerKeys(s.m.workers[a.w].(work := work))
  {
  }

  lemma WorkerStepKeepsRetryInv(s: State, a: Action, s': State)
    requires RetryInv(Up, s.m) && WorkerStep(s, a, s')
    ensures RetryInv(Up, s'.m)
  {
    if a.Take? {
      TakeKeepsRetryInv(s.m, a.w);
    } else if a.Finish? {
      FinishKeepsRetryInv(s.m, a.w, s.now, s.m.workers[a.w].work.ExecOk?);
    } else {
      WorkerMovesOn(s, a, s');
      WorkKeepsRetryInv(s.m, a.w, s'.m.workers[a.w].work);
    }
  }

  lemma PollStepKeepsOneCopy(c: Config, m: Manager, now: int, a: Action, m': Manager)
    requires RetryInv(Up, m) && PollStep(c, m, now, a, m')
    ensures OneCopyEach(m')
  {
    match a
    case Poll(_) => RestKeepsOneCopy(m, m'.poller);
    case PollNext => RestKeepsOneCopy(m, m'.poller);
    case PollMark =>
      assert Ahead(m.poller)[0] == m.poller.key;
      PollMarkKeepsOneCopy(m, now);
    case PollSend =>
      if HasRoom(c, m, Retries) { PollSendKeepsOneCopy(m, m'.poller); } else { RestKeepsOneCopy(m, m'.poller); }
    case PollGiveBack => PollGiveBackKeepsOneCopy(m, now, m'.poller);
  }

  lemma PollStepKeepsSnapshot(c: Config, m: Manager, now: int, a: Action, m': Manager)
    requires RetryInv(Up, m) && PollStep(c, m, now, a, m')
    ensures FreshSnapshot(m')
  {
    match a
    case Poll(_) =>
    case PollNext => PollNextKeepsSnapshot(m, m'.poller);
    case PollMark => PollMarkKeepsSnapshot(m, now, m'.poller);
    case PollSend =>
    case PollGiveBack => PollGiveBackKeepsSnapshot(m, now);
  }

  lemma PollStepKeepsRetryInv(c: Config, m: Manager, now: int, a: Action, m': Manager)
    requires RetryInv(Up, m) && PollStep(c, m, now, a, m')
    ensures RetryInv(Up, m')
  {
    PollStepKeepsOneCopy(c, m, now, a, m');
    PollStepKeepsSnapshot(c, m, now, a, m');
  }

  lemma CrashLeavesNoCopies(m: Manager)
    ensures NoCopies(m.(incoming := [], retries := [], workers := Stopped(m.workers), calls := [], poller := Resting))
  {
    BagNone(WorkerKeys, Stopped(m.workers));
  }

  lemma EmptyListMeansNonePending(t: Table)
    requires Enumerates([], WithStatus(t, Pending))
    ensures forall k :: !IsPending(t, k)
  {
    forall k ensures !IsPending(t, k) {
      assert k in WithStatus(t, Pending) <==> k in [];
    }
  }

  lemma ProcessStepKeepsRetryInv(s: State, a: Action, s': State)
    requires RetryInv(s.mode, s.m) && ProcessStep(s, a, s')
    ensures RetryInv(s'.mode, s'.m)
  {
    match a
    case Crash => CrashLeavesNoCopies(s.m);
    case Recover =>
      var todo := s.mode.todo;
      assert forall k :: k in todo <==> k == todo[0] || k in todo[1..];
      forall k ensures Copies(s'.m, k) == Copies(s.m, k) { }
    case Start => EmptyListMeansNonePending(s.m.table);
    case _ =>
  }

  lemma StepKeepsRetryInv(c: Config, s: State, a: Action, s': State)
    requires RetryInv(s.mode, s.m) && Next(c, s, a, s')
    ensures RetryInv(s'.mode, s'.m)
  {
    if ProcessStep(s, a, s') {
      ProcessStepKeepsRetryInv(s, a, s');
    } else if CallStep(c, s, a, s') {
      CallStepKeepsRetryInv(c, s, a, s');
    } else if WorkerStep(s, a, s') {
      WorkerStepKeepsRetryInv(s, a, s');
    } else if PollStep(c, s.m, s.now, a, s'.m) {
      PollStepKeepsRetryInv(c, s.m, s.now, a, s'.m);
    }
  }

  // ---- Whole runs ------------------------------------------------------------------------

  // In every reachable state of a running manager each pending row has exactly one copy among
  // the channels, the workers and the enqueues in progress, and each failed row has none.
  lemma {:induction false} OneCopyInEveryRun(c: Config, r: Run, n: nat)
    requires ValidRun(c, r) && n < |r.states|
    ensures RetryInv(r.states[n].mode, r.states[n].m)
    ensures r.states[n].mode.Up? ==> OneCopyEach(r.states[n].m)
  {
    if n == 0 {
      BagNone(WorkerKeys, r.states[0].m.workers);
    } else {
      OneCopyInEveryRun(c, r, n - 1);
      StepKeepsRetryInv(c, r.states[n - 1], r.actions[n - 1], r.states[n]);
    }
  }

  // No key is ever executed by two workers at once.
  lemma NoKeyRunsTwice(c: Config, r: Run, n: nat, v: nat, w: nat)
    requires ValidRun(c, r) && n < |r.states| && v < w < |r.states[n].m.workers|
    requires !r.states[n].m.workers[v].work.Idle? && !r.states[n].m.workers[w].work.Idle?
    ensures r.states[n].m.workers[v].work.key != r.states[n].m.workers[w].work.key
  {
    OneCopyInEveryRun(c, r, n);
    var m := r.states[n].m;
    BagTwo(WorkerKeys, m.workers, v, w);
    var k := m.workers[v].work.key;
    assert (WorkerKeys(m.workers[v]) + WorkerKeys(m.workers[w]))[k] <= Copies(m, k) <= 1;
  }

  lemma RecoveredMeansAllFailed(m: Manager)
    requires RetryInv(Recovering([]), m)
    ensures NoCopies(m) && forall k :: k in m.table ==> m.table[k].status.Failed?
  {
    EmptyListMeansNonePending(m.table);
    assert forall k :: k in m.table ==> !IsPending(m.table, k);
  }

  lemma StartChangesOnlyMode(c: Config, s: State, s': State)
    requires Next(c, s, Start, s')
    ensures s.mode == Recovering([]) && s'.mode.Up? && s'.m == s.m
  {
  }

  // A manager comes up with every row failed and nothing queued.
  lemma StartsWithAllFailed(c: Config, r: Run, n: nat)
    requires ValidRun(c, r) && n < |r.actions| && r.actions[n] == Start
    ensures var m := r.states[n + 1].m;
            && r.states[n + 1].mode.Up? && NoCopies(m)
            && forall k :: k in m.table ==> m.table[k].status.Failed?
  {
    OneCopyInEveryRun(c, r, n);
    StartChangesOnlyMode(c, r.states[n], r.states[n + 1]);
    RecoveredMeansAllFailed(r.states[n].m);
  }

  // The step that removes a row is a worker's, for a task whose Exec has just returned nil.
  ghost predicate Completes(s: State, a: Action, k: Key) {
    a.Finish? && a.w < |s.m.workers| && s.m.workers[a.w].work == ExecOk(k)
  }

  lemma CallsRemoveNoRows(c: Config, s: State, a: Action, s': State)
    requires CallStep(c, s, a, s')
    ensures s.m.table.Keys <= s'.m.table.Keys
  {
  }

  lemma PollRemovesNoRows(c: Config, m: Manager, now: int, a: Action, m': Manager)
    requires PollStep(c, m, now, a, m')
    ensures m.table.Keys <= m'.table.Keys
  {
  }

  lemma WorkerRemovesItsRow(s: State, a: Action, s': State, k: Key)
    requires WorkerStep(s, a, s') && k in s.m.table && k !in s'.m.table
    ensures Completes(s, a, k)
  {
  }

  lemma RowsLeaveByCompletion(c: Config, s: State, a: Action, s': State, k: Key)
    requires Next(c, s, a, s') && k in s.m.table && k !in s'.m.table
    ensures Completes(s, a, k)
  {
    if CallStep(c, s, a, s') {
      CallsRemoveNoRows(c, s, a, s');
    } else if WorkerStep(s, a, s') {
      WorkerRemovesItsRow(s, a, s', k);
    } else if PollStep(c, s.m, s.now, a, s'.m) {
      PollRemovesNoRows(c, s.m, s.now, a, s'.m);
    }
  }

  // A row present at one moment and absent later was removed in between by a completion,
  // whatever closes, crashes and restarts happened.
  lemma {:induction false} RowsStayUntilExecuted(c: Config, r: Run, i: nat, j: nat, k: Key)
    requires ValidRun(c, r) && i <= j < |r.states|
    requires k in r.states[i].m.table && k !in r.states[j].m.table
    ensures exists n :: i <= n < j && Completes(r.states[n], r.actions[n], k)
  {
    if k in r.states[j - 1].m.table {
      RowsLeaveByCompletion(c, r.states[j - 1], r.actions[j - 1], r.states[j], k);
      assert Completes(r.states[j - 1], r.actions[j - 1], k);
    } else {
      RowsStayUntilExecuted(c, r, i, j - 1, k);
    }
  }

  // Add returns nil for k: its row was there already, or is stored for later, queued, or given back.
  ghost predicate Accepts(c: Config, s: State, a: Action, k: Key) {
    (a.Insert? || a.Send? || a.GiveBack?) && a.i < |s.m.calls| &&
    var p := s.m.calls[a.i];
    || (a.Insert? && p.Checked? && p.key == k && (k in s.m.table || !p.ready))
    || (a.Send? && p.Sending? && p.key == k && HasRoom(c, s.m, Incoming))
    || (a.GiveBack? && p.CallFull? && p.key == k)
  }

  lemma AcceptingIsACallStep(c: Config, s: State, a: Action, s': State, k: Key)
    requires Next(c, s, a, s') && Accepts(c, s, a, k)
    ensures s.mode.Up? && CallStep(c, s, a, s')
  {
  }

  lemma AcceptingStepLeavesRow(c: Config, s: State, a: Action, s': State, k: Key)
    requires CallStep(c, s, a, s') && OneCopyEach(s.m) && Accepts(c, s, a, k)
    ensures k in s'.m.table && k in s'.accepted
  {
    if !a.Insert? { CallHoldsPending(s.m, a.i); }
  }

  // Whenever Add returns nil, for the first time or again, its row is in the store.
  lemma AcceptedHasRow(c: Config, r: Run, n: nat, k: Key)
    requires ValidRun(c, r) && n < |r.actions| && Accepts(c, r.states[n], r.actions[n], k)
    ensures k in r.states[n + 1].m.table && k in r.states[n + 1].accepted
  {
    OneCopyInEveryRun(c, r, n);
    AcceptingIsACallStep(c, r.states[n], r.actions[n], r.states[n + 1], k);
    AcceptingStepLeavesRow(c, r.states[n], r.actions[n], r.states[n + 1], k);
  }

  // From each time Add returns nil the row stays in the store until an Exec of it has returned nil.
  lemma AcceptedUntilExecuted(c: Config, r: Run, i: nat, j: nat, k: Key)
    requires ValidRun(c, r) && i < j < |r.states| && Accepts(c, r.states[i], r.actions[i], k)
    ensures k in r.states[j].m.table || exists n :: i < n < j && Completes(r.states[n], r.actions[n], k)
  {
    AcceptedHasRow(c, r, i, k);
    if k !in r.states[j].m.table { RowsStayUntilExecuted(c, r, i + 1, j, k); }
  }

  lemma CallAcceptsIff(c: Config, s: State, a: Action, s': State, k: Key)
    requires CallStep(c, s, a, s') && k !in s.accepted
    ensures k in s'.accepted <==> Accepts(c, s, a, k)
  {
  }

  lemma OthersAcceptNothing(c: Config, s: State, a: Action, s': State)
    requires Next(c, s, a, s') && !CallStep(c, s, a, s')
    ensures s'.accepted == s.accepted
  {
  }

  // The set of accepted keys is what those events say, and nothing else.
  lemma OnlyAddAccepts(c: Config, s: State, a: Action, s': State, k: Key)
    requires Next(c, s, a, s') && k in s'.accepted && k !in s.accepted
    ensures Accepts(c, s, a, k)
  {
    if CallStep(c, s, a, s') { CallAcceptsIff(c, s, a, s', k); } else { OthersAcceptNothing(c, s, a, s'); }
  }
}
