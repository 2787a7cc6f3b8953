/**
  The retry manager and the write-back executor as objects. Each method is what one goroutine
  does when nothing interferes; the pieces it is made of are the steps of the state machine in
  module WriteBack, and between calls every pending row has exactly one queued copy.
*/
module RetryManager {
  import TT = TaskTable
  import WB = WriteBack
  import RP = RetryProofs

  datatype AddResult = Added | ManagerClosed

  function FailedAgain(row: TT.Row, now: int): TT.Row {
    row.(status := TT.Failed, failures := row.failures + 1, lastAttempt := TT.CurrentTimestamp(now))
  }

  // What a restart makes of a row: a pending one has failed once more.
  function Recovered(row: TT.Row, now: int): TT.Row {
    if row.status.Failed? then row else FailedAgain(row, now)
  }

  class Manager {
    const config: WB.Config
    const store: TT.TaskStore
    var incoming: seq<TT.Key>
    var retries: seq<TT.Key>
    var closed: bool

    // What the state machine sees when no call, worker or poller is under way.
    ghost function View(): WB.Manager
      reads this, store
    {
      WB.Manager(store.rows, map[], incoming, retries, [], [], WB.Resting)
    }

    ghost predicate Valid()
      reads this, store
    {
      WB.OneCopyEach(View())
    }

    // NewManager: whatever the store still calls pending was lost with the old process.
    constructor (config: WB.Config, store: TT.TaskStore, now: int)
      modifies store
      ensures this.config == config && this.store == store
      ensures Valid() && incoming == [] && retries == [] && !closed
      ensures store.rows.Keys == old(store.rows).Keys
      ensures forall k :: k in store.rows ==> store.rows[k] == Recovered(old(store.rows)[k], now)
    {
      this.config, this.store := config, store;
      incoming, retries, closed := [], [], false;
      new;
      MarkPendingTasksAsFailed(now);
      forall k ensures WB.Copies(View(), k) == 0 { }
    }

    method MarkPendingTasksAsFailed(now: int)
      modifies store
      ensures store.rows.Keys == old(store.rows).Keys
      ensures forall k :: k in store.rows ==> store.rows[k] == Recovered(old(store.rows)[k], now)
    {
      var tasks := store.SelectStatus(TT.Pending);
      ghost var before := store.rows;
      assert forall k :: k in before ==> (k in tasks <==> k in TT.WithStatus(before, TT.Pending));
      for i := 0 to |tasks|
        invariant store.rows.Keys == before.Keys
        invariant forall k :: k in before ==>
          store.rows[k] == if k in tasks[..i] then Recovered(before[k], now) else before[k]
      {
        assert tasks[i] in tasks;
        assert tasks[..i + 1] == tasks[..i] + [tasks[i]];
        var _ := store.MarkFailed(tasks[i], now);
      }
      assert tasks[..|tasks|] == tasks;
    }

    method Enqueue(k: TT.Key, q: WB.Queue, now: int)
      modifies this`incoming, this`retries, store
      ensures View() == WB.Enqueue(config, old(View()), k, q, now)
    {
      if q.Incoming? {
        if |incoming| < config.incomingCap { incoming := incoming + [k]; return; }
      } else {
        if |retries| < config.retryCap { retries := retries + [k]; return; }
      }
      var _ := store.MarkFailed(k, now);
    }

    // A new task is stored, and queued at once if its delay is over; an existing one is left alone.
    method Add(k: TT.Key, created: int, delay: int, now: int) returns (r: AddResult)
      requires Valid()
      modifies this`incoming, this`retries, store
      ensures Valid()
      ensures r == if closed then ManagerClosed else Added
      ensures closed || k in old(store.rows) ==> View() == old(View())
      ensures r.Added? ==> k in store.rows
      ensures forall j :: j != k ==> (j in store.rows <==> j in old(store.rows)) &&
                                     (j in store.rows ==> store.rows[j] == old(store.rows)[j])
      ensures r.Added? && k !in old(store.rows) ==>
        && retries == old(retries)
        && var ready, room := now - created >= delay, |old(incoming)| < config.incomingCap;
           && incoming == (if ready && room then old(incoming) + [k] else old(incoming))
           && store.rows[k] == AddedRow(ready, room, delay, now)
    {
      if closed { return ManagerClosed; }
      r := Added;
      var ready := TT.Elapsed(created, delay, now);
      var err := store.AddWithStatus(k, if ready then TT.Pending else TT.Failed, now, delay, config.zeroTime);
      if err.Err? { return; }
      ghost var before := old(View());
      if ready {
        Enqueue(k, WB.Incoming, now);
        RP.AddKeepsOneCopy(config, before, k, before.table[k := TT.NewRow(TT.Pending, now, delay, config.zeroTime)],
          now);
      } else {
        forall j ensures WB.Copies(View(), j) == WB.Copies(before, j) {
          RP.CopiesIgnoreTable(before, store.rows, before.born, j);
        }
      }
    }

    // A new row has no failures and has never been attempted, unless it was ready and found the
    // channel full: that counts as a failed attempt.
    ghost function AddedRow(ready: bool, room: bool, delay: int, now: int): TT.Row {
      var t := TT.CurrentTimestamp(now);
      if ready && room then TT.Row(TT.Pending, 0, t, config.zeroTime, delay)
      else if ready then TT.Row(TT.Failed, 1, t, t, delay)
      else TT.Row(TT.Failed, 0, t, config.zeroTime, delay)
    }

    // One failed task goes back to the retry channel, or stays failed if that is full.
    method Retry(k: TT.Key, now: int)
      requires Valid() && k in store.rows && store.rows[k].status.Failed?
      modifies this`incoming, this`retries, store
      ensures Valid() && incoming == old(incoming)
      ensures store.rows.Keys == old(store.rows).Keys
      ensures forall j :: j in store.rows && j != k ==> store.rows[j] == old(store.rows)[j]
      ensures if |old(retries)| < config.retryCap
              then retries == old(retries) + [k] && store.rows[k] == old(store.rows)[k].(status := TT.Pending)
              else retries == old(retries) && store.rows[k] == old(store.rows)[k].(
                failures := old(store.rows)[k].failures + 1, lastAttempt := TT.CurrentTimestamp(now))
    {
      ghost var before := View();
      var _ := store.MarkPending(k);
      Enqueue(k, WB.Retries, now);
      RP.RequeueKeepsOneCopy(config, before, k, now);
    }

    method RetryIfDue(k: TT.Key, now: int) returns (queued: bool)
      requires Valid() && k in store.rows && store.rows[k].status.Failed?
      modifies this`incoming, this`retries, store
      ensures Valid() && incoming == old(incoming)
      ensures retries == old(retries) + if queued then [k] else []
      ensures store.rows.Keys == old(store.rows).Keys
      ensures forall j :: j in store.rows && j != k ==> store.rows[j] == old(store.rows)[j]
      ensures PollOutcome(old(store.rows)[k], store.rows[k], now, queued)
      ensures Waited(old(store.rows)[k], now) ==> (queued <==> |old(retries)| < config.retryCap)
    {
      queued := false;
      if TT.RetryDue(store.rows[k], now, config.retryInterval) {
        queued := |retries| < config.retryCap;
        Retry(k, now);
      }
    }

    // A failed row is queued again, or charged one more failure if there is no room, exactly if its
    // delay is over and its last attempt more than the retry interval ago; no other row changes.
    method PollRetries(now: int)
      requires Valid()
      modifies this`incoming, this`retries, store
      ensures Valid() && incoming == old(incoming)
      ensures old(retries) <= retries && store.rows.Keys == old(store.rows).Keys
      ensures forall k :: k in store.rows ==>
        PollOutcome(old(store.rows)[k], store.rows[k], now, k in retries[|old(retries)|..])
      ensures forall k :: k in store.rows ==>
        (store.rows[k] != old(store.rows)[k] || k in retries[|old(retries)|..] <==>
         old(store.rows)[k].status.Failed? && Waited(old(store.rows)[k], now))
      ensures forall k :: k in store.rows && old(store.rows)[k].status.Failed? && Waited(old(store.rows)[k], now) ==>
        k in retries[|old(retries)|..] || |retries| >= config.retryCap
    {
      var tasks := store.SelectStatus(TT.Failed);
      ghost var before := store.rows;
      ghost var done, sent := {}, [];
      for i := 0 to |tasks|
        invariant Valid() && incoming == old(incoming) && retries == old(retries) + sent
        invariant store.rows.Keys == before.Keys
        invariant forall j :: 0 <= j < |tasks| ==> (tasks[j] in done <==> j < i)
        invariant forall k :: k in done ==> k in before && before[k].status.Failed?
        invariant forall k :: k in done ==> PollOutcome(before[k], store.rows[k], now, k in sent)
        invariant forall k :: k in before && k !in done ==> store.rows[k] == before[k] && k !in sent
        invariant forall k :: k in done && Waited(before[k], now) ==> k in sent || |retries| >= config.retryCap
      {
        var k := tasks[i];
        assert k in TT.WithStatus(before, TT.Failed);
        var queued := RetryIfDue(k, now);
        done := done + {k};
        if queued { sent := sent + [k]; }
      }
      assert retries[|old(retries)|..] == sent;
      forall k | k in before && k !in done ensures !before[k].status.Failed? {
        assert k in TT.WithStatus(before, TT.Failed) <==> k in tasks;
      }
    }

    ghost predicate Waited(row: TT.Row, now: int) {
      now - row.createdAt >= row.delay && now - row.lastAttempt > config.retryInterval
    }

    ghost predicate PollOutcome(before: TT.Row, after: TT.Row, now: int, queued: bool) {
      if before.status.Failed? && Waited(before, now) then
        || (queued && after == before.(status := TT.Pending))
        || (!queued && after == before.(failures := before.failures + 1, lastAttempt := TT.CurrentTimestamp(now)))
      else !queued && after == before
    }

    // One turn of a worker: take a task, execute it (`ok` is the executor's answer), and either
    // remove the row or mark it failed.
    method Work(q: WB.Queue, ok: bool, now: int)
      requires Valid() && (if q.Incoming? then incoming else retries) != []
      modifies this`incoming, this`retries, store
      ensures Valid()
      ensures if q.Incoming? then incoming == old(incoming)[1..] && retries == old(retries)
              else retries == old(retries)[1..] && incoming == old(incoming)
      ensures var k := old(if q.Incoming? then incoming else retries)[0];
              && k in old(store.rows)
              && store.rows == if ok then old(store.rows) - {k}
                               else old(store.rows)[k := FailedAgain(old(store.rows)[k], now)]
    {
      ghost var before := View();
      RP.HeadIsPending(before, q);
      var k := Take(q);
      ghost var m1 := View();
      if ok { store.Remove(k); } else { var _ := store.MarkFailed(k, now); }
      ghost var t := store.rows;
      assert View() == m1.(table := t);
      forall j ensures WB.Copies(View(), j) == if WB.IsPending(t, j) then 1 else 0 {
        RP.CopiesAfterPop(before, q, j);
        RP.CopiesIgnoreTable(m1, t, m1.born, j);
        assert WB.Copies(before, j) == if WB.IsPending(before.table, j) then 1 else 0;
      }
    }

    method Take(q: WB.Queue) returns (k: TT.Key)
      requires WB.Channel(View(), q) != []
      modifies this`incoming, this`retries
      ensures k == old(WB.Channel(View(), q)[0]) && View() == old(WB.SetChannel(View(), q, WB.Channel(View(), q)[1..]))
    {
      if q.Incoming? {
        k, incoming := incoming[0], incoming[1..];
      } else {
        k, retries := retries[0], retries[1..];
      }
    }

    method Close()
      modifies this`closed
      ensures closed
    {
      closed := true;
    }
  }
}
