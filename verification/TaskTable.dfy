/**
  The persisted task table of the write-back store: one row per (namespace, name), with the
  four updates the retry manager makes to it. The SQL statements become operations on a map;
  `CURRENT_TIMESTAMP` is a whole number of seconds, so stored times are rounded down.
*/
module TaskTable {
  import opened Seqs

  datatype Key = Key(ns: string, name: string)

  datatype Status = Pending | Failed

  datatype Row = Row(status: Status, failures: nat, createdAt: int, lastAttempt: int, delay: int)

  type Table = map<Key, Row>

  datatype Error = TaskExists | TaskNotFound

  datatype Outcome = Ok | Err(error: Error)

  // Nanoseconds in one second, the resolution of a stored timestamp.
  const SECOND: int := 1_000_000_000

  function CurrentTimestamp(now: int): (t: int)
    ensures t <= now < t + SECOND && t % SECOND == 0
  {
    now - now % SECOND
  }

  // A new row: `last_attempt` and `failures` come from a fresh task, `created_at` is the column
  // default. A fresh task has the zero time as its last attempt.
  function NewRow(status: Status, now: int, delay: int, zeroTime: int): Row {
    Row(status, 0, CurrentTimestamp(now), zeroTime, delay)
  }

  function Mark(t: Table, k: Key, status: Status, now: int): Table {
    if k !in t then t
    else if status.Pending? then t[k := t[k].(status := Pending)]
    else t[k := t[k].(status := Failed, failures := t[k].failures + 1, lastAttempt := CurrentTimestamp(now))]
  }

  function WithStatus(t: Table, status: Status): set<Key> {
    set k | k in t && t[k].status == status
  }

  predicate Elapsed(since: int, delay: int, now: int) {
    now - since >= delay
  }

  predicate Ready(r: Row, now: int) {
    Elapsed(r.createdAt, r.delay, now)
  }

  // What pollRetries asks of a failed row before it is queued again.
  predicate RetryDue(r: Row, now: int, retryInterval: int) {
    Ready(r, now) && now - r.lastAttempt > retryInterval
  }

  // `ks` lists the keys of `keys`, each once, in some order.
  ghost predicate Enumerates<T(!new)>(ks: seq<T>, keys: set<T>) {
    Distinct(ks) && (forall k :: k in ks <==> k in keys)
  }

  // The store itself. Every method is one SQL statement, hence one atomic step.
  class TaskStore {
    var rows: Table

    constructor ()
      ensures rows == map[]
    {
      rows := map[];
    }

    method AddWithStatus(k: Key, status: Status, now: int, delay: int, zeroTime: int) returns (r: Outcome)
      modifies this
      ensures r == (if k in old(rows) then Err(TaskExists) else Ok)
      ensures rows == if k in old(rows) then old(rows) else old(rows)[k := NewRow(status, now, delay, zeroTime)]
    {
      if k in rows { return Err(TaskExists); }
      rows := rows[k := NewRow(status, now, delay, zeroTime)];
      return Ok;
    }

    method MarkPending(k: Key) returns (r: Outcome)
      modifies this
      ensures r == (if k in old(rows) then Ok else Err(TaskNotFound))
      ensures rows == Mark(old(rows), k, Pending, 0)
      ensures k in old(rows) ==> rows == old(rows)[k := old(rows)[k].(status := Pending)]
    {
      if k !in rows { return Err(TaskNotFound); }
      rows := rows[k := rows[k].(status := Pending)];
      return Ok;
    }

    method MarkFailed(k: Key, now: int) returns (r: Outcome)
      modifies this
      ensures r == (if k in old(rows) then Ok else Err(TaskNotFound))
      ensures rows == Mark(old(rows), k, Failed, now)
      ensures k in old(rows) ==> rows == old(rows)[k := old(rows)[k].(
        status := Failed, failures := old(rows)[k].failures + 1, lastAttempt := CurrentTimestamp(now))]
    {
      if k !in rows { return Err(TaskNotFound); }
      var row := rows[k];
      rows := rows[k := row.(status := Failed, failures := row.failures + 1, lastAttempt := CurrentTimestamp(now))];
      return Ok;
    }

    method Remove(k: Key)
      modifies this
      ensures rows == old(rows) - {k}
    {
      rows := rows - {k};
    }

    // SELECT ... WHERE status = ?
    method SelectStatus(status: Status) returns (ks: seq<Key>)
      ensures Distinct(ks) && forall k :: k in ks <==> k in rows && rows[k].status == status
    {
      ks := [];
      var todo := WithStatus(rows, status);
      while todo != {}
        invariant todo <= WithStatus(rows, status)
        invariant Enumerates(ks, WithStatus(rows, status) - todo)
        decreases todo
      {
        var k :| k in todo;
        ks, todo := ks + [k], todo - {k};
      }
    }
  }

  // A stored creation time can lie up to a second before the insertion it records, so the delay
  // of a task that was not ready when inserted can end early. It never does exactly when the
  // rounding does not go back past its own creation time.
  lemma DelayRespectedIff(created: int, inserted: int, delay: int)
    requires created <= inserted && !Elapsed(created, delay, inserted)
    ensures (forall now :: now >= inserted && Elapsed(CurrentTimestamp(inserted), delay, now) ==>
      Elapsed(created, delay, now))
       <==> CurrentTimestamp(inserted) >= created
  {
    var stored := CurrentTimestamp(inserted);
    if stored < created {
      var early := if stored + delay < inserted then inserted else stored + delay;
      assert early >= inserted && Elapsed(stored, delay, early) && !Elapsed(created, delay, early);
    }
  }
}
