/**
  Write-back of uploaded blobs: Server.writeBack, the persisted retry manager, the write-back
  executor and the parts of the cache store they rely on, as one state machine. A step is one
  store call, one channel operation, one metadata operation or one locked file-map operation;
  any goroutine may take the next step, and the process may crash between any two.
*/
module WriteBack {
  import opened Seqs
  import opened Sums
  import opened TaskTable

  // Channel capacities, the retry interval, the zero time of a fresh task, and the namespace
  // each name belongs to (used only to say that names are not shared between namespaces).
  datatype Config = Config(incomingCap: nat, retryCap: nat, retryInterval: int, zeroTime: int, nsOf: string -> string)

  datatype Queue = Incoming | Retries

  // Progress of one worker through manager.exec and Executor.Exec.
  datatype Work =
    | Idle
    | Taken(key: Key)       // received from the channel
    | Missed(key: Key)      // Stat did not find the blob (or failed)
    | Window(key: Key)      // reloadFileEntryHelper found the file, LoadForRead has not run yet
    | Opened(key: Key)      // holds an open reader
    | Uploaded(key: Key)    // upload returned nil
    | ExecOk(key: Key)      // Exec returned nil
    | ExecFailed(key: Key)  // Exec returned an error

  datatype Worker = Worker(queue: Queue, work: Work)

  // Progress of one writeBack call; `created` and `delay` belong to its task.
  datatype Call =
    | Returned
    | Persisted(key: Key, created: int, delay: int)
    | Checked(key: Key, created: int, delay: int, ready: bool)
    | Sending(key: Key)
    | CallFull(key: Key)     // found the channel full, about to mark the row failed

  // Progress of pollRetries: the rest of the list it is going through, and the rows as
  // GetFailed saw them.
  datatype Poller =
    | Resting
    | Polling(rest: seq<Key>, snap: Table)
    | Due(key: Key, rest: seq<Key>, snap: Table)
    | Requeuing(key: Key, rest: seq<Key>, snap: Table)
    | PollFull(key: Key, rest: seq<Key>, snap: Table)

  datatype Mode = Up | Down | Recovering(todo: seq<Key>)

  // What the manager holds: the stored rows, the two channels, and its goroutines.
  datatype Manager = Manager(
    table: Table,
    born: map<Key, int>,     // when each row's write-back was asked for; not stored by the system
    incoming: seq<Key>,
    retries: seq<Key>,
    workers: seq<Worker>,
    calls: seq<Call>,
    poller: Poller)

  datatype Files = Files(
    disk: set<string>,       // names with a data file in the cache directory
    cached: set<string>,     // names in the in-memory file map
    persist: set<string>)    // names whose persist metadata is true

  datatype State = State(
    mode: Mode,
    closed: bool,
    now: int,
    m: Manager,
    f: Files,
    backend: set<Key>,
    accepted: set<Key>)      // tasks for which Manager.Add has returned nil

  datatype Action =
    | Tick(time: int)
    | Commit(name: string) | Reload(name: string) | RemoveFile(name: string)
    | StartWriteBack(key: Key, delay: int) | CheckReady(i: nat) | Insert(i: nat)
    | Send(i: nat) | GiveBack(i: nat)
    | Take(w: nat) | Stat(w: nat, hit: bool) | LookUp(w: nat) | Load(w: nat) | Upload(w: nat)
    | ClearPersist(w: nat, found: bool) | ExecError(w: nat) | Finish(w: nat)
    | Poll(keys: seq<Key>) | PollNext | PollMark | PollSend | PollGiveBack
    | Close | Crash | Restart(keys: seq<Key>) | Recover | Start

  function Channel(m: Manager, q: Queue): seq<Key> {
    if q.Incoming? then m.incoming else m.retries
  }

  function SetChannel(m: Manager, q: Queue, ks: seq<Key>): Manager {
    if q.Incoming? then m.(incoming := ks) else m.(retries := ks)
  }

  predicate HasRoom(c: Config, m: Manager, q: Queue) {
    |Channel(m, q)| < if q.Incoming? then c.incomingCap else c.retryCap
  }

  function Handed(m: Manager, k: Key, q: Queue): Manager {
    SetChannel(m, q, Channel(m, q) + [k])
  }

  function GivenBack(m: Manager, k: Key, now: int): Manager {
    m.(table := Mark(m.table, k, Failed, now))
  }

  // enqueue, undisturbed: hand over if there is room, else give the row back as failed. In the
  // state machine the select statement and the store call are two steps.
  function Enqueue(c: Config, m: Manager, k: Key, q: Queue, now: int): Manager {
    if HasRoom(c, m, q) then Handed(m, k, q) else GivenBack(m, k, now)
  }

  function SetWork(m: Manager, w: nat, work: Work): Manager
    requires w < |m.workers|
  {
    m.(workers := m.workers[w := m.workers[w].(work := work)])
  }

  function SetCall(m: Manager, i: nat, call: Call): Manager
    requires i < |m.calls|
  {
    m.(calls := m.calls[i := call])
  }

  function Stopped(ws: seq<Worker>): seq<Worker> {
    seq(|ws|, i requires 0 <= i < |ws| => ws[i].(work := Idle))
  }

  // ---- The steps -------------------------------------------------------------------------

  // Steps of the cache store: uploads, reloads, and removals.
  ghost predicate FileStep(f: Files, a: Action, f': Files) {
    match a
    // uploader.commit moves a verified upload into the cache.
    case Commit(n) => n !in f.disk && f' == f.(disk := f.disk + {n}, cached := f.cached + {n})
    case Reload(n) => n in f.disk && f' == f.(cached := f.cached + {n})
    // Eviction, cleanup and delete requests: the entry leaves the map even if its file stays.
    case RemoveFile(n) =>
      n in f.cached && f' == f.(cached := f.cached - {n}, disk := if n in f.persist then f.disk else f.disk - {n})
    case _ => false
  }

  // Steps of a writeBack call.
  ghost predicate CallStep(c: Config, s: State, a: Action, s': State) {
    match a
    case StartWriteBack(k, delay) =>
      k.name in s.f.cached &&
      s' == s.(f := s.f.(persist := s.f.persist + {k.name}),
        m := s.m.(calls := s.m.calls + [Persisted(k, s.now, delay)]))
    case CheckReady(i) =>
      i < |s.m.calls| && s.m.calls[i].Persisted? &&
      var p := s.m.calls[i];
      s' == s.(m := SetCall(s.m, i, if s.closed then Returned
                                    else Checked(p.key, p.created, p.delay, Elapsed(p.created, p.delay, s.now))))
    // AddPending or AddFailed; an existing row makes Add succeed without doing anything.
    case Insert(i) =>
      i < |s.m.calls| && s.m.calls[i].Checked? &&
      var p := s.m.calls[i];
      if p.key in s.m.table then
        s' == s.(m := SetCall(s.m, i, Returned), accepted := s.accepted + {p.key})
      else
        var row := NewRow(if p.ready then Pending else Failed, s.now, p.delay, c.zeroTime);
        var m1 := s.m.(table := s.m.table[p.key := row], born := s.m.born[p.key := p.created]);
        if p.ready then s' == s.(m := SetCall(m1, i, Sending(p.key)))
        else s' == s.(m := SetCall(m1, i, Returned), accepted := s.accepted + {p.key})
    case Send(i) =>
      i < |s.m.calls| && s.m.calls[i].Sending? &&
      var k := s.m.calls[i].key;
      if HasRoom(c, s.m, Incoming) then
        s' == s.(m := SetCall(Handed(s.m, k, Incoming), i, Returned), accepted := s.accepted + {k})
      else
        s' == s.(m := SetCall(s.m, i, CallFull(k)))
    case GiveBack(i) =>
      i < |s.m.calls| && s.m.calls[i].CallFull? &&
      var k := s.m.calls[i].key;
      s' == s.(m := SetCall(GivenBack(s.m, k, s.now), i, Returned), accepted := s.accepted + {k})
    case _ => false
  }

  // Steps of one worker.
  ghost predicate WorkerStep(s: State, a: Action, s': State) {
    (a.Take? || a.Stat? || a.LookUp? || a.Load? || a.Upload? || a.ClearPersist? || a.ExecError? || a.Finish?) &&
    a.w < |s.m.workers| &&
    var w, work := a.w, s.m.workers[a.w].work;
    match a
    case Take(_) =>
      work.Idle? &&
      var q := s.m.workers[w].queue;
      Channel(s.m, q) != [] &&
      s' == s.(m := SetChannel(SetWork(s.m, w, Taken(Channel(s.m, q)[0])), q, Channel(s.m, q)[1..]))
    case Stat(_, hit) =>
      work.Taken? && (hit ==> work.key in s.backend) &&
      s' == s.(m := SetWork(s.m, w, if hit then Uploaded(work.key) else Missed(work.key)))
    // GetCacheFileReader, first half: find the entry, reloading it from disk if need be. A
    // missing file drops the write-back.
    case LookUp(_) =>
      work.Missed? &&
      if work.key.name in s.f.disk then
        s' == s.(m := SetWork(s.m, w, Window(work.key)), f := s.f.(cached := s.f.cached + {work.key.name}))
      else
        s' == s.(m := SetWork(s.m, w, Uploaded(work.key)))
    // GetCacheFileReader, second half: an entry that has left the map reads as a missing file.
    case Load(_) =>
      work.Window? &&
      s' == s.(m := SetWork(s.m, w, if work.key.name in s.f.cached then Opened(work.key) else Uploaded(work.key)))
    case Upload(_) =>
      work.Opened? &&
      s' == s.(m := SetWork(s.m, w, Uploaded(work.key)), backend := s.backend + {work.key})
    // DeleteCacheFileMetadata; a missing file or entry is not an error here.
    case ClearPersist(_, found) =>
      work.Uploaded? && (found ==> work.key.name in s.f.disk) &&
      s' == s.(m := SetWork(s.m, w, ExecOk(work.key)),
               f := if found then s.f.(persist := s.f.persist - {work.key.name},
                 cached := s.f.cached + {work.key.name}) else s.f)
    case ExecError(_) =>
      (work.Taken? || work.Missed? || work.Window? || work.Opened? || work.Uploaded?) &&
      s' == s.(m := SetWork(s.m, w, ExecFailed(work.key)))
    case Finish(_) =>
      (work.ExecOk? || work.ExecFailed?) &&
      s' == s.(m := SetWork(s.m, w, Idle).(table :=
        if work.ExecOk? then s.m.table - {work.key} else Mark(s.m.table, work.key, Failed, s.now)))
    case _ => false
  }

  // Steps of pollRetries.
  ghost predicate PollStep(c: Config, m: Manager, now: int, a: Action, m': Manager) {
    match a
    case Poll(keys) =>
      m.poller.Resting? && Enumerates(keys, WithStatus(m.table, Failed)) && m' == m.(poller := Polling(keys, m.table))
    case PollNext =>
      m.poller.Polling? &&
      var Polling(rest, snap) := m.poller;
      m' == m.(poller :=
        if rest == [] then Resting
        else if rest[0] in snap && RetryDue(snap[rest[0]], now, c.retryInterval) then Due(rest[0], rest[1..], snap)
        else Polling(rest[1..], snap))
    case PollMark =>
      m.poller.Due? &&
      var Due(k, rest, snap) := m.poller;
      m' == m.(table := Mark(m.table, k, Pending, now),
               poller := if k in m.table then Requeuing(k, rest, snap) else Polling(rest, snap))
    case PollSend =>
      m.poller.Requeuing? &&
      var Requeuing(k, rest, snap) := m.poller;
      m' == if HasRoom(c, m, Retries) then Handed(m, k, Retries).(poller := Polling(rest, snap))
            else m.(poller := PollFull(k, rest, snap))
    case PollGiveBack =>
      m.poller.PollFull? &&
      var PollFull(k, rest, snap) := m.poller;
      m' == GivenBack(m, k, now).(poller := Polling(rest, snap))
    case _ => false
  }

  // A crash, or a Close followed by the end of the process, loses everything held in memory.
  ghost predicate ProcessStep(s: State, a: Action, s': State) {
    match a
    case Tick(t) => s.now <= t && s' == s.(now := t)
    case Close => s.mode.Up? && s' == s.(closed := true)
    case Crash =>
      s' == s.(mode := Down, closed := false, f := s.f.(cached := {}),
               m := s.m.(incoming := [], retries := [], workers := Stopped(s.m.workers), calls := [],
                 poller := Resting))
    case Restart(keys) =>
      s.mode.Down? && Enumerates(keys, WithStatus(s.m.table, Pending)) && s' == s.(mode := Recovering(keys))
    case Recover =>
      s.mode.Recovering? && s.mode.todo != [] &&
      s' == s.(mode := Recovering(s.mode.todo[1..]), m := s.m.(table := Mark(s.m.table, s.mode.todo[0], Failed, s.now)))
    case Start => s.mode == Recovering([]) && s' == s.(mode := Up)
    case _ => false
  }

  ghost predicate Next(c: Config, s: State, a: Action, s': State) {
    || ProcessStep(s, a, s')
    || (s.mode.Up? && FileStep(s.f, a, s'.f) && s' == s.(f := s'.f))
    || (s.mode.Up? && CallStep(c, s, a, s'))
    || (s.mode.Up? && WorkerStep(s, a, s'))
    || (s.mode.Up? && PollStep(c, s.m, s.now, a, s'.m) && s' == s.(m := s'.m))
  }

  ghost predicate Init(s: State) {
    && s.mode.Down? && !s.closed && s.accepted == {}
    && s.m.table == map[] && s.m.born == map[] && s.m.incoming == [] && s.m.retries == []
    && s.m.calls == [] && s.m.poller.Resting?
    && (forall i :: 0 <= i < |s.m.workers| ==> s.m.workers[i].work.Idle?)
    && s.f.cached == {} && s.f.persist <= s.f.disk
  }

  // A run: states[i] moves to states[i + 1] by actions[i].
  datatype Run = Run(states: seq<State>, actions: seq<Action>)

  ghost predicate ValidRun(c: Config, r: Run) {
    && |r.states| == |r.actions| + 1
    && Init(r.states[0])
    && forall i :: 0 <= i < |r.actions| ==> Next(c, r.states[i], r.actions[i], r.states[i + 1])
  }

  // ---- Longer runs -----------------------------------------------------------------------

  function Last(r: Run): State
    requires r.states != []
  {
    r.states[|r.states| - 1]
  }

  function Extend(r: Run, a: Action, s: State): Run {
    Run(r.states + [s], r.actions + [a])
  }

  lemma ExtendIsValid(c: Config, r: Run, a: Action, s: State)
    requires ValidRun(c, r) && Next(c, Last(r), a, s)
    ensures ValidRun(c, Extend(r, a, s)) && Last(Extend(r, a, s)) == s
  {
  }

  // ---- Copies of a task ------------------------------------------------------------------

  function WorkerKeys(w: Worker): multiset<Key> {
    if w.work.Idle? then multiset{} else multiset{w.work.key}
  }

  function CallKeys(c: Call): multiset<Key> {
    if c.Sending? || c.CallFull? then multiset{c.key} else multiset{}
  }

  function PollerKeys(p: Poller): multiset<Key> {
    if p.Requeuing? || p.PollFull? then multiset{p.key} else multiset{}
  }

  // How many copies of a task the process holds: in both channels, with the workers, and in the
  // enqueues in progress.
  function Copies(m: Manager, k: Key): nat {
    multiset(m.incoming)[k] + multiset(m.retries)[k] +
    Bag(WorkerKeys, m.workers)[k] + Bag(CallKeys, m.calls)[k] + PollerKeys(m.poller)[k]
  }

  function IsPending(t: Table, k: Key): bool {
    k in t && t[k].status.Pending?
  }

  // Each pending row has exactly one copy, and nothing else has any.
  ghost predicate OneCopyEach(m: Manager) {
    forall k :: Copies(m, k) == if IsPending(m.table, k) then 1 else 0
  }

  ghost predicate NoCopies(m: Manager) {
    && (forall k :: Copies(m, k) == 0)
    && m.calls == [] && m.poller.Resting?
    && forall i :: 0 <= i < |m.workers| ==> m.workers[i].work.Idle?
  }

  // Keys the poller still has to look at.
  function Ahead(p: Poller): seq<Key> {
    match p
    case Resting => []
    case Polling(rest, _) => rest
    case Due(k, rest, _) => [k] + rest
    case Requeuing(_, rest, _) => rest
    case PollFull(_, rest, _) => rest
  }

  // GetFailed's answer may be old, but it is never wrong about a key still to be visited.
  ghost predicate FreshSnapshot(m: Manager) {
    && Distinct(Ahead(m.poller))
    && forall k :: k in Ahead(m.poller) ==>
         k in m.table && m.table[k].status.Failed? && k in m.poller.snap && m.poller.snap[k] == m.table[k]
  }

  ghost predicate RetryInv(mode: Mode, m: Manager) {
    match mode
    case Up => OneCopyEach(m) && FreshSnapshot(m)
    case Down => NoCopies(m)
    case Recovering(todo) => NoCopies(m) && Enumerates(todo, WithStatus(m.table, Pending))
  }
}
