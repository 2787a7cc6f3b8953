/**
  RequestCache: background requests, at most one under each id, over a bounded number of workers,
  with errors cached for a while. Start reserves the id under the lock, then waits for a worker
  or gives up; the request then runs in its own goroutine and settles its id under the lock.
*/
module RequestCache {
  import opened Options
  import opened Sums

  datatype Config = Config(notFoundTTL: int, errorTTL: int, cleanupInterval: int, numWorkers: nat)

  datatype CachedError = CachedError(err: string, expiresAt: int)

  // What the mutex protects.
  datatype Table = Table(pending: set<string>, errors: map<string, CachedError>, lastClean: int,
      isNotFound: string -> bool)

  predicate Expired(e: CachedError, now: int) {
    now > e.expiresAt
  }

  // ---- The regions under the mutex -------------------------------------------------------

  function Unexpired(errors: map<string, CachedError>, now: int): map<string, CachedError> {
    map id | id in errors && !Expired(errors[id], now) :: errors[id]
  }

  function Cleaned(c: Config, t: Table, now: int): Table {
    if now - t.lastClean > c.cleanupInterval then t.(errors := Unexpired(t.errors, now), lastClean := now) else t
  }

  datatype Refusal = Granted | Pending | Cached(err: string)

  function Answer(t: Table, id: string, now: int): Refusal {
    if id in t.pending then Pending
    else if id in t.errors && !Expired(t.errors[id], now) then Cached(t.errors[id].err)
    else Granted
  }

  function Reserved(c: Config, t: Table, id: string, now: int): Table {
    var t' := Cleaned(c, t, now);
    if Answer(t', id, now).Granted? then t'.(pending := t'.pending + {id}) else t'
  }

  function Released(t: Table, id: string): Table {
    t.(pending := t.pending - {id})
  }

  function TTL(c: Config, t: Table, err: string): int {
    if t.isNotFound(err) then c.notFoundTTL else c.errorTTL
  }

  function Errored(c: Config, t: Table, id: string, err: string, now: int): Table {
    t.(pending := t.pending - {id}, errors := t.errors[id := CachedError(err, now + TTL(c, t, err))])
  }

  // Cleaning changes no answer: it is only housekeeping.
  lemma CleaningIsInvisible(c: Config, t: Table, id: string, now: int, later: int)
    requires now <= later
    ensures Answer(Cleaned(c, t, now), id, later) == Answer(t, id, later)
  {
  }

  // ---- The protocol ----------------------------------------------------------------------

  // One per Start call that reserved its id.
  datatype Caller =
    | Waiting(id: string)                          // for a worker
    | GivingUp(id: string)                         // no worker in time; about to release the id
    | Running(id: string)                          // the request's body
    | Settling(id: string, result: Option<string>) // the body is over, with an error or without
    | Leaving                                      // about to give the worker back
    | Gone

  datatype State = State(table: Table, callers: seq<Caller>, workers: nat, now: int)

  datatype Action =
    | Tick(to: int)
    | SetNotFound(m: string -> bool)
    | Start(id: string)
    | TakeWorker(k: nat)
    | TimeOut(k: nat)
    | GiveUp(k: nat)
    | Finish(k: nat, result: Option<string>)
    | Settle(k: nat)
    | ReleaseWorker(k: nat)

  function Settled(c: Config, t: Table, id: string, result: Option<string>, now: int): Table {
    match result
    case None => Released(t, id)
    case Some(err) => Errored(c, t, id, err, now)
  }

  function To(s: State, k: nat, p: Caller): State
    requires k < |s.callers|
  {
    s.(callers := s.callers[k := p])
  }

  ghost predicate Next(c: Config, s: State, a: Action, s': State) {
    match a
    case Tick(to) => to >= s.now && s' == s.(now := to)
    case SetNotFound(m) => s' == s.(table := s.table.(isNotFound := m))
    case Start(id) => s' == Started(c, s, id)
    case TakeWorker(k) =>
      k < |s.callers| && s.callers[k].Waiting? && s.workers < c.numWorkers
      && s' == To(s, k, Running(s.callers[k].id)).(workers := s.workers + 1)
    case TimeOut(k) =>
      k < |s.callers| && s.callers[k].Waiting? && s' == To(s, k, GivingUp(s.callers[k].id))
    case GiveUp(k) =>
      k < |s.callers| && s.callers[k].GivingUp?
      && s' == To(s, k, Gone).(table := Released(s.table, s.callers[k].id))
    case Finish(k, result) =>
      k < |s.callers| && s.callers[k].Running? && s' == To(s, k, Settling(s.callers[k].id, result))
    case Settle(k) =>
      k < |s.callers| && s.callers[k].Settling?
      && s' == To(s, k, Leaving).(table := Settled(c, s.table, s.callers[k].id, s.callers[k].result, s.now))
    case ReleaseWorker(k) =>
      k < |s.callers| && s.callers[k].Leaving? && s.workers > 0
      && s' == To(s, k, Gone).(workers := s.workers - 1)
  }

  function Started(c: Config, s: State, id: string): State {
    var s1 := s.(table := Reserved(c, s.table, id, s.now));
    if Grants(c, s, id) then s1.(callers := s.callers + [Waiting(id)]) else s1
  }

  predicate Grants(c: Config, s: State, id: string) {
    Answer(Cleaned(c, s.table, s.now), id, s.now).Granted?
  }

  ghost predicate Init(s: State) {
    s.table.pending == {} && s.table.errors == map[] && s.callers == [] && s.workers == 0
  }

  datatype Run = Run(states: seq<State>, actions: seq<Action>)

  ghost predicate ValidRun(c: Config, r: Run) {
    && |r.states| == |r.actions| + 1 && Init(r.states[0])
    && forall i :: 0 <= i < |r.actions| ==> Next(c, r.states[i], r.actions[i], r.states[i + 1])
  }

  // ---- One holder for each pending id, one token for each busy worker --------------------

  predicate Holds(p: Caller, id: string) {
    match p
    case Waiting(i) => i == id
    case GivingUp(i) => i == id
    case Running(i) => i == id
    case Settling(i, _) => i == id
    case _ => false
  }

  function Token(p: Caller): int {
    if p.Running? || p.Settling? || p.Leaving? then 1 else 0
  }

  // The id is pending exactly while one caller holds it.
  ghost predicate OneHolder(s: State) {
    && (forall i, j, id :: 0 <= i < j < |s.callers| && Holds(s.callers[i], id) ==> !Holds(s.callers[j], id))
    && (forall i, id :: 0 <= i < |s.callers| && Holds(s.callers[i], id) ==> id in s.table.pending)
    && (forall id :: id in s.table.pending ==> exists i :: 0 <= i < |s.callers| && Holds(s.callers[i], id))
  }

  ghost predicate Inv(c: Config, s: State) {
    OneHolder(s) && s.workers == Sum(Token, s.callers) && s.workers <= c.numWorkers
  }

  // Caller k moves on holding the same id.
  lemma MoveKeepsHolder(s: State, k: nat, p: Caller, workers: nat)
    requires OneHolder(s) && k < |s.callers|
    requires forall id :: Holds(s.callers[k], id) <==> Holds(p, id)
    ensures OneHolder(To(s, k, p).(workers := workers))
  {
    var s' := To(s, k, p).(workers := workers);
    assert forall i, id :: 0 <= i < |s.callers| ==> Holds(s'.callers[i], id) == Holds(s.callers[i], id);
    forall id | id in s'.table.pending ensures exists i :: 0 <= i < |s'.callers| && Holds(s'.callers[i], id) {
      var i :| 0 <= i < |s.callers| && Holds(s.callers[i], id);
      assert Holds(s'.callers[i], id);
    }
  }

  // Caller k stops holding its id, which leaves the pending set.
  lemma DropKeepsHolder(s: State, k: nat, id: string, p: Caller, t: Table)
    requires OneHolder(s) && k < |s.callers| && Holds(s.callers[k], id)
    requires (forall i :: !Holds(p, i)) && t.pending == s.table.pending - {id}
    ensures OneHolder(To(s, k, p).(table := t))
  {
    var s' := To(s, k, p).(table := t);
    assert forall i, d :: 0 <= i < |s.callers| && i != k ==> Holds(s'.callers[i], d) == Holds(s.callers[i], d);
    forall d | d in t.pending ensures exists i :: 0 <= i < |s'.callers| && Holds(s'.callers[i], d) {
      var i :| 0 <= i < |s.callers| && Holds(s.callers[i], d);
      assert i != k;
      assert Holds(s'.callers[i], d);
    }
  }

  lemma StartKeepsHolder(c: Config, s: State, id: string)
    requires OneHolder(s)
    ensures OneHolder(Started(c, s, id))
  {
    var s' := Started(c, s, id);
    assert forall i :: 0 <= i < |s.callers| ==> s'.callers[i] == s.callers[i];
    forall d | d in s'.table.pending ensures exists i :: 0 <= i < |s'.callers| && Holds(s'.callers[i], d) {
      if d in s.table.pending {
        var i :| 0 <= i < |s.callers| && Holds(s.callers[i], d);
        assert Holds(s'.callers[i], d);
      } else {
        assert Holds(s'.callers[|s.callers|], d);
      }
    }
  }

  lemma StepKeepsTokens(c: Config, s: State, a: Action, s': State)
    requires Inv(c, s) && Next(c, s, a, s')
    ensures s'.workers == Sum(Token, s'.callers) && s'.workers <= c.numWorkers
  {
    match a
    case Tick(_) =>
    case SetNotFound(_) =>
    case Start(id) => if Grants(c, s, id) { SumPush(Token, s.callers, Waiting(id)); }
    case TakeWorker(k) => SumUpdate(Token, s.callers, k, s'.callers[k]);
    case TimeOut(k) => SumUpdate(Token, s.callers, k, s'.callers[k]);
    case GiveUp(k) => SumUpdate(Token, s.callers, k, s'.callers[k]);
    case Finish(k, _) => SumUpdate(Token, s.callers, k, s'.callers[k]);
    case Settle(k) => SumUpdate(Token, s.callers, k, s'.callers[k]);
    case ReleaseWorker(k) => SumUpdate(Token, s.callers, k, s'.callers[k]);
  }

  lemma StepKeepsInv(c: Config, s: State, a: Action, s': State)
    requires Inv(c, s) && Next(c, s, a, s')
    ensures Inv(c, s')
  {
    StepKeepsTokens(c, s, a, s');
    match a
    case Tick(_) =>
    case SetNotFound(_) =>
    case Start(id) => StartKeepsHolder(c, s, id);
    case TakeWorker(k) => MoveKeepsHolder(s, k, s'.callers[k], s'.workers);
    case TimeOut(k) => MoveKeepsHolder(s, k, s'.callers[k], s.workers);
    case GiveUp(k) => DropKeepsHolder(s, k, s.callers[k].id, Gone, s'.table);
    case Finish(k, _) => MoveKeepsHolder(s, k, s'.callers[k], s.workers);
    case Settle(k) => DropKeepsHolder(s, k, s.callers[k].id, Leaving, s'.table);
    case ReleaseWorker(k) => MoveKeepsHolder(s, k, Gone, s'.workers);
  }

  lemma {:induction false} InvInEveryRun(c: Config, r: Run, i: nat)
    requires ValidRun(c, r) && i < |r.states|
    ensures Inv(c, r.states[i])
  {
    if i > 0 {
      InvInEveryRun(c, r, i - 1);
      StepKeepsInv(c, r.states[i - 1], r.actions[i - 1], r.states[i]);
    }
  }

  function Body(p: Caller): int {
    if p.Running? then 1 else 0
  }

  lemma {:induction false} BodiesHaveTokens(callers: seq<Caller>)
    ensures Sum(Body, callers) <= Sum(Token, callers)
  {
    if callers != [] { BodiesHaveTokens(callers[1..]); }
  }

  // In every reachable state no two request bodies run under one id, and no more bodies run than
  // there are workers.
  lemma BodiesAreExclusiveAndBounded(c: Config, r: Run, n: nat)
    requires ValidRun(c, r) && n < |r.states|
    ensures var s := r.states[n];
            && (forall i, j :: 0 <= i < j < |s.callers| && s.callers[i].Running? && s.callers[j].Running? ==>
                 s.callers[i].id != s.callers[j].id)
            && Sum(Body, s.callers) <= c.numWorkers
  {
    InvInEveryRun(c, r, n);
    var s := r.states[n];
    BodiesHaveTokens(s.callers);
    forall i, j | 0 <= i < j < |s.callers| && s.callers[i].Running? && s.callers[j].Running?
      ensures s.callers[i].id != s.callers[j].id {
      assert Holds(s.callers[i], s.callers[i].id);
    }
  }

  // A Start is told "pending" exactly when some caller holds the id.
  lemma PendingIffHeld(c: Config, r: Run, n: nat, id: string)
    requires ValidRun(c, r) && n < |r.states|
    ensures var s := r.states[n];
            Answer(Cleaned(c, s.table, s.now), id, s.now).Pending? <==>
              exists i :: 0 <= i < |s.callers| && Holds(s.callers[i], id)
  {
    InvInEveryRun(c, r, n);
  }

  // ---- A failure blocks its id until it expires ------------------------------------------

  // The error recorded for the id, and nobody working on it.
  ghost predicate Blocked(s: State, id: string, e: CachedError) {
    id in s.table.errors && s.table.errors[id] == e && id !in s.table.pending
  }

  lemma StepKeepsBlocked(c: Config, s: State, a: Action, s': State, id: string, e: CachedError)
    requires Inv(c, s) && Next(c, s, a, s') && Blocked(s, id, e) && !Expired(e, s'.now)
    ensures Blocked(s', id, e)
  {
    if a.Settle? { assert Holds(s.callers[a.k], s.callers[a.k].id); }
  }

  lemma {:induction false} ClockGrows(c: Config, r: Run, i: nat, j: nat)
    requires ValidRun(c, r) && i <= j < |r.states|
    ensures r.states[i].now <= r.states[j].now
  {
    if i < j {
      ClockGrows(c, r, i, j - 1);
      assert Next(c, r.states[j - 1], r.actions[j - 1], r.states[j]);
    }
  }

  lemma {:induction false} BlockedUntilExpiry(c: Config, r: Run, i: nat, j: nat, id: string, e: CachedError)
    requires ValidRun(c, r) && i <= j < |r.states| && Blocked(r.states[i], id, e) && !Expired(e, r.states[j].now)
    ensures Blocked(r.states[j], id, e)
  {
    if i < j {
      ClockGrows(c, r, j - 1, j);
      BlockedUntilExpiry(c, r, i, j - 1, id, e);
      InvInEveryRun(c, r, j - 1);
      StepKeepsBlocked(c, r.states[j - 1], r.actions[j - 1], r.states[j], id, e);
    }
  }

  // Step i settles a request under `id` that failed with err. Up to and including the time
  // now + TTL, every Start under the id is answered with that error, and no body runs under it.
  lemma FailureBlocksItsId(c: Config, r: Run, i: nat, k: nat, err: string, j: nat)
    requires ValidRun(c, r) && i < j < |r.states| && r.actions[i] == Settle(k)
    requires k < |r.states[i].callers| && r.states[i].callers[k].Settling? && r.states[i].callers[k].result == Some(err)
    requires r.states[j].now <=
      r.states[i].now + if r.states[i].table.isNotFound(err) then c.notFoundTTL else c.errorTTL
    ensures var s, id := r.states[j], r.states[i].callers[k].id;
            && Answer(Cleaned(c, s.table, s.now), id, s.now) == Cached(err)
            && forall m :: 0 <= m < |s.callers| ==> !Holds(s.callers[m], id)
  {
    var s, id := r.states[i], r.states[i].callers[k].id;
    var e := CachedError(err, s.now + TTL(c, s.table, err));
    assert Next(c, s, r.actions[i], r.states[i + 1]);
    assert Blocked(r.states[i + 1], id, e);
    BlockedUntilExpiry(c, r, i + 1, j, id, e);
    CleaningIsInvisible(c, r.states[j].table, id, r.states[j].now, r.states[j].now);
    InvInEveryRun(c, r, j);
  }

  // ---- Every holder goes on --------------------------------------------------------------

  function Rank(p: Caller): nat {
    match p
    case Waiting(_) => 4
    case Running(_) => 3
    case Settling(_, _) => 2
    case GivingUp(_) => 1
    case Leaving => 1
    case Gone => 0
  }

  // Whatever the others do, a caller that is not gone has a step of its own, and that step brings
  // it closer to giving its id and its worker back.
  lemma CallerCanStep(c: Config, s: State, k: nat) returns (a: Action, s': State)
    requires Inv(c, s) && k < |s.callers| && s.callers[k] != Gone
    ensures Next(c, s, a, s') && k < |s'.callers| && Rank(s'.callers[k]) < Rank(s.callers[k])
  {
    match s.callers[k]
    case Waiting(id) => a, s' := TimeOut(k), To(s, k, GivingUp(id));
    case GivingUp(id) => a, s' := GiveUp(k), To(s, k, Gone).(table := Released(s.table, id));
    case Running(id) => a, s' := Finish(k, None), To(s, k, Settling(id, None));
    case Settling(id, result) =>
      a, s' := Settle(k), To(s, k, Leaving).(table := Settled(c, s.table, id, result, s.now));
    case Leaving =>
      SumMember(Token, s.callers, k);
      a, s' := ReleaseWorker(k), To(s, k, Gone).(workers := s.workers - 1);
  }

  // ---- The cache as an object ------------------------------------------------------------

  class Cache {
    const config: Config
    var pending: set<string>
    var errors: map<string, CachedError>
    var lastClean: int
    var isNotFound: string -> bool

    ghost function View(): Table
      reads this
    {
      Table(pending, errors, lastClean, isNotFound)
    }

    constructor (config: Config, now: int)
      ensures this.config == config && pending == {} && errors == map[] && lastClean == now
      ensures forall e :: !isNotFound(e)
    {
      this.config := config;
      pending, errors, lastClean, isNotFound := {}, map[], now, _ => false;
    }

    method SetNotFound(m: string -> bool)
      modifies this
      ensures View() == old(View()).(isNotFound := m)
    {
      isNotFound := m;
    }

    method Reserve(id: string, now: int) returns (r: Refusal)
      modifies this
      ensures View() == Reserved(config, old(View()), id, now)
      ensures r == if id in old(pending) then Pending
                   else if id in old(errors) && now <= old(errors)[id].expiresAt then Cached(old(errors)[id].err)
                   else Granted
      ensures pending == (if r.Granted? then old(pending) + {id} else old(pending)) && isNotFound == old(isNotFound)
      ensures if now - old(lastClean) > config.cleanupInterval
              then lastClean == now &&
                forall d :: d in old(errors) ==> (d in errors <==> now <= old(errors)[d].expiresAt)
              else lastClean == old(lastClean) && errors == old(errors)
      ensures forall d :: d in errors ==> d in old(errors) && errors[d] == old(errors)[d]
    {
      CleaningIsInvisible(config, View(), id, now, now);
      if now - lastClean > config.cleanupInterval {
        RemoveExpired(now);
        lastClean := now;
      }
      if id in pending { return Pending; }
      if id in errors && !Expired(errors[id], now) { return Cached(errors[id].err); }
      pending := pending + {id};
      r := Granted;
    }

    method RemoveExpired(now: int)
      modifies this`errors
      ensures errors == Unexpired(old(errors), now)
      ensures forall id :: id in errors <==> id in old(errors) && now <= old(errors)[id].expiresAt
      ensures forall id :: id in errors ==> errors[id] == old(errors)[id]
    {
      var left := errors.Keys;
      while left != {}
        invariant left <= errors.Keys
        invariant forall id :: id in errors <==> id in old(errors) && (id in left || !Expired(old(errors)[id], now))
        invariant forall id :: id in errors ==> errors[id] == old(errors)[id]
        decreases left
      {
        var id :| id in left;
        if Expired(errors[id], now) {
          errors := map d | d in errors && d != id :: errors[d];
        }
        left := left - {id};
      }
    }

    method Release(id: string)
      modifies this
      ensures View() == Released(old(View()), id)
      ensures View() == old(View()).(pending := old(pending) - {id})
    {
      pending := pending - {id};
    }

    method Error(id: string, err: string, now: int)
      modifies this
      ensures View() == Errored(config, old(View()), id, err, now)
      ensures pending == old(pending) - {id} && lastClean == old(lastClean) && isNotFound == old(isNotFound)
      ensures errors == old(errors)[id := CachedError(err, now + if old(isNotFound)(err) then config.notFoundTTL
        else config.errorTTL)]
    {
      var ttl := if isNotFound(err) then config.notFoundTTL else config.errorTTL;
      pending := pending - {id};
      errors := errors[id := CachedError(err, now + ttl)];
    }
  }
}
