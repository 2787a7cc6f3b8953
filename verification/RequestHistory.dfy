/**
  What a Start is told, said by the history of the cache: the answer depends on who holds the id and
  on the latest failure under it, and on nothing else.
*/
module RequestHistory {
  import opened Options
  import opened RequestCache

  // A request that failed, the time at which that was recorded, and for how long it counts: by the
  // matcher in force at that time.
  datatype Failure = Failure(err: string, at: int, ttl: int)

  function FailureAt(c: Config, s: State, a: Action, id: string): Option<Failure> {
    if a.Settle? && a.k < |s.callers| && s.callers[a.k].Settling? && s.callers[a.k].id == id &&
      s.callers[a.k].result.Some?
    then
      var err := s.callers[a.k].result.value;
      Some(Failure(err, s.now, if s.table.isNotFound(err) then c.notFoundTTL else c.errorTTL))
    else None
  }

  // The latest failure under the id before state n.
  function LatestFailure(c: Config, r: Run, n: nat, id: string): Option<Failure>
    requires n <= |r.actions| && n < |r.states|
  {
    if n == 0 then None
    else
      var f := FailureAt(c, r.states[n - 1], r.actions[n - 1], id);
      if f.Some? then f else LatestFailure(c, r, n - 1, id)
  }

  // The table holds the latest failure, unless that no longer counts.
  ghost predicate Remembers(s: State, id: string, f: Option<Failure>) {
    match f
    case None => id !in s.table.errors
    case Some(Failure(err, at, ttl)) =>
      if id in s.table.errors then s.table.errors[id] == CachedError(err, at + ttl) else s.now > at + ttl
  }

  lemma StepRemembers(c: Config, s: State, a: Action, s': State, id: string, f: Option<Failure>)
    requires Next(c, s, a, s') && Remembers(s, id, f)
    ensures Remembers(s', id, if FailureAt(c, s, a, id).Some? then FailureAt(c, s, a, id) else f)
  {
  }

  lemma {:induction false} LatestFailureIsRemembered(c: Config, r: Run, n: nat, id: string)
    requires ValidRun(c, r) && n < |r.states|
    ensures Remembers(r.states[n], id, LatestFailure(c, r, n, id))
  {
    if n > 0 {
      LatestFailureIsRemembered(c, r, n - 1, id);
      StepRemembers(c, r.states[n - 1], r.actions[n - 1], r.states[n], id, LatestFailure(c, r, n - 1, id));
    }
  }

  // The latest failure still counts.
  predicate StillCounts(f: Option<Failure>, now: int) {
    f.Some? && now <= f.value.at + f.value.ttl
  }

  // What a Start in state s answers.
  function Told(c: Config, s: State, id: string): Refusal {
    Answer(Cleaned(c, s.table, s.now), id, s.now)
  }

  lemma StartDoesWhatItTells(c: Config, s: State, id: string, s': State)
    requires Next(c, s, Start(id), s')
    ensures s'.callers == s.callers + if Told(c, s, id).Granted? then [Waiting(id)] else []
  {
  }

  // In every run a Start is told "pending" exactly while somebody holds the id; under an id that
  // nobody holds it is told the latest failure as long as that counts, and is granted otherwise.
  lemma StartIsToldTheLatestFailure(c: Config, r: Run, n: nat, id: string)
    requires ValidRun(c, r) && n < |r.actions| && r.actions[n] == Start(id)
    ensures var s, f := r.states[n], LatestFailure(c, r, n, id);
            var held := exists i :: 0 <= i < |s.callers| && Holds(s.callers[i], id);
            && Told(c, s, id) == (if held then Refusal.Pending
                                  else if StillCounts(f, s.now) then Cached(f.value.err)
                                  else Granted)
            && r.states[n + 1].callers == s.callers + if !held && !StillCounts(f, s.now) then [Waiting(id)] else []
  {
    var s := r.states[n];
    InvInEveryRun(c, r, n);
    LatestFailureIsRemembered(c, r, n, id);
    CleaningIsInvisible(c, s.table, id, s.now, s.now);
    StartDoesWhatItTells(c, s, id, r.states[n + 1]);
  }
}
