/**
  The passive health filter: a host is filtered for a while after enough of its requests have
  failed within a window. The state is two maps; the specification looks only at the history of
  reported failures.
*/
module PassiveFilter {

  datatype Config = Config(fails: int, failTimeout: int)

  datatype Event = Failed(addr: string, at: int) | Ran(at: int)

  datatype State = State(unhealthy: map<string, int>, failures: map<string, seq<int>>)

  function FailuresOf(s: State, a: string): seq<int> {
    if a in s.failures then s.failures[a] else []
  }

  // Pop off the expired failures.
  function Popped(c: Config, times: seq<int>, now: int): seq<int> {
    if times != [] && now - times[0] > c.failTimeout then Popped(c, times[1..], now) else times
  }

  function AfterFailed(c: Config, s: State, a: string, now: int): State {
    var times := Popped(c, FailuresOf(s, a), now) + [now];
    State(if |times| >= c.fails then s.unhealthy[a := now] else s.unhealthy, s.failures[a := times])
  }

  function AfterRun(c: Config, s: State, now: int): State {
    s.(unhealthy := map a | a in s.unhealthy && now - s.unhealthy[a] <= c.failTimeout :: s.unhealthy[a])
  }

  function After(c: Config, h: seq<Event>): State {
    if h == [] then State(map[], map[])
    else
      var s, e := After(c, h[..|h| - 1]), h[|h| - 1];
      match e
      case Failed(a, t) => AfterFailed(c, s, a, t)
      case Ran(t) => AfterRun(c, s, t)
  }

  // ---- Specification on histories --------------------------------------------------------

  ghost predicate Monotone(h: seq<Event>) {
    forall i, j :: 0 <= i < j < |h| ==> h[i].at <= h[j].at
  }

  // Failures of `a` reported so far that lie in the window ending at t.
  function InWindow(c: Config, h: seq<Event>, a: string, t: int): seq<int> {
    if h == [] then []
    else
      var rest, e := InWindow(c, h[..|h| - 1], a, t), h[|h| - 1];
      if e.Failed? && e.addr == a && t - e.at <= c.failTimeout then rest + [e.at] else rest
  }

  // The i-th event is a failure of `a` that made, or kept, it unhealthy: counting itself, at least
  // Fails failures lie in the window ending with it.
  ghost predicate Trips(c: Config, h: seq<Event>, a: string, i: nat)
    requires i < |h|
  {
    h[i].Failed? && h[i].addr == a && |InWindow(c, h[..i + 1], a, h[i].at)| >= c.fails
  }

  ghost predicate Filtered(c: Config, h: seq<Event>, a: string, now: int) {
    exists i :: 0 <= i < |h| && Trips(c, h, a, i) && now - h[i].at <= c.failTimeout
  }

  // ---- The recorded failures are a window of the history ---------------------------------

  lemma {:induction false} WindowBounds(c: Config, h: seq<Event>, a: string, t: int, bound: int)
    requires forall i :: 0 <= i < |h| ==> h[i].at <= bound
    ensures forall i :: 0 <= i < |InWindow(c, h, a, t)| ==> t - c.failTimeout <= InWindow(c, h, a, t)[i] <= bound
    ensures t - bound > c.failTimeout ==> InWindow(c, h, a, t) == []
  {
    if h != [] { WindowBounds(c, h[..|h| - 1], a, t, bound); }
  }

  lemma {:induction false} PoppedOfPush(c: Config, times: seq<int>, x: int, now: int)
    requires forall i :: 0 <= i < |times| ==> times[i] <= x
    ensures Popped(c, times + [x], now) == if now - x <= c.failTimeout then Popped(c, times, now) + [x] else []
  {
    if times == [] {
      assert times + [x] == [x];
    } else {
      assert (times + [x])[1..] == times[1..] + [x];
      PoppedOfPush(c, times[1..], x, now);
    }
  }

  // Popping the expired failures moves the window forward.
  lemma {:induction false} PoppingMovesTheWindow(c: Config, h: seq<Event>, a: string, t: int, t': int)
    requires Monotone(h) && t <= t'
    ensures Popped(c, InWindow(c, h, a, t), t') == InWindow(c, h, a, t')
  {
    if h != [] {
      var front, e := h[..|h| - 1], h[|h| - 1];
      PoppingMovesTheWindow(c, front, a, t, t');
      if e.Failed? && e.addr == a && t - e.at <= c.failTimeout {
        WindowBounds(c, front, a, t, e.at);
        WindowBounds(c, front, a, t', e.at);
        PoppedOfPush(c, InWindow(c, front, a, t), e.at, t');
      }
    }
  }

  // The time of the latest failure of `a`.
  function LastFailure(h: seq<Event>, a: string): int {
    if h == [] then 0
    else if h[|h| - 1].Failed? && h[|h| - 1].addr == a then h[|h| - 1].at
    else LastFailure(h[..|h| - 1], a)
  }

  lemma {:induction false} LastFailureIsPast(c: Config, h: seq<Event>, a: string, t: int, t': int)
    requires forall i :: 0 <= i < |h| ==> h[i].at <= t
    ensures LastFailure(h, a) <= t || InWindow(c, h, a, t') == []
  {
    if h != [] { LastFailureIsPast(c, h[..|h| - 1], a, t, t'); }
  }

  lemma {:induction false} FailuresAreTheWindow(c: Config, h: seq<Event>, a: string)
    requires Monotone(h) && c.failTimeout >= 0
    ensures FailuresOf(After(c, h), a) == InWindow(c, h, a, LastFailure(h, a))
  {
    if h != [] {
      var front, e := h[..|h| - 1], h[|h| - 1];
      FailuresAreTheWindow(c, front, a);
      if e.Failed? && e.addr == a { PushKeepsTheWindow(c, front, a, e.at); }
    }
  }

  lemma PushKeepsTheWindow(c: Config, h: seq<Event>, a: string, now: int)
    requires Monotone(h) && forall i :: 0 <= i < |h| ==> h[i].at <= now
    ensures Popped(c, InWindow(c, h, a, LastFailure(h, a)), now) == InWindow(c, h, a, now)
  {
    LastFailureIsPast(c, h, a, now, now);
    LastFailureIsPast(c, h, a, now, LastFailure(h, a));
    if LastFailure(h, a) <= now { PoppingMovesTheWindow(c, h, a, LastFailure(h, a), now); }
  }

  // ---- A host is filtered exactly while a trip is recent ---------------------------------

  ghost predicate Marked(c: Config, s: State, a: string, now: int) {
    a in s.unhealthy && now - s.unhealthy[a] <= c.failTimeout
  }

  lemma TripsInPrefix(c: Config, h: seq<Event>, e: Event, a: string, i: nat)
    requires i < |h|
    ensures Trips(c, h + [e], a, i) == Trips(c, h, a, i)
  {
    assert (h + [e])[..i + 1] == h[..i + 1];
  }

  lemma FilteredAfter(c: Config, h: seq<Event>, e: Event, a: string, now: int)
    ensures Filtered(c, h + [e], a, now)
         <==> Filtered(c, h, a, now) || (Trips(c, h + [e], a, |h|) && now - e.at <= c.failTimeout)
  {
    var h' := h + [e];
    forall i | 0 <= i < |h| ensures Trips(c, h', a, i) == Trips(c, h, a, i) && h'[i] == h[i] {
      TripsInPrefix(c, h, e, a, i);
    }
    if Filtered(c, h, a, now) {
      var i :| 0 <= i < |h| && Trips(c, h, a, i) && now - h[i].at <= c.failTimeout;
      assert Trips(c, h', a, i);
    }
    assert h'[|h|] == e;
  }

  // A new failure trips exactly when the code's counter says so.
  lemma TripIsTheCounter(c: Config, h: seq<Event>, a: string, now: int)
    requires Monotone(h + [Failed(a, now)]) && c.failTimeout >= 0
    ensures Trips(c, h + [Failed(a, now)], a, |h|)
       <==> |Popped(c, FailuresOf(After(c, h), a), now)| + 1 >= c.fails
  {
    var h' := h + [Failed(a, now)];
    MonotonePrefix(h, Failed(a, now));
    var recorded := FailuresOf(After(c, h), a);
    assert Popped(c, recorded, now) == InWindow(c, h, a, now) by {
      FailuresAreTheWindow(c, h, a);
      PushKeepsTheWindow(c, h, a, now);
    }
    assert InWindow(c, h', a, now) == InWindow(c, h, a, now) + [now] by {
      assert h'[..|h'| - 1] == h;
    }
    assert h'[..|h| + 1] == h';
  }

  lemma MonotonePrefix(h: seq<Event>, e: Event)
    requires Monotone(h + [e])
    ensures Monotone(h) && forall i :: 0 <= i < |h| ==> h[i].at <= e.at
  {
    var h' := h + [e];
    assert forall i :: 0 <= i < |h| ==> h'[i] == h[i];
    assert h'[|h|] == e;
  }

  // For every history with a clock that does not go back, and every later time: the filter's
  // record says unhealthy exactly when some failure not older than FailTimeout had, counting
  // itself, at least Fails failures within FailTimeout before it.
  lemma {:induction false} FilteredIffRecentTrip(c: Config, h: seq<Event>, a: string, now: int)
    requires Monotone(h) && c.failTimeout >= 0 && forall i :: 0 <= i < |h| ==> h[i].at <= now
    ensures Marked(c, After(c, h), a, now) <==> Filtered(c, h, a, now)
  {
    if h != [] {
      var front, e := h[..|h| - 1], h[|h| - 1];
      assert h == front + [e];
      MonotonePrefix(front, e);
      FilteredIffRecentTrip(c, front, a, now);
      FilteredAfter(c, front, e, a, now);
      if e.Failed? && e.addr == a {
        TripIsTheCounter(c, front, a, e.at);
        FilteredIsRecent(c, front, a, e.at, now);
      }
    }
  }

  lemma FilteredIsRecent(c: Config, h: seq<Event>, a: string, last: int, now: int)
    requires forall i :: 0 <= i < |h| ==> h[i].at <= last
    ensures Filtered(c, h, a, now) ==> now - last <= c.failTimeout
  {
  }

  // ---- The filter as an object -----------------------------------------------------------

  class Filter {
    const config: Config
    var unhealthy: map<string, int>
    var failures: map<string, seq<int>>

    // Every call so far.
    ghost var history: seq<Event>

    ghost predicate Valid()
      reads this
    {
      State(unhealthy, failures) == After(config, history) && Monotone(history) && config.failTimeout >= 0
    }

    ghost predicate ClockReads(now: int)
      reads this`history
    {
      forall i :: 0 <= i < |history| ==> history[i].at <= now
    }

    constructor (config: Config)
      requires config.failTimeout >= 0
      ensures Valid() && this.config == config && history == []
    {
      this.config := config;
      unhealthy, failures, history := map[], map[], [];
    }

    method Failed(addr: string, now: int)
      requires Valid() && ClockReads(now)
      modifies this
      ensures Valid() && history == old(history) + [Event.Failed(addr, now)]
    {
      var times := if addr in failures then failures[addr] else [];
      ghost var was := times;
      while times != [] && now - times[0] > config.failTimeout
        invariant Popped(config, times, now) == Popped(config, was, now)
      {
        times := times[1..];
      }
      times := times + [now];
      if |times| >= config.fails {
        unhealthy := unhealthy[addr := now];
      }
      failures := failures[addr := times];
      history := history + [Event.Failed(addr, now)];
      assert history[..|history| - 1] == old(history);
    }

    // The addresses without those that a recent trip filters.
    method Run(addrs: set<string>, now: int) returns (healthy: set<string>)
      requires Valid() && ClockReads(now)
      modifies this
      ensures Valid() && history == old(history) + [Ran(now)]
      ensures healthy <= addrs
      ensures forall a :: a in healthy <==> a in addrs && !Filtered(config, old(history), a, now)
    {
      healthy := addrs;
      var left := unhealthy.Keys;
      while left != {}
        invariant left <= old(unhealthy).Keys
        invariant forall a :: a in unhealthy <==>
          a in old(unhealthy) && (a in left || now - old(unhealthy)[a] <= config.failTimeout)
        invariant forall a :: a in unhealthy ==> unhealthy[a] == old(unhealthy)[a]
        invariant forall a :: a in healthy <==>
          a in addrs && (a in left || !Marked(config, old(State(unhealthy, failures)), a, now))
        invariant failures == old(failures) && history == old(history)
        decreases left
      {
        var addr :| addr in left;
        if now - unhealthy[addr] > config.failTimeout {
          unhealthy := map a | a in unhealthy && a != addr :: unhealthy[a];
        } else {
          healthy := healthy - {addr};
        }
        left := left - {addr};
      }
      history := history + [Ran(now)];
      assert history[..|history| - 1] == old(history);
      forall a ensures Marked(config, old(State(unhealthy, failures)), a, now) <==>
        Filtered(config, old(history), a, now) {
        FilteredIffRecentTrip(config, old(history), a, now);
      }
      assert unhealthy == AfterRun(config, old(State(unhealthy, failures)), now).unhealthy;
    }
  }
}
