/**
  The active health filter: per-host trends of consecutive passes and failures, and a Run that
  checks every address in its own goroutine.
*/
module HealthCheck {
  import opened Seqs

  // Fails and Passes are the thresholds of consecutive results.
  datatype Config = Config(fails: int, passes: int)

  ghost predicate ValidConfig(c: Config) {
    c.fails >= 1 && c.passes >= 1
  }

  datatype State = State(all: set<string>, healthy: set<string>, trend: map<string, int>)

  function Max(a: int, b: int): int { if a > b then a else b }
  function Min(a: int, b: int): int { if a < b then a else b }

  function TrendOf(s: State, a: string): int {
    if a in s.trend then s.trend[a] else 0
  }

  // One result moves the trend one step in its direction, starting over at a change of direction.
  function Moved(c: Config, t: int, ok: bool): int {
    if ok then Min(Max(t + 1, 1), c.passes) else Max(Min(t - 1, -1), -c.fails)
  }

  // state.failed and state.passed.
  function Marked(c: Config, s: State, a: string, ok: bool): State {
    var t := Moved(c, TrendOf(s, a), ok);
    State(s.all,
          if ok && t == c.passes then s.healthy + {a} else if !ok && t == -c.fails then s.healthy - {a} else s.healthy,
          s.trend[a := t])
  }

  // state.sync. Hosts that leave are dropped from `healthy` and lose their trend if they were in
  // it; nothing ever leaves `all`.
  function Synced(s: State, addrs: set<string>): State {
    State(s.all + addrs, (s.healthy + (addrs - s.all)) * addrs, s.trend - ((s.healthy + (addrs - s.all)) - addrs))
  }

  // ---- Sync ------------------------------------------------------------------------------

  // A synced host is healthy if it is new or was healthy already. So a host that leaves and comes
  // back is not taken for a new one.
  lemma SyncedHealthIff(s: State, addrs: set<string>, a: string)
    ensures a in Synced(s, addrs).healthy <==> a in addrs && (a !in s.all || a in s.healthy)
  {
  }

  lemma ReturningHostIsNotNew(s: State, without: set<string>, with: set<string>, a: string)
    requires a in s.all && a !in without && a in with
    ensures a !in Synced(Synced(s, without), with).healthy
  {
    SyncedHealthIff(s, without, a);
    SyncedHealthIff(Synced(s, without), with, a);
  }

  // ---- A run over all addresses ----------------------------------------------------------

  // The checks finish in some order; each result is recorded under the lock.
  function Checked(c: Config, s: State, order: seq<string>, ok: string -> bool): State {
    if order == [] then s
    else Marked(c, Checked(c, s, order[..|order| - 1], ok), order[|order| - 1], ok(order[|order| - 1]))
  }

  // What the recorded results amount to, host by host.
  ghost predicate CheckOutcome(c: Config, s: State, checked: set<string>, ok: string -> bool, r: State) {
    && r.all == s.all
    && r.trend.Keys == s.trend.Keys + checked
    && (forall a :: a in r.trend ==> r.trend[a] == if a in checked then Moved(c, TrendOf(s, a), ok(a)) else s.trend[a])
    && (forall a :: a in r.healthy <==> if a in checked then HealthyAfter(c, s, a, ok(a)) else a in s.healthy)
  }

  ghost predicate HealthyAfter(c: Config, s: State, a: string, ok: bool) {
    var t := Moved(c, TrendOf(s, a), ok);
    if ok && t == c.passes then true else if !ok && t == -c.fails then false else a in s.healthy
  }

  lemma {:induction false} CheckedMeans(c: Config, s: State, order: seq<string>, ok: string -> bool)
    requires ValidConfig(c) && Distinct(order)
    ensures CheckOutcome(c, s, (set a | a in order), ok, Checked(c, s, order, ok))
  {
    if order != [] {
      var front, last := order[..|order| - 1], order[|order| - 1];
      CheckedMeans(c, s, front, ok);
      assert order == front + [last];
      assert (set a | a in order) == (set a | a in front) + {last};
      MarkExtendsOutcome(c, s, (set a | a in front), ok, Checked(c, s, front, ok), last);
    }
  }

  lemma MarkExtendsOutcome(c: Config, s: State, checked: set<string>, ok: string -> bool, r: State, a: string)
    requires ValidConfig(c) && CheckOutcome(c, s, checked, ok, r) && a !in checked
    ensures CheckOutcome(c, s, checked + {a}, ok, Marked(c, r, a, ok(a)))
  {
    assert TrendOf(r, a) == TrendOf(s, a);
  }

  lemma OutcomeIsUnique(c: Config, s: State, checked: set<string>, ok: string -> bool, r1: State, r2: State)
    requires CheckOutcome(c, s, checked, ok, r1) && CheckOutcome(c, s, checked, ok, r2)
    ensures r1 == r2
  {
    assert r1.healthy == r2.healthy;
    assert r1.trend == r2.trend;
  }

  // The result does not depend on the order in which the goroutines finish.
  lemma CheckOrderIsIrrelevant(c: Config, s: State, o1: seq<string>, o2: seq<string>, ok: string -> bool)
    requires ValidConfig(c) && Distinct(o1) && Distinct(o2) && (set a | a in o1) == (set a | a in o2)
    ensures Checked(c, s, o1, ok) == Checked(c, s, o2, ok)
  {
    CheckedMeans(c, s, o1, ok);
    CheckedMeans(c, s, o2, ok);
    OutcomeIsUnique(c, s, (set a | a in o1), ok, Checked(c, s, o1, ok), Checked(c, s, o2, ok));
  }

  // ---- One host ---------------------------------------------------------------------------

  // What the state says about one host.
  datatype Host = Host(seen: bool, healthy: bool, trend: int)

  function HostOf(s: State, a: string): Host {
    Host(a in s.all, a in s.healthy, TrendOf(s, a))
  }

  // What a round is to one host: a round over a single address, which is answered without sync or
  // check; a round it is not part of; or a check with its result.
  datatype Event = Alone | Away | Result(ok: bool)

  // A healthy host that goes away is unhealthy and loses its trend. An unhealthy one that goes
  // away stays as it is.
  function Step(c: Config, h: Host, e: Event): Host {
    match e
    case Alone => h
    case Away => if h.healthy then Host(h.seen, false, 0) else h
    case Result(ok) =>
      var t := Moved(c, h.trend, ok);
      Host(true, if ok && t == c.passes then true else if !ok && t == -c.fails then false else !h.seen || h.healthy, t)
  }

  function Life(c: Config, h: Host, es: seq<Event>): Host {
    if es == [] then h else Step(c, Life(c, h, es[..|es| - 1]), es[|es| - 1])
  }

  const UNKNOWN := Host(false, false, 0)

  // ---- From rounds to the life of one host ------------------------------------------------

  // One Run.
  datatype Round = Round(addrs: set<string>, order: seq<string>, ok: string -> bool)

  ghost predicate ValidRound(r: Round) {
    Distinct(r.order) && (set a | a in r.order) == r.addrs
  }

  function AfterRound(c: Config, s: State, r: Round): State {
    if |r.addrs| == 1 then s else Checked(c, Synced(s, r.addrs), r.order, r.ok)
  }

  function After(c: Config, s: State, rounds: seq<Round>): State {
    if rounds == [] then s else AfterRound(c, After(c, s, rounds[..|rounds| - 1]), rounds[|rounds| - 1])
  }

  function EventOf(r: Round, a: string): Event {
    if |r.addrs| == 1 then Alone else if a in r.addrs then Result(r.ok(a)) else Away
  }

  function Events(rounds: seq<Round>, a: string): seq<Event> {
    if rounds == [] then [] else Events(rounds[..|rounds| - 1], a) + [EventOf(rounds[|rounds| - 1], a)]
  }

  // Sync and check, seen by a host that is part of the round, and by one that is not.
  lemma CheckMovesMember(c: Config, s: State, r: Round, a: string)
    requires ValidConfig(c) && ValidRound(r) && a in r.addrs
    ensures HostOf(Checked(c, Synced(s, r.addrs), r.order, r.ok), a) == Step(c, HostOf(s, a), Result(r.ok(a)))
  {
    var s1 := Synced(s, r.addrs);
    CheckedMeans(c, s1, r.order, r.ok);
    assert TrendOf(s1, a) == TrendOf(s, a);
    SyncedHealthIff(s, r.addrs, a);
    var s2 := Checked(c, s1, r.order, r.ok);
    assert s2.trend[a] == Moved(c, TrendOf(s, a), r.ok(a));
    assert a in s2.healthy <==> HealthyAfter(c, s1, a, r.ok(a));
  }

  lemma CheckMovesAbsent(c: Config, s: State, r: Round, a: string)
    requires ValidConfig(c) && ValidRound(r) && a !in r.addrs
    ensures HostOf(Checked(c, Synced(s, r.addrs), r.order, r.ok), a) == Step(c, HostOf(s, a), Away)
  {
    var s1 := Synced(s, r.addrs);
    CheckedMeans(c, s1, r.order, r.ok);
    SyncedHealthIff(s, r.addrs, a);
    assert TrendOf(s1, a) == if a in s.healthy then 0 else TrendOf(s, a);
    var s2 := Checked(c, s1, r.order, r.ok);
    assert a in s2.healthy <==> a in s1.healthy;
    assert TrendOf(s2, a) == TrendOf(s1, a);
  }

  lemma RoundMovesOneHost(c: Config, s: State, r: Round, a: string)
    requires ValidConfig(c) && ValidRound(r)
    ensures HostOf(AfterRound(c, s, r), a) == Step(c, HostOf(s, a), EventOf(r, a))
  {
    if |r.addrs| != 1 {
      if a in r.addrs { CheckMovesMember(c, s, r, a); } else { CheckMovesAbsent(c, s, r, a); }
    }
  }

  // After any rounds, from any state, what the filter knows of a host is what its own life makes
  // of what it knew: the results of other hosts play no part.
  lemma {:induction false} HistoryDecidesHealth(c: Config, s: State, rounds: seq<Round>, a: string)
    requires ValidConfig(c) && forall i :: 0 <= i < |rounds| ==> ValidRound(rounds[i])
    ensures HostOf(After(c, s, rounds), a) == Life(c, HostOf(s, a), Events(rounds, a))
  {
    if rounds != [] {
      var front, last := rounds[..|rounds| - 1], rounds[|rounds| - 1];
      HistoryDecidesHealth(c, s, front, a);
      RoundMovesOneHost(c, After(c, s, front), last, a);
      var es := Events(rounds, a);
      assert es[..|es| - 1] == Events(front, a);
    }
  }

  // ---- What the trend means --------------------------------------------------------------

  // Length of the run of `ok` results at the end of a life. Rounds over a single address do not
  // interrupt it, and neither does an absence, unless the host was healthy when it left.
  function Streak(c: Config, h: Host, es: seq<Event>, ok: bool): nat {
    if es == [] then 0
    else
      var front := es[..|es| - 1];
      match es[|es| - 1]
      case Alone => Streak(c, h, front, ok)
      case Away => if Life(c, h, front).healthy then 0 else Streak(c, h, front, ok)
      case Result(b) => if b == ok then 1 + Streak(c, h, front, ok) else 0
  }

  // The trend is the length of the latest streak, cut off at the threshold, and signed.
  lemma {:induction false} TrendIsCappedStreak(c: Config, h: Host, es: seq<Event>)
    requires ValidConfig(c) && h.trend == 0
    ensures Streak(c, h, es, true) == 0 || Streak(c, h, es, false) == 0
    ensures Life(c, h, es).trend == Min(Streak(c, h, es, true), c.passes) - Min(Streak(c, h, es, false), c.fails)
  {
    if es != [] { TrendIsCappedStreak(c, h, es[..|es| - 1]); }
  }

  // ---- When a host is healthy ------------------------------------------------------------

  // The i-th event completes a streak of Passes passes.
  ghost predicate RoseAt(c: Config, h: Host, es: seq<Event>, i: nat)
    requires 0 < i <= |es|
  {
    es[i - 1] == Result(true) && Streak(c, h, es[..i], true) >= c.passes
  }

  // The i-th event completes a streak of Fails failures, or the host goes away while healthy.
  ghost predicate FellAt(c: Config, h: Host, es: seq<Event>, i: nat)
    requires 0 < i <= |es|
  {
    || (es[i - 1] == Result(false) && Streak(c, h, es[..i], false) >= c.fails)
    || (es[i - 1].Away? && Life(c, h, es[..i - 1]).healthy)
  }

  ghost predicate NotFallenSince(c: Config, h: Host, es: seq<Event>, i: nat)
    requires i <= |es|
  {
    forall j :: i < j <= |es| ==> !FellAt(c, h, es, j)
  }

  ghost predicate Recovered(c: Config, h: Host, es: seq<Event>) {
    exists i :: 0 < i <= |es| && RoseAt(c, h, es, i) && NotFallenSince(c, h, es, i)
  }

  // A host starts out healthy, if it was known to be or if it is new, and was checked at all.
  ghost predicate StartsUp(h: Host, es: seq<Event>) {
    h.healthy || (!h.seen && exists i :: 0 <= i < |es| && es[i].Result?)
  }

  ghost predicate Up(c: Config, h: Host, es: seq<Event>) {
    Recovered(c, h, es) || (StartsUp(h, es) && NotFallenSince(c, h, es, 0))
  }

  lemma {:induction false} SeenIff(c: Config, h: Host, es: seq<Event>)
    requires h.healthy ==> h.seen
    ensures Life(c, h, es).seen <==> h.seen || exists i :: 0 <= i < |es| && es[i].Result?
    ensures Life(c, h, es).healthy ==> Life(c, h, es).seen
  {
    if es != [] {
      var front := es[..|es| - 1];
      SeenIff(c, h, front);
      assert forall i :: 0 <= i < |front| ==> front[i] == es[i];
      if es[|es| - 1].Result? { assert es[|es| - 1].Result?; }
    }
  }

  // Earlier rises and falls are the same in a longer life.
  lemma SamePast(c: Config, h: Host, es: seq<Event>, i: nat)
    requires 0 < i < |es|
    ensures var front := es[..|es| - 1];
            (RoseAt(c, h, es, i) <==> RoseAt(c, h, front, i)) && (FellAt(c, h, es, i) <==> FellAt(c, h, front, i))
  {
    var front := es[..|es| - 1];
    assert es[..i] == front[..i] && es[..i - 1] == front[..i - 1] && es[i - 1] == front[i - 1];
  }

  lemma LastDecides(c: Config, h: Host, es: seq<Event>)
    requires es != []
    ensures RoseAt(c, h, es, |es|) && !FellAt(c, h, es, |es|) ==> Recovered(c, h, es)
    ensures FellAt(c, h, es, |es|) ==> !Up(c, h, es) || RoseAt(c, h, es, |es|)
    ensures !RoseAt(c, h, es, |es|) && !FellAt(c, h, es, |es|) ==>
              (Recovered(c, h, es) <==> Recovered(c, h, es[..|es| - 1]))
    ensures !FellAt(c, h, es, |es|) ==> (NotFallenSince(c, h, es, 0) <==> NotFallenSince(c, h, es[..|es| - 1], 0))
  {
    var front, n := es[..|es| - 1], |es|;
    forall i | 0 < i < n ensures (RoseAt(c, h, es, i) <==> RoseAt(c, h, front, i)) &&
      (FellAt(c, h, es, i) <==> FellAt(c, h, front, i)) {
      SamePast(c, h, es, i);
    }
    if RoseAt(c, h, es, n) { assert NotFallenSince(c, h, es, n); }
    if !FellAt(c, h, es, n) {
      forall i | 0 <= i < n ensures NotFallenSince(c, h, es, i) <==> NotFallenSince(c, h, front, i) { }
      if Recovered(c, h, front) {
        var i :| 0 < i <= |front| && RoseAt(c, h, front, i) && NotFallenSince(c, h, front, i);
        assert RoseAt(c, h, es, i) && NotFallenSince(c, h, es, i);
      }
    }
  }

  // For every life: a host is healthy exactly if it has completed a streak of passes, or started
  // out healthy, and has neither completed a streak of failures nor left while healthy since.
  lemma {:induction false} HealthyIff(c: Config, h: Host, es: seq<Event>)
    requires ValidConfig(c) && h.trend == 0 && (h.healthy ==> h.seen)
    ensures Life(c, h, es).healthy <==> Up(c, h, es)
  {
    if es != [] {
      var front, e := es[..|es| - 1], es[|es| - 1];
      HealthyIff(c, h, front);
      TrendIsCappedStreak(c, h, es);
      assert es[..|es|] == es;
      LastDecides(c, h, es);
      SeenIff(c, h, front);
      SeenIff(c, h, es);
      if e.Result? && !Life(c, h, front).seen { UnseenNeverFell(c, h, front); }
    }
  }

  lemma UnseenNeverFell(c: Config, h: Host, es: seq<Event>)
    requires ValidConfig(c) && h.trend == 0 && !h.seen && !h.healthy && !Life(c, h, es).seen
    ensures NotFallenSince(c, h, es, 0)
  {
    SeenIff(c, h, es);
    forall j | 0 < j <= |es| ensures !FellAt(c, h, es, j) {
      SeenIff(c, h, es[..j - 1]);
      assert forall i :: 0 <= i < j - 1 ==> es[..j - 1][i] == es[i];
    }
  }

  // ---- Leaving and returning -------------------------------------------------------------

  lemma {:induction false} LifeGoesOn(c: Config, h: Host, es: seq<Event>, more: seq<Event>)
    ensures Life(c, h, es + more) == Life(c, Life(c, h, es), more)
  {
    if more == [] {
      assert es + more == es;
    } else {
      assert (es + more)[..|es + more| - 1] == es + more[..|more| - 1];
      LifeGoesOn(c, h, es, more[..|more| - 1]);
    }
  }

  // Exactly when a host that has left and returned is healthy. One that left healthy has to
  // complete a whole streak of passes, and not fall again. One that left unhealthy is healthy as if
  // it had never been away, so passes before it left still count.
  lemma ReturningHostHealthyIff(c: Config, h: Host, es: seq<Event>, more: seq<Event>)
    requires ValidConfig(c) && h.trend == 0 && (h.healthy ==> h.seen)
    ensures Life(c, h, es).healthy ==>
      (Life(c, h, es + [Away] + more).healthy <==> Recovered(c, Host(true, false, 0), more))
    ensures !Life(c, h, es).healthy ==> Life(c, h, es + [Away] + more) == Life(c, h, es + more)
  {
    SeenIff(c, h, es);
    LifeGoesOn(c, h, es, more);
    LifeGoesOn(c, h, es + [Away], more);
    assert (es + [Away])[..|es|] == es;
    if Life(c, h, es).healthy { HealthyIff(c, Host(true, false, 0), more); }
  }

  // In particular one pass after the return can be enough also when two are asked for: a host that
  // fails, passes once and leaves needs only the other.
  lemma OnePassAfterReturn(c: Config, h: Host)
    requires ValidConfig(c) && h.seen
    ensures Life(c, h, [Away, Result(true)]).healthy <==>
      if h.healthy then c.passes == 1 else h.trend + 1 >= c.passes || c.passes == 1
  {
    assert [Away, Result(true)][..1] == [Away] && [Away][..0] == [];
    assert Life(c, h, [Away]) == Step(c, h, Away);
    assert Life(c, h, [Away, Result(true)]) == Step(c, Step(c, h, Away), Result(true));
  }

  lemma ShortStreakAfterReturn(c: Config)
    requires c == Config(1, 2)
    ensures !Life(c, UNKNOWN, [Result(false), Result(true)]).healthy
    ensures Life(c, UNKNOWN, [Result(false), Result(true), Away, Result(true)]).healthy
  {
    var es := [Result(false), Result(true)];
    assert es[..1] == [Result(false)] && [Result(false)][..0] == [];
    assert Life(c, UNKNOWN, [Result(false)]) == Host(true, false, -1);
    assert Life(c, UNKNOWN, es) == Host(true, false, 1);
    assert es + [Away, Result(true)] == [Result(false), Result(true), Away, Result(true)];
    LifeGoesOn(c, UNKNOWN, es, [Away, Result(true)]);
    OnePassAfterReturn(c, Host(true, false, 1));
  }

  // ---- The filter as an object -----------------------------------------------------------

  class Filter {
    const config: Config
    var all: set<string>
    var healthy: set<string>
    var trend: map<string, int>

    // Every Run so far.
    ghost var history: seq<Round>

    ghost predicate Valid()
      reads this
    {
      && ValidConfig(config) && View() == After(config, State({}, {}, map[]), history)
      && forall i :: 0 <= i < |history| ==> ValidRound(history[i])
    }

    ghost function View(): State
      reads this
    {
      State(all, healthy, trend)
    }

    constructor (config: Config)
      requires ValidConfig(config)
      ensures Valid() && this.config == config && history == []
    {
      this.config, all, healthy, trend := config, {}, {}, map[];
      history := [];
    }

    method Sync(addrs: set<string>)
      modifies this`all, this`healthy, this`trend
      ensures View() == Synced(old(View()), addrs)
    {
      var todo := addrs;
      while todo != {}
        invariant todo <= addrs && trend == old(trend)
        invariant all == old(all) + (addrs - todo)
        invariant healthy == old(healthy) + ((addrs - todo) - old(all))
        decreases todo
      {
        var a :| a in todo;
        todo := todo - {a};
        if a !in all {
          all, healthy := all + {a}, healthy + {a};
        }
      }
      ghost var grown := healthy;
      todo := healthy;
      while todo != {}
        invariant todo <= healthy <= grown && all == old(all) + addrs
        invariant healthy == todo + ((grown - todo) * addrs)
        invariant trend == old(trend) - ((grown - todo) - addrs)
        decreases todo
      {
        var a :| a in todo;
        todo := todo - {a};
        if a !in addrs {
          healthy, trend := healthy - {a}, trend - {a};
        }
      }
      assert healthy == grown * addrs;
    }

    method Mark(a: string, ok: bool)
      modifies this`healthy, this`trend
      ensures View() == Marked(config, old(View()), a, ok)
    {
      var t := if a in trend then trend[a] else 0;
      if ok {
        trend := trend[a := Min(Max(t + 1, 1), config.passes)];
        if trend[a] == config.passes { healthy := healthy + {a}; }
      } else {
        trend := trend[a := Max(Min(t - 1, -1), -config.fails)];
        if trend[a] == -config.fails { healthy := healthy - {a}; }
      }
    }

    // Run: `order` is the order in which the checks complete and `ok` their results. A single host
    // is always taken for healthy; of several, those are that their own history says are.
    method Run(addrs: set<string>, order: seq<string>, ok: string -> bool) returns (r: set<string>)
      requires Valid() && Distinct(order) && (set a | a in order) == addrs
      modifies this
      ensures Valid() && history == old(history) + [Round(addrs, order, ok)]
      ensures r <= addrs
      ensures |addrs| == 1 ==> r == addrs && View() == old(View())
      ensures |addrs| != 1 ==> forall a :: a in r <==> Life(config, UNKNOWN, Events(history, a)).healthy
      ensures |addrs| != 1 ==> forall a :: a in r <==> Up(config, UNKNOWN, Events(history, a))
    {
      history := history + [Round(addrs, order, ok)];
      assert history[..|history| - 1] == old(history);
      if |addrs| == 1 { return addrs; }
      CheckAll(addrs, order, ok);
      r := healthy;
      forall a ensures a in r <==> Life(config, UNKNOWN, Events(history, a)).healthy {
        HistoryDecidesHealth(config, State({}, {}, map[]), history, a);
      }
      forall a ensures a in r <==> Up(config, UNKNOWN, Events(history, a)) {
        HealthyIff(config, UNKNOWN, Events(history, a));
      }
    }

    method CheckAll(addrs: set<string>, order: seq<string>, ok: string -> bool)
      requires ValidConfig(config) && Distinct(order) && (set a | a in order) == addrs
      modifies this`all, this`healthy, this`trend
      ensures View() == Checked(config, Synced(old(View()), addrs), order, ok) && healthy <= addrs
    {
      Sync(addrs);
      ghost var s := View();
      for i := 0 to |order|
        invariant View() == Checked(config, s, order[..i], ok)
      {
        assert order[..i + 1][..i] == order[..i];
        Mark(order[i], ok(order[i]));
      }
      assert order[..|order|] == order;
      CheckedMeans(config, s, order, ok);
    }
  }
}
