/**
  The goroutines of a listing after List has returned and closed `done`: every select of a lister
  or a sendAll now has a second way out.
*/
module HdfsEnding {
  import opened Options
  import opened Sums
  import opened HdfsList

  // A sendAll with nothing left to send has ended; an ended lister is None.
  datatype Rest = Rest(senders: seq<seq<Node>>, listers: seq<Option<Lister>>)

  datatype Step = Quit(l: nat) | QuitSending(i: nat) | Listed(l: nat) | Hand(i: nat, l: nat)

  // What is left when List returns.
  function Left(s: State): Rest {
    Rest(s.senders, seq(|s.listers|, l requires 0 <= l < |s.listers| => Some(s.listers[l])))
  }

  // A select with two ready cases may take either, so directories can still be handed over.
  ghost predicate EndNext(s: Rest, a: Step, s': Rest) {
    match a
    case Quit(l) =>
      l < |s.listers| && s.listers[l].Some? && !s.listers[l].value.Busy? && s' == s.(listers := s.listers[l := None])
    case QuitSending(i) => i < |s.senders| && s.senders[i] != [] && s' == s.(senders := s.senders[i := []])
    case Listed(l) =>
      l < |s.listers| && s.listers[l].Some? && s.listers[l].value.Busy? &&
      s' == s.(listers := s.listers[l := Some(Ready(s.listers[l].value.dir))])
    case Hand(i, l) =>
      i < |s.senders| && s.senders[i] != [] && l < |s.listers| && s.listers[l] == Some(Free) &&
      s' == Rest(s.senders[i := s.senders[i][1..]], s.listers[l := Some(Busy(s.senders[i][0]))])
  }

  ghost predicate Ended(s: Rest) {
    && (forall i :: 0 <= i < |s.senders| ==> s.senders[i] == [])
    && (forall l :: 0 <= l < |s.listers| ==> s.listers[l].None?)
  }

  function Steps(l: Option<Lister>): int {
    match l
    case None => 0
    case Some(Free) => 1
    case Some(Ready(_)) => 2
    case Some(Busy(_)) => 3
  }

  ghost function StepsLeft(s: Rest): int {
    3 * Sum(Length, s.senders) + Sum(Steps, s.listers)
  }

  lemma StepsAreNatural(s: Rest)
    ensures StepsLeft(s) >= 0
  {
    LengthsAreNatural(s.senders);
    ListersAreBounded(s.listers);
  }

  lemma {:induction false} LengthsAreNatural(ss: seq<seq<Node>>)
    ensures Sum(Length, ss) >= 0
  {
    if ss != [] { LengthsAreNatural(ss[1..]); }
  }

  lemma {:induction false} ListersAreBounded(ls: seq<Option<Lister>>)
    ensures 0 <= Sum(Steps, ls) <= 3 * |ls|
  {
    if ls != [] { ListersAreBounded(ls[1..]); }
  }

  lemma EndStepShrinks(s: Rest, a: Step, s': Rest)
    requires EndNext(s, a, s')
    ensures StepsLeft(s') < StepsLeft(s)
  {
    match a
    case Quit(l) => SumUpdate(Steps, s.listers, l, None);
    case QuitSending(i) => SumUpdate(Length, s.senders, i, []);
    case Listed(l) => SumUpdate(Steps, s.listers, l, s'.listers[l]);
    case Hand(i, l) =>
      SumUpdate(Length, s.senders, i, s.senders[i][1..]);
      SumUpdate(Steps, s.listers, l, s'.listers[l]);
  }

  ghost predicate EndRun(states: seq<Rest>, steps: seq<Step>) {
    |states| == |steps| + 1 && forall n :: 0 <= n < |steps| ==> EndNext(states[n], steps[n], states[n + 1])
  }

  lemma {:induction false} EndRunShrinks(states: seq<Rest>, steps: seq<Step>, n: nat)
    requires EndRun(states, steps) && n < |states|
    ensures n + StepsLeft(states[n]) <= StepsLeft(states[0])
  {
    if n > 0 {
      EndRunShrinks(states, steps, n - 1);
      EndStepShrinks(states[n - 1], steps[n - 1], states[n]);
    }
  }

  // However the rest interleaves, it is over after at most three steps for each directory not yet
  // sent and each lister.
  lemma EndingIsBounded(s: State, states: seq<Rest>, steps: seq<Step>)
    requires EndRun(states, steps) && states[0] == Left(s)
    ensures |steps| <= 3 * Sum(Length, s.senders) + 3 * |s.listers|
  {
    EndRunShrinks(states, steps, |steps|);
    StepsAreNatural(states[|steps|]);
    ListersAreBounded(Left(s).listers);
  }

  // And it is over only when no goroutine is left: each that is has a step of its own, for which it
  // needs nobody else.
  lemma NobodyIsLeftBehind(s: Rest)
    ensures Ended(s) <==> forall a, s' :: !EndNext(s, a, s')
  {
    if i :| 0 <= i < |s.senders| && s.senders[i] != [] {
      assert EndNext(s, QuitSending(i), s.(senders := s.senders[i := []]));
    } else if l :| 0 <= l < |s.listers| && s.listers[l].Some? {
      if s.listers[l].value.Busy? {
        assert EndNext(s, Step.Listed(l), s.(listers := s.listers[l := Some(Ready(s.listers[l].value.dir))]));
      } else {
        assert EndNext(s, Quit(l), s.(listers := s.listers[l := None]));
      }
    }
  }
}
