/**
  The tracker's LocalStore under concurrency: any number of announces racing with one cleaner
  goroutine that alternates between removing expired entries and removing expired groups. A
  step is one region under the store lock or under one group's lock.
*/
module PeerStore {
  import opened PeerGroup
  import opened Seqs

  type Hash = string
  type GroupId = nat

  // The group record as the locks protect it; `hash` is the key it was created under.
  datatype Record = Record(hash: Hash, list: seq<Entry>, lastExpiresAt: int, deleted: bool)

  datatype Announce =
    | Done
    | Looking(h: Hash, p: PeerInfo)
    | Found(h: Hash, p: PeerInfo, g: GroupId)   // store lock released, group lock not yet taken

  datatype Cleaner =
    | Idle
    | Entries(todo: seq<GroupId>)
    | Snapped(g: GroupId, idx: seq<nat>, snap: seq<Entry>, at: int, todo: seq<GroupId>)
    | Groups(hashes: set<Hash>)                 // holds the store lock throughout

  datatype State = State(
    now: int,
    mapped: map<Hash, GroupId>,
    groups: map<GroupId, Record>,
    announces: seq<Announce>,
    cleaner: Cleaner)

  datatype Action =
    | Tick(time: int)
    | Start(h: Hash, p: PeerInfo) | LookUp(i: nat, unused: GroupId) | Apply(i: nat)
    | EntriesStart(gs: seq<GroupId>) | EntriesSnap(idx: seq<nat>) | EntriesSweep | EntriesEnd
    | GroupsStart | GroupsSkip(h: Hash) | GroupsCheck(h: Hash) | GroupsEnd

  ghost predicate AnnounceStep(ttl: int, s: State, a: Action, s': State) {
    match a
    case Start(h, p) => s' == s.(announces := s.announces + [Looking(h, p)])
    case LookUp(i, unused) =>
      i < |s.announces| && s.announces[i].Looking? && !s.cleaner.Groups? &&
      var Looking(h, p) := s.announces[i];
      if h in s.mapped then
        s' == s.(announces := s.announces[i := Found(h, p, s.mapped[h])])
      else
        unused !in s.groups &&
        s' == s.(announces := s.announces[i := Found(h, p, unused)],
                 mapped := s.mapped[h := unused],
                 groups := s.groups[unused := Record(h, [], s.now + ttl, false)])
    case Apply(i) =>
      i < |s.announces| && s.announces[i].Found? &&
      var Found(h, p, g) := s.announces[i];
      g in s.groups &&
      if s.groups[g].deleted then
        s' == s.(announces := s.announces[i := Looking(h, p)])
      else
        s' == s.(announces := s.announces[i := Done],
                 groups := s.groups[g := s.groups[g].(list := Updated(s.groups[g].list, Entry(p, s.now + ttl)),
                                                      lastExpiresAt := s.now + ttl)])
    case _ => false
  }

  ghost predicate EntriesStep(s: State, a: Action, s': State) {
    match a
    case EntriesStart(gs) =>
      s.cleaner.Idle? && (forall g :: g in gs ==> g in s.mapped.Values) &&
        (forall g :: g in s.mapped.Values ==> g in gs) &&
      s' == s.(cleaner := Entries(gs))
    case EntriesSnap(idx) =>
      s.cleaner.Entries? && s.cleaner.todo != [] && s.cleaner.todo[0] in s.groups &&
      var g, todo := s.cleaner.todo[0], s.cleaner.todo[1..];
      ExpiredAt(s.groups[g].list, s.now, idx) &&
      s' == s.(cleaner := if idx == [] then Entries(todo) else Snapped(g, idx, s.groups[g].list, s.now, todo))
    case EntriesSweep =>
      s.cleaner.Snapped? && s.cleaner.g in s.groups &&
      var g := s.cleaner.g;
      s' == s.(cleaner := Entries(s.cleaner.todo),
               groups := s.groups[g := s.groups[g].(list := Sweep(s.groups[g].list, s.cleaner.idx, s.now))])
    case EntriesEnd => s.cleaner == Entries([]) && s' == s.(cleaner := Idle)
    case _ => false
  }

  ghost predicate GroupsStep(s: State, a: Action, s': State) {
    match a
    case GroupsStart => s.cleaner.Idle? && s' == s.(cleaner := Groups(s.mapped.Keys))
    case GroupsSkip(h) =>
      s.cleaner.Groups? && h in s.cleaner.hashes && h in s.mapped && s.mapped[h] in s.groups &&
      s.now < s.groups[s.mapped[h]].lastExpiresAt &&
      s' == s.(cleaner := Groups(s.cleaner.hashes - {h}))
    case GroupsCheck(h) =>
      s.cleaner.Groups? && h in s.cleaner.hashes && h in s.mapped && s.mapped[h] in s.groups &&
      var g := s.mapped[h];
      if s.now > s.groups[g].lastExpiresAt then
        s' == s.(cleaner := Groups(s.cleaner.hashes - {h}), mapped := s.mapped - {h},
                 groups := s.groups[g := s.groups[g].(deleted := true)])
      else s' == s.(cleaner := Groups(s.cleaner.hashes - {h}))
    case GroupsEnd => s.cleaner == Groups({}) && s' == s.(cleaner := Idle)
    case _ => false
  }

  ghost predicate Next(ttl: int, s: State, a: Action, s': State) {
    || (a.Tick? && s.now <= a.time && s' == s.(now := a.time))
    || AnnounceStep(ttl, s, a, s')
    || EntriesStep(s, a, s')
    || GroupsStep(s, a, s')
  }

  ghost predicate Init(s: State) {
    s.mapped == map[] && s.groups == map[] && s.announces == [] && s.cleaner.Idle?
  }

  datatype Run = Run(states: seq<State>, actions: seq<Action>)

  ghost predicate ValidRun(ttl: int, r: Run) {
    && |r.states| == |r.actions| + 1
    && Init(r.states[0])
    && forall i :: 0 <= i < |r.actions| ==> Next(ttl, r.states[i], r.actions[i], r.states[i + 1])
  }

  // ---- Invariant -------------------------------------------------------------------------

  // A group is mapped exactly when it is not marked deleted, and under its own hash.
  ghost predicate MappedIffLive(s: State) {
    && (forall h :: h in s.mapped ==>
          s.mapped[h] in s.groups && s.groups[s.mapped[h]].hash == h && !s.groups[s.mapped[h]].deleted)
    && (forall g :: g in s.groups && !s.groups[g].deleted ==>
         s.groups[g].hash in s.mapped && s.mapped[s.groups[g].hash] == g)
  }

  // Ids are distinct, and the last expiry bounds every entry's.
  ghost predicate GoodRecord(ttl: int, now: int, r: Record) {
    && DistinctIds(r.list) && r.lastExpiresAt <= now + ttl
    && forall i :: 0 <= i < |r.list| ==> r.list[i].expiresAt <= r.lastExpiresAt
  }

  ghost predicate GoodAnnounce(s: State, a: Announce) {
    a.Found? ==> a.g in s.groups && s.groups[a.g].hash == a.h
  }

  // Since the snapshot the list has only been refreshed in place and appended to.
  ghost predicate Extends(l: seq<Entry>, snap: seq<Entry>) {
    |snap| <= |l| && forall i :: 0 <= i < |snap| ==> l[i].info.id == snap[i].info.id
  }

  ghost predicate GoodCleaner(s: State) {
    match s.cleaner
    case Idle => true
    case Entries(todo) => forall g :: g in todo ==> g in s.groups
    case Snapped(g, idx, snap, at, todo) =>
      && g in s.groups && ExpiredAt(snap, at, idx) && at <= s.now && Extends(s.groups[g].list, snap)
      && forall g :: g in todo ==> g in s.groups
    case Groups(hashes) => hashes <= s.mapped.Keys
  }

  ghost predicate Inv(ttl: int, s: State) {
    && MappedIffLive(s)
    && (forall g :: g in s.groups ==> GoodRecord(ttl, s.now, s.groups[g]))
    && (forall i :: 0 <= i < |s.announces| ==> GoodAnnounce(s, s.announces[i]))
    && GoodCleaner(s)
  }

  lemma UpdateKeepsGoodRecord(ttl: int, now: int, r: Record, p: PeerInfo)
    requires GoodRecord(ttl, now, r)
    ensures var l := Updated(r.list, Entry(p, now + ttl));
            && GoodRecord(ttl, now, r.(list := l, lastExpiresAt := now + ttl))
            && Extends(l, r.list)
  {
    UpdatedMeans(r.list, Entry(p, now + ttl));
  }

  lemma ExtendsTransitive(a: seq<Entry>, b: seq<Entry>, c: seq<Entry>)
    requires Extends(a, b) && Extends(b, c)
    ensures Extends(a, c)
  {
  }

  lemma LookUpKeepsInv(ttl: int, s: State, a: Action, s': State)
    requires Inv(ttl, s) && a.LookUp? && AnnounceStep(ttl, s, a, s')
    ensures MappedIffLive(s') && GoodCleaner(s') && forall g :: g in s'.groups ==> GoodRecord(ttl, s'.now, s'.groups[g])
  {
  }

  lemma ApplyKeepsInv(ttl: int, s: State, a: Action, s': State)
    requires Inv(ttl, s) && a.Apply? && AnnounceStep(ttl, s, a, s')
    ensures MappedIffLive(s') && GoodCleaner(s') && forall g :: g in s'.groups ==> GoodRecord(ttl, s'.now, s'.groups[g])
  {
    var g := s.announces[a.i].g;
    UpdateKeepsGoodRecord(ttl, s.now, s.groups[g], s.announces[a.i].p);
    if s.cleaner.Snapped? && s.cleaner.g == g {
      ExtendsTransitive(s'.groups[g].list, s.groups[g].list, s.cleaner.snap);
    }
  }

  lemma AnnounceKeepsAnnounces(ttl: int, s: State, a: Action, s': State)
    requires Inv(ttl, s) && AnnounceStep(ttl, s, a, s')
    ensures forall i :: 0 <= i < |s'.announces| ==> GoodAnnounce(s', s'.announces[i])
  {
    forall i | 0 <= i < |s'.announces| ensures GoodAnnounce(s', s'.announces[i]) {
      assert i < |s.announces| ==> GoodAnnounce(s, s.announces[i]);
    }
  }

  lemma AnnounceKeepsInv(ttl: int, s: State, a: Action, s': State)
    requires Inv(ttl, s) && AnnounceStep(ttl, s, a, s')
    ensures Inv(ttl, s')
  {
    AnnounceKeepsAnnounces(ttl, s, a, s');
    if a.LookUp? {
      LookUpKeepsInv(ttl, s, a, s');
    } else if a.Apply? {
      ApplyKeepsInv(ttl, s, a, s');
    }
  }

  lemma EntriesKeepsInv(ttl: int, s: State, a: Action, s': State)
    requires Inv(ttl, s) && EntriesStep(s, a, s')
    ensures Inv(ttl, s')
  {
    forall i | 0 <= i < |s'.announces| ensures GoodAnnounce(s', s'.announces[i]) {
      assert GoodAnnounce(s, s.announces[i]);
    }
    match a
    case EntriesStart(gs) =>
      forall g | g in gs ensures g in s.groups {
        var h :| h in s.mapped && s.mapped[h] == g;
      }
    case EntriesSweep =>
      var r := s.groups[s.cleaner.g];
      SweepExact(r.list, s.cleaner.idx, s.now);
      var l := s'.groups[s.cleaner.g].list;
      forall i | 0 <= i < |l| ensures l[i].expiresAt <= r.lastExpiresAt {
        assert l[i] in l;
      }
    case _ =>
  }

  lemma GroupsKeepsInv(ttl: int, s: State, a: Action, s': State)
    requires Inv(ttl, s) && GroupsStep(s, a, s')
    ensures Inv(ttl, s')
  {
    forall i | 0 <= i < |s'.announces| ensures GoodAnnounce(s', s'.announces[i]) {
      assert GoodAnnounce(s, s.announces[i]);
    }
  }

  lemma StepKeepsInv(ttl: int, s: State, a: Action, s': State)
    requires Inv(ttl, s) && Next(ttl, s, a, s')
    ensures Inv(ttl, s') && s.now <= s'.now
  {
    if a.Tick? {
      forall i | 0 <= i < |s'.announces| ensures GoodAnnounce(s', s'.announces[i]) {
        assert GoodAnnounce(s, s.announces[i]);
      }
    } else if AnnounceStep(ttl, s, a, s') {
      AnnounceKeepsInv(ttl, s, a, s');
    } else if EntriesStep(s, a, s') {
      EntriesKeepsInv(ttl, s, a, s');
    } else {
      GroupsKeepsInv(ttl, s, a, s');
    }
  }

  lemma {:induction false} InvInEveryRun(ttl: int, r: Run, n: nat)
    requires ValidRun(ttl, r) && n < |r.states|
    ensures Inv(ttl, r.states[n])
  {
    if n > 0 {
      InvInEveryRun(ttl, r, n - 1);
      StepKeepsInv(ttl, r.states[n - 1], r.actions[n - 1], r.states[n]);
    }
  }

  // ---- A peer stays until it expires -----------------------------------------------------

  // The group mapped under h is g, and it holds the peer with an expiry of at least `until`.
  ghost predicate Holds(s: State, h: Hash, g: GroupId, id: PeerId, until: int) {
    && h in s.mapped && s.mapped[h] == g && g in s.groups
    && exists i :: 0 <= i < |s.groups[g].list| && s.groups[g].list[i].info.id == id &&
         s.groups[g].list[i].expiresAt >= until
  }

  lemma UpdateKeepsHolding(l: seq<Entry>, e: Entry, i: nat, until: int) returns (j: nat)
    requires DistinctIds(l) && i < |l| && l[i].expiresAt >= until && e.expiresAt >= until
    ensures j < |Updated(l, e)| && Updated(l, e)[j].info.id == l[i].info.id && Updated(l, e)[j].expiresAt >= until
  {
    UpdatedMeans(l, e);
    j := i;
  }

  lemma SweepKeepsHolding(l: seq<Entry>, idx: seq<nat>, now: int, i: nat) returns (j: nat)
    requires DistinctIds(l) && Ascending(idx, |l|) && i < |l| && now < l[i].expiresAt
    ensures j < |Sweep(l, idx, now)| && Sweep(l, idx, now)[j] == l[i]
  {
    SweepExact(l, idx, now);
    j :| 0 <= j < |Sweep(l, idx, now)| && Sweep(l, idx, now)[j] == l[i];
  }

  // The same list, under the same hash.
  lemma SameListKeepsHolding(s: State, s': State, h: Hash, g: GroupId, id: PeerId, until: int)
    requires Holds(s, h, g, id, until)
    requires h in s'.mapped && s'.mapped[h] == g && g in s'.groups && s'.groups[g].list == s.groups[g].list
    ensures Holds(s', h, g, id, until)
  {
  }

  lemma AnnounceKeepsHolding(ttl: int, s: State, a: Action, s': State, h: Hash, g: GroupId, id: PeerId, until: int)
    requires Inv(ttl, s) && AnnounceStep(ttl, s, a, s') && until <= s.now + ttl && Holds(s, h, g, id, until)
    ensures Holds(s', h, g, id, until)
  {
    if a.Apply? && s.announces[a.i].g == g {
      var l := s.groups[g].list;
      var i :| 0 <= i < |l| && l[i].info.id == id && l[i].expiresAt >= until;
      var j := UpdateKeepsHolding(l, Entry(s.announces[a.i].p, s.now + ttl), i, until);
      assert s'.groups[g].list[j].info.id == id;
    } else {
      SameListKeepsHolding(s, s', h, g, id, until);
    }
  }

  lemma EntriesKeepsHolding(ttl: int, s: State, a: Action, s': State, h: Hash, g: GroupId, id: PeerId, until: int)
    requires Inv(ttl, s) && EntriesStep(s, a, s') && s.now < until && Holds(s, h, g, id, until)
    ensures Holds(s', h, g, id, until)
  {
    if a.EntriesSweep? && s.cleaner.g == g {
      var l := s.groups[g].list;
      var i :| 0 <= i < |l| && l[i].info.id == id && l[i].expiresAt >= until;
      var j := SweepKeepsHolding(l, s.cleaner.idx, s.now, i);
      assert s'.groups[g].list[j].info.id == id;
    } else {
      SameListKeepsHolding(s, s', h, g, id, until);
    }
  }

  // The last expiry is not over, so the group cannot be marked deleted.
  lemma GroupsKeepsHolding(ttl: int, s: State, a: Action, s': State, h: Hash, g: GroupId, id: PeerId, until: int)
    requires Inv(ttl, s) && GroupsStep(s, a, s') && s.now < until && Holds(s, h, g, id, until)
    ensures Holds(s', h, g, id, until)
  {
    assert GoodRecord(ttl, s.now, s.groups[g]);
    SameListKeepsHolding(s, s', h, g, id, until);
  }

  lemma StepKeepsHolding(ttl: int, s: State, a: Action, s': State, h: Hash, g: GroupId, id: PeerId, until: int)
    requires Inv(ttl, s) && Next(ttl, s, a, s') && s'.now < until <= s.now + ttl
    requires Holds(s, h, g, id, until)
    ensures Holds(s', h, g, id, until)
  {
    if a.Tick? {
      SameListKeepsHolding(s, s', h, g, id, until);
    } else if AnnounceStep(ttl, s, a, s') {
      AnnounceKeepsHolding(ttl, s, a, s', h, g, id, until);
    } else if EntriesStep(s, a, s') {
      EntriesKeepsHolding(ttl, s, a, s', h, g, id, until);
    } else {
      GroupsKeepsHolding(ttl, s, a, s', h, g, id, until);
    }
  }

  lemma {:induction false} HoldingLasts(ttl: int, r: Run, i: nat, j: nat, h: Hash, g: GroupId, id: PeerId, until: int)
    requires ValidRun(ttl, r) && i <= j < |r.states| && Holds(r.states[i], h, g, id, until)
    requires r.states[j].now < until <= r.states[i].now + ttl
    ensures Holds(r.states[j], h, g, id, until)
    decreases j
  {
    if i < j {
      ClockGrows(ttl, r, i, j - 1);
      ClockGrows(ttl, r, j - 1, j);
      HoldingLasts(ttl, r, i, j - 1, h, g, id, until);
      InvInEveryRun(ttl, r, j - 1);
      StepKeepsHolding(ttl, r.states[j - 1], r.actions[j - 1], r.states[j], h, g, id, until);
    }
  }

  // Step i applies an announce (and does not have to start over).
  ghost predicate Applies(r: Run, i: nat) {
    && i < |r.actions| && |r.states| == |r.actions| + 1 && r.actions[i].Apply?
    && r.actions[i].i < |r.states[i].announces| && r.states[i].announces[r.actions[i].i].Found?
    && r.actions[i].i < |r.states[i + 1].announces| && r.states[i + 1].announces[r.actions[i].i].Done?
  }

  // An announce applied at time t keeps its peer in the group mapped under its hash -- the very
  // same group -- at every later moment before t + TTL, whatever either cleanup does.
  lemma PeerStaysUntilExpiry(ttl: int, r: Run, i: nat, j: nat)
    requires ValidRun(ttl, r) && i < j < |r.states| && Applies(r, i)
    requires r.states[j].now < r.states[i].now + ttl
    ensures var Found(h, p, g) := r.states[i].announces[r.actions[i].i];
            Holds(r.states[j], h, g, p.id, r.states[i].now + ttl)
  {
    var Found(h, p, g) := r.states[i].announces[r.actions[i].i];
    InvInEveryRun(ttl, r, i);
    AppliedIsHeld(ttl, r.states[i], r.actions[i], r.states[i + 1]);
    ClockGrows(ttl, r, i, i + 1);
    HoldingLasts(ttl, r, i + 1, j, h, g, p.id, r.states[i].now + ttl);
  }

  lemma AppliedIsHeld(ttl: int, s: State, a: Action, s': State)
    requires Inv(ttl, s) && a.Apply? && Next(ttl, s, a, s') && s'.announces[a.i].Done?
    ensures var Found(h, p, g) := s.announces[a.i]; Holds(s', h, g, p.id, s.now + ttl)
  {
    var Found(h, p, g) := s.announces[a.i];
    assert GoodAnnounce(s, s.announces[a.i]);
    var l, e := s.groups[g].list, Entry(p, s.now + ttl);
    UpdatedMeans(l, e);
    if HasId(l, p.id) {
      var k :| 0 <= k < |l| && l[k].info.id == p.id;
      assert s'.groups[g].list[k] == e;
    } else {
      assert s'.groups[g].list[|l|] == e;
    }
  }

  lemma {:induction false} ClockGrows(ttl: int, r: Run, i: nat, j: nat)
    requires ValidRun(ttl, r) && i <= j < |r.states|
    ensures r.states[i].now <= r.states[j].now
  {
    if i < j {
      ClockGrows(ttl, r, i, j - 1);
      assert Next(ttl, r.states[j - 1], r.actions[j - 1], r.states[j]);
    }
  }

  lemma StepUnmapsIff(ttl: int, s: State, a: Action, s': State, h: Hash)
    requires Inv(ttl, s) && Next(ttl, s, a, s') && h in s.mapped
    ensures s.mapped[h] in s.groups
    ensures h !in s'.mapped <==> a == GroupsCheck(h) && s.now > s.groups[s.mapped[h]].lastExpiresAt
    ensures h in s'.mapped ==> s'.mapped[h] == s.mapped[h]
  {
  }

  // In every run a group goes exactly at a check that finds its last expiry past, and then all its
  // entries have expired.
  lemma GroupGoesIffExpired(ttl: int, r: Run, n: nat, h: Hash)
    requires ValidRun(ttl, r) && n < |r.actions| && h in r.states[n].mapped
    ensures var s, s' := r.states[n], r.states[n + 1];
            && s.mapped[h] in s.groups
            && (h !in s'.mapped <==> r.actions[n] == GroupsCheck(h) && s.now > s.groups[s.mapped[h]].lastExpiresAt)
            && (h in s'.mapped ==> s'.mapped[h] == s.mapped[h])
            && (h !in s'.mapped ==> forall i :: 0 <= i < |s.groups[s.mapped[h]].list| ==>
                  s.groups[s.mapped[h]].list[i].expiresAt < s.now)
  {
    InvInEveryRun(ttl, r, n);
    StepUnmapsIff(ttl, r.states[n], r.actions[n], r.states[n + 1], h);
    assert GoodRecord(ttl, r.states[n].now, r.states[n].groups[r.states[n].mapped[h]]);
  }

  // One cleanup pass over a group: of the list found under the write lock, exactly the entries
  // that had expired in the earlier snapshot and are (still, or again) past their expiry go, entries
  // appended in between stay, and nothing is added.
  lemma PassRemovesExactly(ttl: int, r: Run, n: nat)
    requires ValidRun(ttl, r) && n < |r.actions| && r.actions[n].EntriesSweep?
    requires r.states[n].cleaner.Snapped?
    ensures var s, c := r.states[n], r.states[n].cleaner;
            && c.g in s.groups && c.g in r.states[n + 1].groups
            && var before, after := s.groups[c.g].list, r.states[n + 1].groups[c.g].list;
               && (forall e :: e in after ==> e in before) && DistinctIds(after)
               && forall k :: 0 <= k < |before| ==>
                    (before[k] in after <==>
                      !(k < |c.snap| && c.at > c.snap[k].expiresAt && s.now >= before[k].expiresAt))
  {
    InvInEveryRun(ttl, r, n);
    assert Next(ttl, r.states[n], r.actions[n], r.states[n + 1]);
    var s, c := r.states[n], r.states[n].cleaner;
    var before := s.groups[c.g].list;
    SweepExact(before, c.idx, s.now);
  }

  // ---- The store as an object ------------------------------------------------------------

  // What each operation does when nothing runs beside it. Groups are held by value here; the
  // entry objects shared by list and map are those of module PeerGroup.
  class LocalStore {
    const ttl: int
    var peerGroups: map<Hash, Record>

    ghost predicate Valid()
      reads this
    {
      forall h :: h in peerGroups ==> DistinctIds(peerGroups[h].list)
    }

    constructor (ttl: int)
      ensures Valid() && this.ttl == ttl && peerGroups == map[]
    {
      this.ttl, peerGroups := ttl, map[];
    }

    method UpdatePeer(h: Hash, p: PeerInfo, now: int)
      requires Valid()
      modifies this
      ensures Valid() && h in peerGroups && peerGroups[h].lastExpiresAt == now + ttl
      ensures peerGroups[h].list ==
        Updated(if h in old(peerGroups) then old(peerGroups)[h].list else [], Entry(p, now + ttl))
      ensures peerGroups == old(peerGroups)[h := peerGroups[h]]
    {
      var g := if h in peerGroups then peerGroups[h] else Record(h, [], now + ttl, false);
      UpdatedMeans(g.list, Entry(p, now + ttl));
      peerGroups := peerGroups[h := g.(list := Updated(g.list, Entry(p, now + ttl)), lastExpiresAt := now + ttl)];
    }

    // Every group keeps exactly the entries that have not expired.
    method CleanupExpiredPeerEntries(now: int)
      requires Valid()
      modifies this
      ensures Valid() && peerGroups.Keys == old(peerGroups).Keys
      ensures forall h :: h in peerGroups ==> Cleaned(old(peerGroups)[h], peerGroups[h], now)
    {
      var todo := peerGroups.Keys;
      while todo != {}
        invariant todo <= peerGroups.Keys == old(peerGroups).Keys && Valid()
        invariant forall h :: h in todo ==> peerGroups[h] == old(peerGroups)[h]
        invariant forall h :: h in peerGroups && h !in todo ==> Cleaned(old(peerGroups)[h], peerGroups[h], now)
        decreases todo
      {
        var h :| h in todo;
        todo := todo - {h};
        var l := peerGroups[h].list;
        var idx := ExpiredIndexes(l, now);
        SweepExact(l, idx, now);
        peerGroups := peerGroups[h := peerGroups[h].(list := Sweep(l, idx, now))];
      }
    }

    method ExpiredIndexes(l: seq<Entry>, now: int) returns (idx: seq<nat>)
      ensures ExpiredAt(l, now, idx)
    {
      idx := [];
      for i := 0 to |l|
        invariant Ascending(idx, i) && forall k :: 0 <= k < i ==> (k in idx <==> now > l[k].expiresAt)
      {
        if now > l[i].expiresAt { idx := idx + [i]; }
      }
    }

    // Exactly the groups whose last entry has expired go.
    method CleanupExpiredPeerGroups(now: int)
      modifies this
      ensures peerGroups ==
        map h | h in old(peerGroups) && now <= old(peerGroups)[h].lastExpiresAt :: old(peerGroups)[h]
    {
      var todo := peerGroups.Keys;
      while todo != {}
        invariant todo <= peerGroups.Keys <= old(peerGroups).Keys
        invariant forall h :: h in peerGroups ==> peerGroups[h] == old(peerGroups)[h]
        invariant forall h :: h in old(peerGroups) && h !in todo ==>
          (h in peerGroups <==> now <= old(peerGroups)[h].lastExpiresAt)
        decreases todo
      {
        var h :| h in todo;
        todo := todo - {h};
        if now > peerGroups[h].lastExpiresAt { peerGroups := peerGroups - {h}; }
      }
    }
  }

  ghost predicate Cleaned(before: Record, after: Record, now: int) {
    && after == before.(list := after.list)
    && (forall e :: e in after.list <==> e in before.list && now <= e.expiresAt)
  }
}
