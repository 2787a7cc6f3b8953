/**
  The TTL of the memory cache over whole runs: entries carry the time at which their download was
  done, a cleanup drops exactly what was too old when it looked, and so what it drops is too old
  unless the name was cached anew between the look and the removal.
*/
module DrainExpiry {
  import opened Bytes
  import opened BlobCache
  import opened Drain
  import opened DrainCases

  // ---- Creation times --------------------------------------------------------------------

  ghost predicate StampedAt(r: Run, m: nat, b: Blob) {
    m < |r.actions| && m < |r.states| && r.actions[m].Buffer? && r.actions[m].blob == b &&
      r.states[m].now == b.createdAt
  }

  // Some earlier step finished the download of b, and its clock is b's creation time.
  ghost predicate Stamped(r: Run, n: nat, b: Blob) {
    exists m: nat :: m < n && StampedAt(r, m, b)
  }

  ghost predicate AllStamped(r: Run, n: nat)
    requires n < |r.states|
  {
    && (forall x :: x in r.states[n].cache.entries ==> Stamped(r, n, r.states[n].cache.entries[x]))
    && (forall i :: 0 <= i < |r.states[n].f.writers| && r.states[n].f.writers[i].Buffered? ==>
          Stamped(r, n, r.states[n].f.writers[i].blob))
  }

  // A cached blob was cached before, or comes from a writer that had buffered it.
  ghost predicate ComesFrom(s: State, b: Blob) {
    || (exists x :: x in s.cache.entries && s.cache.entries[x] == b)
    || (exists i :: 0 <= i < |s.f.writers| && s.f.writers[i].Buffered? && s.f.writers[i].blob == b)
  }

  lemma EntriesComeFrom(c: Config, s: State, a: Action, s': State, x: string)
    requires Next(c, s, a, s') && x in s'.cache.entries
    ensures ComesFrom(s, s'.cache.entries[x])
  {
    if a.RemoveExpired? && s.cleaner.Expired? { BatchRemovesTheNames(s.cache, s.cleaner.names); }
    if !(a.Add? && s'.cache.entries != s.cache.entries) {
      assert x in s.cache.entries && s.cache.entries[x] == s'.cache.entries[x];
    }
  }

  lemma BuffersComeFrom(c: Config, s: State, a: Action, s': State, i: nat)
    requires Next(c, s, a, s') && i < |s'.f.writers| && s'.f.writers[i].Buffered?
    ensures ComesFrom(s, s'.f.writers[i].blob) ||
      (a.Buffer? && a.blob == s'.f.writers[i].blob && a.blob.createdAt == s.now)
  {
    if i < |s.f.writers| && s'.f.writers[i] == s.f.writers[i] {
      assert ComesFrom(s, s'.f.writers[i].blob);
    }
  }

  lemma StampLasts(r: Run, n: nat, b: Blob)
    requires 0 < n < |r.states| && AllStamped(r, n - 1) && ComesFrom(r.states[n - 1], b)
    ensures Stamped(r, n, b)
  {
    assert Stamped(r, n - 1, b);
    var m: nat :| m < n - 1 && StampedAt(r, m, b);
  }

  lemma {:induction false} StampedInEveryRun(c: Config, r: Run, n: nat)
    requires ValidRun(c, r) && n < |r.states|
    ensures AllStamped(r, n)
  {
    if n > 0 {
      StampedInEveryRun(c, r, n - 1);
      var s, a, s' := r.states[n - 1], r.actions[n - 1], r.states[n];
      assert Next(c, s, a, s');
      forall x | x in s'.cache.entries ensures Stamped(r, n, s'.cache.entries[x]) {
        EntriesComeFrom(c, s, a, s', x);
        StampLasts(r, n, s'.cache.entries[x]);
      }
      forall i | 0 <= i < |s'.f.writers| && s'.f.writers[i].Buffered? ensures Stamped(r, n, s'.f.writers[i].blob) {
        BuffersComeFrom(c, s, a, s', i);
        if ComesFrom(s, s'.f.writers[i].blob) {
          StampLasts(r, n, s'.f.writers[i].blob);
        } else {
          assert StampedAt(r, n - 1, s'.f.writers[i].blob);
        }
      }
    }
  }

  // ---- Cleanups --------------------------------------------------------------------------

  // The cleanup that looks in state m removes what it found in state n.
  ghost predicate Cleanup(r: Run, m: nat, n: nat) {
    && m < n < |r.actions| && n + 1 < |r.states| && r.actions[m].FindExpired? && r.actions[n].RemoveExpired?
    && forall k :: m < k < n ==> !r.actions[k].RemoveExpired?
  }

  lemma StepKeepsScan(c: Config, s: State, a: Action, s': State)
    requires Next(c, s, a, s')
    ensures s.now <= s'.now
    ensures s.cleaner.Expired? && !a.RemoveExpired? ==> s'.cleaner == s.cleaner
  {
  }

  lemma {:induction false} ScanLasts(c: Config, r: Run, m: nat, n: nat, k: nat)
    requires ValidRun(c, r) && Cleanup(r, m, n) && m < k <= n
    ensures r.states[k].cleaner == Expired(r.actions[m].names) && r.states[m].now <= r.states[k].now
    decreases k
  {
    assert Next(c, r.states[k - 1], r.actions[k - 1], r.states[k]);
    StepKeepsScan(c, r.states[k - 1], r.actions[k - 1], r.states[k]);
    if k > m + 1 { ScanLasts(c, r, m, n, k - 1); }
  }

  // A cleanup drops a cached name exactly if the entry it saw under that name was more than the
  // TTL old. If that entry is still the one cached, what is dropped is older than the TTL.
  lemma CleanupDropsTheOld(c: Config, r: Run, m: nat, n: nat, x: string)
    requires ValidRun(c, r) && Cleanup(r, m, n) && x in r.states[n].cache.entries
    ensures var seen, now := r.states[m], r.states[n];
            && (x !in r.states[n + 1].cache.entries <==>
                x in seen.cache.entries && seen.now - seen.cache.entries[x].createdAt > c.ttl)
            && (x !in r.states[n + 1].cache.entries && seen.cache.entries[x] == now.cache.entries[x] ==>
                now.now - now.cache.entries[x].createdAt > c.ttl)
            && (x in r.states[n + 1].cache.entries ==>
                r.states[n + 1].cache.entries[x] == now.cache.entries[x])
  {
    ScanLasts(c, r, m, n, n);
    assert Next(c, r.states[m], r.actions[m], r.states[m + 1]);
    assert Next(c, r.states[n], r.actions[n], r.states[n + 1]);
    BatchRemovesTheNames(r.states[n].cache, r.actions[m].names);
  }

  // ---- A fresh entry can go --------------------------------------------------------------

  // The cleaner looks at a cached blob at a time when it is too old.
  lemma LookAt(c: Config, b: Blob, time: int) returns (r: Run)
    requires |b.data| <= c.maxSize && b.createdAt == 0 && 0 <= time && time > c.ttl
    ensures ValidRun(c, r) && Last(r) == WithBlob(EMPTY, b).(now := time, cleaner := Expired([b.name]))
    ensures r.actions != [] && r.actions[|r.actions| - 1].FindExpired?
  {
    r := CacheBlob(c, Run([EMPTY], []), b);
    var s1 := Last(r).(now := time);
    assert OtherStep(c, Last(r), Tick(time), s1);
    r := Then(c, r, Tick(time), s1);
    var s2 := s1.(cleaner := Expired([b.name]));
    assert OtherStep(c, s1, FindExpired([b.name]), s2);
    r := Then(c, r, FindExpired([b.name]), s2);
  }

  // It is drained in the meantime, and downloaded once more.
  lemma DrainAndReturn(c: Config, r: Run, a: Blob, b: Blob, time: int) returns (r2: Run)
    requires ValidRun(c, r) && Last(r) == WithBlob(EMPTY, a).(now := time, cleaner := Expired([a.name]))
    requires c.digest(a.data) == a.name && a.id != b.id && b.name == a.name && b.createdAt == time &&
      |b.data| <= c.maxSize
    ensures ValidRun(c, r2) && Last(r2).cleaner == Expired([a.name]) && Last(r2).now == time
    ensures Last(r2).cache.entries == map[b.name := b]
  {
    r2 := TakeAndWrite(c, r);
    var s := Last(r2);
    var s1 := s.(f := SetDrainer(s.f, 0, Waiting).(fates := s.f.fates[a.id := Drained]),
      cache := Without(s.cache, a.name));
    assert DrainStep(c, s, Finish(0), s1);
    assert s1.cache == Cache(map[], 0);
    r2 := Then(c, r2, Finish(0), s1);
    r2 := CacheBlob(c, r2, b);
  }

  // The removal goes by name: it takes an entry that has just been cached, if the name of an old
  // one has been drained and downloaded again since the cleaner looked.
  lemma FreshEntryCanGo(c: Config, name: string, data: Bytes, time: int) returns (r: Run, n: nat)
    requires c.digest(data) == name && |data| <= c.maxSize && 0 <= time && time > c.ttl
    ensures ValidRun(c, r) && n + 1 < |r.states| && r.actions[n].RemoveExpired?
    ensures name in r.states[n].cache.entries && name !in r.states[n + 1].cache.entries
    ensures r.states[n].now - r.states[n].cache.entries[name].createdAt == 0
  {
    var a, b := Blob(0, name, data, 0), Blob(1, name, data, time);
    r := LookAt(c, a, time);
    r := DrainAndReturn(c, r, a, b, time);
    n := |r.actions|;
    var s := Last(r);
    var s1 := s.(cleaner := Cleaner.Resting, cache := WithoutAll(s.cache, [name]));
    BatchRemovesTheNames(s.cache, [name]);
    assert OtherStep(c, s, RemoveExpired, s1);
    r := Then(c, r, RemoveExpired, s1);
  }
}
