/**
  Runs in which readers do notice that a blob has moved from memory to disk: its file is deleted
  before it leaves memory, or another download under its name is cached after it has expired. And
  one in which the counter of the memory cache goes wrong.
*/
module DrainCases {
  import opened Bytes
  import opened Options
  import opened Sums
  import opened BlobCache
  import opened Drain
  import opened DrainFlow

  function Last(r: Run): State
    requires r.states != []
  {
    r.states[|r.states| - 1]
  }

  lemma Then(c: Config, r: Run, a: Action, s: State) returns (r2: Run)
    requires ValidRun(c, r) && Next(c, Last(r), a, s)
    ensures ValidRun(c, r2) && Last(r2) == s && r2 == Run(r.states + [s], r.actions + [a])
  {
    r2 := Run(r.states + [s], r.actions + [a]);
  }

  // r2 continues r without touching the disk.
  ghost predicate GoesOn(r: Run, r2: Run) {
    && r.states != [] && |r.states| <= |r2.states| && r.states <= r2.states
    && forall k :: |r.states| - 1 <= k < |r2.states| ==> r2.states[k].disk == Last(r).disk
  }

  ghost predicate Fits(c: Config, s: State, b: Blob) {
    && s.cache.totalSize + |b.data| <= c.maxSize && b.name !in s.cache.entries
    && b.id !in s.f.fates && b.createdAt == s.now
    && forall i :: 0 <= i < |s.f.writers| ==> s.f.writers[i].Returned?
  }

  // The state after a blob of the announced size has been written to the memory cache.
  function WithBlob(s: State, b: Blob): State {
    s.(cache := Cache(s.cache.entries[b.name := b], s.cache.totalSize + |b.data|),
       f := s.f.(writers := s.f.writers + [Returned], queue := s.f.queue + [Item(b, 0)],
         fates := s.f.fates[b.id := InFlight(b, 0)]))
  }

  lemma ReserveAndBuffer(c: Config, r: Run, b: Blob) returns (r2: Run)
    requires ValidRun(c, r) && Fits(c, Last(r), b)
    ensures ValidRun(c, r2) && GoesOn(r, r2)
    ensures var s := Last(r);
            Last(r2) == s.(cache := s.cache.(totalSize := s.cache.totalSize + |b.data|),
              f := s.f.(writers := s.f.writers + [Buffered(b, |b.data|)]))
  {
    var s := Last(r);
    var s1 := s.(cache := s.cache.(totalSize := s.cache.totalSize + |b.data|),
      f := s.f.(writers := s.f.writers + [Reserved(b.name, |b.data|)]));
    assert WriterStep(c, s, Reserve(b.name, |b.data|), s1);
    r2 := Then(c, r, Reserve(b.name, |b.data|), s1);
    var i := |s.f.writers|;
    var s2 := s1.(f := SetWriter(s1.f, i, Buffered(b, |b.data|)));
    assert WriterStep(c, s1, Buffer(i, b), s2);
    r2 := Then(c, r2, Buffer(i, b), s2);
  }

  lemma CacheBlob(c: Config, r: Run, b: Blob) returns (r2: Run)
    requires ValidRun(c, r) && Fits(c, Last(r), b)
    ensures ValidRun(c, r2) && Last(r2) == WithBlob(Last(r), b) && GoesOn(r, r2)
  {
    r2 := ReserveAndBuffer(c, r, b);
    var s2, i := Last(r2), |Last(r).f.writers|;
    var s3 := s2.(cache := s2.cache.(entries := s2.cache.entries[b.name := b]),
                  f := SetWriter(s2.f, i, Added(b)).(fates := s2.f.fates[b.id := InFlight(b, 0)]));
    assert WriterStep(c, s2, Add(i), s3);
    r2 := Then(c, r2, Add(i), s3);
    var s4 := s3.(f := SetWriter(s3.f, i, Returned).(queue := s3.f.queue + [Item(b, 0)]));
    assert WriterStep(c, s3, Push(i), s4);
    r2 := Then(c, r2, Push(i), s4);
    assert s4 == WithBlob(Last(r), b);
  }

  // The only drain worker takes the first item and writes it.
  lemma TakeAndWrite(c: Config, r: Run) returns (r2: Run)
    requires ValidRun(c, r) && Last(r).f.queue != [] && Last(r).f.drainers == [Waiting]
    requires var b := Last(r).f.queue[0].blob; c.digest(b.data) == b.name && b.name !in Last(r).disk
    ensures ValidRun(c, r2)
    ensures var s, i := Last(r), Last(r).f.queue[0];
            Last(r2) == s.(f := s.f.(drainers := [Written(i)], queue := s.f.queue[1..]),
              disk := s.disk[i.blob.name := i.blob.data])
  {
    var s, i := Last(r), Last(r).f.queue[0];
    var s1 := s.(f := SetDrainer(s.f, 0, Holding(i)).(queue := s.f.queue[1..]));
    assert DrainStep(c, s, Take(0), s1);
    r2 := Then(c, r, Take(0), s1);
    var s2 := s1.(f := SetDrainer(s1.f, 0, Written(i)), disk := s1.disk[i.blob.name := i.blob.data]);
    assert DrainStep(c, s1, WriteOk(0), s2);
    r2 := Then(c, r2, WriteOk(0), s2);
  }

  lemma FinishFirst(c: Config, r: Run, i: Item) returns (r2: Run)
    requires ValidRun(c, r) && Last(r).f.drainers == [Written(i)]
    ensures ValidRun(c, r2) && |r2.states| >= 2 && r2.states[|r2.states| - 2] == Last(r)
    ensures Finishes(r2, |r2.actions| - 1, 0, i)
    ensures Last(r2).cache == Without(Last(r).cache, i.blob.name) && Last(r2).disk == Last(r).disk
  {
    var s := Last(r);
    var s1 := s.(f := SetDrainer(s.f, 0, Waiting).(fates := s.f.fates[i.blob.id := Drained]),
      cache := Without(s.cache, i.blob.name));
    assert DrainStep(c, s, Finish(0), s1);
    r2 := Then(c, r, Finish(0), s1);
  }

  const EMPTY: State := State(0, Cache(map[], 0), Flow([], [], [Waiting], map[]), Cleaner.Resting, map[])

  // Reads change at the last step of r, which takes the drained blob out of memory.
  ghost predicate EndsNoticed(r: Run, name: string) {
    |r.states| == |r.actions| + 1 >= 2 && r.actions[|r.actions| - 1].Finish? &&
    Read(r.states[|r.states| - 1], name) != Read(r.states[|r.states| - 2], name)
  }

  lemma CachedAndWritten(c: Config, b: Blob) returns (r: Run)
    requires c.digest(b.data) == b.name && |b.data| <= c.maxSize && b.createdAt == 0
    ensures ValidRun(c, r) && Last(r).f.drainers == [Written(Item(b, 0))]
    ensures Last(r).cache == Cache(map[b.name := b], |b.data|) && Last(r).disk == map[b.name := b.data]
  {
    r := CacheBlob(c, Run([EMPTY], []), b);
    r := TakeAndWrite(c, r);
  }

  lemma DeleteFile(c: Config, r: Run, name: string) returns (r2: Run)
    requires ValidRun(c, r) && name in Last(r).disk
    ensures ValidRun(c, r2) && Last(r2) == Last(r).(disk := Last(r).disk - {name})
    ensures |r2.states| == |r.states| + 1 && r.states <= r2.states
  {
    var s1 := Last(r).(disk := Last(r).disk - {name});
    assert OtherStep(c, Last(r), DiskDelete(name), s1);
    r2 := Then(c, r, DiskDelete(name), s1);
  }

  // The file is deleted between the write and the removal from memory: then nobody has it.
  lemma DeletedFileIsNoticed(c: Config, name: string, data: Bytes) returns (r: Run)
    requires c.digest(data) == name && |data| <= c.maxSize
    ensures ValidRun(c, r) && EndsNoticed(r, name) && Read(Last(r), name) == None
  {
    var a := Blob(0, name, data, 0);
    r := CachedAndWritten(c, a);
    r := DeleteFile(c, r, name);
    r := FinishFirst(c, r, Item(a, 0));
  }

  // A read that looks in memory just before a download is cached there, and on disk just after the
  // older file has been deleted, finds nothing, although the name was readable all the time.
  lemma SplitReadMisses(c: Config, name: string, data: Bytes) returns (r: Run, i: nat, j: nat)
    requires c.digest(data) == name && |data| <= c.maxSize
    ensures ValidRun(c, r) && i <= j < |r.states| && SplitRead(r, i, j, name) == None
    ensures forall k :: i <= k <= j ==> Read(r.states[k], name).Some?
  {
    var s1 := EMPTY.(disk := map[name := data]);
    assert OtherStep(c, EMPTY, DiskWrite(name, data), s1);
    var r1 := Then(c, Run([EMPTY], []), DiskWrite(name, data), s1);
    var r2 := CacheBlob(c, r1, Blob(0, name, data, 0));
    r := DeleteFile(c, r2, name);
    i, j := 1, |r.states| - 1;
    assert r2.states[1] == s1;
    forall k | i <= k <= j ensures Read(r.states[k], name).Some? {
      if k < j { assert r.states[k] == r2.states[k] && r2.states[k].disk == s1.disk; }
    }
  }

  // The blob's entry expires while it waits to be drained.
  lemma Expire(c: Config, r: Run, b: Blob, time: int) returns (r2: Run)
    requires ValidRun(c, r) && Last(r) == WithBlob(EMPTY, b) && time >= 0 && time - b.createdAt > c.ttl
    ensures ValidRun(c, r2)
    ensures Last(r2) == WithBlob(EMPTY, b).(now := time, cache := Cache(map[], 0))
  {
    var s1 := Last(r).(now := time);
    assert OtherStep(c, Last(r), Tick(time), s1);
    r2 := Then(c, r, Tick(time), s1);
    var s2 := s1.(cleaner := Expired([b.name]));
    assert OtherStep(c, s1, FindExpired([b.name]), s2);
    r2 := Then(c, r2, FindExpired([b.name]), s2);
    var s3 := s2.(cleaner := Cleaner.Resting, cache := WithoutAll(s2.cache, [b.name]));
    assert OtherStep(c, s2, RemoveExpired, s3);
    r2 := Then(c, r2, RemoveExpired, s3);
    assert [b.name][1..] == [];
    assert WithoutAll(s2.cache, [b.name]) == Without(s2.cache, b.name);
    assert s3.cache.entries == map[];
  }

  // Another, unverified, download is cached under the name of an expired blob that is still being
  // drained. The drain of the first takes the second out of memory.
  lemma OtherDownloadIsNoticed(c: Config, name: string, good: Bytes, bad: Bytes, time: int) returns (r: Run)
    requires c.digest(good) == name && c.digest(bad) != name && |good| <= c.maxSize && |bad| <= c.maxSize
    requires time >= 0 && time > c.ttl
    ensures ValidRun(c, r) && EndsNoticed(r, name) && Read(r.states[|r.states| - 2], name) == Some(bad) &&
      Read(Last(r), name) == Some(good)
  {
    var a, b := Blob(0, name, good, 0), Blob(1, name, bad, time);
    r := CacheBlob(c, Run([EMPTY], []), a);
    r := Expire(c, r, a, time);
    r := CacheBlob(c, r, b);
    r := TakeAndWrite(c, r);
    r := FinishFirst(c, r, Item(a, 0));
  }

  // A download of another size than was reserved for it, once cached, leaves the counter wrong.
  lemma WrongSizeIsMiscounted(c: Config, name: string, size: nat, data: Bytes) returns (r: Run)
    requires size <= c.maxSize && |data| != size
    ensures ValidRun(c, r) && !Balanced(Last(r))
  {
    var b := Blob(0, name, data, 0);
    var s1 := EMPTY.(cache := Cache(map[], size), f := EMPTY.f.(writers := [Reserved(name, size)]));
    assert WriterStep(c, EMPTY, Reserve(name, size), s1);
    r := Then(c, Run([EMPTY], []), Reserve(name, size), s1);
    var s2 := s1.(f := SetWriter(s1.f, 0, Buffered(b, size)));
    assert WriterStep(c, s1, Buffer(0, b), s2);
    r := Then(c, r, Buffer(0, b), s2);
    var s3 := s2.(cache := s2.cache.(entries := map[name := b]),
      f := SetWriter(s2.f, 0, Added(b)).(fates := map[0 := InFlight(b, 0)]));
    assert WriterStep(c, s2, Add(0), s3);
    r := Then(c, r, Add(0), s3);
    assert Balanced(s2) by {
      assert Sum(Reservation, s2.f.writers) == size by { assert s2.f.writers[1..] == []; }
      assert s2.cache.entries == map[];
    }
    AddIsBalancedIff(c, s2, 0, s3);
  }
}
