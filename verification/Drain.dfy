/**
  The write-through memory cache of CAStore: writers that reserve, buffer and cache a blob,
  drain workers that write cached blobs to disk with a bounded number of retries, and the
  cleaner that drops old entries from memory, all racing. A step is one region under the
  cache lock or the drain lock, or one disk write.
*/
module Drain {
  import opened Bytes
  import opened Options
  import opened Sums
  import opened BlobCache

  // `digest` is the content hash that names a blob.
  datatype Config = Config(maxSize: nat, maxRetries: nat, ttl: int, digest: Bytes -> string)

  ghost predicate CollisionFree(c: Config) {
    forall x, y :: c.digest(x) == c.digest(y) ==> x == y
  }

  // GetCacheFileReader: memory first, then disk.
  function Lookup(k: Cache, disk: map<string, Bytes>, name: string): Option<Bytes> {
    if name in k.entries then Some(k.entries[name].data)
    else if name in disk then Some(disk[name])
    else None
  }

  ghost predicate Verified(c: Config, disk: map<string, Bytes>) {
    forall n :: n in disk ==> c.digest(disk[n]) == n
  }

  // Taking a name out of memory leaves its readers alone exactly if what memory held had its
  // digest and the disk has the file; other names are never affected.
  lemma RemovalReads(c: Config, k: Cache, disk: map<string, Bytes>, name: string)
    requires CollisionFree(c) && Verified(c, disk)
    ensures Lookup(Without(k, name), disk, name) == Lookup(k, disk, name)
       <==> (name in k.entries ==> name in disk && c.digest(k.entries[name].data) == name)
    ensures forall x :: x != name ==> Lookup(Without(k, name), disk, x) == Lookup(k, disk, x)
  {
  }

  // What readers see of a drain turn for blob b. Readers of other names never notice; readers of
  // its own name do not notice a successful write exactly if what memory held had the digest.
  ghost predicate ReadsKept(c: Config, k: Cache, disk: map<string, Bytes>, k': Cache, disk': map<string, Bytes>,
      b: Blob, written: bool)
  {
    && (forall x :: x != b.name ==> Lookup(k', disk', x) == Lookup(k, disk, x))
    && (CollisionFree(c) && written && b.name in k.entries ==>
          (Lookup(k', disk', b.name) == Lookup(k, disk, b.name) <==> c.digest(k.entries[b.name].data) == b.name))
  }

  lemma TurnReads(c: Config, k: Cache, disk: map<string, Bytes>, k': Cache, b: Blob, written: bool)
    requires Verified(c, disk) && (written ==> c.digest(b.data) == b.name && k' == Without(k, b.name))
    requires k' == k || k' == Without(k, b.name)
    ensures var disk' := if written && b.name !in disk then disk[b.name := b.data] else disk;
            Verified(c, disk') && ReadsKept(c, k, disk, k', disk', b, written)
  {
    var disk' := if written && b.name !in disk then disk[b.name := b.data] else disk;
    if CollisionFree(c) { RemovalReads(c, k, disk', b.name); }
  }

  datatype Item = Item(blob: Blob, retries: nat)

  // One WriteBlobToCacheWithMetaInfo call.
  datatype Writer =
    | Returned
    | Reserved(name: string, size: nat)
    | Buffered(blob: Blob, size: nat)    // downloaded, about to be added
    | Added(blob: Blob)                  // cached, about to be queued for drain
    | GaveUp(size: nat)                  // about to release the reservation

  datatype Drainer =
    | Waiting
    | Holding(item: Item)
    | Written(item: Item)                // on disk, about to leave memory
    | Failing(item: Item)

  datatype Cleaner = Resting | Expired(names: seq<string>)

  // What has become of an accepted blob; not stored by the system.
  datatype Fate = InFlight(blob: Blob, failures: nat) | Drained | Dropped(failures: nat)

  // The blobs under way: the drain queue and the goroutines.
  datatype Flow = Flow(
    queue: seq<Item>,
    writers: seq<Writer>,
    drainers: seq<Drainer>,
    fates: map<nat, Fate>)

  datatype State = State(
    now: int,
    cache: Cache,
    f: Flow,
    cleaner: Cleaner,
    disk: map<string, Bytes>)

  datatype Action =
    | Tick(time: int)
    | Reserve(name: string, size: nat) | Buffer(i: nat, blob: Blob) | GiveUp(i: nat)
    | Add(i: nat) | Push(i: nat) | Release(i: nat)
    | Take(d: nat) | WriteOk(d: nat) | WriteFails(d: nat) | Finish(d: nat) | Retry(d: nat)
    | FindExpired(names: seq<string>) | RemoveExpired
    | DiskWrite(name: string, data: Bytes) | DiskDelete(name: string)

  // One more failed write of an accepted blob, counted apart from the retry counter of its item.
  function Charged(f: map<nat, Fate>, id: nat): map<nat, Fate> {
    if id in f && f[id].InFlight? then f[id := InFlight(f[id].blob, f[id].failures + 1)] else f
  }

  function GivenUp(f: map<nat, Fate>, id: nat): map<nat, Fate> {
    if id in f && f[id].InFlight? then f[id := Dropped(f[id].failures)] else f
  }

  function SetWriter(f: Flow, i: nat, w: Writer): Flow
    requires i < |f.writers|
  {
    f.(writers := f.writers[i := w])
  }

  function SetDrainer(f: Flow, d: nat, p: Drainer): Flow
    requires d < |f.drainers|
  {
    f.(drainers := f.drainers[d := p])
  }

  ghost predicate WriterStep(c: Config, s: State, a: Action, s': State) {
    match a
    case Reserve(name, size) =>
      s.cache.totalSize + size <= c.maxSize &&
      s' == s.(cache := s.cache.(totalSize := s.cache.totalSize + size),
               f := s.f.(writers := s.f.writers + [Reserved(name, size)]))
    // The download is done and the entry gets its creation time.
    case Buffer(i, blob) =>
      i < |s.f.writers| && s.f.writers[i].Reserved? && blob.name == s.f.writers[i].name && blob.createdAt == s.now &&
      blob.id !in s.f.fates &&
      (forall j :: 0 <= j < |s.f.writers| && s.f.writers[j].Buffered? ==> s.f.writers[j].blob.id != blob.id) &&
      s' == s.(f := SetWriter(s.f, i, Buffered(blob, s.f.writers[i].size)))
    case GiveUp(i) =>
      i < |s.f.writers| && s.f.writers[i].Reserved? && s' == s.(f := SetWriter(s.f, i, GaveUp(s.f.writers[i].size)))
    case Add(i) =>
      i < |s.f.writers| && s.f.writers[i].Buffered? &&
      var Buffered(b, size) := s.f.writers[i];
      if b.name in s.cache.entries then s' == s.(f := SetWriter(s.f, i, GaveUp(size)))
      else s' == s.(cache := s.cache.(entries := s.cache.entries[b.name := b]),
                    f := SetWriter(s.f, i, Added(b)).(fates := s.f.fates[b.id := InFlight(b, 0)]))
    case Push(i) =>
      i < |s.f.writers| && s.f.writers[i].Added? &&
      s' == s.(f := SetWriter(s.f, i, Returned).(queue := s.f.queue + [Item(s.f.writers[i].blob, 0)]))
    case Release(i) =>
      i < |s.f.writers| && s.f.writers[i].GaveUp? &&
      var size := s.f.writers[i].size;
      s' == s.(f := SetWriter(s.f, i, Returned), cache := s.cache.(totalSize :=
        if size > s.cache.totalSize then s.cache.totalSize else s.cache.totalSize - size))
    case _ => false
  }

  ghost predicate DrainStep(c: Config, s: State, a: Action, s': State) {
    (a.Take? || a.WriteOk? || a.WriteFails? || a.Finish? || a.Retry?) && a.d < |s.f.drainers| &&
    var d, p := a.d, s.f.drainers[a.d];
    match a
    case Take(_) =>
      p.Waiting? && s.f.queue != [] &&
      s' == s.(f := SetDrainer(s.f, d, Holding(s.f.queue[0])).(queue := s.f.queue[1..]))
    // WriteCacheFile verifies the digest, and a file that is already there is as good.
    case WriteOk(_) =>
      p.Holding? &&
      var b := p.item.blob;
      c.digest(b.data) == b.name &&
      s' == s.(f := SetDrainer(s.f, d, Written(p.item)),
               disk := if b.name in s.disk then s.disk else s.disk[b.name := b.data])
    case WriteFails(_) =>
      p.Holding? &&
      s' == s.(f := SetDrainer(s.f, d, Failing(p.item)).(fates := Charged(s.f.fates, p.item.blob.id)))
    case Finish(_) =>
      p.Written? &&
      s' == s.(f := SetDrainer(s.f, d, Waiting).(fates := s.f.fates[p.item.blob.id := Drained]),
               cache := Without(s.cache, p.item.blob.name))
    case Retry(_) =>
      p.Failing? &&
      if p.item.retries < c.maxRetries then
        s' == s.(f := SetDrainer(s.f, d, Waiting).(queue := s.f.queue + [Item(p.item.blob, p.item.retries + 1)]))
      else
        s' == s.(f := SetDrainer(s.f, d, Waiting).(fates := GivenUp(s.f.fates, p.item.blob.id)),
                 cache := Without(s.cache, p.item.blob.name))
    case _ => false
  }

  // The TTL cleaner, other writers of the disk cache, and its eviction.
  ghost predicate OtherStep(c: Config, s: State, a: Action, s': State) {
    match a
    case Tick(t) => s.now <= t && s' == s.(now := t)
    case FindExpired(names) =>
      s.cleaner.Resting? &&
      (forall n :: n in names <==> n in s.cache.entries && s.now - s.cache.entries[n].createdAt > c.ttl) &&
      s' == s.(cleaner := Expired(names))
    case RemoveExpired =>
      s.cleaner.Expired? && s' == s.(cleaner := Resting, cache := WithoutAll(s.cache, s.cleaner.names))
    case DiskWrite(name, data) => name !in s.disk && c.digest(data) == name && s' == s.(disk := s.disk[name := data])
    case DiskDelete(name) => name in s.disk && s' == s.(disk := s.disk - {name})
    case _ => false
  }

  ghost predicate Next(c: Config, s: State, a: Action, s': State) {
    WriterStep(c, s, a, s') || DrainStep(c, s, a, s') || OtherStep(c, s, a, s')
  }

  ghost predicate Init(s: State) {
    && s.cache == Cache(map[], 0) && s.f.queue == [] && s.f.writers == [] && s.cleaner.Resting?
    && s.disk == map[] && s.f.fates == map[]
    && forall d :: 0 <= d < |s.f.drainers| ==> s.f.drainers[d].Waiting?
  }

  datatype Run = Run(states: seq<State>, actions: seq<Action>)

  ghost predicate ValidRun(c: Config, r: Run) {
    && |r.states| == |r.actions| + 1
    && Init(r.states[0])
    && forall i :: 0 <= i < |r.actions| ==> Next(c, r.states[i], r.actions[i], r.states[i + 1])
  }

  // ---- The counter -----------------------------------------------------------------------

  function Reservation(w: Writer): int {
    if w.Reserved? || w.Buffered? || w.GaveUp? then w.size else 0
  }

  ghost function Outstanding(s: State): int {
    Sum(Reservation, s.f.writers)
  }

  // totalSize is the cached bytes plus the outstanding reservations.
  ghost predicate Balanced(s: State) {
    s.cache.totalSize == Cached(s.cache) + Outstanding(s)
  }

  // A download that delivers as many bytes as were reserved for it.
  ghost predicate DeliversReserved(s: State, a: Action) {
    a.Buffer? && a.i < |s.f.writers| && s.f.writers[a.i].Reserved? ==> |a.blob.data| == s.f.writers[a.i].size
  }

  // An Add that caches a blob of another size than was reserved for it.
  ghost predicate Miscounts(s: State, a: Action) {
    a.Add? && a.i < |s.f.writers| && s.f.writers[a.i].Buffered? &&
    var Buffered(b, size) := s.f.writers[a.i];
    b.name !in s.cache.entries && |b.data| != size
  }

  ghost predicate Accounting(c: Config, s: State) {
    Balanced(s) && s.cache.totalSize <= c.maxSize && NamedByKey(s.cache)
  }

  lemma OutstandingCovers(s: State, i: nat)
    requires i < |s.f.writers|
    ensures 0 <= Reservation(s.f.writers[i]) <= Outstanding(s)
  {
    SumMember(Reservation, s.f.writers, i);
  }

  lemma {:induction false} OutstandingIsNatural(ws: seq<Writer>)
    ensures Sum(Reservation, ws) >= 0
  {
    if ws != [] { OutstandingIsNatural(ws[1..]); }
  }

  lemma WriterKeepsAccounting(c: Config, s: State, a: Action, s': State)
    requires Accounting(c, s) && !Miscounts(s, a) && WriterStep(c, s, a, s')
    ensures Accounting(c, s')
  {
    CachedIsNatural(s.cache);
    match a
    case Reserve(name, size) => SumPush(Reservation, s.f.writers, Reserved(name, size));
    case Buffer(i, _) => SumUpdate(Reservation, s.f.writers, i, s'.f.writers[i]);
    case GiveUp(i) => SumUpdate(Reservation, s.f.writers, i, s'.f.writers[i]);
    case Add(i) =>
      SumUpdate(Reservation, s.f.writers, i, s'.f.writers[i]);
      var b := s.f.writers[i].blob;
      if b.name !in s.cache.entries { MapSumAdd(Size, s.cache.entries, b.name, b); }
    case Push(i) => SumUpdate(Reservation, s.f.writers, i, s'.f.writers[i]);
    case Release(i) =>
      OutstandingCovers(s, i);
      SumUpdate(Reservation, s.f.writers, i, s'.f.writers[i]);
  }

  lemma RemovalKeepsAccounting(c: Config, s: State, s': State, n: string)
    requires Accounting(c, s) && s'.f.writers == s.f.writers && s'.cache == Without(s.cache, n)
    ensures Accounting(c, s')
  {
    OutstandingIsNatural(s.f.writers);
    RemovalIsExact(s.cache, n);
    RemovalShrinks(s.cache, n);
  }

  lemma BatchKeepsAccounting(c: Config, s: State, s': State, ns: seq<string>)
    requires Accounting(c, s) && s'.f.writers == s.f.writers && s'.cache == WithoutAll(s.cache, ns)
    ensures Accounting(c, s')
  {
    OutstandingIsNatural(s.f.writers);
    BatchIsExact(s.cache, ns);
    BatchShrinks(s.cache, ns);
    BatchRemovesTheNames(s.cache, ns);
  }

  lemma RemovalShrinks(k: Cache, n: string)
    ensures Without(k, n).totalSize <= k.totalSize
  {
  }

  lemma {:induction false} BatchShrinks(k: Cache, ns: seq<string>)
    ensures WithoutAll(k, ns).totalSize <= k.totalSize
    decreases |ns|
  {
    if ns != [] { BatchShrinks(Without(k, ns[0]), ns[1..]); }
  }

  lemma StepKeepsAccounting(c: Config, s: State, a: Action, s': State)
    requires Accounting(c, s) && !Miscounts(s, a) && Next(c, s, a, s')
    ensures Accounting(c, s')
  {
    if WriterStep(c, s, a, s') {
      WriterKeepsAccounting(c, s, a, s');
    } else if a.Finish? || a.Retry? {
      if s'.cache != s.cache {
        RemovalKeepsAccounting(c, s, s', s.f.drainers[a.d].item.blob.name);
      }
    } else if a.RemoveExpired? {
      BatchKeepsAccounting(c, s, s', s.cleaner.names);
    }
  }

  // As long as no blob of another size than reserved has been cached, the counter equals cached
  // bytes plus reservations and never exceeds the limit.
  lemma {:induction false} CounterIsExact(c: Config, r: Run, n: nat)
    requires ValidRun(c, r) && n < |r.states|
    requires forall i :: 0 <= i < n ==> !Miscounts(r.states[i], r.actions[i])
    ensures Accounting(c, r.states[n])
    ensures Balanced(r.states[n]) && r.states[n].cache.totalSize <= c.maxSize
  {
    if n > 0 {
      CounterIsExact(c, r, n - 1);
      StepKeepsAccounting(c, r.states[n - 1], r.actions[n - 1], r.states[n]);
    }
  }

  lemma BalancedNeverUnderflows(c: Config, s: State)
    requires Accounting(c, s)
    ensures forall n :: n in s.cache.entries ==> |s.cache.entries[n].data| <= s.cache.totalSize
    ensures forall i :: 0 <= i < |s.f.writers| && s.f.writers[i].GaveUp? ==> s.f.writers[i].size <= s.cache.totalSize
  {
    OutstandingIsNatural(s.f.writers);
    CachedIsNatural(s.cache);
    forall n | n in s.cache.entries ensures |s.cache.entries[n].data| <= s.cache.totalSize {
      RemovalIsExact(s.cache, n);
    }
    forall i | 0 <= i < |s.f.writers| && s.f.writers[i].GaveUp? ensures s.f.writers[i].size <= s.cache.totalSize {
      OutstandingCovers(s, i);
    }
  }

  // In every such run no removal, no removal within a batch and no release of a reservation meets
  // a counter that is too small: the underflow branches are unreachable.
  lemma NoUnderflow(c: Config, r: Run, n: nat)
    requires ValidRun(c, r) && n < |r.states|
    requires forall i :: 0 <= i < n ==> !Miscounts(r.states[i], r.actions[i])
    ensures var s := r.states[n];
            && (forall x :: x in s.cache.entries ==> |s.cache.entries[x].data| <= s.cache.totalSize)
            && (forall i :: 0 <= i < |s.f.writers| && s.f.writers[i].GaveUp? ==>
                 s.f.writers[i].size <= s.cache.totalSize)
            && (forall names: seq<string>, i :: 0 <= i < |names| ==> RoomAt(s.cache, names, i))
  {
    CounterIsExact(c, r, n);
    var s := r.states[n];
    BalancedNeverUnderflows(c, s);
    OutstandingIsNatural(s.f.writers);
    forall names: seq<string>, i | 0 <= i < |names| ensures RoomAt(s.cache, names, i) {
      BatchNeverUnderflows(s.cache, names, i);
    }
  }

  // The i-th removal of a batch finds the counter large enough.
  ghost predicate RoomAt(k: Cache, names: seq<string>, i: nat)
    requires i < |names|
  {
    var k1 := WithoutAll(k, names[..i]);
    names[i] in k1.entries ==> |k1.entries[names[i]].data| <= k1.totalSize
  }

  // The delivery condition is exact: caching a blob keeps the balance just when its size is the
  // size that was reserved.
  lemma AddIsBalancedIff(c: Config, s: State, i: nat, s': State)
    requires Balanced(s) && WriterStep(c, s, Add(i), s') && s.f.writers[i].blob.name !in s.cache.entries
    ensures Balanced(s') <==> |s.f.writers[i].blob.data| == s.f.writers[i].size
  {
    var b := s.f.writers[i].blob;
    SumUpdate(Reservation, s.f.writers, i, Added(b));
    MapSumAdd(Size, s.cache.entries, b.name, b);
  }

  lemma MiscountUnbalances(c: Config, s: State, a: Action, s': State)
    requires Next(c, s, a, s') && Balanced(s) && Miscounts(s, a)
    ensures !Balanced(s')
  {
    AddIsBalancedIff(c, s, a.i, s');
  }

  // For every run: the counter is exact throughout if and only if every blob that is cached has the
  // size that was reserved for it. A download of another size that is not cached does no harm.
  lemma CounterExactIff(c: Config, r: Run)
    requires ValidRun(c, r)
    ensures (forall n :: 0 <= n < |r.states| ==> Balanced(r.states[n]))
       <==> (forall n :: 0 <= n < |r.actions| ==> !Miscounts(r.states[n], r.actions[n]))
  {
    if n :| 0 <= n < |r.actions| && Miscounts(r.states[n], r.actions[n]) {
      if Balanced(r.states[n]) { MiscountUnbalances(c, r.states[n], r.actions[n], r.states[n + 1]); }
    } else {
      forall n | 0 <= n < |r.states| ensures Balanced(r.states[n]) {
        CounterIsExact(c, r, n);
      }
    }
  }

  // ---- A backend that delivers what it announced -----------------------------------------

  ghost predicate BuffersFit(s: State) {
    forall i :: 0 <= i < |s.f.writers| && s.f.writers[i].Buffered? ==> |s.f.writers[i].blob.data| == s.f.writers[i].size
  }

  lemma StepKeepsBuffersFit(c: Config, s: State, a: Action, s': State)
    requires BuffersFit(s) && DeliversReserved(s, a) && Next(c, s, a, s')
    ensures BuffersFit(s')
  {
  }

  // Then no blob is ever miscounted.
  lemma {:induction false} FullDeliveriesFit(c: Config, r: Run, n: nat)
    requires ValidRun(c, r) && n < |r.states|
    requires forall i :: 0 <= i < n ==> DeliversReserved(r.states[i], r.actions[i])
    ensures BuffersFit(r.states[n]) && forall i :: 0 <= i < n ==> !Miscounts(r.states[i], r.actions[i])
  {
    if n > 0 {
      FullDeliveriesFit(c, r, n - 1);
      StepKeepsBuffersFit(c, r.states[n - 1], r.actions[n - 1], r.states[n]);
    }
  }
}
