/**
  No accepted blob goes astray: it has exactly one drain item until it has been written to disk
  or has failed once more than the retry limit, and without new blobs draining comes to an end.
*/
module DrainFlow {
  import opened Bytes
  import opened Options
  import opened Sums
  import opened BlobCache
  import opened Drain

  // ---- Drain items -----------------------------------------------------------------------

  function ItemIds(i: Item): multiset<nat> { multiset{i.blob.id} }

  function WriterIds(w: Writer): multiset<nat> {
    if w.Added? then multiset{w.blob.id} else multiset{}
  }

  function DrainerIds(d: Drainer): multiset<nat> {
    if d.Waiting? then multiset{} else multiset{d.item.blob.id}
  }

  // Drain items of a blob: queued, with a drain worker, or about to be queued by its writer.
  function Items(f: Flow, id: nat): nat {
    Bag(ItemIds, f.queue)[id] + Bag(WriterIds, f.writers)[id] + Bag(DrainerIds, f.drainers)[id]
  }

  predicate Flying(f: map<nat, Fate>, id: nat) {
    id in f && f[id].InFlight?
  }

  // Exactly the blobs in flight have an item, and they have one.
  ghost predicate OneItemEach(f: Flow) {
    forall id :: Items(f, id) == if Flying(f.fates, id) then 1 else 0
  }

  // An item's retry counter is the number of failed writes of its blob.
  ghost predicate GoodItem(c: Config, f: map<nat, Fate>, i: Item) {
    i.retries <= c.maxRetries && i.blob.id in f && f[i.blob.id] == InFlight(i.blob, i.retries)
  }

  ghost predicate GoodDrainer(c: Config, f: map<nat, Fate>, d: Drainer) {
    match d
    case Waiting => true
    case Failing(i) => i.retries <= c.maxRetries && i.blob.id in f && f[i.blob.id] == InFlight(i.blob, i.retries + 1)
    case _ => GoodItem(c, f, d.item)
  }

  ghost predicate GoodWriter(f: map<nat, Fate>, w: Writer) {
    && (w.Added? ==> w.blob.id in f && f[w.blob.id] == InFlight(w.blob, 0))
    && (w.Buffered? ==> w.blob.id !in f)
  }

  ghost predicate DistinctBuffers(ws: seq<Writer>) {
    forall i, j :: 0 <= i < j < |ws| && ws[i].Buffered? && ws[j].Buffered? ==> ws[i].blob.id != ws[j].blob.id
  }

  ghost predicate Sound(c: Config, f: Flow) {
    && (forall k :: 0 <= k < |f.queue| ==> GoodItem(c, f.fates, f.queue[k]))
    && (forall d :: 0 <= d < |f.drainers| ==> GoodDrainer(c, f.fates, f.drainers[d]))
    && (forall i :: 0 <= i < |f.writers| ==> GoodWriter(f.fates, f.writers[i]))
    && DistinctBuffers(f.writers)
    && (forall id :: id in f.fates && f.fates[id].Dropped? ==> f.fates[id].failures == c.maxRetries + 1)
  }

  // Whatever is cached is in flight, and under its own name.
  ghost predicate CachedInFlight(k: Cache, fates: map<nat, Fate>) {
    forall n :: n in k.entries ==>
      var b := k.entries[n]; b.name == n && b.id in fates && fates[b.id].InFlight? && fates[b.id].blob == b
  }

  ghost predicate FlowInv(c: Config, s: State) {
    OneItemEach(s.f) && Sound(c, s.f) && CachedInFlight(s.cache, s.f.fates)
  }

  // ---- How items move --------------------------------------------------------------------

  lemma ItemsAfterWriter(f: Flow, i: nat, w: Writer, id: nat)
    requires i < |f.writers|
    ensures Items(SetWriter(f, i, w), id) + WriterIds(f.writers[i])[id] == Items(f, id) + WriterIds(w)[id]
  {
    CountUpdate(WriterIds, f.writers, i, w, id);
  }

  lemma ItemsAfterDrainer(f: Flow, d: nat, p: Drainer, id: nat)
    requires d < |f.drainers|
    ensures Items(SetDrainer(f, d, p), id) + DrainerIds(f.drainers[d])[id] == Items(f, id) + DrainerIds(p)[id]
  {
    CountUpdate(DrainerIds, f.drainers, d, p, id);
  }

  lemma ItemsAfterPush(f: Flow, x: Item, id: nat)
    ensures Items(f.(queue := f.queue + [x]), id) == Items(f, id) + ItemIds(x)[id]
  {
    CountPush(ItemIds, f.queue, x, id);
  }

  lemma ItemsAfterPop(f: Flow, id: nat)
    requires f.queue != []
    ensures Items(f.(queue := f.queue[1..]), id) + ItemIds(f.queue[0])[id] == Items(f, id)
  {
  }

  lemma ItemsIgnoreFates(f: Flow, fates: map<nat, Fate>, id: nat)
    ensures Items(f.(fates := fates), id) == Items(f, id)
  {
  }

  // The item a drain worker holds is the only one of its blob.
  lemma HeldItemIsAlone(f: Flow, d: nat)
    requires OneItemEach(f) && d < |f.drainers| && !f.drainers[d].Waiting?
    ensures var id := f.drainers[d].item.blob.id;
            && Flying(f.fates, id)
            && (forall k :: 0 <= k < |f.queue| ==> f.queue[k].blob.id != id)
            && (forall e :: 0 <= e < |f.drainers| && e != d && !f.drainers[e].Waiting? ==>
                 f.drainers[e].item.blob.id != id)
            && (forall i :: 0 <= i < |f.writers| && f.writers[i].Added? ==> f.writers[i].blob.id != id)
  {
    var id := f.drainers[d].item.blob.id;
    BagMember(DrainerIds, f.drainers, d);
    assert Items(f, id) == 1;
    forall k | 0 <= k < |f.queue| ensures f.queue[k].blob.id != id { BagMember(ItemIds, f.queue, k); }
    forall i | 0 <= i < |f.writers| && f.writers[i].Added? ensures f.writers[i].blob.id != id {
      BagMember(WriterIds, f.writers, i);
    }
    forall e | 0 <= e < |f.drainers| && e != d && !f.drainers[e].Waiting? ensures f.drainers[e].item.blob.id != id {
      BagTwo(DrainerIds, f.drainers, if d < e then d else e, if d < e then e else d);
      assert (DrainerIds(f.drainers[d]) + DrainerIds(f.drainers[e]))[id] <= 1;
    }
  }

  // ---- One item each, move by move -------------------------------------------------------

  lemma NewWriterKeepsOneItem(f: Flow, w: Writer)
    requires OneItemEach(f) && !w.Added?
    ensures OneItemEach(f.(writers := f.writers + [w]))
  {
    forall id ensures Items(f.(writers := f.writers + [w]), id) == Items(f, id) {
      CountPush(WriterIds, f.writers, w, id);
    }
  }

  lemma WriterKeepsOneItem(f: Flow, i: nat, w: Writer)
    requires OneItemEach(f) && i < |f.writers| && !f.writers[i].Added? && !w.Added?
    ensures OneItemEach(SetWriter(f, i, w))
  {
    forall id ensures Items(SetWriter(f, i, w), id) == Items(f, id) { ItemsAfterWriter(f, i, w, id); }
  }

  lemma AddKeepsOneItem(f: Flow, i: nat)
    requires OneItemEach(f) && i < |f.writers| && f.writers[i].Buffered? && f.writers[i].blob.id !in f.fates
    ensures var b := f.writers[i].blob;
            OneItemEach(SetWriter(f, i, Added(b)).(fates := f.fates[b.id := InFlight(b, 0)]))
  {
    var b := f.writers[i].blob;
    var f1 := SetWriter(f, i, Added(b));
    var f' := f1.(fates := f.fates[b.id := InFlight(b, 0)]);
    forall id ensures Items(f', id) == if Flying(f'.fates, id) then 1 else 0 {
      ItemsAfterWriter(f, i, Added(b), id);
      ItemsIgnoreFates(f1, f'.fates, id);
      assert Items(f, id) == if Flying(f.fates, id) then 1 else 0;
      assert WriterIds(f.writers[i])[id] == 0 && WriterIds(Added(b))[id] == if id == b.id then 1 else 0;
    }
  }

  lemma PushKeepsOneItem(f: Flow, i: nat)
    requires OneItemEach(f) && i < |f.writers| && f.writers[i].Added?
    ensures OneItemEach(SetWriter(f, i, Returned).(queue := f.queue + [Item(f.writers[i].blob, 0)]))
  {
    var f1 := SetWriter(f, i, Returned);
    var x := Item(f.writers[i].blob, 0);
    forall id ensures Items(f1.(queue := f.queue + [x]), id) == Items(f, id) {
      ItemsAfterWriter(f, i, Returned, id);
      ItemsAfterPush(f1, x, id);
    }
  }

  lemma TakeKeepsOneItem(f: Flow, d: nat)
    requires OneItemEach(f) && d < |f.drainers| && f.drainers[d].Waiting? && f.queue != []
    ensures OneItemEach(SetDrainer(f, d, Holding(f.queue[0])).(queue := f.queue[1..]))
  {
    var f' := SetDrainer(f, d, Holding(f.queue[0])).(queue := f.queue[1..]);
    forall id ensures Items(f', id) == Items(f, id) {
      ItemsAfterPop(f, id);
      ItemsAfterDrainer(f.(queue := f.queue[1..]), d, Holding(f.queue[0]), id);
    }
  }

  lemma DrainerKeepsOneItem(f: Flow, d: nat, p: Drainer, fates: map<nat, Fate>)
    requires OneItemEach(f) && d < |f.drainers| && DrainerIds(p) == DrainerIds(f.drainers[d])
    requires forall id :: Flying(fates, id) <==> Flying(f.fates, id)
    ensures OneItemEach(SetDrainer(f, d, p).(fates := fates))
  {
    forall id ensures Items(SetDrainer(f, d, p).(fates := fates), id) == Items(f, id) {
      ItemsAfterDrainer(f, d, p, id);
    }
  }

  lemma RequeueKeepsOneItem(f: Flow, d: nat, x: Item)
    requires OneItemEach(f) && d < |f.drainers| && DrainerIds(f.drainers[d]) == ItemIds(x)
    ensures OneItemEach(SetDrainer(f, d, Waiting).(queue := f.queue + [x]))
  {
    var f1 := SetDrainer(f, d, Waiting);
    forall id ensures Items(f1.(queue := f.queue + [x]), id) == Items(f, id) {
      ItemsAfterDrainer(f, d, Waiting, id);
      ItemsAfterPush(f1, x, id);
    }
  }

  lemma LandingKeepsOneItem(f: Flow, d: nat, fates: map<nat, Fate>)
    requires OneItemEach(f) && d < |f.drainers| && !f.drainers[d].Waiting?
    requires forall id :: Flying(fates, id) <==> Flying(f.fates, id) && id != f.drainers[d].item.blob.id
    ensures OneItemEach(SetDrainer(f, d, Waiting).(fates := fates))
  {
    HeldItemIsAlone(f, d);
    var f1 := SetDrainer(f, d, Waiting);
    forall id ensures Items(f1.(fates := fates), id) == if Flying(fates, id) then 1 else 0 {
      ItemsAfterDrainer(f, d, Waiting, id);
      assert Items(f1.(fates := fates), id) == Items(f1, id);
      assert Items(f, id) == if Flying(f.fates, id) then 1 else 0;
    }
  }

  lemma WriterStepKeepsOneItem(c: Config, s: State, a: Action, s': State)
    requires FlowInv(c, s) && WriterStep(c, s, a, s')
    ensures OneItemEach(s'.f)
  {
    match a
    case Reserve(name, size) => NewWriterKeepsOneItem(s.f, Reserved(name, size));
    case Buffer(i, blob) => WriterKeepsOneItem(s.f, i, s'.f.writers[i]);
    case GiveUp(i) => WriterKeepsOneItem(s.f, i, s'.f.writers[i]);
    case Add(i) =>
      assert GoodWriter(s.f.fates, s.f.writers[i]);
      if s.f.writers[i].blob.name in s.cache.entries {
        WriterKeepsOneItem(s.f, i, s'.f.writers[i]);
      } else {
        AddKeepsOneItem(s.f, i);
      }
    case Push(i) => PushKeepsOneItem(s.f, i);
    case Release(i) => WriterKeepsOneItem(s.f, i, Returned);
  }

  lemma DrainStepKeepsOneItem(c: Config, s: State, a: Action, s': State)
    requires FlowInv(c, s) && DrainStep(c, s, a, s')
    ensures OneItemEach(s'.f)
  {
    match a
    case Take(d) => TakeKeepsOneItem(s.f, d);
    case WriteOk(d) => DrainerKeepsOneItem(s.f, d, s'.f.drainers[d], s.f.fates);
    case WriteFails(d) => DrainerKeepsOneItem(s.f, d, s'.f.drainers[d], s'.f.fates);
    case Finish(d) => LandingKeepsOneItem(s.f, d, s'.f.fates);
    case Retry(d) =>
      if s.f.drainers[d].item.retries < c.maxRetries {
        RequeueKeepsOneItem(s.f, d, s'.f.queue[|s.f.queue|]);
      } else {
        HeldItemIsAlone(s.f, d);
        LandingKeepsOneItem(s.f, d, s'.f.fates);
      }
  }

  // ---- Retry counters --------------------------------------------------------------------

  lemma WriterKeepsSound(c: Config, s: State, a: Action, s': State)
    requires FlowInv(c, s) && WriterStep(c, s, a, s')
    ensures Sound(c, s'.f)
  {
    if !a.Reserve? { assert GoodWriter(s.f.fates, s.f.writers[a.i]); }
    forall d | 0 <= d < |s'.f.drainers| ensures GoodDrainer(c, s'.f.fates, s'.f.drainers[d]) {
      assert GoodDrainer(c, s.f.fates, s.f.drainers[d]);
    }
    forall i | 0 <= i < |s'.f.writers| ensures GoodWriter(s'.f.fates, s'.f.writers[i]) {
      assert i < |s.f.writers| ==> GoodWriter(s.f.fates, s.f.writers[i]);
    }
    forall k | 0 <= k < |s'.f.queue| ensures GoodItem(c, s'.f.fates, s'.f.queue[k]) {
      assert k < |s.f.queue| ==> GoodItem(c, s.f.fates, s.f.queue[k]);
    }
  }

  lemma TakeKeepsSound(c: Config, f: Flow, d: nat)
    requires Sound(c, f) && d < |f.drainers| && f.queue != []
    ensures Sound(c, SetDrainer(f, d, Holding(f.queue[0])).(queue := f.queue[1..]))
  {
    var f' := SetDrainer(f, d, Holding(f.queue[0])).(queue := f.queue[1..]);
    forall e | 0 <= e < |f'.drainers| ensures GoodDrainer(c, f'.fates, f'.drainers[e]) {
      assert GoodDrainer(c, f.fates, f.drainers[e]) && GoodItem(c, f.fates, f.queue[0]);
    }
    forall k | 0 <= k < |f'.queue| ensures GoodItem(c, f'.fates, f'.queue[k]) {
      assert f'.queue[k] == f.queue[k + 1];
    }
  }

  // A drain worker changes the fate of its own blob, which no other item has.
  lemma FateChangeKeepsSound(c: Config, f: Flow, d: nat, p: Drainer, fate: Fate)
    requires OneItemEach(f) && Sound(c, f) && d < |f.drainers| && !f.drainers[d].Waiting?
    requires var fates := f.fates[f.drainers[d].item.blob.id := fate]; GoodDrainer(c, fates, p)
    requires fate.Dropped? ==> fate.failures == c.maxRetries + 1
    ensures Sound(c, SetDrainer(f, d, p).(fates := f.fates[f.drainers[d].item.blob.id := fate]))
  {
    HeldItemIsAlone(f, d);
    var fates := f.fates[f.drainers[d].item.blob.id := fate];
    forall e | 0 <= e < |f.drainers| && e != d ensures GoodDrainer(c, fates, f.drainers[e]) {
      assert GoodDrainer(c, f.fates, f.drainers[e]);
    }
    forall i | 0 <= i < |f.writers| ensures GoodWriter(fates, f.writers[i]) {
      assert GoodWriter(f.fates, f.writers[i]);
    }
    forall k | 0 <= k < |f.queue| ensures GoodItem(c, fates, f.queue[k]) {
      assert GoodItem(c, f.fates, f.queue[k]);
    }
  }

  lemma RequeueKeepsSound(c: Config, f: Flow, d: nat, x: Item)
    requires Sound(c, f) && d < |f.drainers| && GoodItem(c, f.fates, x)
    ensures Sound(c, SetDrainer(f, d, Waiting).(queue := f.queue + [x]))
  {
    var f' := SetDrainer(f, d, Waiting).(queue := f.queue + [x]);
    forall e | 0 <= e < |f'.drainers| ensures GoodDrainer(c, f'.fates, f'.drainers[e]) {
      assert GoodDrainer(c, f.fates, f.drainers[e]);
    }
    forall k | 0 <= k < |f'.queue| ensures GoodItem(c, f'.fates, f'.queue[k]) {
      assert k < |f.queue| ==> GoodItem(c, f.fates, f.queue[k]);
    }
  }

  lemma DrainKeepsSound(c: Config, s: State, a: Action, s': State)
    requires FlowInv(c, s) && DrainStep(c, s, a, s')
    ensures Sound(c, s'.f)
  {
    var d, p := a.d, s.f.drainers[a.d];
    assert GoodDrainer(c, s.f.fates, p);
    match a
    case Take(_) => TakeKeepsSound(c, s.f, d);
    case WriteOk(_) =>
      assert s.f.fates == s.f.fates[p.item.blob.id := s.f.fates[p.item.blob.id]];
      FateChangeKeepsSound(c, s.f, d, Written(p.item), s.f.fates[p.item.blob.id]);
    case WriteFails(_) => FateChangeKeepsSound(c, s.f, d, Failing(p.item), InFlight(p.item.blob, p.item.retries + 1));
    case Finish(_) => FateChangeKeepsSound(c, s.f, d, Waiting, Drained);
    case Retry(_) =>
      if p.item.retries < c.maxRetries {
        RequeueKeepsSound(c, s.f, d, s'.f.queue[|s.f.queue|]);
      } else {
        FateChangeKeepsSound(c, s.f, d, Waiting, Dropped(p.item.retries + 1));
      }
  }

  lemma WriterKeepsCached(c: Config, s: State, a: Action, s': State)
    requires FlowInv(c, s) && WriterStep(c, s, a, s')
    ensures CachedInFlight(s'.cache, s'.f.fates)
  {
    if a.Add? { assert GoodWriter(s.f.fates, s.f.writers[a.i]); }
  }

  lemma FailureKeepsCached(k: Cache, fates: map<nat, Fate>, id: nat)
    requires CachedInFlight(k, fates)
    ensures CachedInFlight(k, Charged(fates, id))
  {
  }

  // The blob whose fate is settled leaves memory with its name.
  lemma LandingKeepsCached(k: Cache, fates: map<nat, Fate>, id: nat, fate: Fate, name: string)
    requires CachedInFlight(k, fates) && id in fates && fates[id].InFlight? && fates[id].blob.name == name
    ensures CachedInFlight(Without(k, name), fates[id := fate])
  {
  }

  lemma DrainKeepsCached(c: Config, s: State, a: Action, s': State)
    requires FlowInv(c, s) && DrainStep(c, s, a, s')
    ensures CachedInFlight(s'.cache, s'.f.fates)
  {
    var p := s.f.drainers[a.d];
    assert GoodDrainer(c, s.f.fates, p);
    match a
    case Take(_) =>
    case WriteOk(_) =>
    case WriteFails(_) => FailureKeepsCached(s.cache, s.f.fates, p.item.blob.id);
    case Finish(_) => LandingKeepsCached(s.cache, s.f.fates, p.item.blob.id, Drained, p.item.blob.name);
    case Retry(_) =>
      if p.item.retries >= c.maxRetries {
        LandingKeepsCached(s.cache, s.f.fates, p.item.blob.id, Dropped(p.item.retries + 1), p.item.blob.name);
      }
  }

  lemma StepKeepsFlowInv(c: Config, s: State, a: Action, s': State)
    requires FlowInv(c, s) && Next(c, s, a, s')
    ensures FlowInv(c, s')
  {
    if WriterStep(c, s, a, s') {
      WriterStepKeepsOneItem(c, s, a, s');
      WriterKeepsSound(c, s, a, s');
      WriterKeepsCached(c, s, a, s');
    } else if DrainStep(c, s, a, s') {
      DrainStepKeepsOneItem(c, s, a, s');
      DrainKeepsSound(c, s, a, s');
      DrainKeepsCached(c, s, a, s');
    } else if a.RemoveExpired? {
      BatchRemovesTheNames(s.cache, s.cleaner.names);
    }
  }

  lemma {:induction false} FlowInvInEveryRun(c: Config, r: Run, n: nat)
    requires ValidRun(c, r) && n < |r.states|
    ensures FlowInv(c, r.states[n])
  {
    if n == 0 {
      BagNone(DrainerIds, r.states[0].f.drainers);
    } else {
      FlowInvInEveryRun(c, r, n - 1);
      StepKeepsFlowInv(c, r.states[n - 1], r.actions[n - 1], r.states[n]);
    }
  }

  // ---- Nothing goes astray ---------------------------------------------------------------

  lemma FailuresAreBounded(c: Config, f: Flow, id: nat)
    requires OneItemEach(f) && Sound(c, f) && Flying(f.fates, id)
    ensures f.fates[id].failures <= c.maxRetries + 1
  {
    assert Items(f, id) == 1;
    if id in Bag(ItemIds, f.queue) {
      var k := BagWitness(ItemIds, f.queue, id);
      assert GoodItem(c, f.fates, f.queue[k]);
    } else if id in Bag(WriterIds, f.writers) {
      var i := BagWitness(WriterIds, f.writers, id);
      assert GoodWriter(f.fates, f.writers[i]);
    } else {
      var d := BagWitness(DrainerIds, f.drainers, id);
      assert GoodDrainer(c, f.fates, f.drainers[d]);
    }
  }

  // Every cached blob has a drain item of its own.
  lemma CachedBlobHasItem(c: Config, r: Run, n: nat, name: string)
    requires ValidRun(c, r) && n < |r.states| && name in r.states[n].cache.entries
    ensures Items(r.states[n].f, r.states[n].cache.entries[name].id) == 1
  {
    FlowInvInEveryRun(c, r, n);
    assert Flying(r.states[n].f.fates, r.states[n].cache.entries[name].id);
  }

  // ---- Draining ends ---------------------------------------------------------------------

  function ItemWork(c: Config): Item -> int {
    (i: Item) => 3 * (c.maxRetries + 1 - i.retries)
  }

  function DrainerWork(c: Config): Drainer -> int {
    (d: Drainer) =>
      match d
      case Waiting => 0
      case Holding(i) => 3 * (c.maxRetries + 1 - i.retries) - 1
      case Written(_) => 1
      case Failing(i) => 3 * (c.maxRetries + 1 - i.retries) - 2
  }

  // An upper bound on the steps drain workers can still take.
  ghost function Work(c: Config, f: Flow): int {
    Sum(ItemWork(c), f.queue) + Sum(DrainerWork(c), f.drainers)
  }

  lemma {:induction false} SumIsNatural<T>(f: T -> int, xs: seq<T>)
    requires forall i :: 0 <= i < |xs| ==> f(xs[i]) >= 0
    ensures Sum(f, xs) >= 0
  {
    if xs != [] { SumIsNatural(f, xs[1..]); }
  }

  lemma {:induction false} SumIsAtMost<T>(f: T -> int, xs: seq<T>, b: nat)
    requires forall i :: 0 <= i < |xs| ==> f(xs[i]) <= b
    ensures Sum(f, xs) <= b * |xs|
  {
    if xs != [] {
      SumIsAtMost(f, xs[1..], b);
      assert b * |xs| == b + b * (|xs| - 1);
    }
  }

  // Three steps for each of the first write and its retries.
  lemma WorkIsAtMost(c: Config, f: Flow)
    ensures Work(c, f) <= 3 * (c.maxRetries + 1) * |f.queue| + 3 * (c.maxRetries + 1) * |f.drainers|
  {
    SumIsAtMost(ItemWork(c), f.queue, 3 * (c.maxRetries + 1));
    SumIsAtMost(DrainerWork(c), f.drainers, 3 * (c.maxRetries + 1));
  }

  lemma WorkIsNatural(c: Config, f: Flow)
    requires Sound(c, f)
    ensures Work(c, f) >= 0
  {
    forall d | 0 <= d < |f.drainers| ensures DrainerWork(c)(f.drainers[d]) >= 0 {
      assert GoodDrainer(c, f.fates, f.drainers[d]);
    }
    SumIsNatural(ItemWork(c), f.queue);
    SumIsNatural(DrainerWork(c), f.drainers);
  }

  lemma DrainStepShrinksWork(c: Config, s: State, a: Action, s': State)
    requires FlowInv(c, s) && DrainStep(c, s, a, s')
    ensures Work(c, s'.f) < Work(c, s.f)
  {
    assert GoodDrainer(c, s.f.fates, s.f.drainers[a.d]);
    SumUpdate(DrainerWork(c), s.f.drainers, a.d, s'.f.drainers[a.d]);
    if a.Take? {
      assert GoodItem(c, s.f.fates, s.f.queue[0]);
    } else if a.Retry? && s'.f.queue != s.f.queue {
      SumPush(ItemWork(c), s.f.queue, s'.f.queue[|s.f.queue|]);
    }
  }

  predicate IsDrainStep(a: Action) {
    a.Take? || a.WriteOk? || a.WriteFails? || a.Finish? || a.Retry?
  }

  // Steps of drain workers from action i up to action j.
  function DrainSteps(acts: seq<Action>, i: nat, j: nat): nat
    requires i <= j <= |acts|
  {
    if i == j then 0 else DrainSteps(acts, i, j - 1) + if IsDrainStep(acts[j - 1]) then 1 else 0
  }

  lemma OtherStepsKeepWork(c: Config, s: State, a: Action, s': State)
    requires Next(c, s, a, s') && !a.Push? && !IsDrainStep(a)
    ensures Work(c, s'.f) == Work(c, s.f)
  {
    assert s'.f.queue == s.f.queue && s'.f.drainers == s.f.drainers;
  }

  lemma StepCost(c: Config, s: State, a: Action, s': State)
    requires FlowInv(c, s) && Next(c, s, a, s') && !a.Push?
    ensures Work(c, s'.f) + (if IsDrainStep(a) then 1 else 0) <= Work(c, s.f)
  {
    if IsDrainStep(a) {
      DrainStepShrinksWork(c, s, a, s');
    } else {
      OtherStepsKeepWork(c, s, a, s');
    }
  }

  lemma RunStepCost(c: Config, r: Run, n: nat)
    requires ValidRun(c, r) && n < |r.actions| && !r.actions[n].Push?
    ensures Work(c, r.states[n + 1].f) + (if IsDrainStep(r.actions[n]) then 1 else 0) <= Work(c, r.states[n].f)
  {
    FlowInvInEveryRun(c, r, n);
    StepCost(c, r.states[n], r.actions[n], r.states[n + 1]);
  }

  ghost predicate NoPush(acts: seq<Action>, i: nat, j: nat) {
    forall n :: i <= n < j && n < |acts| ==> !acts[n].Push?
  }

  // If every step costs what it counts for, so does a stretch of them.
  lemma {:induction false} StepsAreCovered(acts: seq<Action>, work: nat -> int, i: nat, j: nat)
    requires i <= j <= |acts|
    requires forall n :: i <= n < j ==> work(n + 1) + (if IsDrainStep(acts[n]) then 1 else 0) <= work(n)
    ensures DrainSteps(acts, i, j) + work(j) <= work(i)
    decreases j
  {
    if i < j {
      StepsAreCovered(acts, work, i, j - 1);
      assert work((j - 1) + 1) == work(j);
    }
  }

  lemma WorkPaysForSteps(c: Config, r: Run, i: nat, j: nat)
    requires ValidRun(c, r) && i <= j < |r.states| && NoPush(r.actions, i, j)
    ensures DrainSteps(r.actions, i, j) + Work(c, r.states[j].f) <= Work(c, r.states[i].f)
  {
    var work := (n: nat) => if n < |r.states| then Work(c, r.states[n].f) else 0;
    forall n | i <= n < j ensures work(n + 1) + (if IsDrainStep(r.actions[n]) then 1 else 0) <= work(n) {
      RunStepCost(c, r, n);
    }
    StepsAreCovered(r.actions, work, i, j);
  }

  // While no blob is pushed, drain workers take at most Work steps, however everything else
  // interleaves.
  lemma DrainingIsBounded(c: Config, r: Run, i: nat, j: nat)
    requires ValidRun(c, r) && i <= j < |r.states| && NoPush(r.actions, i, j)
    ensures DrainSteps(r.actions, i, j) <= Work(c, r.states[i].f)
    ensures var f := r.states[i].f;
            DrainSteps(r.actions, i, j) <=
            3 * (c.maxRetries + 1) * |f.queue| + 3 * (c.maxRetries + 1) * |f.drainers|
  {
    WorkIsAtMost(c, r.states[i].f);
    WorkPaysForSteps(c, r, i, j);
    FlowInvInEveryRun(c, r, j);
    WorkIsNatural(c, r.states[j].f);
  }

  // And as long as work is left, some drain worker can take a step.
  lemma DrainingGoesOn(c: Config, s: State)
    requires FlowInv(c, s) && |s.f.drainers| > 0 && Work(c, s.f) > 0
    ensures exists a, s' :: DrainStep(c, s, a, s')
  {
    if d :| 0 <= d < |s.f.drainers| && !s.f.drainers[d].Waiting? {
      var p := s.f.drainers[d];
      match p
      case Holding(item) =>
        assert DrainStep(c, s, WriteFails(d),
          s.(f := SetDrainer(s.f, d, Failing(item)).(fates := Charged(s.f.fates, item.blob.id))));
      case Written(item) =>
        assert DrainStep(c, s, Finish(d),
          s.(f := SetDrainer(s.f, d, Waiting).(fates := s.f.fates[item.blob.id := Drained]),
                                             cache := Without(s.cache, item.blob.name)));
      case Failing(item) =>
        var s1 := s.(f := SetDrainer(s.f, d, Waiting).(queue := s.f.queue + [Item(item.blob, item.retries + 1)]));
        var s2 := s.(f := SetDrainer(s.f, d, Waiting).(fates := GivenUp(s.f.fates, item.blob.id)),
          cache := Without(s.cache, item.blob.name));
        assert DrainStep(c, s, Retry(d), if item.retries < c.maxRetries then s1 else s2);
    } else {
      AllWaitingMeansNoWork(c, s.f.drainers);
      assert s.f.queue != [];
      assert DrainStep(c, s, Take(0), s.(f := SetDrainer(s.f, 0, Holding(s.f.queue[0])).(queue := s.f.queue[1..])));
    }
  }

  lemma {:induction false} AllWaitingMeansNoWork(c: Config, ds: seq<Drainer>)
    requires forall d :: 0 <= d < |ds| ==> ds[d].Waiting?
    ensures Sum(DrainerWork(c), ds) == 0
  {
    if ds != [] { AllWaitingMeansNoWork(c, ds[1..]); }
  }

  // ---- Reads across the move to disk -----------------------------------------------------

  function Read(s: State, name: string): Option<Bytes> {
    Lookup(s.cache, s.disk, name)
  }

  ghost predicate DiskInv(c: Config, s: State) {
    && Verified(c, s.disk)
    && (forall d :: 0 <= d < |s.f.drainers| && s.f.drainers[d].Written? ==>
          c.digest(s.f.drainers[d].item.blob.data) == s.f.drainers[d].item.blob.name)
  }

  lemma WriterKeepsDisk(c: Config, s: State, a: Action, s': State)
    requires WriterStep(c, s, a, s')
    ensures s'.disk == s.disk && s'.f.drainers == s.f.drainers
  {
  }

  lemma DrainKeepsDiskInv(c: Config, s: State, a: Action, s': State)
    requires DiskInv(c, s) && DrainStep(c, s, a, s')
    ensures DiskInv(c, s')
  {
  }

  lemma StepKeepsDiskInv(c: Config, s: State, a: Action, s': State)
    requires DiskInv(c, s) && Next(c, s, a, s')
    ensures DiskInv(c, s')
  {
    if WriterStep(c, s, a, s') {
      WriterKeepsDisk(c, s, a, s');
    } else if DrainStep(c, s, a, s') {
      DrainKeepsDiskInv(c, s, a, s');
    }
  }

  lemma {:induction false} DiskInvInEveryRun(c: Config, r: Run, n: nat)
    requires ValidRun(c, r) && n < |r.states|
    ensures DiskInv(c, r.states[n])
  {
    if n > 0 {
      DiskInvInEveryRun(c, r, n - 1);
      StepKeepsDiskInv(c, r.states[n - 1], r.actions[n - 1], r.states[n]);
    }
  }

  // Step n finishes the drain of item i by worker d.
  ghost predicate Finishes(r: Run, n: nat, d: nat, i: Item) {
    && n < |r.actions| && |r.states| == |r.actions| + 1 && r.actions[n] == Finish(d)
    && d < |r.states[n].f.drainers| && r.states[n].f.drainers[d] == Written(i)
  }

  // Step m writes item i to disk.
  ghost predicate Writes(r: Run, m: nat, d: nat, i: Item) {
    && m < |r.actions| && |r.states| == |r.actions| + 1 && r.actions[m] == WriteOk(d)
    && d < |r.states[m].f.drainers| && r.states[m].f.drainers[d] == Holding(i)
  }

  ghost predicate DeletedBetween(r: Run, m: nat, n: nat, name: string) {
    exists i :: m < i < n && i < |r.actions| && r.actions[i] == DiskDelete(name)
  }

  lemma FinishRemovesName(c: Config, s: State, d: nat, i: Item, s': State)
    requires Next(c, s, Finish(d), s') && d < |s.f.drainers| && s.f.drainers[d] == Written(i)
    ensures s'.cache == Without(s.cache, i.blob.name) && s'.disk == s.disk
  {
  }

  // When a drained blob leaves memory, reads of its name stay the same exactly if nothing was
  // cached under it any more, or the file is on disk and what was cached -- possibly another
  // download, added after the first had expired -- has the digest. Other names are not affected.
  lemma ReadsSurviveIffOnDisk(c: Config, r: Run, n: nat, d: nat, i: Item)
    requires CollisionFree(c) && ValidRun(c, r) && Finishes(r, n, d, i)
    ensures var s, s', name := r.states[n], r.states[n + 1], i.blob.name;
            && (Read(s', name) == Read(s, name) <==>
                (name in s.cache.entries ==> name in s.disk && c.digest(s.cache.entries[name].data) == name))
            && (forall x :: x != name ==> Read(s', x) == Read(s, x))
  {
    DiskInvInEveryRun(c, r, n);
    FinishRemovesName(c, r.states[n], d, i, r.states[n + 1]);
    RemovalReads(c, r.states[n].cache, r.states[n].disk, i.blob.name);
  }

  lemma DiskKeepsFile(c: Config, s: State, a: Action, s': State, name: string)
    requires Next(c, s, a, s') && name in s.disk && a != DiskDelete(name)
    ensures name in s'.disk
  {
  }

  lemma WritePutsFile(c: Config, s: State, d: nat, i: Item, s': State)
    requires Next(c, s, WriteOk(d), s') && d < |s.f.drainers| && s.f.drainers[d] == Holding(i)
    ensures i.blob.name in s'.disk && c.digest(i.blob.data) == i.blob.name
  {
  }

  lemma {:induction false} Lasts(p: nat -> bool, m: nat, n: nat)
    requires m <= n && p(m) && forall k :: m <= k < n && p(k) ==> p(k + 1)
    ensures p(n)
  {
    if m < n {
      Lasts(p, m, n - 1);
      assert p((n - 1) + 1);
    }
  }

  // A file written by a drain worker -- or found already there -- is on disk until deleted.
  lemma WrittenFileStays(c: Config, r: Run, m: nat, n: nat, d: nat, i: Item)
    requires ValidRun(c, r) && m < n < |r.states| && Writes(r, m, d, i) && !DeletedBetween(r, m, n, i.blob.name)
    ensures i.blob.name in r.states[n].disk
  {
    var there := (k: nat) => k < |r.states| && i.blob.name in r.states[k].disk;
    WritePutsFile(c, r.states[m], d, i, r.states[m + 1]);
    forall k | m + 1 <= k < n && there(k) ensures there(k + 1) {
      DiskKeepsFile(c, r.states[k], r.actions[k], r.states[k + 1], i.blob.name);
    }
    Lasts(there, m + 1, n);
  }

  // So if the file is not deleted between the write and the removal from memory, nobody reading
  // through the cache can tell that the blob has moved -- exactly if what the cache holds under its
  // name has the digest.
  lemma DrainIsInvisible(c: Config, r: Run, m: nat, n: nat, d: nat, i: Item)
    requires CollisionFree(c) && ValidRun(c, r) && m < n && Writes(r, m, d, i) && Finishes(r, n, d, i)
    requires !DeletedBetween(r, m, n, i.blob.name)
    ensures var s, s', name := r.states[n], r.states[n + 1], i.blob.name;
            (forall x :: Read(s', x) == Read(s, x)) <==>
              (name in s.cache.entries ==> c.digest(s.cache.entries[name].data) == name)
  {
    WrittenFileStays(c, r, m, n, d, i);
    ReadsSurviveIffOnDisk(c, r, n, d, i);
  }

  // ---- Every change a reader can see -----------------------------------------------------

  // Step a takes whatever memory holds under x away: the end of a drain, the last failed retry, or
  // the TTL cleaner.
  ghost predicate Evicts(c: Config, s: State, a: Action, x: string) {
    x in s.cache.entries &&
    match a
    case Finish(d) => d < |s.f.drainers| && s.f.drainers[d].Written? && s.f.drainers[d].item.blob.name == x
    case Retry(d) =>
      d < |s.f.drainers| && s.f.drainers[d].Failing? && s.f.drainers[d].item.blob.name == x
      && s.f.drainers[d].item.retries >= c.maxRetries
    case RemoveExpired => s.cleaner.Expired? && x in s.cleaner.names
    case _ => false
  }

  // Step a caches data under x, which memory did not hold.
  ghost predicate Caches(s: State, a: Action, x: string, data: Bytes) {
    a.Add? && a.i < |s.f.writers| && s.f.writers[a.i].Buffered? && x !in s.cache.entries
    && s.f.writers[a.i].blob.name == x && s.f.writers[a.i].blob.data == data
  }

  // Step a creates or deletes the file of x.
  ghost predicate TouchesFile(s: State, a: Action, x: string) {
    match a
    case WriteOk(d) => d < |s.f.drainers| && s.f.drainers[d].Holding? && s.f.drainers[d].item.blob.name == x &&
      x !in s.disk
    case DiskWrite(name, _) => name == x
    case DiskDelete(name) => name == x
    case _ => false
  }

  // What a step must be for readers of x to notice it.
  ghost predicate Noticed(c: Config, s: State, a: Action, x: string) {
    || (Evicts(c, s, a, x) && !(x in s.disk && c.digest(s.cache.entries[x].data) == x))
    || (exists data :: Caches(s, a, x, data) && !(x in s.disk && c.digest(data) == x))
    || (TouchesFile(s, a, x) && x !in s.cache.entries)
  }

  lemma WriterStepReads(c: Config, s: State, a: Action, s': State, x: string)
    requires CollisionFree(c) && Verified(c, s.disk) && WriterStep(c, s, a, s')
    ensures Read(s', x) != Read(s, x) <==> Noticed(c, s, a, x)
  {
    if a.Add? { assert forall data :: Caches(s, a, x, data) ==> data == s.f.writers[a.i].blob.data; }
    if a.Add? && s.f.writers[a.i].blob.name == x && x !in s.cache.entries {
      assert Caches(s, a, x, s.f.writers[a.i].blob.data);
    }
  }

  lemma DrainStepReads(c: Config, s: State, a: Action, s': State, x: string)
    requires CollisionFree(c) && Verified(c, s.disk) && DrainStep(c, s, a, s')
    ensures Read(s', x) != Read(s, x) <==> Noticed(c, s, a, x)
  {
    if a.Finish? || a.Retry? { RemovalReads(c, s.cache, s.disk, s.f.drainers[a.d].item.blob.name); }
  }

  lemma OtherStepReads(c: Config, s: State, a: Action, s': State, x: string)
    requires CollisionFree(c) && Verified(c, s.disk) && OtherStep(c, s, a, s')
    ensures Read(s', x) != Read(s, x) <==> Noticed(c, s, a, x)
  {
    if a.RemoveExpired? { BatchRemovesTheNames(s.cache, s.cleaner.names); }
  }

  // In every run a step changes what a reader of x gets if and only if it takes x out of memory
  // while the disk lacks the file or memory held something without the digest, caches something
  // that the disk does not have already, or creates or deletes the file while memory has nothing.
  lemma ReadsChangeIff(c: Config, r: Run, n: nat, x: string)
    requires CollisionFree(c) && ValidRun(c, r) && n < |r.actions|
    ensures Read(r.states[n + 1], x) != Read(r.states[n], x) <==> Noticed(c, r.states[n], r.actions[n], x)
  {
    DiskInvInEveryRun(c, r, n);
    var s, a, s' := r.states[n], r.actions[n], r.states[n + 1];
    if WriterStep(c, s, a, s') {
      WriterStepReads(c, s, a, s', x);
    } else if DrainStep(c, s, a, s') {
      DrainStepReads(c, s, a, s', x);
    } else {
      OtherStepReads(c, s, a, s', x);
    }
  }

  // ---- A read takes two steps ------------------------------------------------------------

  // GetCacheFileReader as it is: memory in state i, and if nothing is there the disk in state j.
  function SplitRead(r: Run, i: nat, j: nat, x: string): Option<Bytes>
    requires i < |r.states| && j < |r.states|
  {
    if x in r.states[i].cache.entries then Some(r.states[i].cache.entries[x].data)
    else if x in r.states[j].disk then Some(r.states[j].disk[x])
    else None
  }

  ghost predicate DeletedFrom(r: Run, i: nat, j: nat, x: string) {
    exists k :: i <= k < j && k < |r.actions| && r.actions[k] == DiskDelete(x)
  }

  lemma DiskKeepsBytes(c: Config, s: State, a: Action, s': State, x: string, data: Bytes)
    requires Next(c, s, a, s') && x in s.disk && s.disk[x] == data && a != DiskDelete(x)
    ensures x in s'.disk && s'.disk[x] == data
  {
  }

  lemma FileStays(c: Config, r: Run, i: nat, j: nat, x: string)
    requires ValidRun(c, r) && i <= j < |r.states| && x in r.states[i].disk && !DeletedFrom(r, i, j, x)
    ensures x in r.states[j].disk && r.states[j].disk[x] == r.states[i].disk[x]
  {
    var data := r.states[i].disk[x];
    var there := (k: nat) => k < |r.states| && x in r.states[k].disk && r.states[k].disk[x] == data;
    forall k | i <= k < j && there(k) ensures there(k + 1) {
      DiskKeepsBytes(c, r.states[k], r.actions[k], r.states[k + 1], x, data);
    }
    Lasts(there, i, j);
  }

  // Unless the file is deleted in between, a read finds what was readable when it began, however a
  // drain moves it; if nothing was, it finds nothing, or a file written since.
  lemma SplitReadFinds(c: Config, r: Run, i: nat, j: nat, x: string)
    requires ValidRun(c, r) && i <= j < |r.states|
    ensures Read(r.states[i], x).Some? && !DeletedFrom(r, i, j, x) ==> SplitRead(r, i, j, x) == Read(r.states[i], x)
    ensures SplitRead(r, i, j, x).Some? && Read(r.states[i], x).None? ==> c.digest(SplitRead(r, i, j, x).value) == x
  {
    DiskInvInEveryRun(c, r, j);
    if x in r.states[i].disk && !DeletedFrom(r, i, j, x) { FileStays(c, r, i, j, x); }
  }

  // ---- Where a drained blob is -----------------------------------------------------------

  lemma DrainedByFinish(c: Config, s: State, a: Action, s': State, id: nat)
    requires Next(c, s, a, s') && id in s'.f.fates && s'.f.fates[id].Drained? &&
      !(id in s.f.fates && s.f.fates[id].Drained?)
    ensures a.Finish? && a.d < |s.f.drainers| && s.f.drainers[a.d].Written? && s.f.drainers[a.d].item.blob.id == id
  {
  }

  lemma {:induction false} DrainedWasFinished(c: Config, r: Run, n: nat, id: nat) returns (m: nat, d: nat, i: Item)
    requires ValidRun(c, r) && n < |r.states| && id in r.states[n].f.fates && r.states[n].f.fates[id].Drained?
    ensures m < n && Finishes(r, m, d, i) && i.blob.id == id
  {
    var s := r.states[n - 1];
    if id in s.f.fates && s.f.fates[id].Drained? {
      m, d, i := DrainedWasFinished(c, r, n - 1, id);
    } else {
      DrainedByFinish(c, s, r.actions[n - 1], r.states[n], id);
      m, d := n - 1, r.actions[n - 1].d;
      i := s.f.drainers[d].item;
    }
  }

  lemma WrittenByWrite(c: Config, s: State, a: Action, s': State, d: nat, i: Item)
    requires Next(c, s, a, s') && d < |s'.f.drainers| && s'.f.drainers[d] == Written(i)
    ensures d < |s.f.drainers| && (s.f.drainers[d] == Written(i) || (a == WriteOk(d) && s.f.drainers[d] == Holding(i)))
  {
  }

  lemma {:induction false} FinishedWasWritten(c: Config, r: Run, n: nat, d: nat, i: Item) returns (m: nat)
    requires ValidRun(c, r) && n < |r.states| && d < |r.states[n].f.drainers| && r.states[n].f.drainers[d] == Written(i)
    ensures m < n && Writes(r, m, d, i)
  {
    WrittenByWrite(c, r.states[n - 1], r.actions[n - 1], r.states[n], d, i);
    if r.states[n - 1].f.drainers[d] == Written(i) {
      m := FinishedWasWritten(c, r, n - 1, d, i);
    } else {
      m := n - 1;
    }
  }

  // Some step m wrote the blob, and unless its file has been deleted since it is on disk, with the
  // blob's own bytes.
  ghost predicate WrittenAndThere(c: Config, r: Run, n: nat, id: nat)
    requires n < |r.states|
  {
    exists m: nat, d: nat, i: Item :: m < n && Writes(r, m, d, i) && i.blob.id == id &&
      (DeletedBetween(r, m, n, i.blob.name) || FileIs(c, r.states[n], i.blob))
  }

  ghost predicate FileIs(c: Config, s: State, b: Blob) {
    b.name in s.disk && (CollisionFree(c) ==> s.disk[b.name] == b.data)
  }

  lemma DrainedIsWritten(c: Config, r: Run, n: nat, id: nat)
    requires ValidRun(c, r) && n < |r.states| && id in r.states[n].f.fates && r.states[n].f.fates[id].Drained?
    ensures WrittenAndThere(c, r, n, id)
  {
    var e, d, i := DrainedWasFinished(c, r, n, id);
    var m := FinishedWasWritten(c, r, e, d, i);
    if !DeletedBetween(r, m, n, i.blob.name) {
      WrittenFileStays(c, r, m, n, d, i);
      WritePutsFile(c, r.states[m], d, i, r.states[m + 1]);
      DiskInvInEveryRun(c, r, n);
      assert FileIs(c, r.states[n], i.blob);
    }
  }

  // An accepted blob has exactly one drain item -- queued, with a worker or about to be queued --
  // or has been written and is on disk unless deleted since, or was dropped after exactly
  // maxRetries + 1 failed writes.
  lemma AcceptedBlobIsAccountedFor(c: Config, r: Run, n: nat, id: nat)
    requires ValidRun(c, r) && n < |r.states| && id in r.states[n].f.fates
    ensures var f := r.states[n].f;
            match f.fates[id]
            case InFlight(_, failures) => Items(f, id) == 1 && failures <= c.maxRetries + 1
            case Drained => Items(f, id) == 0 && WrittenAndThere(c, r, n, id)
            case Dropped(failures) => Items(f, id) == 0 && failures == c.maxRetries + 1
  {
    FlowInvInEveryRun(c, r, n);
    var f := r.states[n].f;
    assert Items(f, id) == if Flying(f.fates, id) then 1 else 0;
    if Flying(f.fates, id) {
      FailuresAreBounded(c, f, id);
    } else if f.fates[id].Drained? {
      DrainedIsWritten(c, r, n, id);
    }
  }
}
