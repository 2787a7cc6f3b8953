/**
  lruFileMap: a map from names to file entries with a recency queue, one lock for the map and
  one read-write lock per entry. A caller looks the entry up under the map lock, releases it,
  takes the entry lock, looks the name up again, and only then runs its callback.
*/
module FileMap {
  import opened Options
  import opened LruQueue
  import opened Seqs

  // ---- The locking protocol --------------------------------------------------------------

  datatype Op = Read | Write | Delete | Store | Evict

  // Where one goroutine is. Between Locked and Unlocking it holds the entry's lock, shared for
  // Read (LoadForRead and LoadForPeek) and exclusive for everything else.
  datatype Pc =
    | Idle
    | Want(op: Op, e: Entry)        // entry found, map lock released
    | Locked(op: Op, e: Entry)      // entry lock taken, name not yet looked up again
    | Running(op: Op, e: Entry)     // the callback (or fe.Delete of an eviction) is executing
    | Removing(op: Op, e: Entry)    // callback done, about to remove the name
    | Unlocking(op: Op, e: Entry)
    | CheckSize                     // the deferred syncRemoveOldestIfNeeded of TryStore

  datatype State = State(size: int, lru: Lru, threads: seq<Pc>)

  predicate Holding(p: Pc) {
    p.Locked? || p.Running? || p.Removing? || p.Unlocking?
  }

  predicate HoldsLock(p: Pc, e: Entry) {
    Holding(p) && p.e == e
  }

  predicate Mentions(p: Pc, e: Entry) {
    !p.Idle? && !p.CheckSize? && p.e == e
  }

  // The read-write lock of e lets t in.
  ghost predicate CanLock(s: State, t: nat, op: Op, e: Entry) {
    forall u :: 0 <= u < |s.threads| && u != t && HoldsLock(s.threads[u], e) ==> op.Read? && s.threads[u].op.Read?
  }

  datatype Action =
    | Begin(t: nat, op: Op, name: string)
    | BeginStore(t: nat, e: Entry)
    | Acquire(t: nat) | Validate(t: nat) | Publish(t: nat)
    | Return(t: nat, result: bool) | Remove(t: nat) | Unlock(t: nat) | Shrink(t: nat)

  function To(s: State, t: nat, p: Pc): State
    requires t < |s.threads|
  {
    s.(threads := s.threads[t := p])
  }

  ghost predicate Next(s: State, a: Action, s': State) {
    a.t < |s.threads| &&
    var t, p := a.t, s.threads[a.t];
    match a
    case Begin(_, op, name) =>
      p.Idle? && (op.Read? || op.Write? || op.Delete?) &&
      s' == To(s, t, if name in s.lru.elements then Want(op, s.lru.elements[name]) else
        Idle).(lru := Touched(s.lru, name))
    case BeginStore(_, e) =>
      p.Idle? && e !in s.lru.queue && (forall u :: 0 <= u < |s.threads| ==> !Mentions(s.threads[u], e)) &&
      s' == To(s, t, Locked(Store, e))
    case Acquire(_) =>
      p.Want? && CanLock(s, t, p.op, p.e) && s' == To(s, t, Locked(p.op, p.e))
    case Validate(_) =>
      p.Locked? && !p.op.Store? &&
      var found := p.e.name in s.lru.elements && s.lru.elements[p.e.name] == p.e;
      s' == To(s, t, if found then Running(p.op, p.e) else Unlocking(p.op, p.e)).(lru := Touched(s.lru, p.e.name))
    case Publish(_) =>
      p.Locked? && p.op.Store? &&
      s' == if p.e.name in s.lru.elements then To(s, t, Unlocking(Store, p.e)).(lru := Touched(s.lru, p.e.name))
            else To(s, t, Running(Store, p.e)).(lru := Pushed(s.lru, p.e))
    // A delete callback that returns false and a store callback that returns true keep the entry.
    case Return(_, result) =>
      p.Running? &&
      var remove := p.op.Evict? || (p.op.Delete? && result) || (p.op.Store? && !result);
      s' == To(s, t, if remove then Removing(p.op, p.e) else Unlocking(p.op, p.e))
    case Remove(_) =>
      p.Removing? && s' == To(s, t, Unlocking(p.op, p.e)).(lru := Removed(s.lru, p.e.name))
    case Unlock(_) =>
      p.Unlocking? && s' == To(s, t, if p.op.Store? then CheckSize else Idle)
    case Shrink(_) =>
      p.CheckSize? &&
      s' == To(s, t, if 0 < s.size < |s.lru.queue| then Want(Evict, s.lru.queue[|s.lru.queue| - 1]) else Idle)
  }

  ghost predicate Init(s: State) {
    s.lru == Lru([], map[]) && forall t :: 0 <= t < |s.threads| ==> s.threads[t].Idle?
  }

  datatype Run = Run(states: seq<State>, actions: seq<Action>)

  ghost predicate ValidRun(r: Run) {
    && |r.states| == |r.actions| + 1
    && Init(r.states[0])
    && forall i :: 0 <= i < |r.actions| ==> Next(r.states[i], r.actions[i], r.states[i + 1])
  }

  // ---- Invariant -------------------------------------------------------------------------

  ghost predicate Exclusive(s: State) {
    forall t, u, e {:trigger HoldsLock(s.threads[t], e), HoldsLock(s.threads[u], e)} ::
      0 <= t < u < |s.threads| && HoldsLock(s.threads[t], e) && HoldsLock(s.threads[u], e) ==>
        s.threads[t].op.Read? && s.threads[u].op.Read?
  }

  ghost predicate Mapped(l: Lru, e: Entry) {
    e.name in l.elements && l.elements[e.name] == e
  }

  ghost predicate GoodThread(s: State, p: Pc) {
    && (p.Running? || p.Removing? ==> Mapped(s.lru, p.e))
    && (p.Removing? ==> !p.op.Read?)
    && (p.Locked? && p.op.Store? ==> p.e !in s.lru.queue)
    && (p.Want? ==> !p.op.Store?)
  }

  ghost predicate Inv(s: State) {
    && WellFormed(s.lru)
    && Exclusive(s)
    && forall t :: 0 <= t < |s.threads| ==> GoodThread(s, s.threads[t])
  }

  lemma StepKeepsExclusive(s: State, a: Action, s': State)
    requires Inv(s) && Next(s, a, s')
    ensures Exclusive(s')
  {
    forall t, u, e | 0 <= t < u < |s'.threads| && HoldsLock(s'.threads[t], e) && HoldsLock(s'.threads[u], e)
      ensures s'.threads[t].op.Read? && s'.threads[u].op.Read?
    {
      if a.t == t {
        assert HoldsLock(s.threads[u], e) && Mentions(s.threads[u], e);
        assert a.Acquire? || HoldsLock(s.threads[t], e);
      } else if a.t == u {
        assert HoldsLock(s.threads[t], e) && Mentions(s.threads[t], e);
        assert a.Acquire? || HoldsLock(s.threads[u], e);
      } else {
        assert HoldsLock(s.threads[t], e) && HoldsLock(s.threads[u], e);
      }
    }
  }

  lemma StepKeepsThreads(s: State, a: Action, s': State)
    requires Inv(s) && Next(s, a, s')
    ensures WellFormed(s'.lru)
    ensures forall t :: 0 <= t < |s'.threads| ==> GoodThread(s', s'.threads[t])
  {
    var p := s.threads[a.t];
    assert GoodThread(s, p);
    var name := if a.Begin? then a.name else if p.Idle? || p.CheckSize? then "" else p.e.name;
    TouchKeepsShape(s.lru, name);
    RemovalKeepsShape(s.lru, name);
    if a.Publish? { PushKeepsShape(s.lru, p.e); }
    if name in s.lru.elements { WithoutMeans(s.lru.queue, s.lru.elements[name]); }
    forall t | 0 <= t < |s'.threads| ensures GoodThread(s', s'.threads[t]) {
      assert GoodThread(s, s.threads[t]);
      if t != a.t && (a.Remove? || a.Publish?) {
        assert HoldsLock(p, p.e);
        assert !HoldsLock(s.threads[t], p.e);
      }
    }
  }

  lemma {:induction false} InvInEveryRun(r: Run, n: nat)
    requires ValidRun(r) && n < |r.states|
    ensures Inv(r.states[n])
  {
    if n > 0 {
      InvInEveryRun(r, n - 1);
      StepKeepsExclusive(r.states[n - 1], r.actions[n - 1], r.states[n]);
      StepKeepsThreads(r.states[n - 1], r.actions[n - 1], r.states[n]);
    }
  }

  // ---- What the callbacks may rely on ----------------------------------------------------

  // While a callback runs, its name is mapped to the very entry it was given.
  lemma CallbackSeesItsEntry(r: Run, n: nat, t: nat)
    requires ValidRun(r) && n < |r.states| && t < |r.states[n].threads| && r.states[n].threads[t].Running?
    ensures Mapped(r.states[n].lru, r.states[n].threads[t].e)
  {
    InvInEveryRun(r, n);
    assert GoodThread(r.states[n], r.states[n].threads[t]);
  }

  // Two callbacks on one name overlap only if both are readers, and then on the same entry.
  lemma CallbacksOverlapOnlyAsReaders(r: Run, n: nat, t: nat, u: nat)
    requires ValidRun(r) && n < |r.states| && t < u < |r.states[n].threads|
    requires r.states[n].threads[t].Running? && r.states[n].threads[u].Running?
    requires r.states[n].threads[t].e.name == r.states[n].threads[u].e.name
    ensures r.states[n].threads[t].op.Read? && r.states[n].threads[u].op.Read?
    ensures r.states[n].threads[t].e == r.states[n].threads[u].e
  {
    InvInEveryRun(r, n);
    CallbackSeesItsEntry(r, n, t);
    CallbackSeesItsEntry(r, n, u);
    var e := r.states[n].threads[t].e;
    assert HoldsLock(r.states[n].threads[t], e) && HoldsLock(r.states[n].threads[u], e);
  }

  // The map lock is never held while waiting for an entry lock, so somebody can always go on.
  lemma NeverStuck(r: Run, n: nat, t: nat)
    requires ValidRun(r) && n < |r.states| && t < |r.states[n].threads| && !r.states[n].threads[t].Idle?
    ensures exists a, s' :: Next(r.states[n], a, s') && !r.states[n].threads[a.t].Idle?
  {
    InvInEveryRun(r, n);
    var s := r.states[n];
    if u :| 0 <= u < |s.threads| && Holding(s.threads[u]) {
      HolderCanStep(s, u);
    } else if s.threads[t].CheckSize? {
      var s' := To(s, t, if 0 < s.size < |s.lru.queue| then Want(Evict, s.lru.queue[|s.lru.queue| - 1]) else Idle);
      assert Next(s, Shrink(t), s');
    } else {
      assert CanLock(s, t, s.threads[t].op, s.threads[t].e);
      assert Next(s, Acquire(t), To(s, t, Locked(s.threads[t].op, s.threads[t].e)));
    }
  }

  lemma HolderCanStep(s: State, u: nat)
    requires u < |s.threads|
    requires Holding(s.threads[u])
    ensures exists a, s' :: Next(s, a, s') && a.t == u
  {
    var p := s.threads[u];
    match p
    case Locked(op, e) =>
      if op.Store? {
        var s' := if e.name in s.lru.elements then To(s, u, Unlocking(Store, e)).(lru := Touched(s.lru, e.name))
                  else To(s, u, Running(Store, e)).(lru := Pushed(s.lru, e));
        assert Next(s, Publish(u), s');
      } else {
        var found := e.name in s.lru.elements && s.lru.elements[e.name] == e;
        var s' := To(s, u, if found then Running(op, e) else Unlocking(op, e)).(lru := Touched(s.lru, e.name));
        assert Next(s, Validate(u), s');
      }
    case Running(op, e) =>
      var remove := op.Evict? || op.Delete?;
      assert Next(s, Return(u, true), To(s, u, if remove then Removing(op, e) else Unlocking(op, e)));
    case Removing(op, e) =>
      assert Next(s, Remove(u), To(s, u, Unlocking(op, e)).(lru := Removed(s.lru, e.name)));
    case Unlocking(op, e) =>
      assert Next(s, Unlock(u), To(s, u, if op.Store? then CheckSize else Idle));
  }

  // ---- Evictions -------------------------------------------------------------------------

  // The entry a step looks up and finds, or adds.
  function StepUses(s: State, a: Action): seq<Entry> {
    if a.t >= |s.threads| then []
    else
      var p := s.threads[a.t];
      match a
      case Begin(_, _, name) => if name in s.lru.elements then [s.lru.elements[name]] else []
      case Validate(_) =>
        if p.Locked? && p.e.name in s.lru.elements then [s.lru.elements[p.e.name]] else []
      case Publish(_) =>
        if !p.Locked? then []
        else if p.e.name in s.lru.elements then [s.lru.elements[p.e.name]]
        else [p.e]
      case _ => []
  }

  function RunUses(r: Run, n: nat): seq<Entry>
    requires n < |r.states| && n <= |r.actions|
  {
    if n == 0 then [] else RunUses(r, n - 1) + StepUses(r.states[n - 1], r.actions[n - 1])
  }

  lemma StepKeepsOrder(s: State, a: Action, s': State, uses: seq<Entry>)
    requires Inv(s) && Next(s, a, s') && ByLastUse(s.lru.queue, uses)
    ensures ByLastUse(s'.lru.queue, uses + StepUses(s, a))
  {
    var p := s.threads[a.t];
    assert uses + [] == uses;
    match a
    case Begin(_, _, name) => OpKeepsOrder(s.lru, uses, Get(name));
    case Validate(_) => OpKeepsOrder(s.lru, uses, Get(p.e.name));
    case Publish(_) => OpKeepsOrder(s.lru, uses, if p.e.name in s.lru.elements then Get(p.e.name) else Put(p.e));
    case Remove(_) => OpKeepsOrder(s.lru, uses, Drop(p.e.name));
    case _ =>
  }

  lemma NextKeepsOrder(r: Run, n: nat)
    requires ValidRun(r) && n < |r.actions| && ByLastUse(r.states[n].lru.queue, RunUses(r, n))
    ensures ByLastUse(r.states[n + 1].lru.queue, RunUses(r, n + 1))
  {
    InvInEveryRun(r, n);
    StepKeepsOrder(r.states[n], r.actions[n], r.states[n + 1], RunUses(r, n));
  }

  lemma StartsInOrder(r: Run)
    requires ValidRun(r)
    ensures ByLastUse(r.states[0].lru.queue, RunUses(r, 0))
  {
    assert r.states[0].lru.queue == [];
  }

  // However the goroutines interleave, the queue is ordered by last use.
  lemma {:induction false} OrderedInEveryRun(r: Run, n: nat)
    requires ValidRun(r) && n < |r.states|
    ensures ByLastUse(r.states[n].lru.queue, RunUses(r, n))
  {
    if n == 0 {
      StartsInOrder(r);
    } else {
      OrderedInEveryRun(r, n - 1);
      NextKeepsOrder(r, n - 1);
    }
  }

  lemma ShrinkPicksTheBack(s: State, a: Action, s': State, uses: seq<Entry>)
    requires Next(s, a, s') && a.Shrink? && ByLastUse(s.lru.queue, uses)
    ensures Picked(s, a.t, s', uses)
  {
    if s.lru.queue != [] { BackIsLeastRecent(s.lru.queue, uses); }
  }

  // Thread t goes after the entry whose last use is the oldest, exactly if the map is limited and
  // over its limit.
  ghost predicate Picked(s: State, t: nat, s': State, uses: seq<Entry>) {
    t < |s'.threads| &&
    if 0 < s.size < |s.lru.queue|
    then s'.threads[t].Want? && s'.threads[t].op.Evict? && LeastRecent(s.lru.queue, uses, s'.threads[t].e)
    else s'.threads[t].Idle?
  }

  lemma EvictsLeastRecent(r: Run, n: nat)
    requires ValidRun(r) && n < |r.actions| && r.actions[n].Shrink?
    ensures Picked(r.states[n], r.actions[n].t, r.states[n + 1], RunUses(r, n))
  {
    OrderedInEveryRun(r, n);
    ShrinkPicksTheBack(r.states[n], r.actions[n], r.states[n + 1], RunUses(r, n));
  }

  // ---- The map as an object --------------------------------------------------------------

  // SyncGet, Add and SyncRemove are the regions under the map lock that the protocol is made of.
  // TryStore and RemoveOldestIfNeeded are whole calls with nothing beside them.
  class LruFileMap {
    const size: int
    var queue: seq<Entry>
    var elements: map<string, Entry>
    ghost var uses: seq<Entry>   // the entries looked up or added so far

    ghost function View(): Lru
      reads this
    {
      Lru(queue, elements)
    }

    ghost predicate Valid()
      reads this
    {
      WellFormed(View()) && ByLastUse(queue, uses)
    }

    constructor (size: int)
      ensures Valid() && View() == Lru([], map[]) && uses == [] && this.size == size
    {
      this.size, queue, elements, uses := size, [], map[], [];
    }

    // The entry found goes to the front, and the others keep their order.
    method SyncGet(name: string) returns (r: Option<Entry>)
      requires Valid()
      modifies this
      ensures Valid() && View() == Touched(old(View()), name)
      ensures r == (if name in old(elements) then Some(old(elements)[name]) else None) && elements == old(elements)
      ensures r.None? ==> queue == old(queue) && uses == old(uses)
      ensures r.Some? ==> MovedToFront(old(queue), queue, r.value) && uses == old(uses) + [r.value]
    {
      OpKeepsOrder(View(), uses, Get(name));
      if name !in elements { return None; }
      TouchMovesToFront(View(), name);
      var e := elements[name];
      queue := [e] + Without(queue, e);
      uses := uses + [e];
      r := Some(e);
    }

    method Add(e: Entry) returns (added: bool)
      requires Valid()
      modifies this
      ensures Valid() && View() == Pushed(old(View()), e) && added == (e.name !in old(elements))
      ensures added ==> queue == [e] + old(queue) && elements == old(elements)[e.name := e] && uses == old(uses) + [e]
      ensures !added ==> queue == old(queue) && elements == old(elements) && uses == old(uses)
    {
      OpKeepsOrder(View(), uses, Put(e));
      if e.name in elements { return false; }
      queue, elements, uses := [e] + queue, elements[e.name := e], uses + [e];
      added := true;
    }

    method SyncRemove(name: string)
      requires Valid()
      modifies this
      ensures Valid() && View() == Removed(old(View()), name) && uses == old(uses)
      ensures elements == old(elements) - {name}
      ensures if name in old(elements) then TakenOut(old(queue), queue, old(elements)[name]) else queue == old(queue)
    {
      OpKeepsOrder(View(), uses, Drop(name));
      assert uses + [] == uses;
      if name in elements {
        RemovalTakesOut(View(), name);
        var e := elements[name];
        elements := elements - {name};
        queue := Without(queue, e);
      }
    }

    // The least recently used entry goes if the map is over its size; whether its file could be
    // deleted makes no difference.
    method RemoveOldestIfNeeded() returns (r: Option<Entry>)
      requires Valid()
      modifies this
      ensures Valid()
      ensures r == if 0 < size < |old(queue)| then Some(old(queue)[|old(queue)| - 1]) else None
      ensures r.None? ==> View() == old(View())
      ensures r.Some? ==> LeastRecent(old(queue), old(uses), r.value)
      ensures r.Some? ==> queue + [r.value] == old(queue) && elements == old(elements) - {r.value.name}
    {
      if size <= 0 || |queue| <= size { return None; }
      BackIsLeastRecent(queue, uses);
      r := Some(queue[|queue| - 1]);
      Evict(queue[|queue| - 1]);
    }

    // What an eviction does once it has its entry: look the name up again, and remove it.
    method Evict(e: Entry)
      requires Valid() && queue != [] && e == queue[|queue| - 1]
      modifies this
      ensures Valid() && queue + [e] == old(queue) && elements == old(elements) - {e.name}
    {
      EvictionDropsTheBack(View());
      var ne := SyncGet(e.name);
      if ne != Some(e) { return; }
      SyncRemove(e.name);
    }

    // `ok` is the callback's answer. Called one at a time, stores never let the map outgrow its
    // size, and make room by dropping the entry unused for longest.
    method TryStore(e: Entry, ok: bool) returns (stored: bool)
      requires Valid()
      modifies this
      ensures Valid() && stored == (e.name !in old(elements) && ok)
      ensures 0 < size && |old(queue)| <= size ==> |queue| <= size
      ensures size <= 0 || |old(queue)| < size ==>
        elements == if stored then old(elements)[e.name := e] else old(elements)
      ensures stored && |old(queue)| == size > 0 ==>
        && LeastRecent(old(queue), old(uses), old(queue)[size - 1])
        && elements == old(elements)[e.name := e] - {old(queue)[size - 1].name} && e.name in elements
    {
      stored := StoreEntry(e, ok);
      if stored && |old(queue)| == size > 0 { BackIsLeastRecent(old(queue), old(uses)); }
      var _ := RemoveOldestIfNeeded();
    }

    method StoreEntry(e: Entry, ok: bool) returns (stored: bool)
      requires Valid()
      modifies this
      ensures Valid() && stored == (e.name !in old(elements) && ok)
      ensures View() == if stored then Pushed(old(View()), e) else Touched(old(View()), e.name)
      ensures elements == if stored then old(elements)[e.name := e] else old(elements)
      ensures stored ==> queue == [e] + old(queue)
      ensures !stored && e.name !in old(elements) ==> queue == old(queue)
      ensures |queue| == |old(queue)| + if stored then 1 else 0
    {
      TouchKeepsShape(View(), e.name);
      PushKeepsShape(View(), e);
      if e.name in elements {
        var _ := SyncGet(e.name);
        return false;
      }
      var _ := Add(e);
      stored := ok;
      if !ok {
        RemovedUndoesPushed(old(View()), e);
        SyncRemove(e.name);
      }
    }
  }
}
