/**
  CAStore with its memory cache as an object: what a write, a drain turn, a cleanup and a read
  do when nothing interferes. Between calls every cached blob has a queued drain item.
*/
module CAStore {
  import opened Bytes
  import opened Options
  import BC = BlobCache
  import D = Drain

  datatype WriteResult = InMemory | OnDisk | Failed

  // What is still cached is still queued, after an item has gone to the back or left for good.
  lemma QueueStillCovers(q: seq<D.Item>, q': seq<D.Item>, es: map<string, BC.Blob>, es': map<string, BC.Blob>,
      b: BC.Blob)
    requires q != [] && q[0].blob == b && q[1..] <= q'
    requires forall n :: n in es ==> exists k :: 0 <= k < |q| && q[k].blob == es[n]
    requires forall n :: n in es' ==> n in es && es'[n] == es[n]
    requires (|q'| == |q| && q'[|q| - 1].blob == b) || forall n :: n in es' ==> es'[n] != b
    ensures forall n :: n in es' ==> exists k :: 0 <= k < |q'| && q'[k].blob == es'[n]
  {
    forall n | n in es' ensures exists k :: 0 <= k < |q'| && q'[k].blob == es'[n] {
      var k :| 0 <= k < |q| && q[k].blob == es[n];
      if k > 0 {
        assert q'[k - 1] == q[1..][k - 1] == q[k];
      } else {
        assert q'[|q| - 1].blob == b;
      }
    }
  }

  class Store {
    const config: D.Config
    const memCache: BC.BlobMemoryCache
    var queue: seq<D.Item>
    var disk: map<string, Bytes>
    ghost var cachedAt: map<string, int>   // when the last memory write of each name was made

    ghost predicate Valid()
      reads this, memCache
    {
      && memCache.Valid() && memCache.maxSize == config.maxSize && D.Verified(config, disk)
      && (forall n :: n in memCache.entries ==> Queued(memCache.entries[n]))
      && (forall n :: n in memCache.entries ==> n in cachedAt && memCache.entries[n].createdAt == cachedAt[n])
    }

    // The counter is the number of cached bytes.
    ghost predicate Exact()
      reads this, memCache
    {
      memCache.Covers() && memCache.Reserved() == 0
    }

    ghost predicate Queued(b: BC.Blob)
      reads this`queue
    {
      exists k :: 0 <= k < |queue| && queue[k].blob == b
    }

    ghost function Read(name: string): Option<Bytes>
      reads this, memCache
    {
      D.Lookup(memCache.View(), disk, name)
    }

    constructor (config: D.Config)
      ensures Valid() && Exact() && this.config == config && fresh(memCache) && queue == [] && disk == map[]
      ensures memCache.entries == map[]
    {
      this.config := config;
      memCache := new BC.BlobMemoryCache(config.maxSize);
      queue, disk, cachedAt := [], map[], map[];
    }

    // WriteBlobToCacheWithMetaInfo. Memory if the announced size fits and the name is free, else
    // straight to disk; the download is made anew for the second attempt, and `fails1` and `fails2`
    // say how the two go. The counter stays exact just when a cached blob has the announced size.
    method WriteBlob(id: nat, name: string, size: nat, data: Bytes, fails1: bool, fails2: bool,
        now: int) returns (r: WriteResult)
      requires Valid()
      modifies this, memCache
      ensures Valid()
      ensures r.InMemory? <==>
        !fails1 && old(memCache.totalSize) + size <= config.maxSize && name !in old(memCache.entries)
      ensures r.InMemory? ==>
        var b := BC.Blob(id, name, data, now);
        && memCache.entries == old(memCache.entries)[name := b] && queue == old(queue) + [D.Item(b, 0)]
        && Read(name) == Some(data) && disk == old(disk)
      ensures cachedAt == if r.InMemory? then old(cachedAt)[name := now] else old(cachedAt)
      ensures !r.InMemory? ==> memCache.View() == old(memCache.View()) && queue == old(queue)
      ensures r.OnDisk? ==> !fails2 && name in disk && config.digest(data) == name
      ensures r.OnDisk? ==> disk == if name in old(disk) then old(disk) else old(disk)[name := data]
      ensures r.OnDisk? && D.CollisionFree(config) ==> disk[name] == data
      ensures r.Failed? ==> disk == old(disk) && (fails2 || config.digest(data) != name)
      ensures forall n :: n in old(disk) ==> n in disk && disk[n] == old(disk)[n]
      ensures old(Exact()) ==> (Exact() <==> !r.InMemory? || |data| == size)
    {
      var cached := AddToMemoryCache(BC.Blob(id, name, data, now), size, fails1);
      if cached { return InMemory; }
      if fails2 || config.digest(data) != name { return Failed; }
      if name !in disk { disk := disk[name := data]; }
      r := OnDisk;
    }

    // Reserve, download, cache and queue; the reservation is given back if any of that fails.
    method AddToMemoryCache(b: BC.Blob, size: nat, fails: bool) returns (cached: bool)
      requires Valid()
      modifies this`queue, this`cachedAt, memCache
      ensures Valid()
      ensures cachedAt == if cached then old(cachedAt)[b.name := b.createdAt] else old(cachedAt)
      ensures cached <==> !fails && old(memCache.totalSize) + size <= config.maxSize && b.name !in old(memCache.entries)
      ensures cached ==> memCache.entries == old(memCache.entries)[b.name := b] && queue == old(queue) + [D.Item(b, 0)]
      ensures !cached ==> memCache.View() == old(memCache.View()) && queue == old(queue)
      ensures old(Exact()) ==> (Exact() <==> !cached || |b.data| == size)
    {
      var ok := memCache.TryReserve(size);
      if !ok { return false; }
      if !fails {
        cached := memCache.Add(b);
        if cached {
          queue := queue + [D.Item(b, 0)];
          cachedAt := cachedAt[b.name := b.createdAt];
          assert queue[|old(queue)|].blob == b;
          forall n | n in old(memCache.entries) ensures Queued(old(memCache.entries)[n]) {
            var k :| 0 <= k < |old(queue)| && old(queue)[k].blob == old(memCache.entries)[n];
            assert queue[k].blob == old(memCache.entries)[n];
          }
          return;
        }
      }
      memCache.ReleaseReservation(size);
      cached := false;
    }

    predicate Writable(b: BC.Blob, ioError: bool) {
      !ioError && config.digest(b.data) == b.name
    }

    // Write, queue again, or drop.
    method Process(item: D.Item, ioError: bool)
      requires memCache.Valid() && D.Verified(config, disk)
      modifies this`queue, this`disk, memCache
      ensures memCache.Valid() && D.Verified(config, disk) && (old(Exact()) ==> Exact())
      ensures D.ReadsKept(config, old(memCache.View()), old(disk), memCache.View(), disk, item.blob,
        Writable(item.blob, ioError))
      ensures var b, again := item.blob, !Writable(item.blob, ioError) && item.retries < config.maxRetries;
              && disk == (if Writable(b, ioError) && b.name !in old(disk) then old(disk)[b.name := b.data]
                          else old(disk))
              && queue == (if again then old(queue) + [D.Item(b, item.retries + 1)] else old(queue))
              && memCache.View() == if again then old(memCache.View()) else BC.Without(old(memCache.View()), b.name)
    {
      var b := item.blob;
      ghost var k := memCache.View();
      if Writable(b, ioError) {
        if b.name !in disk { disk := disk[b.name := b.data]; }
        memCache.Remove(b.name);
      } else if item.retries < config.maxRetries {
        queue := queue + [D.Item(b, item.retries + 1)];
      } else {
        memCache.Remove(b.name);
      }
      D.TurnReads(config, k, old(disk), memCache.View(), b, Writable(b, ioError));
    }

    // One turn of a drain worker; `ioError` is the disk's answer. A blob whose bytes do not have
    // its digest can never be written. Readers of other names never notice; readers of its own name
    // do not notice a successful write exactly if what memory held under it had the digest.
    method DrainNext(ioError: bool)
      requires Valid()
      modifies this`queue, this`disk, memCache
      ensures Valid() && (old(Exact()) ==> Exact())
      ensures old(queue) == [] ==> queue == [] && disk == old(disk) && memCache.View() == old(memCache.View())
      ensures old(queue) != [] ==>
        var item, b := old(queue)[0], old(queue)[0].blob;
        var again := !Writable(b, ioError) && item.retries < config.maxRetries;
        && disk == (if Writable(b, ioError) && b.name !in old(disk) then old(disk)[b.name := b.data] else old(disk))
        && queue == (if again then old(queue)[1..] + [D.Item(b, item.retries + 1)] else old(queue)[1..])
        && memCache.View() == (if again then old(memCache.View()) else BC.Without(old(memCache.View()), b.name))
        && D.ReadsKept(config, old(memCache.View()), old(disk), memCache.View(), disk, b, Writable(b, ioError))
    {
      if queue == [] { return; }
      ghost var k := memCache.View();
      var item := queue[0];
      queue := queue[1..];
      Process(item, ioError);
      QueueStillCovers(old(queue), queue, k.entries, memCache.entries, item.blob);
    }

    // What was cached at some time stays exactly until more than the TTL has passed since then.
    method CleanupExpired(now: int)
      requires Valid()
      modifies memCache
      ensures Valid() && (old(Exact()) ==> Exact())
      ensures forall n :: n in memCache.entries <==>
        n in old(memCache.entries) && now - old(memCache.entries)[n].createdAt <= config.ttl
      ensures forall n :: n in old(memCache.entries) ==>
        n in cachedAt && (n in memCache.entries <==> now - cachedAt[n] <= config.ttl)
      ensures forall n :: n in memCache.entries ==> memCache.entries[n] == old(memCache.entries)[n]
    {
      var names := memCache.GetExpiredEntries(now, config.ttl);
      ghost var before := memCache.View();
      memCache.RemoveBatch(names);
      BC.BatchRemovesTheNames(before, names);
    }

    // What Drain.RemovalReads and DrainFlow.DrainIsInvisible speak about. Whatever does not come
    // from memory has been verified, and nothing is found exactly if neither place has the name.
    method GetCacheFileReader(name: string) returns (r: Option<Bytes>)
      requires Valid()
      ensures r == Read(name)
      ensures r.None? <==> name !in memCache.entries && name !in disk
      ensures r.Some? && name !in memCache.entries ==> config.digest(r.value) == name
    {
      if name in memCache.entries { return Some(memCache.entries[name].data); }
      if name in disk { return Some(disk[name]); }
      r := None;
    }
  }
}
