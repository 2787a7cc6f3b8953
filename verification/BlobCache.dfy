/**
  BlobMemoryCache: blobs held in memory up to a byte limit, with space reserved before a blob
  is downloaded. One counter covers cached blobs and reservations alike.
*/
module BlobCache {
  import opened Bytes
  import opened Sums

  // A MemoryEntry object; `id` tells two entries for one name apart.
  datatype Blob = Blob(id: nat, name: string, data: Bytes, createdAt: int)

  datatype Cache = Cache(entries: map<string, Blob>, totalSize: nat)

  function Size(b: Blob): int { |b.data| }

  // The bytes actually cached.
  ghost function Cached(c: Cache): int { MapSum(Size, c.entries) }

  // Remove and decrementTotalSize, with its branch for a counter that is too small.
  function Without(c: Cache, name: string): Cache {
    if name !in c.entries then c
    else
      var n := |c.entries[name].data|;
      Cache(c.entries - {name}, if n > c.totalSize then 0 else c.totalSize - n)
  }

  function WithoutAll(c: Cache, names: seq<string>): Cache
    decreases |names|
  {
    if names == [] then c else WithoutAll(Without(c, names[0]), names[1..])
  }

  ghost predicate NamedByKey(c: Cache) {
    forall n :: n in c.entries ==> c.entries[n].name == n
  }

  lemma CachedIsNatural(c: Cache)
    ensures Cached(c) >= 0
  {
    MapSumNonNegative(Size, c.entries);
  }

  // With the counter covering at least the cached bytes, a removal gives back exactly what the
  // entry holds: the branch for an underflow is never taken.
  lemma RemovalIsExact(c: Cache, name: string)
    requires c.totalSize >= Cached(c)
    ensures name in c.entries ==> |c.entries[name].data| <= c.totalSize
    ensures Without(c, name).totalSize - Cached(Without(c, name)) == c.totalSize - Cached(c)
  {
    if name in c.entries {
      MapSumRemove(Size, c.entries, name);
      CachedIsNatural(c.(entries := c.entries - {name}));
    }
  }

  lemma {:induction false} BatchIsExact(c: Cache, names: seq<string>)
    requires c.totalSize >= Cached(c)
    ensures WithoutAll(c, names).totalSize - Cached(WithoutAll(c, names)) == c.totalSize - Cached(c)
    decreases |names|
  {
    if names != [] {
      RemovalIsExact(c, names[0]);
      BatchIsExact(Without(c, names[0]), names[1..]);
    }
  }

  lemma {:induction false} BatchInParts(c: Cache, xs: seq<string>, ys: seq<string>)
    ensures WithoutAll(c, xs + ys) == WithoutAll(WithoutAll(c, xs), ys)
    decreases |xs|
  {
    if xs == [] {
      assert xs + ys == ys;
    } else {
      assert (xs + ys)[1..] == xs[1..] + ys;
      BatchInParts(Without(c, xs[0]), xs[1..], ys);
    }
  }

  // No removal of a batch, the later ones included, meets a counter smaller than its entry.
  lemma BatchNeverUnderflows(c: Cache, names: seq<string>, i: nat)
    requires c.totalSize >= Cached(c) && i < |names|
    ensures var k := WithoutAll(c, names[..i]);
            && WithoutAll(c, names) == WithoutAll(Without(k, names[i]), names[i + 1..])
            && (names[i] in k.entries ==> |k.entries[names[i]].data| <= k.totalSize)
  {
    var k := WithoutAll(c, names[..i]);
    BatchIsExact(c, names[..i]);
    RemovalIsExact(k, names[i]);
    assert names == names[..i] + names[i..];
    BatchInParts(c, names[..i], names[i..]);
    assert names[i..][1..] == names[i + 1..];
  }

  lemma {:induction false} BatchRemovesTheNames(c: Cache, names: seq<string>)
    ensures WithoutAll(c, names).entries == map n | n in c.entries && n !in names :: c.entries[n]
    decreases |names|
  {
    if names != [] {
      BatchRemovesTheNames(Without(c, names[0]), names[1..]);
      assert forall n :: n in names <==> n == names[0] || n in names[1..];
    }
  }

  class BlobMemoryCache {
    const maxSize: nat
    var entries: map<string, Blob>
    var totalSize: nat

    ghost function View(): Cache
      reads this
    {
      Cache(entries, totalSize)
    }

    ghost predicate Valid()
      reads this
    {
      NamedByKey(View())
    }

    // The counter covers the cached bytes and is within the limit; what is left over is reserved.
    ghost predicate Covers()
      reads this
    {
      Cached(View()) <= totalSize <= maxSize
    }

    ghost function Reserved(): int
      reads this
    {
      totalSize - Cached(View())
    }

    constructor (maxSize: nat)
      ensures Valid() && Covers() && this.maxSize == maxSize && entries == map[] && Reserved() == 0
    {
      this.maxSize, entries, totalSize := maxSize, map[], 0;
    }

    method TryReserve(size: nat) returns (ok: bool)
      requires Valid()
      modifies this`totalSize
      ensures Valid() && ok == (old(totalSize) + size <= maxSize)
      ensures Reserved() == old(Reserved()) + if ok then size else 0
      ensures old(Covers()) ==> Covers()
    {
      if totalSize + size > maxSize { return false; }
      totalSize := totalSize + size;
      ok := true;
    }

    // Giving back no more than is reserved always works; giving back more than the whole total
    // does nothing.
    method ReleaseReservation(size: nat)
      requires Valid()
      modifies this`totalSize
      ensures Valid()
      ensures old(Covers()) && size <= old(Reserved()) ==> Covers() && Reserved() == old(Reserved()) - size
      ensures totalSize == if size > old(totalSize) then old(totalSize) else old(totalSize) - size
    {
      CachedIsNatural(View());
      if size > totalSize { return; }
      totalSize := totalSize - size;
    }

    // Reserved bytes become cached ones. The counter goes on covering the cached bytes exactly if
    // as many were reserved.
    method Add(b: Blob) returns (added: bool)
      requires Valid()
      modifies this`entries
      ensures Valid() && added == (b.name !in old(entries))
      ensures entries == if added then old(entries)[b.name := b] else old(entries)
      ensures Reserved() == old(Reserved()) - if added then Size(b) else 0
      ensures old(Covers()) ==> (Covers() <==> !added || Size(b) <= old(Reserved()))
    {
      if b.name in entries { return false; }
      MapSumAdd(Size, entries, b.name, b);
      entries := entries[b.name := b];
      added := true;
    }

    method Remove(name: string)
      requires Valid()
      modifies this
      ensures Valid() && View() == Without(old(View()), name)
      ensures old(Covers()) ==> Covers() && Reserved() == old(Reserved())
    {
      ghost var before := View();
      if name !in entries { return; }
      var size := |entries[name].data|;
      entries := entries - {name};
      DecrementTotalSize(size);
      if before.totalSize >= Cached(before) {
        RemovalIsExact(before, name);
        CachedIsNatural(View());
      }
    }

    method DecrementTotalSize(size: nat)
      modifies this`totalSize
      ensures totalSize == if size > old(totalSize) then 0 else old(totalSize) - size
    {
      if size > totalSize {
        totalSize := 0;
        return;
      }
      totalSize := totalSize - size;
    }

    method RemoveBatch(names: seq<string>)
      requires Valid()
      modifies this
      ensures Valid() && View() == WithoutAll(old(View()), names)
      ensures old(Covers()) ==> Covers() && Reserved() == old(Reserved())
    {
      for i := 0 to |names|
        invariant Valid() && (old(Covers()) ==> Covers() && Reserved() == old(Reserved()))
        invariant WithoutAll(View(), names[i..]) == WithoutAll(old(View()), names)
      {
        assert names[i..][1..] == names[i + 1..];
        Remove(names[i]);
      }
    }

    method GetExpiredEntries(now: int, ttl: int) returns (names: seq<string>)
      ensures forall n :: n in names <==> n in entries && now - entries[n].createdAt > ttl
    {
      names := [];
      var todo := entries.Keys;
      while todo != {}
        invariant todo <= entries.Keys
        invariant forall n :: n in names <==> n in entries && n !in todo && now - entries[n].createdAt > ttl
        decreases todo
      {
        var n :| n in todo;
        todo := todo - {n};
        if now - entries[n].createdAt > ttl { names := names + [n]; }
      }
    }
  }
}
