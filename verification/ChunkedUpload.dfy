/**
  Chunked upload: the client reads a blob into a buffer and sends each chunk with its range; the
  server writes the chunk at its offset in an upload file and at commit moves the file into the
  cache.
*/
module ChunkedUpload {
  import opened Bytes
  import opened Division
  import opened FileReadWriter
  import opened Options

  // ---- Readers ---------------------------------------------------------------------------

  // One Read: bytes alone, bytes (perhaps none) with the end of the file, or with an error.
  datatype Outcome = Data(bytes: Bytes) | End(bytes: Bytes) | Broken(bytes: Bytes)

  // A reader is the sequence of its outcomes up to the first that is not plain data.
  ghost predicate ValidReader(reader: seq<Outcome>, chunkSize: nat) {
    && reader != [] && !reader[|reader| - 1].Data?
    && (forall i :: 0 <= i < |reader| - 1 ==> reader[i].Data?)
    && forall i :: 0 <= i < |reader| ==> |reader[i].bytes| <= chunkSize
  }

  // All bytes the reader delivers.
  function Delivered(reader: seq<Outcome>): Bytes {
    if reader == [] then [] else Delivered(reader[..|reader| - 1]) + reader[|reader| - 1].bytes
  }

  // The bytes it delivers before the last outcome.
  function Plain(reader: seq<Outcome>): Bytes
    requires reader != []
  {
    Delivered(reader[..|reader| - 1])
  }

  // ---- Ranges ----------------------------------------------------------------------------

  datatype Patch = Patch(start: nat, stop: nat, chunk: Bytes)

  // The patches lie end to end from 0, each with the bytes of its own range.
  ghost predicate Tile(patches: seq<Patch>, content: Bytes) {
    && (patches == [] ==> content == [])
    && (patches != [] ==> patches[0].start == 0 && patches[|patches| - 1].stop == |content|)
    && (forall i :: 0 <= i < |patches| - 1 ==> patches[i].stop == patches[i + 1].start)
    && forall i :: 0 <= i < |patches| ==> IsSlice(patches[i], content)
  }

  ghost predicate IsSlice(p: Patch, content: Bytes) {
    p.start <= p.stop <= |content| && p.chunk == content[p.start..p.stop]
  }

  lemma TileOneMore(patches: seq<Patch>, content: Bytes, chunk: Bytes)
    requires Tile(patches, content)
    ensures Tile(patches + [Patch(|content|, |content| + |chunk|, chunk)], content + chunk)
  {
    var more := patches + [Patch(|content|, |content| + |chunk|, chunk)];
    forall i | 0 <= i < |more| ensures IsSlice(more[i], content + chunk) {
      if i < |patches| {
        assert IsSlice(patches[i], content);
        assert (content + chunk)[more[i].start..more[i].stop] == content[more[i].start..more[i].stop];
      }
    }
  }

  // Every byte of the blob lies in the range of some patch, and patches in order do not overlap.
  lemma {:induction false} TilesDoNotOverlap(patches: seq<Patch>, content: Bytes, i: nat, j: nat)
    requires Tile(patches, content) && i < j < |patches|
    ensures patches[i].stop <= patches[j].start
  {
    assert IsSlice(patches[j - 1], content);
    if i < j - 1 { TilesDoNotOverlap(patches, content, i, j - 1); }
  }

  lemma {:induction false} TilesCover(patches: seq<Patch>, content: Bytes, n: nat, x: nat) returns (i: nat)
    requires Tile(patches, content) && 0 < n <= |patches| && x < patches[n - 1].stop
    ensures i < n && patches[i].start <= x < patches[i].stop
    decreases n
  {
    if patches[n - 1].start <= x {
      i := n - 1;
    } else {
      assert n > 1;
      i := TilesCover(patches, content, n - 1, x);
    }
  }

  // ---- The server ------------------------------------------------------------------------

  datatype Result = Done | Conflict | NotFound | BadRequest | Failed

  class Uploader {
    const copyBuffer: nat
    const readPartSize: nat
    const writePartSize: nat
    const verify: bool
    const hash: Bytes -> string

    var uploads: map<string, Bytes>
    var cache: map<string, Bytes>

    ghost predicate Valid()
      reads this
    {
      copyBuffer > 0
    }

    constructor (copyBuffer: nat, readPartSize: nat, writePartSize: nat, verify: bool, hash: Bytes -> string)
      requires copyBuffer > 0
      ensures Valid() && uploads == map[] && cache == map[]
    {
      this.copyBuffer, this.readPartSize, this.writePartSize, this.verify, this.hash :=
        copyBuffer, readPartSize, writePartSize, verify, hash;
      uploads, cache := map[], map[];
    }

    // Upload ids are new.
    method Start(d: string, uid: string) returns (r: Result)
      requires Valid() && uid !in uploads
      modifies this`uploads
      ensures r == if d in cache then Conflict else Done
      ensures uploads == if r.Done? then old(uploads)[uid := []] else old(uploads)
    {
      if d in cache { return Conflict; }
      uploads := uploads[uid := []];
      r := Done;
    }

    // io.CopyN through a buffer.
    method CopyN(f: LocalFile, chunk: Bytes, n: int) returns (copied: nat)
      requires Valid()
      modifies f
      ensures copied == if n <= 0 then 0 else if n <= |chunk| then n else |chunk|
      ensures f.content == Written(old(f.content), old(f.offset), chunk[..copied])
    {
      var limit := if n <= 0 then 0 else if n <= |chunk| then n else |chunk|;
      copied := 0;
      assert chunk[..0] == [];
      while copied < limit
        invariant 0 <= copied <= limit && f.offset == old(f.offset) + copied
        invariant f.content == Written(old(f.content), old(f.offset), chunk[..copied])
      {
        var block := if limit - copied < copyBuffer then limit - copied else copyBuffer;
        WrittenInSlices(old(f.content), old(f.offset), chunk, copied, copied + block);
        var _ := f.Write(chunk[copied..copied + block]);
        copied := copied + block;
      }
    }

    // For every write part size and buffer size: the first end - start bytes of the chunk, at
    // start. A chunk shorter than its range is an error, after what there is has been written.
    method PatchUpload(d: string, uid: string, chunk: Bytes, start: int, end: int) returns (r: Result)
      requires Valid()
      modifies this`uploads
      ensures r == if d in cache then Conflict else if uid !in old(uploads) then NotFound
                   else if start < 0 then BadRequest else if end - start > |chunk| then Failed else Done
      ensures r.Done? ==>
        var n := if end < start then 0 else end - start;
        uploads == old(uploads)[uid := Written(old(uploads)[uid], start, chunk[..n])]
      ensures r.Failed? ==> uploads == old(uploads)[uid := Written(old(uploads)[uid], start, chunk)]
      ensures !r.Done? && !r.Failed? ==> uploads == old(uploads)
    {
      if d in cache { return Conflict; }
      if uid !in uploads { return NotFound; }
      if start < 0 { return BadRequest; }
      var f := new LocalFile(uploads[uid], readPartSize, writePartSize);
      f.Seek(start);
      var copied := CopyN(f, chunk, end - start);
      uploads := uploads[uid := f.content];
      if copied < end - start {
        assert chunk[..copied] == chunk;
        return Failed;
      }
      r := Done;
    }

    // MoveUploadFileToCache. The upload file is gone afterwards, whatever the outcome.
    method Commit(d: string, uid: string) returns (r: Result)
      requires Valid()
      modifies this
      ensures r == if uid !in old(uploads) then NotFound
                   else if verify && hash(old(uploads)[uid]) != d then Failed
                   else if d in old(cache) then Conflict else Done
      ensures uploads == old(uploads) - {uid}
      ensures cache == if r.Done? then old(cache)[d := old(uploads)[uid]] else old(cache)
    {
      if uid !in uploads {
        assert uploads - {uid} == uploads;
        return NotFound;
      }
      var content := uploads[uid];
      uploads := uploads - {uid};
      if verify && hash(content) != d { return Failed; }
      if d in cache { return Conflict; }
      cache := cache[d := content];
      r := Done;
    }

    // Someone else commits the same blob.
    method Interfere(d: string, other: Option<Bytes>)
      modifies this`cache
      ensures cache == if other.Some? && d !in old(cache) then old(cache)[d := other.value] else old(cache)
    {
      if other.Some? && d !in cache { cache := cache[d := other.value]; }
    }
  }

  // ---- The client ------------------------------------------------------------------------

  lemma PrefixDelivers(reader: seq<Outcome>, i: nat)
    requires i < |reader|
    ensures Delivered(reader[..i + 1]) == Delivered(reader[..i]) + reader[i].bytes
  {
    assert reader[..i + 1][..i] == reader[..i];
  }

  // One turn of the client's loop: the next chunk goes to the end of what was sent so far. Before
  // it someone else may commit the blob.
  method SendChunk(u: Uploader, d: string, uid: string, chunk: Bytes, pos: nat, other: Option<Bytes>,
      ghost patches: seq<Patch>, ghost sent: Bytes)
      returns (r: Result, ghost more: seq<Patch>)
    requires u.Valid() && uid in u.uploads && u.uploads[uid] == sent && pos == |sent| && Tile(patches, sent)
    modifies u
    ensures r.Done? ==> uid in u.uploads && u.uploads[uid] == sent + chunk && Tile(more, sent + chunk)
    ensures r.Done? <==> d !in old(u.cache) && other.None?
    ensures other.None? ==> u.cache == old(u.cache)
    ensures r.Conflict? ==> d in u.cache
  {
    u.Interfere(d, other);
    var stop := pos + |chunk|;
    r := u.PatchUpload(d, uid, chunk, pos, stop);
    more := patches + [Patch(pos, stop, chunk)];
    assert chunk[..stop - pos] == chunk;
    WrittenAtEnd(sent, chunk);
    TileOneMore(patches, sent, chunk);
  }

  // Before call number n someone else may commit the blob.
  method RunChunkedUpload(u: Uploader, d: string, uid: string, reader: seq<Outcome>, chunkSize: nat,
      others: nat -> Option<Bytes>)
      returns (r: Result, ghost patches: seq<Patch>, ghost before: Bytes)
    requires u.Valid() && uid !in u.uploads && chunkSize > 0 && ValidReader(reader, chunkSize)
    modifies u
    // The patches tile what the reader delivered before its last outcome, and at the commit the
    // upload file holds exactly that.
    ensures r.Done? ==> reader[|reader| - 1].End? && Tile(patches, Plain(reader)) && before == Plain(reader)
    ensures r.Done? ==> d in u.cache && u.cache[d] == before && d !in old(u.cache) && (u.verify ==> u.hash(before) == d)
    ensures r.Conflict? ==> d in u.cache
    // With nobody in the way the upload succeeds exactly when the reader does and the bytes hash
    // to the name, if that is checked.
    ensures d !in old(u.cache) && (forall n :: others(n).None?) ==>
              (r.Done? <==> reader[|reader| - 1].End? && (u.verify ==> u.hash(Plain(reader)) == d))
  {
    patches, before := [], [];
    r := u.Start(d, uid);
    if !r.Done? { return; }
    var pos := 0;
    var i := 0;
    while reader[i].Data?
      invariant 0 <= i < |reader| && uid in u.uploads && u.uploads[uid] == Delivered(reader[..i])
      invariant pos == |Delivered(reader[..i])| && Tile(patches, Delivered(reader[..i]))
      invariant d !in old(u.cache) && ((forall n :: others(n).None?) ==> u.cache == old(u.cache))
      decreases |reader| - i
    {
      PrefixDelivers(reader, i);
      r, patches := SendChunk(u, d, uid, reader[i].bytes, pos, others(i), patches, Delivered(reader[..i]));
      if !r.Done? { return; }
      pos := pos + |reader[i].bytes|;
      i := i + 1;
    }
    assert i == |reader| - 1;
    if reader[i].Broken? { return Failed, patches, before; }
    u.Interfere(d, others(i));
    before := u.uploads[uid];
    r := u.Commit(d, uid);
  }

  // ---- What was the whole blob -----------------------------------------------------------

  // The bytes returned together with the end of the file are not sent. So the upload is the whole
  // blob exactly when there were none.
  lemma WholeIffEndAlone(reader: seq<Outcome>)
    requires reader != []
    ensures Plain(reader) == Delivered(reader) <==> reader[|reader| - 1].bytes == []
  {
    assert |Delivered(reader)| == |Plain(reader)| + |reader[|reader| - 1].bytes|;
  }

  // As much of what is left as fits a buffer of n bytes.
  function Filled(left: Bytes, n: nat): Bytes {
    if n < |left| then left[..n] else left
  }

  predicate AtEnd(data: Bytes, chunkSize: nat, part: nat) {
    if part == 0 then data == [] else |data| < chunkSize
  }

  // The reader that a local file makes of what is left of it, by the contract of LocalFile.Read.
  function FileReader(left: Bytes, chunkSize: nat, part: nat): seq<Outcome>
    requires chunkSize > 0
    decreases |left|
  {
    var data := Filled(left, chunkSize);
    if AtEnd(data, chunkSize, part) then [End(data)]
    else [Data(data)] + FileReader(left[|data|..], chunkSize, part)
  }

  lemma {:induction false} DeliveredCons(o: Outcome, rest: seq<Outcome>)
    ensures Delivered([o] + rest) == o.bytes + Delivered(rest)
  {
    if rest == [] {
      assert [o] + rest == [o] && [o][..0] == [];
    } else {
      assert ([o] + rest)[..|rest|] == [o] + rest[..|rest| - 1];
      DeliveredCons(o, rest[..|rest| - 1]);
    }
  }

  lemma {:induction false} FileReaderIsValid(left: Bytes, chunkSize: nat, part: nat)
    requires chunkSize > 0
    ensures var reader := FileReader(left, chunkSize, part);
            ValidReader(reader, chunkSize) && reader[|reader| - 1].End?
    decreases |left|
  {
    var data := Filled(left, chunkSize);
    if !AtEnd(data, chunkSize, part) { FileReaderIsValid(left[|data|..], chunkSize, part); }
  }

  lemma DeliveredOne(o: Outcome)
    ensures Delivered([o]) == o.bytes
  {
    assert [o][..0] == [];
  }

  lemma DeliversMore(left: Bytes, n: nat, rest: seq<Outcome>)
    requires n <= |left| && Delivered(rest) == left[n..]
    ensures Delivered([Data(left[..n])] + rest) == left
  {
    DeliveredCons(Data(left[..n]), rest);
  }

  lemma {:induction false} FileReaderDelivers(left: Bytes, chunkSize: nat, part: nat)
    requires chunkSize > 0
    ensures Delivered(FileReader(left, chunkSize, part)) == left
    decreases |left|
  {
    var data := Filled(left, chunkSize);
    if AtEnd(data, chunkSize, part) {
      DeliveredOne(End(data));
    } else {
      var n := |data|;
      assert data == left[..n];
      FileReaderDelivers(left[n..], chunkSize, part);
      DeliversMore(left, n, FileReader(left[n..], chunkSize, part));
    }
  }

  lemma LastOf(o: Outcome, rest: seq<Outcome>)
    requires rest != []
    ensures ([o] + rest)[|[o] + rest| - 1] == rest[|rest| - 1]
  {
  }

  // Read in one part, the end of the file comes alone.
  lemma {:induction false} EndsAlone(left: Bytes, chunkSize: nat)
    requires chunkSize > 0
    ensures var reader := FileReader(left, chunkSize, 0); reader != [] && reader[|reader| - 1].bytes == []
    decreases |left|
  {
    var data := Filled(left, chunkSize);
    if data != [] {
      var rest := FileReader(left[|data|..], chunkSize, 0);
      EndsAlone(left[|data|..], chunkSize);
      assert FileReader(left, chunkSize, 0) == [Data(data)] + rest;
      LastOf(Data(data), rest);
    }
  }

  // Read in smaller parts, it comes with what does not fill a chunk.
  lemma {:induction false} EndsWithRest(left: Bytes, chunkSize: nat, part: nat)
    requires chunkSize > 0 && part > 0
    ensures var reader := FileReader(left, chunkSize, part);
            reader != [] && |reader[|reader| - 1].bytes| == |left| % chunkSize
    decreases |left|
  {
    if |left| >= chunkSize {
      var rest := left[chunkSize..];
      EndsWithRest(rest, chunkSize, part);
      LastOf(Data(left[..chunkSize]), FileReader(rest, chunkSize, part));
      assert FileReader(left, chunkSize, part) == [Data(left[..chunkSize])] + FileReader(rest, chunkSize, part) by {
        assert Filled(left, chunkSize) == left[..chunkSize];
      }
      RemainderOfOneLess(|left|, chunkSize);
    } else {
      QuotientIs(|left|, chunkSize, 0);
    }
  }

  // A local file is uploaded whole exactly when it is read in one part or its size is a multiple
  // of the chunk size.
  lemma FileUploadedWholeIff(c: Bytes, chunkSize: nat, part: nat)
    requires chunkSize > 0
    ensures FileReader(c, chunkSize, part) != []
    ensures Plain(FileReader(c, chunkSize, part)) == c <==> part == 0 || |c| % chunkSize == 0
  {
    FileReaderDelivers(c, chunkSize, part);
    if part == 0 { EndsAlone(c, chunkSize); } else { EndsWithRest(c, chunkSize, part); }
    WholeIffEndAlone(FileReader(c, chunkSize, part));
  }

  lemma FilledIsAhead(c: Bytes, off: nat, n: nat)
    requires off <= |c|
    ensures Ahead(c, off, n) == Filled(c[off..], n)
    ensures c[off..][|Filled(c[off..], n)|..] == c[off + |Filled(c[off..], n)|..]
  {
  }

  lemma ReaderGoesOn(done: seq<Outcome>, left: Bytes, chunkSize: nat, part: nat)
    requires chunkSize > 0 && !AtEnd(Filled(left, chunkSize), chunkSize, part)
    ensures var data := Filled(left, chunkSize);
            done + FileReader(left, chunkSize, part) ==
              (done + [Data(data)]) + FileReader(left[|data|..], chunkSize, part)
  {
  }

  // The reader of a local file, made by calling Read.
  method ReadAll(f: LocalFile, chunkSize: nat) returns (reader: seq<Outcome>)
    requires chunkSize > 0 && f.offset <= |f.content|
    modifies f`offset
    ensures reader == FileReader(old(f.content[f.offset..]), chunkSize, f.readPartSize)
  {
    reader := [];
    var eof := false;
    ghost var left := f.content[f.offset..];
    ghost var all := FileReader(left, chunkSize, f.readPartSize);
    while !eof
      invariant f.offset <= |f.content| && left == f.content[f.offset..]
      invariant all == if eof then reader else reader + FileReader(left, chunkSize, f.readPartSize)
      decreases !eof, |left|
    {
      FilledIsAhead(f.content, f.offset, chunkSize);
      var data;
      data, eof := f.Read(chunkSize);
      if eof {
        reader := reader + [End(data)];
      } else {
        ReaderGoesOn(reader, left, chunkSize, f.readPartSize);
        reader := reader + [Data(data)];
      }
      left := left[|data|..];
    }
  }

  // A local file, uploaded. What is committed is the file exactly when it was read in one part or
  // fills its chunks.
  method UploadFile(u: Uploader, d: string, uid: string, f: LocalFile, chunkSize: nat,
      others: nat -> Option<Bytes>) returns (r: Result)
    requires u.Valid() && uid !in u.uploads && chunkSize > 0 && f.offset == 0
    modifies u, f`offset
    ensures r.Done? ==> d in u.cache && (u.verify ==> u.hash(u.cache[d]) == d)
    ensures r.Done? ==> (u.cache[d] == f.content <==> f.readPartSize == 0 || |f.content| % chunkSize == 0)
    ensures r.Conflict? ==> d in u.cache
  {
    var reader := ReadAll(f, chunkSize);
    assert f.content[0..] == f.content;
    FileReaderIsValid(f.content, chunkSize, f.readPartSize);
    FileUploadedWholeIff(f.content, chunkSize, f.readPartSize);
    ghost var patches, before;
    r, patches, before := RunChunkedUpload(u, d, uid, reader, chunkSize, others);
  }
}
