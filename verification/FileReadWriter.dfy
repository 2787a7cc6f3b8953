/**
  localFileReadWriter: reads and writes through a file descriptor, cut into parts of a configured
  size (0 means one call). What a part size may and may not change is the question here.
*/
module FileReadWriter {
  import opened Bytes

  // ---- A regular file --------------------------------------------------------------------

  function Zeros(n: nat): Bytes {
    seq(n, _ => 0)
  }

  function WrittenByte(c: Bytes, off: nat, b: Byte): Bytes {
    if off < |c| then c[off := b] else c + Zeros(off - |c|) + [b]
  }

  // p written at offset off, past the end if need be.
  function Written(c: Bytes, off: nat, p: Bytes): Bytes
    decreases |p|
  {
    if p == [] then c else Written(WrittenByte(c, off, p[0]), off + 1, p[1..])
  }

  // Up to n bytes from offset off.
  function Ahead(c: Bytes, off: nat, n: nat): Bytes {
    if off >= |c| then [] else if off + n <= |c| then c[off..off + n] else c[off..]
  }

  lemma {:induction false} WrittenInParts(c: Bytes, off: nat, p: Bytes, q: Bytes)
    ensures Written(Written(c, off, p), off + |p|, q) == Written(c, off, p + q)
    decreases |p|
  {
    if p == [] {
      assert p + q == q;
    } else {
      assert (p + q)[1..] == p[1..] + q;
      WrittenInParts(WrittenByte(c, off, p[0]), off + 1, p[1..], q);
    }
  }

  // The next slice of p, written after the slices before it.
  lemma WrittenInSlices(c: Bytes, off: nat, p: Bytes, i: nat, j: nat)
    requires i <= j <= |p|
    ensures Written(Written(c, off, p[..i]), off + i, p[i..j]) == Written(c, off, p[..j])
  {
    WrittenInParts(c, off, p[..i], p[i..j]);
    assert p[..i] + p[i..j] == p[..j];
  }

  // A write lands where it was sent and touches nothing else; a gap is filled with zeros.
  lemma {:induction false} WrittenMeans(c: Bytes, off: nat, p: Bytes)
    ensures |Written(c, off, p)| == if p != [] && off + |p| > |c| then off + |p| else |c|
    ensures forall i :: off <= i < off + |p| ==> Written(c, off, p)[i] == p[i - off]
    ensures forall i :: 0 <= i < |c| && !(off <= i < off + |p|) ==> Written(c, off, p)[i] == c[i]
    ensures forall i :: |c| <= i < off && i < |Written(c, off, p)| ==> Written(c, off, p)[i] == 0
    decreases |p|
  {
    if p != [] { WrittenMeans(WrittenByte(c, off, p[0]), off + 1, p[1..]); }
  }

  lemma WrittenAtEnd(c: Bytes, p: Bytes)
    ensures Written(c, |c|, p) == c + p
  {
    WrittenMeans(c, |c|, p);
  }

  // A read yields n bytes, or what there is from its offset on, and just those.
  lemma AheadMeans(c: Bytes, off: nat, n: nat)
    ensures |Ahead(c, off, n)| == if off >= |c| then 0 else if n < |c| - off then n else |c| - off
    ensures forall i :: 0 <= i < |Ahead(c, off, n)| ==> off + i < |c| && Ahead(c, off, n)[i] == c[off + i]
  {
  }

  lemma AheadInParts(c: Bytes, off: nat, m: nat, n: nat)
    ensures Ahead(c, off, m) + Ahead(c, off + |Ahead(c, off, m)|, n) == Ahead(c, off, m + n)
  {
  }

  // One more part of a read of n bytes. A part that comes up short had everything there was.
  lemma NextPart(c: Bytes, off: nat, data: Bytes, block: nat, n: nat)
    requires data == Ahead(c, off, |data|) && |data| + block <= n
    ensures var all := data + Ahead(c, off + |data|, block);
            && |all| <= |data| + block && all == Ahead(c, off, |all|)
            && (|all| < |data| + block ==> all == Ahead(c, off, n))
  {
    AheadInParts(c, off, |data|, block);
  }

  // What is written can be read back.
  lemma ReadBack(c: Bytes, off: nat, p: Bytes)
    requires p != []
    ensures Ahead(Written(c, off, p), off, |p|) == p
  {
    WrittenMeans(c, off, p);
  }

  // ---- The reader-writer -----------------------------------------------------------------

  class LocalFile {
    const readPartSize: nat
    const writePartSize: nat
    var content: Bytes
    var offset: nat

    constructor (content: Bytes, readPartSize: nat, writePartSize: nat)
      ensures this.content == content && offset == 0
      ensures this.readPartSize == readPartSize && this.writePartSize == writePartSize
    {
      this.content, this.offset, this.readPartSize, this.writePartSize := content, 0, readPartSize, writePartSize;
    }

    method Seek(start: nat)
      modifies this`offset
      ensures offset == start
    {
      offset := start;
    }

    method DescriptorWrite(p: Bytes)
      modifies this
      ensures content == Written(old(content), old(offset), p) && offset == old(offset) + |p|
    {
      content := Written(content, offset, p);
      offset := offset + |p|;
    }

    // The operating system reports the end of the file only when nothing is left to give.
    method DescriptorRead(n: nat) returns (data: Bytes, eof: bool)
      modifies this`offset
      ensures data == Ahead(content, old(offset), n) && offset == old(offset) + |data|
      ensures eof <==> n > 0 && data == []
    {
      data := Ahead(content, offset, n);
      offset := offset + |data|;
      eof := n > 0 && data == [];
    }

    // For every part size, one write of all of p.
    method Write(p: Bytes) returns (n: nat)
      modifies this
      ensures content == Written(old(content), old(offset), p)
      ensures n == |p| && offset == old(offset) + |p|
    {
      if writePartSize == 0 {
        DescriptorWrite(p);
        return |p|;
      }
      n := 0;
      assert p[..0] == [];
      while n < |p|
        invariant 0 <= n <= |p| && offset == old(offset) + n
        invariant content == Written(old(content), old(offset), p[..n])
      {
        var block := if |p| - n < writePartSize then |p| - n else writePartSize;
        WrittenInSlices(old(content), old(offset), p, n, n + block);
        DescriptorWrite(p[n..n + block]);
        n := n + block;
      }
      assert p[..n] == p;
    }

    method WriteAt(p: Bytes, off: nat) returns (n: nat)
      modifies this`content
      ensures content == Written(old(content), off, p) && n == |p|
    {
      if writePartSize == 0 {
        content := Written(content, off, p);
        return |p|;
      }
      n := 0;
      var at := off;
      assert p[..0] == [];
      while n < |p|
        invariant 0 <= n <= |p| && at == off + n
        invariant content == Written(old(content), off, p[..n])
      {
        var block := if |p| - n < writePartSize then |p| - n else writePartSize;
        WrittenInSlices(old(content), off, p, n, n + block);
        content := Written(content, at, p[n..n + block]);
        n, at := n + block, at + block;
      }
      assert p[..n] == p;
    }

    // The bytes do not depend on the part size; the end of the file does. Unlimited, it is
    // reported alone; in parts, together with the last bytes whenever the buffer is not filled.
    method Read(n: nat) returns (data: Bytes, eof: bool)
      modifies this`offset
      ensures data == Ahead(content, old(offset), n) && offset == old(offset) + |data|
      ensures readPartSize == 0 ==> (eof <==> n > 0 && data == [])
      ensures readPartSize > 0 ==> (eof <==> |data| < n)
    {
      if readPartSize == 0 {
        data, eof := DescriptorRead(n);
        return;
      }
      data, eof := [], false;
      while |data| < n
        invariant |data| <= n && !eof && offset == old(offset) + |data|
        invariant data == Ahead(content, old(offset), |data|)
        decreases n - |data|
      {
        var block := if n - |data| < readPartSize then n - |data| else readPartSize;
        NextPart(content, old(offset), data, block, n);
        var more, end := DescriptorRead(block);
        data := data + more;
        if end {
          eof := true;
          return;
        }
      }
    }

    // At an offset, a short read is always reported, so the part size changes nothing.
    method ReadAt(n: nat, off: nat) returns (data: Bytes, eof: bool)
      ensures data == Ahead(content, off, n) && (eof <==> |data| < n)
    {
      if readPartSize == 0 {
        data := Ahead(content, off, n);
        return data, |data| < n;
      }
      data, eof := [], false;
      var at := off;
      while |data| < n
        invariant |data| <= n && !eof && at == off + |data|
        invariant data == Ahead(content, off, |data|)
        decreases n - |data|
      {
        var block := if n - |data| < readPartSize then n - |data| else readPartSize;
        NextPart(content, off, data, block, n);
        var more := Ahead(content, at, block);
        data, at := data + more, at + |more|;
        if |more| < block {
          eof := true;
          return;
        }
      }
    }
  }
}
