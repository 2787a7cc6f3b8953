/**
  Piece sums: a blob is cut into pieces of one length, the last one possibly shorter, and each
  piece is hashed.
*/
module MetaInfo {
  import opened Bytes
  import opened Division
  import opened Options

  type Checksum = Bytes -> int

  datatype Info = Info(pieceLength: int, length: nat, pieceSums: seq<int>)

  function NumPieces(mi: Info): nat {
    |mi.pieceSums|
  }

  function GetPieceLength(mi: Info, i: int): int {
    if i < 0 || i >= |mi.pieceSums| then 0
    else if i == |mi.pieceSums| - 1 then mi.length - mi.pieceLength * i
    else mi.pieceLength
  }

  // ---- What the pieces are ---------------------------------------------------------------

  // The pieces, cut one after the other.
  function Pieces(blob: Bytes, p: nat): seq<Bytes>
    requires p > 0
  {
    if blob == [] then [] else if |blob| <= p then [blob] else [blob[..p]] + Pieces(blob[p..], p)
  }

  function Flatten(pieces: seq<Bytes>): Bytes {
    if pieces == [] then [] else pieces[0] + Flatten(pieces[1..])
  }

  lemma {:induction false} PiecesTileTheBlob(blob: Bytes, p: nat)
    requires p > 0
    ensures Flatten(Pieces(blob, p)) == blob
  {
    if |blob| > p {
      PiecesTileTheBlob(blob[p..], p);
      assert blob == blob[..p] + blob[p..];
      assert Pieces(blob, p)[1..] == Pieces(blob[p..], p);
    } else if blob != [] {
      assert Flatten([blob]) == blob + Flatten([blob][1..]);
    }
  }

  // The number of pieces is the length over the piece length, rounded up.
  lemma {:induction false} PieceCount(blob: Bytes, p: nat)
    requires p > 0
    ensures |Pieces(blob, p)| == (|blob| + p - 1) / p
    ensures (|Pieces(blob, p)| - 1) * p < |blob| <= |Pieces(blob, p)| * p || (blob == [] && Pieces(blob, p) == [])
  {
    if |blob| > p {
      PieceCount(blob[p..], p);
      OneMorePiece(|blob| - p, p, |Pieces(blob[p..], p)|);
    } else if blob != [] {
      OneMorePiece(0, p, 0);
      RoundedUp(|blob|, p, 1);
    } else {
      RoundedUp(0, p, 0);
    }
  }

  lemma OneMorePiece(n: nat, p: nat, k: nat)
    requires p > 0
    ensures (n + p + p - 1) / p == (n + p - 1) / p + 1
    ensures (k + 1) * p == k * p + p
  {
    RoundedUp(n + p, p, (n + p - 1) / p + 1);
  }

  lemma RoundedUp(n: nat, p: nat, k: nat)
    requires p > 0 && (k - 1) * p < n <= k * p
    ensures (n + p - 1) / p == k
  {
    var m := n + p - 1;
    assert (k - 1) * p == k * p - p && k * p == p * k;
    QuotientIs(m, p, k);
  }

  // Piece i is the slice of the blob that starts at i piece lengths.
  lemma {:induction false} PieceIsSlice(blob: Bytes, p: nat, i: nat)
    requires p > 0 && i < |Pieces(blob, p)|
    ensures 0 <= i * p < |blob|
    ensures i < |Pieces(blob, p)| - 1 ==> i * p + p < |blob| && Pieces(blob, p)[i] == blob[i * p..i * p + p]
    ensures i == |Pieces(blob, p)| - 1 ==> |blob| <= i * p + p && Pieces(blob, p)[i] == blob[i * p..]
  {
    if i > 0 {
      PieceIsSlice(blob[p..], p, i - 1);
      assert i * p == (i - 1) * p + p;
      assert blob[p..][(i - 1) * p..] == blob[i * p..];
      assert i * p + p <= |blob| ==> blob[p..][(i - 1) * p..i * p] == blob[i * p..i * p + p];
    } else {
      assert blob[0 * p..] == blob;
      assert |blob| > p ==> |Pieces(blob[p..], p)| > 0;
    }
  }

  ghost function Sums(sum: Checksum, pieces: seq<Bytes>): seq<int> {
    seq(|pieces|, i requires 0 <= i < |pieces| => sum(pieces[i]))
  }

  ghost predicate Describes(sum: Checksum, mi: Info, blob: Bytes, p: nat)
    requires p > 0
  {
    mi.pieceLength == p && mi.length == |blob| && mi.pieceSums == Sums(sum, Pieces(blob, p))
  }

  // GetPieceLength gives every piece's true length: between 1 and the piece length, and with the
  // recorded sum that of exactly that slice.
  lemma PieceLengthsAreTrue(sum: Checksum, mi: Info, blob: Bytes, p: nat, i: nat)
    requires p > 0 && Describes(sum, mi, blob, p) && i < NumPieces(mi)
    ensures 1 <= GetPieceLength(mi, i) <= p && 0 <= i * p && i * p + GetPieceLength(mi, i) <= |blob|
    ensures GetPieceLength(mi, i) == |Pieces(blob, p)[i]|
    ensures mi.pieceSums[i] == sum(blob[i * p..i * p + GetPieceLength(mi, i)])
  {
    PieceIsSlice(blob, p, i);
    var len := GetPieceLength(mi, i);
    assert mi.pieceLength * i == i * p;
    assert blob[i * p..i * p + len] == Pieces(blob, p)[i];
  }

  // The lengths beyond the last piece, and before the first, are zero, and only those.
  lemma NoLengthOutside(sum: Checksum, mi: Info, blob: Bytes, p: nat, i: int)
    requires p > 0 && Describes(sum, mi, blob, p)
    ensures GetPieceLength(mi, i) == 0 <==> i < 0 || i >= (|blob| + p - 1) / p
  {
    PieceCount(blob, p);
    if 0 <= i < NumPieces(mi) { PieceLengthsAreTrue(sum, mi, blob, p, i); }
  }

  function TotalLength(mi: Info, n: nat): int {
    if n == 0 then 0 else TotalLength(mi, n - 1) + GetPieceLength(mi, n - 1)
  }

  lemma {:induction false} FullPieces(mi: Info, n: nat)
    requires n < NumPieces(mi)
    ensures TotalLength(mi, n) == n * mi.pieceLength
  {
    if n > 0 {
      FullPieces(mi, n - 1);
      assert n * mi.pieceLength == (n - 1) * mi.pieceLength + mi.pieceLength;
    }
  }

  // The lengths add up to the blob's, also for the empty blob and for exact multiples.
  lemma LengthsAddUp(sum: Checksum, mi: Info, blob: Bytes, p: nat)
    requires p > 0 && Describes(sum, mi, blob, p)
    ensures TotalLength(mi, NumPieces(mi)) == |blob|
  {
    if NumPieces(mi) > 0 { FullPieces(mi, NumPieces(mi) - 1); }
  }

  // ---- calcPieceSums ---------------------------------------------------------------------

  // A reader: the blob, and after how many bytes it breaks down, if it does.
  datatype Reader = Reader(blob: Bytes, broken: Option<nat>)

  datatype Result = Ok(info: Info) | BadPieceLength | ReadError

  // io.CopyN of n bytes from position at: what was copied, or that the reader broke down first.
  function CopyN(r: Reader, at: nat, n: nat): Option<Bytes>
    requires at <= |r.blob|
  {
    if r.broken.Some? && at + n > r.broken.value then None
    else Some(if at + n <= |r.blob| then r.blob[at..at + n] else r.blob[at..])
  }

  lemma FirstPiece(rest: Bytes, p: nat, n: nat)
    requires p > 0 && rest != [] && n == (if |rest| < p then |rest| else p)
    ensures Pieces(rest, p) == [rest[..n]] + Pieces(rest[n..], p)
  {
    if |rest| <= p {
      assert rest[..n] == rest && rest[n..] == [];
    }
  }

  lemma SumsOf(sum: Checksum, done: seq<int>, piece: Bytes, rest: seq<Bytes>)
    ensures done + Sums(sum, [piece] + rest) == done + [sum(piece)] + Sums(sum, rest)
  {
  }

  method CalcPieceSums(sum: Checksum, r: Reader, pieceLength: int) returns (res: Result)
    requires r.broken.Some? ==> r.broken.value <= |r.blob|
    ensures res.BadPieceLength? <==> pieceLength <= 0
    ensures res.ReadError? <==> pieceLength > 0 && r.broken.Some?
    ensures res.Ok? ==> Describes(sum, res.info, r.blob, pieceLength)
  {
    if pieceLength <= 0 { return BadPieceLength; }
    var length: nat, sums := 0, [];
    while true
      invariant 0 <= length <= |r.blob| && (r.broken.Some? ==> length <= r.broken.value)
      invariant Sums(sum, Pieces(r.blob, pieceLength)) == sums + Sums(sum, Pieces(r.blob[length..], pieceLength))
      decreases |r.blob| - length
    {
      var rest := r.blob[length..];
      var piece := CopyN(r, length, pieceLength);
      if piece.None? { return ReadError; }
      var n := |piece.value|;
      length := length + n;
      if n == 0 { break; }
      FirstPiece(rest, pieceLength, n);
      assert piece.value == rest[..n] && r.blob[length..] == rest[n..];
      SumsOf(sum, sums, piece.value, Pieces(r.blob[length..], pieceLength));
      sums := sums + [sum(piece.value)];
      if n < pieceLength { break; }
    }
    res := Ok(Info(pieceLength, length, sums));
  }
}
