/** The bytes of a v2 object: where each sealed chunk of a plaintext lies, and how many chunks there are. */
module StreamFormat {
  import opened Arithmetic
  import opened ByteStrings
  import opened ObjectCrypt

  /** The plaintext cut into pieces of `chunkPt` bytes; only the last may be shorter, and none is empty. */
  function Pieces(pt: Bytes, chunkPt: nat): seq<Bytes>
    requires chunkPt > 0
    decreases |pt|
  {
    if pt == [] then []
    else if |pt| <= chunkPt then [pt]
    else [pt[..chunkPt]] + Pieces(pt[chunkPt..], chunkPt)
  }

  function SealPieces(cipher: Cipher, key: Key, base: Bytes, pieces: seq<Bytes>): (r: seq<Bytes>)
    ensures |r| == |pieces|
  {
    seq(|pieces|, i requires 0 <= i < |pieces| => SealChunk(cipher, key, base, i, pieces[i]))
  }

  /** The v2 object holding `pt`. */
  function StreamObject(cipher: Cipher, key: Key, base: Bytes, chunkPt: nat, pt: Bytes): Bytes
    requires chunkPt > 0
  {
    StreamHeader(chunkPt, base) + Flatten(SealPieces(cipher, key, base, Pieces(pt, chunkPt)))
  }

  lemma {:induction false} PiecesJoin(pt: Bytes, chunkPt: nat)
    requires chunkPt > 0
    ensures Flatten(Pieces(pt, chunkPt)) == pt
  {
    if |pt| > chunkPt {
      PiecesJoin(pt[chunkPt..], chunkPt);
      assert pt == pt[..chunkPt] + pt[chunkPt..];
    } else if pt != [] {
      assert Flatten([pt]) == pt + Flatten([]);
    }
  }

  /** The first piece is a full chunk, or all that is left. */
  lemma PiecesStep(pt: Bytes, chunkPt: nat, n: nat)
    requires 0 < n <= |pt| && n <= chunkPt
    requires n == chunkPt || n == |pt|
    ensures Pieces(pt, chunkPt) == [pt[..n]] + Pieces(pt[n..], chunkPt)
  {
    if |pt| <= chunkPt {
      assert pt[..n] == pt && pt[n..] == [];
    }
  }

  lemma CountStep(n: nat, chunkPt: nat)
    requires chunkPt > 0 && n > 0
    ensures StreamChunkCount(n, chunkPt)
         == if n <= chunkPt then 1 else StreamChunkCount(n - chunkPt, chunkPt) + 1
  {
    var x := n - 1;
    var q, r := Quotient(x, chunkPt), Remainder(x, chunkPt);
    Distribute(q, 1, chunkPt);
    DivUnique(x + chunkPt, chunkPt, q + 1, r);
    if n <= chunkPt {
      DivUnique(x, chunkPt, 0, x);
    }
  }

  /** The writer cuts exactly as many pieces as the reader will ask for. */
  lemma {:induction false} PieceCount(pt: Bytes, chunkPt: nat)
    requires chunkPt > 0
    ensures |Pieces(pt, chunkPt)| == StreamChunkCount(|pt|, chunkPt)
  {
    if pt == [] {
      DivUnique(chunkPt - 1, chunkPt, 0, chunkPt - 1);
    } else {
      CountStep(|pt|, chunkPt);
      if |pt| > chunkPt {
        PieceCount(pt[chunkPt..], chunkPt);
      }
    }
  }

  /** Piece `i` is the plaintext from `i * chunkPt` to the next boundary or the end. */
  lemma {:induction false} PieceAt(pt: Bytes, chunkPt: nat, i: nat)
    requires chunkPt > 0 && i < |Pieces(pt, chunkPt)|
    ensures 0 <= i * chunkPt < |pt|
    ensures Pieces(pt, chunkPt)[i] == pt[i * chunkPt..Min(i * chunkPt + chunkPt, |pt|)]
    ensures i + 1 < |Pieces(pt, chunkPt)| <==> (i + 1) * chunkPt < |pt|
    decreases i
  {
    if |pt| > chunkPt {
      var rest := pt[chunkPt..];
      if i > 0 {
        PieceAt(rest, chunkPt, i - 1);
        assert i * chunkPt == (i - 1) * chunkPt + chunkPt;
        assert (i + 1) * chunkPt == i * chunkPt + chunkPt;
        var lo, hi := (i - 1) * chunkPt, Min(i * chunkPt, |rest|);
        assert rest[lo..hi] == pt[chunkPt + lo..chunkPt + hi];
      } else {
        assert Pieces(rest, chunkPt) != [];
      }
    } else {
      assert |Pieces(pt, chunkPt)| == 1 && i == 0;
    }
  }

  /** Every piece but the last is full, none is empty, and each is what its offset leaves of a full piece. */
  lemma PieceLength(pt: Bytes, chunkPt: nat, i: nat)
    requires chunkPt > 0 && i < |Pieces(pt, chunkPt)|
    ensures 0 < |Pieces(pt, chunkPt)[i]| <= chunkPt
    ensures i + 1 < |Pieces(pt, chunkPt)| ==> |Pieces(pt, chunkPt)[i]| == chunkPt
    ensures |Pieces(pt, chunkPt)[i]| == Min(|pt| - Min(i * chunkPt, |pt|), chunkPt)
  {
    PieceAt(pt, chunkPt, i);
    Distribute(i, 1, chunkPt);
  }

  lemma {:induction false} PrefixLength(pt: Bytes, chunkPt: nat, i: nat)
    requires chunkPt > 0 && i <= |Pieces(pt, chunkPt)|
    ensures |Flatten(Pieces(pt, chunkPt)[..i])| == Min(i * chunkPt, |pt|)
    decreases i
  {
    if i > 0 {
      var pieces := Pieces(pt, chunkPt);
      assert pieces[..i] == pieces[..i - 1] + [pieces[i - 1]];
      FlattenAppend(pieces[..i - 1], [pieces[i - 1]]);
      assert Flatten([pieces[i - 1]]) == pieces[i - 1] + Flatten([]);
      PrefixLength(pt, chunkPt, i - 1);
      PieceLength(pt, chunkPt, i - 1);
      PieceAt(pt, chunkPt, i - 1);
      Distribute(i - 1, 1, chunkPt);
    }
  }

  /** Any position of the plaintext lies in the piece its quotient names. */
  lemma PieceOfPosition(pt: Bytes, chunkPt: nat, pos: nat)
    requires chunkPt > 0 && pos < |pt|
    ensures Quotient(pos, chunkPt) < |Pieces(pt, chunkPt)|
  {
    var q, last := Quotient(pos, chunkPt), |Pieces(pt, chunkPt)| - 1;
    PieceAt(pt, chunkPt, last);
    if q > last {
      MulMonotone(last + 1, q, chunkPt);
    }
  }

  /** Where chunk `i` of a v2 object starts. */
  function ChunkOffset(chunkPt: nat, i: nat): nat {
    STREAM_HEADER_LEN + i * (chunkPt + TAG_LEN)
  }

  /** The random-access law of the format: sealed chunk `i` is found by arithmetic alone. */
  lemma ChunkAt(cipher: Cipher, key: Key, base: Bytes, chunkPt: nat, pt: Bytes, i: nat)
    requires cipher.Correct() && chunkPt > 0 && |base| == BASE_LEN
    requires i < |Pieces(pt, chunkPt)|
    ensures var piece, at := Pieces(pt, chunkPt)[i], ChunkOffset(chunkPt, i);
      var raw := StreamObject(cipher, key, base, chunkPt, pt);
      && at + |piece| + TAG_LEN <= |raw|
      && raw[at..at + |piece| + TAG_LEN] == SealChunk(cipher, key, base, i, piece)
      && (i + 1 == |Pieces(pt, chunkPt)| ==> |raw| == at + |piece| + TAG_LEN)
  {
    var pieces := Pieces(pt, chunkPt);
    var parts := SealPieces(cipher, key, base, pieces);
    forall j | 0 <= j < i
      ensures |parts[j]| == chunkPt + TAG_LEN
    {
      PieceAt(pt, chunkPt, j);
      assert (j + 1) * chunkPt == j * chunkPt + chunkPt;
    }
    FlattenAt(parts, chunkPt + TAG_LEN, i);
    var header, body := StreamHeader(chunkPt, base), Flatten(parts);
    var lo := i * (chunkPt + TAG_LEN);
    assert (header + body)[STREAM_HEADER_LEN..] == body;
    assert (header + body)[STREAM_HEADER_LEN + lo..STREAM_HEADER_LEN + lo + |parts[i]|] == body[lo..lo + |parts[i]|];
  }

  /** The stored length is the plaintext, the header, and one tag for each chunk. */
  lemma StoredLength(cipher: Cipher, key: Key, base: Bytes, chunkPt: nat, pt: Bytes)
    requires cipher.Correct() && chunkPt > 0 && |base| == BASE_LEN
    ensures |StreamObject(cipher, key, base, chunkPt, pt)|
         == STREAM_HEADER_LEN + |pt| + TAG_LEN * StreamChunkCount(|pt|, chunkPt)
  {
    PieceCount(pt, chunkPt);
    var last := |Pieces(pt, chunkPt)| - 1;
    if last >= 0 {
      PieceAt(pt, chunkPt, last);
      ChunkAt(cipher, key, base, chunkPt, pt, last);
      Distribute(chunkPt, TAG_LEN, last);
      Distribute(last, 1, chunkPt);
    }
  }
}
