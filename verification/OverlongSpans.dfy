/** What a span read gives when the span runs past the end of the plaintext. */
module OverlongSpans {
  import opened Arithmetic
  import opened ByteStrings
  import opened ObjectCrypt
  import opened StoredObjects
  import opened StreamFormat
  import opened StreamLaws
  import opened StreamReads
  import opened Wrappers

  /** Each chunk opens to its piece, and behind the last there is only this error. */
  ghost predicate RunsOut(fetch: nat -> Result<Bytes, StorageError>, pieces: seq<Bytes>, e: StorageError) {
    && (forall i: nat | i < |pieces| :: fetch(i) == Success(pieces[i]))
    && (forall i: nat | i >= |pieces| :: fetch(i) == Failure(e))
  }

  /** What is left of `all` behind its first `trim` bytes. */
  function Left(all: Bytes, trim: nat): Bytes {
    all[Min(trim, |all|)..]
  }

  lemma LeftBeyond(piece: Bytes, rest: Bytes, trim: nat)
    requires trim >= |piece|
    ensures Left(piece + rest, trim) == Left(rest, trim - |piece|)
  {
  }

  lemma LeftWithin(piece: Bytes, rest: Bytes, trim: nat)
    requires trim <= |piece|
    ensures Left(piece + rest, trim) == piece[trim..] + Left(rest, 0)
  {
  }

  lemma LeftOfJoined(all: Bytes, before: Bytes, behind: Bytes, at: nat, trim: nat)
    requires all == before + behind && |before| == Min(at, |all|)
    ensures Left(behind, trim) == Left(all, at + trim) && |behind| == |all| - Min(at, |all|)
  {
  }

  /** Ends with this error. */
  predicate EndsWith(items: seq<Item>, e: StorageError) {
    items != [] && items[|items| - 1] == Broken(e)
  }

  lemma EndsWithCons(data: Bytes, tail: seq<Item>, e: StorageError)
    requires EndsWith(tail, e)
    ensures EndsWith([Chunk(data)] + tail, e)
  {
  }

  /** The walk gives out all there is, and then ends, with an error just when it was to go on. */
  ghost predicate Ends(items: seq<Item>, all: Bytes, goesOn: bool, e: StorageError) {
    Text(items) == all && (Complete(items) <==> !goesOn) && (goesOn ==> EndsWith(items, e))
  }

  lemma EndsHere(e: StorageError)
    ensures Ends([], [], false, e) && Ends([Broken(e)], [], true, e)
  {
    assert [Broken(e)][0].Broken?;
  }

  /** A chunk that is passed over. */
  lemma PassesOver(fetch: nat -> Result<Bytes, StorageError>, piece: Bytes, rest: Bytes, e: StorageError, goesOn: bool,
                   index: nat, last: nat, trim: nat, remaining: nat)
    requires index <= last && fetch(index) == Success(piece) && trim > 0 && trim >= |piece|
    requires Ends(SpanWalk(fetch, index + 1, last, trim - |piece|, remaining), Left(rest, trim - |piece|), goesOn, e)
    ensures Ends(SpanWalk(fetch, index, last, trim, remaining), Left(piece + rest, trim), goesOn, e)
  {
    LeftBeyond(piece, rest, trim);
  }

  lemma EndsCons(data: Bytes, tail: seq<Item>, all: Bytes, goesOn: bool, e: StorageError)
    requires Ends(tail, all, goesOn, e)
    ensures Ends([Chunk(data)] + tail, data + all, goesOn, e)
  {
    TextCons(data, tail);
    if goesOn {
      EndsWithCons(data, tail, e);
    }
  }

  /** A chunk that is given out, and does not suffice. */
  lemma GivesOut(fetch: nat -> Result<Bytes, StorageError>, piece: Bytes, rest: Bytes, e: StorageError, goesOn: bool,
                 index: nat, last: nat, trim: nat, remaining: nat)
    requires index <= last && fetch(index) == Success(piece) && (trim == 0 || trim < |piece|)
    requires trim + remaining > |piece|
    requires Ends(SpanWalk(fetch, index + 1, last, 0, remaining - (|piece| - trim)), Left(rest, 0), goesOn, e)
    ensures Ends(SpanWalk(fetch, index, last, trim, remaining), Left(piece + rest, trim), goesOn, e)
  {
    LeftWithin(piece, rest, trim);
    assert Trimmed(piece, trim, remaining) == piece[trim..];
    var tail := SpanWalk(fetch, index + 1, last, 0, remaining - (|piece| - trim));
    EndsCons(piece[trim..], tail, Left(rest, 0), goesOn, e);
  }

  lemma {:induction false} SpanRunsOut(fetch: nat -> Result<Bytes, StorageError>, pieces: seq<Bytes>, e: StorageError,
                                       index: nat, last: nat, trim: nat, remaining: nat)
    requires RunsOut(fetch, pieces, e) && index <= |pieces| <= last + 1
    requires trim + remaining > |Flatten(pieces[index..])| && remaining > 0
    ensures Ends(SpanWalk(fetch, index, last, trim, remaining), Left(Flatten(pieces[index..]), trim),
                 last >= |pieces|, e)
    decreases |pieces| - index
  {
    if index == |pieces| {
      EndsHere(e);
      assert pieces[index..] == [];
    } else {
      var piece, rest := pieces[index], Flatten(pieces[index + 1..]);
      assert pieces[index..][1..] == pieces[index + 1..];
      assert Flatten(pieces[index..]) == piece + rest;
      if trim > 0 && trim >= |piece| {
        SpanRunsOut(fetch, pieces, e, index + 1, last, trim - |piece|, remaining);
        PassesOver(fetch, piece, rest, e, last >= |pieces|, index, last, trim, remaining);
      } else {
        SpanRunsOut(fetch, pieces, e, index + 1, last, 0, remaining - (|piece| - trim));
        GivesOut(fetch, piece, rest, e, last >= |pieces|, index, last, trim, remaining);
      }
    }
  }

  /** What a reader finds where a chunk behind the last would start. */
  function NothingThere(kind: BackendKind): StorageError {
    Backend(if kind == S3 then "range not satisfiable" else "truncated stream object")
  }

  lemma IntactRunsOut(cipher: Cipher, key: Key, base: Bytes, chunkPt: nat, pt: Bytes, link: Link, kind: BackendKind)
    requires cipher.Correct() && chunkPt > 0 && |base| == BASE_LEN && |pt| < U64 && Answers(link)
    ensures RunsOut(SpanFetcher(cipher, key, base, chunkPt, StreamObject(cipher, key, base, chunkPt, pt), link, kind),
                    Pieces(pt, chunkPt), NothingThere(kind))
  {
    var raw, pieces := StreamObject(cipher, key, base, chunkPt, pt), Pieces(pt, chunkPt);
    var fetch := SpanFetcher(cipher, key, base, chunkPt, raw, link, kind);
    PieceCount(pt, chunkPt);
    StoredLength(cipher, key, base, chunkPt, pt);
    IntactIsGenuine(cipher, key, base, chunkPt, pt);
    forall i: nat | i < |pieces|
      ensures fetch(i) == Success(pieces[i])
    {
      SpanChunkSafe(cipher, key, base, chunkPt, raw, pt, link, kind, i);
      SpanChunkIntact(cipher, key, base, chunkPt, pt, link, kind, i);
    }
    forall i: nat | i >= |pieces|
      ensures fetch(i) == Failure(NothingThere(kind))
    {
      PastTheEnd(chunkPt, |pt|, i);
    }
  }

  /** Where a span ends that is too long: in the last chunk, or behind it. */
  lemma LastIndex(pt: Bytes, chunkPt: nat, off: nat, len: nat)
    requires chunkPt > 0 && len > 0 && off + len > |pt|
    ensures var n, last := |Pieces(pt, chunkPt)|, Quotient(off + (len - 1), chunkPt);
      last + 1 >= n && (last >= n <==> off + len > n * chunkPt)
  {
    var n, last := |Pieces(pt, chunkPt)|, Quotient(off + (len - 1), chunkPt);
    if last >= n {
      MulMonotone(n, last, chunkPt);
    } else {
      MulGap(last, n, chunkPt);
    }
    if n > 0 {
      PieceAt(pt, chunkPt, n - 1);
      MulGap(last + 1, n, chunkPt);
      Distribute(last, 1, chunkPt);
    }
  }

  /** The pieces from where a span begins, and how far into them it does. */
  lemma FirstIndex(pt: Bytes, chunkPt: nat, first: nat, at: nat, trim: nat)
    requires chunkPt > 0 && first <= |Pieces(pt, chunkPt)| && at == first * chunkPt
    ensures var behind := Flatten(Pieces(pt, chunkPt)[first..]);
      Left(behind, trim) == Left(pt, at + trim) && |behind| == |pt| - Min(at, |pt|)
  {
    var pieces := Pieces(pt, chunkPt);
    PrefixLength(pt, chunkPt, first);
    PiecesJoin(pt, chunkPt);
    assert pieces == pieces[..first] + pieces[first..];
    FlattenAppend(pieces[..first], pieces[first..]);
    LeftOfJoined(pt, Flatten(pieces[..first]), Flatten(pieces[first..]), at, trim);
  }

  /** A span that begins behind the last chunk finds nothing at all. */
  lemma SpanBehind(fetch: nat -> Result<Bytes, StorageError>, pt: Bytes, chunkPt: nat, e: StorageError, off: nat,
                   len: nat)
    requires chunkPt > 0 && len > 0 && RunsOut(fetch, Pieces(pt, chunkPt), e)
    requires Quotient(off, chunkPt) > |Pieces(pt, chunkPt)|
    ensures var items := SpanWalk(fetch, Quotient(off, chunkPt), Quotient(off + (len - 1), chunkPt),
                                  Remainder(off, chunkPt), len);
      items == [Broken(e)] && off >= |pt| && off + len > |Pieces(pt, chunkPt)| * chunkPt
  {
    var first, last, n := Quotient(off, chunkPt), Quotient(off + (len - 1), chunkPt), |Pieces(pt, chunkPt)|;
    MulGap(last, first, chunkPt);
    MulMonotone(n, first, chunkPt);
    PrefixLength(pt, chunkPt, n);
    PiecesJoin(pt, chunkPt);
    assert Pieces(pt, chunkPt)[..n] == Pieces(pt, chunkPt);
  }

  lemma ChunkedRunsOut(fetch: nat -> Result<Bytes, StorageError>, pt: Bytes, chunkPt: nat, e: StorageError, off: nat,
                       len: nat)
    requires chunkPt > 0 && len > 0 && off + len > |pt| && RunsOut(fetch, Pieces(pt, chunkPt), e)
    ensures Ends(SpanWalk(fetch, Quotient(off, chunkPt), Quotient(off + (len - 1), chunkPt), Remainder(off, chunkPt),
                          len),
                 Left(pt, off), off + len > |Pieces(pt, chunkPt)| * chunkPt, e)
  {
    EndsHere(e);
    if Quotient(off, chunkPt) > |Pieces(pt, chunkPt)| {
      SpanBehind(fetch, pt, chunkPt, e, off, len);
    } else {
      LastIndex(pt, chunkPt, off, len);
      FirstIndex(pt, chunkPt, Quotient(off, chunkPt), off - Remainder(off, chunkPt), Remainder(off, chunkPt));
      SpanRunsOut(fetch, Pieces(pt, chunkPt), e, Quotient(off, chunkPt), Quotient(off + (len - 1), chunkPt),
                  Remainder(off, chunkPt), len);
    }
  }

  /**
   * A span of a v2 object that runs past its end. It is refused when its last position does not fit 64 bits. Else all
   * there is of it comes out, and it ends without an error exactly when it ends within the full size of the last chunk:
   * then the client has fewer bytes than it asked for, and is not told. Behind that the backend's error ends it.
   */
  lemma ChunkedPastTheEnd(cipher: Cipher, key: Key, base: Bytes, chunkPt: nat, pt: Bytes, link: Link, kind: BackendKind,
                          off: nat, len: nat)
    requires cipher.Correct() && |base| == BASE_LEN && 0 < chunkPt <= MAX_CHUNK_PT && |pt| < U64
    requires Answers(link) && len > 0 && off + len > |pt|
    ensures var raw := StreamObject(cipher, key, base, chunkPt, pt);
      var r := RangeStreamOf(cipher, Some(key), raw, link, kind, off, len);
      && (r.Failure? <==> off + (len - 1) >= 0x1_0000_0000_0000_0000)
      && (r.Success? ==>
            Ends(r.value, Left(pt, off), off + len > StreamChunkCount(|pt|, chunkPt) * chunkPt, NothingThere(kind)))
  {
    var raw := StreamObject(cipher, key, base, chunkPt, pt);
    ChunkedBegins(cipher, key, base, chunkPt, pt);
    HeaderReads(base, chunkPt, raw, link);
    ProbeReads(raw, link);
    PieceCount(pt, chunkPt);
    IntactRunsOut(cipher, key, base, chunkPt, pt, link, kind);
    ChunkedRunsOut(SpanFetcher(cipher, key, base, chunkPt, raw, link, kind), pt, chunkPt, NothingThere(kind), off, len);
  }

  /** A span of an unsealed object that runs past its end comes with an error: none of it, or what there is of it. */
  lemma RawPastTheEnd(raw: Bytes, link: Link, off: nat, len: nat)
    requires Healthy(link, raw) && len > 0 && off + len > |raw|
    ensures var r := RawSpanOf(raw, link, off, len);
      && (r.Failure? <==> len <= 0x200_0000)
      && (r.Success? ==> Text(r.value) == Left(raw, off) && !Complete(r.value))
  {
    SkipTakeSlices(link.stream(raw), off, len);
  }

  /**
   * In all three formats, over a healthy backend, a span past the end never gives out anything but what is left of the
   * plaintext from its beginning on. Only of a v2 object can it end without an error.
   */
  lemma SpansPastTheEnd(cipher: Cipher, format: Format, key: Option<Key>, pt: Bytes, link: Link, kind: BackendKind,
                        off: nat, len: nat)
    requires cipher.Correct() && Storable(format, key, pt) && |pt| < U64
    requires Healthy(link, Stored(cipher, format, key, pt)) && len > 0 && off + len > |pt|
    ensures var r := RangeStreamOf(cipher, key, Stored(cipher, format, key, pt), link, kind, off, len);
      && (r.Success? ==> Text(r.value) == Left(pt, off))
      && (r.Success? && Complete(r.value) <==>
            && format.Chunked? && off + (len - 1) < 0x1_0000_0000_0000_0000
            && off + len <= StreamChunkCount(|pt|, format.chunkPt) * format.chunkPt)
  {
    var raw := Stored(cipher, format, key, pt);
    ProbeReads(raw, link);
    StoredShape(cipher, format, key, pt);
    match format
    case Plain => RawPastTheEnd(raw, link, off, len);
    case Whole(nonce) => OpenInvertsSeal(cipher, key.value, nonce, pt, []);
    case Chunked(base, chunkPt) => ChunkedPastTheEnd(cipher, key.value, base, chunkPt, pt, link, kind, off, len);
  }
}
