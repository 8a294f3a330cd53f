/** The laws of the read paths over v2 objects, intact or damaged. */
module StreamLaws {
  import opened Arithmetic
  import opened ByteStrings
  import opened ObjectCrypt
  import opened StreamFormat
  import opened StreamReads
  import opened Wrappers

  ghost predicate Answers(link: Link) {
    forall off, len :: link.ranged(off, len)
  }

  lemma PiecesFewer(pt: Bytes, chunkPt: nat)
    requires chunkPt > 0
    ensures |Pieces(pt, chunkPt)| <= |pt|
  {
    var last := |Pieces(pt, chunkPt)| - 1;
    if last >= 0 {
      PieceAt(pt, chunkPt, last);
      assert last * chunkPt >= last * 1;
    }
  }

  // ---- Which objects are genuine ----

  lemma OffsetStep(chunkPt: nat, index: nat)
    ensures ChunkOffset(chunkPt, index + 1) == ChunkOffset(chunkPt, index) + chunkPt + TAG_LEN
  {
    Distribute(index, 1, chunkPt + TAG_LEN);
  }

  /** Either length a reader asks for at chunk `index` of an intact object is that of the sealed piece. */
  lemma IntactLengths(cipher: Cipher, key: Key, base: Bytes, chunkPt: nat, pt: Bytes, index: nat, len: nat)
    requires cipher.Correct() && chunkPt > 0 && |base| == BASE_LEN
    requires index < |Pieces(pt, chunkPt)|
    requires ReaderAsks(StreamObject(cipher, key, base, chunkPt, pt), chunkPt, |pt|, index, len)
    ensures len == |Pieces(pt, chunkPt)[index]| + TAG_LEN
  {
    PieceLength(pt, chunkPt, index);
    ChunkAt(cipher, key, base, chunkPt, pt, index);
    if index + 1 < |Pieces(pt, chunkPt)| {
      ChunkAt(cipher, key, base, chunkPt, pt, index + 1);
      OffsetStep(chunkPt, index);
    }
  }

  lemma PastTheEnd(chunkPt: nat, ptLen: nat, index: nat)
    requires chunkPt > 0 && index >= StreamChunkCount(ptLen, chunkPt)
    ensures ChunkOffset(chunkPt, index) >= STREAM_HEADER_LEN + ptLen + TAG_LEN * StreamChunkCount(ptLen, chunkPt)
  {
    var n := StreamChunkCount(ptLen, chunkPt);
    MulMonotone(n, index, chunkPt + TAG_LEN);
    Distribute(chunkPt, TAG_LEN, n);
  }

  /** Past the last chunk of an intact object a reader finds nothing long enough to open. */
  lemma NothingPastTheEnd(cipher: Cipher, key: Key, base: Bytes, chunkPt: nat, pt: Bytes, index: nat, len: nat)
    requires cipher.Correct() && chunkPt > 0 && |base| == BASE_LEN
    requires index >= |Pieces(pt, chunkPt)|
    requires ReaderAsks(StreamObject(cipher, key, base, chunkPt, pt), chunkPt, |pt|, index, len)
    ensures len < TAG_LEN
  {
    StoredLength(cipher, key, base, chunkPt, pt);
    PieceCount(pt, chunkPt);
    PastTheEnd(chunkPt, |pt|, index);
  }

  /** An object as `put_file` wrote it is genuine. */
  lemma IntactIsGenuine(cipher: Cipher, key: Key, base: Bytes, chunkPt: nat, pt: Bytes)
    requires cipher.Correct() && chunkPt > 0 && |base| == BASE_LEN
    ensures Genuine(cipher, key, base, chunkPt, StreamObject(cipher, key, base, chunkPt, pt), pt)
  {
    var raw, pieces := StreamObject(cipher, key, base, chunkPt, pt), Pieces(pt, chunkPt);
    forall index: nat, len: nat | index < U64 && ReaderAsks(raw, chunkPt, |pt|, index, len)
      ensures var plain := OpenChunk(cipher, key, base, index, Window(raw, chunkPt, index, len));
        plain.Some? ==> index < |pieces| && plain.value == pieces[index]
    {
      if index < |pieces| {
        IntactLengths(cipher, key, base, chunkPt, pt, index, len);
        ChunkAt(cipher, key, base, chunkPt, pt, index);
      } else {
        NothingPastTheEnd(cipher, key, base, chunkPt, pt, index, len);
      }
    }
  }

  /** Everything ever encrypted under one key: the nonce and the plaintext of each call. */
  type SealLog = set<(Bytes, Bytes)>

  /** The calls `put_file` makes for one object. */
  ghost function LogOf(base: Bytes, pieces: seq<Bytes>): SealLog {
    set i | 0 <= i < |pieces| :: (StreamNonce(base, i), pieces[i])
  }

  /** Nobody without the key can produce a ciphertext that opens to something never sealed under that nonce. */
  ghost predicate Unforged(cipher: Cipher, key: Key, log: SealLog, raw: Bytes) {
    forall nonce, lo, hi | 0 <= lo <= hi <= |raw| ::
      var plain := cipher.decrypt(key, nonce, raw[lo..hi]);
      plain.Some? ==> (nonce, plain.value) in log
  }

  /** The object's random base was drawn for no other object. */
  ghost predicate FreshBase(base: Bytes, others: SealLog) {
    forall i: nat, p | i < U64 :: (StreamNonce(base, i), p) !in others
  }

  /**
   * Arbitrary bytes behind an intact header are genuine as long as the cipher is unforged and the base
   * fresh: distinct chunk nonces leave each index one plaintext it can open to.
   */
  lemma UnforgedIsGenuine(cipher: Cipher, key: Key, base: Bytes, chunkPt: nat, raw: Bytes, pt: Bytes, others: SealLog)
    requires chunkPt > 0 && |base| == BASE_LEN && |pt| < U64
    requires FreshBase(base, others)
    requires Unforged(cipher, key, others + LogOf(base, Pieces(pt, chunkPt)), raw)
    ensures Genuine(cipher, key, base, chunkPt, raw, pt)
  {
    var pieces := Pieces(pt, chunkPt);
    PiecesFewer(pt, chunkPt);
    forall index: nat, len: nat | index < U64 && ReaderAsks(raw, chunkPt, |pt|, index, len)
      ensures var plain := OpenChunk(cipher, key, base, index, Window(raw, chunkPt, index, len));
        plain.Some? ==> index < |pieces| && plain.value == pieces[index]
    {
      var plain := OpenChunk(cipher, key, base, index, Window(raw, chunkPt, index, len));
      if plain.Some? {
        assert (StreamNonce(base, index), plain.value) in LogOf(base, pieces);
        var i :| 0 <= i < |pieces| && (StreamNonce(base, i), pieces[i]) == (StreamNonce(base, index), plain.value);
        StreamNonceInjective(base, i, base, index);
      }
    }
  }

  // ---- Delivering a target ----

  /** The stream emits a prefix of `target`, and ends without an error exactly when it emitted all of it. */
  predicate Delivers(items: seq<Item>, target: Bytes) {
    && Text(items) <= target
    && (Complete(items) <==> Text(items) == target)
  }

  lemma ConsDelivers(data: Bytes, tail: seq<Item>, target: Bytes)
    requires Delivers(tail, target)
    ensures Delivers([Chunk(data)] + tail, data + target)
    ensures Complete([Chunk(data)] + tail) <==> Complete(tail)
  {
    TextCons(data, tail);
    assert (data + target)[|data|..] == target;
    if data + Text(tail) == data + target {
      assert (data + Text(tail))[|data|..] == Text(tail);
    }
  }

  lemma BrokenDelivers(error: StorageError, target: Bytes)
    requires target != []
    ensures Delivers([Broken(error)], target) && !Complete([Broken(error)])
  {
    assert [Broken(error)][0].Broken?;
  }

  // ---- get_stream over a v2 object ----

  /** Each chunk the walk fetches opens to its own piece or not at all. */
  ghost predicate WalkSafe(fetch: (nat, nat, nat) -> Result<Bytes, StorageError>, chunkPt: nat, pieces: seq<Bytes>) {
    forall i: nat | i < |pieces| ::
      var got := fetch(ChunkOffset(chunkPt, i), |pieces[i]| + TAG_LEN, i);
      got.Success? ==> got.value == pieces[i]
  }

  ghost predicate WalkOpens(fetch: (nat, nat, nat) -> Result<Bytes, StorageError>, chunkPt: nat, pieces: seq<Bytes>) {
    forall i: nat | i < |pieces| :: fetch(ChunkOffset(chunkPt, i), |pieces[i]| + TAG_LEN, i).Success?
  }

  /** In a genuine object, chunk `i` of the walk opens to its own piece or not at all. */
  lemma WalkChunkSafe(cipher: Cipher, key: Key, base: Bytes, chunkPt: nat, raw: Bytes, pt: Bytes, link: Link, i: nat)
    requires chunkPt > 0 && |pt| < U64
    requires Genuine(cipher, key, base, chunkPt, raw, pt)
    requires i < |Pieces(pt, chunkPt)|
    ensures var piece := Pieces(pt, chunkPt)[i];
      var got := WalkChunk(cipher, key, base, raw, link, ChunkOffset(chunkPt, i), |piece| + TAG_LEN, i);
      got.Success? ==> got.value == piece
  {
    PiecesFewer(pt, chunkPt);
    PieceLength(pt, chunkPt, i);
    var at, len := ChunkOffset(chunkPt, i), |Pieces(pt, chunkPt)[i]| + TAG_LEN;
    if at + len <= |raw| {
      assert ReaderAsks(raw, chunkPt, |pt|, i, len);
      assert Window(raw, chunkPt, i, len) == raw[at..at + len];
    }
  }

  /** In an intact object, with every fetch answered, chunk `i` opens. */
  lemma WalkChunkIntact(cipher: Cipher, key: Key, base: Bytes, chunkPt: nat, pt: Bytes, link: Link, i: nat)
    requires cipher.Correct() && chunkPt > 0 && |base| == BASE_LEN
    requires i < |Pieces(pt, chunkPt)| && Answers(link)
    ensures WalkChunk(cipher, key, base, StreamObject(cipher, key, base, chunkPt, pt), link,
                      ChunkOffset(chunkPt, i), |Pieces(pt, chunkPt)[i]| + TAG_LEN, i).Success?
  {
    ChunkAt(cipher, key, base, chunkPt, pt, i);
  }

  lemma GenuineWalk(cipher: Cipher, key: Key, base: Bytes, chunkPt: nat, raw: Bytes, pt: Bytes, link: Link)
    requires cipher.Correct() && chunkPt > 0 && |base| == BASE_LEN && |pt| < U64
    requires Genuine(cipher, key, base, chunkPt, raw, pt)
    ensures var fetch, pieces := WalkFetcher(cipher, key, base, raw, link), Pieces(pt, chunkPt);
      && WalkSafe(fetch, chunkPt, pieces)
      && (raw == StreamObject(cipher, key, base, chunkPt, pt) && Answers(link) ==> WalkOpens(fetch, chunkPt, pieces))
  {
    forall i: nat | i < |Pieces(pt, chunkPt)| {
      WalkChunkSafe(cipher, key, base, chunkPt, raw, pt, link, i);
    }
    if raw == StreamObject(cipher, key, base, chunkPt, pt) && Answers(link) {
      forall i: nat | i < |Pieces(pt, chunkPt)| {
        WalkChunkIntact(cipher, key, base, chunkPt, pt, link, i);
      }
    }
  }

  /** One chunk of the walk. */
  lemma WalkStep(fetch: (nat, nat, nat) -> Result<Bytes, StorageError>, chunkPt: nat,
                 piece: Bytes, rest: Bytes, index: nat, count: nat, off: nat)
    requires index < count && piece != [] && |piece| == Min(|piece| + |rest|, chunkPt)
    requires var got := fetch(off, |piece| + TAG_LEN, index);
      got.Success? ==>
        && got.value == piece
        && Delivers(ChunkWalk(fetch, chunkPt, off + |piece| + TAG_LEN, |rest|, index + 1, count), rest)
    ensures var items := ChunkWalk(fetch, chunkPt, off, |piece| + |rest|, index, count);
      && Delivers(items, piece + rest)
      && (fetch(off, |piece| + TAG_LEN, index).Success? ==>
            Complete(ChunkWalk(fetch, chunkPt, off + |piece| + TAG_LEN, |rest|, index + 1, count)) ==> Complete(items))
  {
    match fetch(off, |piece| + TAG_LEN, index)
    case Failure(e) => BrokenDelivers(e, piece + rest);
    case Success(_) =>
      ConsDelivers(piece, ChunkWalk(fetch, chunkPt, off + |piece| + TAG_LEN, |rest|, index + 1, count), rest);
  }

  /** All pieces but the last fill their chunk, and none is empty. */
  predicate FullPieces(pieces: seq<Bytes>, chunkPt: nat) {
    && (forall i | 0 <= i < |pieces| :: pieces[i] != [] && |pieces[i]| <= chunkPt)
    && (forall i | 0 <= i < |pieces| - 1 :: |pieces[i]| == chunkPt)
  }

  lemma PiecesLeft(pieces: seq<Bytes>, chunkPt: nat, index: nat)
    requires FullPieces(pieces, chunkPt) && index < |pieces|
    ensures var piece, rest := pieces[index], Flatten(pieces[index + 1..]);
      && Flatten(pieces[index..]) == piece + rest
      && piece != [] && |piece| == Min(|piece| + |rest|, chunkPt)
      && (index + 1 < |pieces| ==> |piece| == chunkPt)
  {
    assert pieces[index..][1..] == pieces[index + 1..];
    assert index + 1 == |pieces| ==> pieces[index + 1..] == [];
  }

  /** Chunks that lie one after the other, each of which opens to its own piece or not at all. */
  ghost predicate Laid(fetch: (nat, nat, nat) -> Result<Bytes, StorageError>, at: nat -> nat, chunkPt: nat,
                       pieces: seq<Bytes>) {
    && (forall i: nat :: at(i + 1) == at(i) + chunkPt + TAG_LEN)
    && (forall i: nat | i < |pieces| ::
          var got := fetch(at(i), |pieces[i]| + TAG_LEN, i); got.Success? ==> got.value == pieces[i])
  }

  ghost predicate LaidOpen(fetch: (nat, nat, nat) -> Result<Bytes, StorageError>, at: nat -> nat, pieces: seq<Bytes>) {
    forall i: nat | i < |pieces| :: fetch(at(i), |pieces[i]| + TAG_LEN, i).Success?
  }

  /** From chunk `index` on, the walk delivers exactly the pieces that are left. */
  lemma {:induction false} WalkDelivers(fetch: (nat, nat, nat) -> Result<Bytes, StorageError>, at: nat -> nat,
                                        chunkPt: nat, pieces: seq<Bytes>, index: nat, off: nat, left: Bytes)
    requires Laid(fetch, at, chunkPt, pieces) && index <= |pieces| && FullPieces(pieces, chunkPt)
    requires left == Flatten(pieces[index..]) && (index < |pieces| ==> off == at(index))
    ensures var items := ChunkWalk(fetch, chunkPt, off, |left|, index, |pieces|);
      Delivers(items, left) && (LaidOpen(fetch, at, pieces) ==> Complete(items))
    decreases |pieces| - index
  {
    if index == |pieces| {
      assert pieces[index..] == [];
    } else {
      PiecesLeft(pieces, chunkPt, index);
      var piece, rest := pieces[index], Flatten(pieces[index + 1..]);
      var next := off + |piece| + TAG_LEN;
      WalkDelivers(fetch, at, chunkPt, pieces, index + 1, next, rest);
      var got := fetch(off, |piece| + TAG_LEN, index);
      assert got.Success? ==> got.value == piece;
      WalkStep(fetch, chunkPt, piece, rest, index, |pieces|, off);
    }
  }

  /** The chunks of a walk lie where the offset arithmetic says. */
  lemma WalkIsLaid(fetch: (nat, nat, nat) -> Result<Bytes, StorageError>, at: nat -> nat, chunkPt: nat,
                   pieces: seq<Bytes>)
    requires WalkSafe(fetch, chunkPt, pieces) && forall i :: at(i) == ChunkOffset(chunkPt, i)
    ensures Laid(fetch, at, chunkPt, pieces) && (WalkOpens(fetch, chunkPt, pieces) ==> LaidOpen(fetch, at, pieces))
  {
    forall i: nat
      ensures at(i + 1) == at(i) + chunkPt + TAG_LEN
    {
      OffsetStep(chunkPt, i);
    }
  }

  /** The whole walk over all the pieces of a plaintext. */
  lemma SafeWalkDelivers(fetch: (nat, nat, nat) -> Result<Bytes, StorageError>, pt: Bytes, chunkPt: nat)
    requires chunkPt > 0 && WalkSafe(fetch, chunkPt, Pieces(pt, chunkPt))
    ensures var items := ChunkWalk(fetch, chunkPt, STREAM_HEADER_LEN, |pt|, 0, StreamChunkCount(|pt|, chunkPt));
      Delivers(items, pt) && (WalkOpens(fetch, chunkPt, Pieces(pt, chunkPt)) ==> Complete(items))
  {
    var pieces := Pieces(pt, chunkPt);
    PieceCount(pt, chunkPt);
    PiecesJoin(pt, chunkPt);
    assert pieces[0..] == pieces;
    forall i: nat | i < |pieces|
      ensures pieces[i] != [] && |pieces[i]| <= chunkPt && (i + 1 < |pieces| ==> |pieces[i]| == chunkPt)
    {
      PieceLength(pt, chunkPt, i);
    }
    var at := (i: nat) => ChunkOffset(chunkPt, i);
    WalkIsLaid(fetch, at, chunkPt, pieces);
    WalkDelivers(fetch, at, chunkPt, pieces, 0, STREAM_HEADER_LEN, pt);
  }

  /**
   * The whole walk of `get_stream`: whatever fetches fail and whatever happened to the chunks, it emits a
   * prefix of the plaintext, and ends without an error exactly when it emitted all of it.
   */
  lemma WholeWalkDelivers(cipher: Cipher, key: Key, base: Bytes, chunkPt: nat, raw: Bytes, pt: Bytes, link: Link)
    requires cipher.Correct() && chunkPt > 0 && |base| == BASE_LEN && |pt| < U64
    requires Genuine(cipher, key, base, chunkPt, raw, pt)
    ensures var items := ChunkWalk(WalkFetcher(cipher, key, base, raw, link), chunkPt,
                                   STREAM_HEADER_LEN, |pt|, 0, StreamChunkCount(|pt|, chunkPt));
      && Delivers(items, pt)
      && (raw == StreamObject(cipher, key, base, chunkPt, pt) && Answers(link) ==> Complete(items))
  {
    GenuineWalk(cipher, key, base, chunkPt, raw, pt, link);
    SafeWalkDelivers(WalkFetcher(cipher, key, base, raw, link), pt, chunkPt);
  }

  // ---- v2_span_stream ----

  /** In an intact object, "up to a full chunk" reads exactly the sealed piece, the short last one included. */
  lemma RelaxedLength(cipher: Cipher, key: Key, base: Bytes, chunkPt: nat, pt: Bytes, index: nat)
    requires cipher.Correct() && chunkPt > 0 && |base| == BASE_LEN
    requires index < |Pieces(pt, chunkPt)|
    ensures var raw, at := StreamObject(cipher, key, base, chunkPt, pt), ChunkOffset(chunkPt, index);
      && at < |raw|
      && raw[at..Min(at + (chunkPt + TAG_LEN), |raw|)]
         == SealChunk(cipher, key, base, index, Pieces(pt, chunkPt)[index])
  {
    PieceLength(pt, chunkPt, index);
    ChunkAt(cipher, key, base, chunkPt, pt, index);
    if index + 1 < |Pieces(pt, chunkPt)| {
      ChunkAt(cipher, key, base, chunkPt, pt, index + 1);
      OffsetStep(chunkPt, index);
    }
  }

  /** Each chunk a span walk fetches opens to its own piece or not at all. */
  ghost predicate SpanSafe(fetch: nat -> Result<Bytes, StorageError>, pieces: seq<Bytes>) {
    forall i: nat | i < |pieces| :: fetch(i).Success? ==> fetch(i).value == pieces[i]
  }

  ghost predicate SpanOpens(fetch: nat -> Result<Bytes, StorageError>, pieces: seq<Bytes>) {
    forall i: nat | i < |pieces| :: fetch(i).Success?
  }

  /** In a genuine object, chunk `i` of a span walk opens to its own piece or not at all. */
  lemma SpanChunkSafe(cipher: Cipher, key: Key, base: Bytes, chunkPt: nat, raw: Bytes, pt: Bytes, link: Link,
                      kind: BackendKind, i: nat)
    requires chunkPt > 0 && |pt| < U64
    requires Genuine(cipher, key, base, chunkPt, raw, pt)
    requires i < |Pieces(pt, chunkPt)|
    ensures var got := SpanChunk(cipher, key, base, chunkPt, raw, link, kind, i);
      got.Success? ==> got.value == Pieces(pt, chunkPt)[i]
  {
    PiecesFewer(pt, chunkPt);
    var at := ChunkOffset(chunkPt, i);
    if at < |raw| {
      var len := Min(chunkPt + TAG_LEN, |raw| - at);
      assert at + len == Min(at + (chunkPt + TAG_LEN), |raw|);
      assert ReaderAsks(raw, chunkPt, |pt|, i, len);
      assert Window(raw, chunkPt, i, len) == raw[at..at + len];
    }
  }

  /** In an intact object, with every fetch answered, chunk `i` opens. */
  lemma SpanChunkIntact(cipher: Cipher, key: Key, base: Bytes, chunkPt: nat, pt: Bytes, link: Link, kind: BackendKind,
                        i: nat)
    requires cipher.Correct() && chunkPt > 0 && |base| == BASE_LEN
    requires i < |Pieces(pt, chunkPt)| && Answers(link)
    ensures SpanChunk(cipher, key, base, chunkPt, StreamObject(cipher, key, base, chunkPt, pt), link, kind, i).Success?
  {
    RelaxedLength(cipher, key, base, chunkPt, pt, i);
  }

  lemma SpanCut(piece: Bytes, rest: Bytes, trim: nat, remaining: nat)
    requires trim <= |piece| && trim + remaining <= |piece| + |rest|
    ensures var data := Trimmed(piece, trim, remaining);
      (piece + rest)[trim..trim + remaining] == data + rest[..remaining - |data|]
  {
  }

  /** What is left of a span walk after chunk `index` contributed `take` bytes. */
  function SpanTail(fetch: nat -> Result<Bytes, StorageError>, index: nat, last: nat, remaining: nat,
                    take: nat): seq<Item>
    requires take <= remaining
  {
    if remaining == take then [] else SpanWalk(fetch, index + 1, last, 0, remaining - take)
  }

  lemma SpanUnfolds(fetch: nat -> Result<Bytes, StorageError>, piece: Bytes, index: nat, last: nat, trim: nat,
                    remaining: nat)
    requires index <= last && (trim == 0 || trim < |piece|) && fetch(index) == Success(piece)
    ensures var data := Trimmed(piece, trim, remaining);
      SpanWalk(fetch, index, last, trim, remaining) == [Chunk(data)] + SpanTail(fetch, index, last, remaining, |data|)
  {
  }

  /** One chunk of a span walk. */
  lemma SpanStep(fetch: nat -> Result<Bytes, StorageError>, piece: Bytes, rest: Bytes,
                 index: nat, last: nat, trim: nat, remaining: nat)
    requires index <= last && (trim == 0 || trim < |piece|)
    requires remaining > 0 && trim + remaining <= |piece| + |rest|
    requires var data := Trimmed(piece, trim, remaining);
      fetch(index).Success? ==>
        && fetch(index).value == piece
        && Delivers(SpanTail(fetch, index, last, remaining, |data|), rest[..remaining - |data|])
    ensures var items, data := SpanWalk(fetch, index, last, trim, remaining), Trimmed(piece, trim, remaining);
      && Delivers(items, (piece + rest)[trim..trim + remaining])
      && (fetch(index).Success? && Complete(SpanTail(fetch, index, last, remaining, |data|)) ==> Complete(items))
  {
    var data := Trimmed(piece, trim, remaining);
    SpanCut(piece, rest, trim, remaining);
    match fetch(index)
    case Failure(e) => BrokenDelivers(e, (piece + rest)[trim..trim + remaining]);
    case Success(_) =>
      SpanUnfolds(fetch, piece, index, last, trim, remaining);
      ConsDelivers(data, SpanTail(fetch, index, last, remaining, |data|), rest[..remaining - |data|]);
  }

  /** The covering-chunk walk delivers the span of the joined pieces that `trim` and `remaining` mark. */
  lemma {:induction false} SpanWalkDelivers(fetch: nat -> Result<Bytes, StorageError>, pieces: seq<Bytes>,
                                            index: nat, last: nat, trim: nat, remaining: nat)
    requires SpanSafe(fetch, pieces) && index <= last < |pieces|
    requires trim == 0 || trim < |pieces[index]|
    requires remaining > 0 && trim + remaining <= |Flatten(pieces[index..last + 1])|
    ensures var items := SpanWalk(fetch, index, last, trim, remaining);
      && Delivers(items, Flatten(pieces[index..last + 1])[trim..trim + remaining])
      && (SpanOpens(fetch, pieces) ==> Complete(items))
    decreases last + 1 - index
  {
    var piece, rest := pieces[index], Flatten(pieces[index + 1..last + 1]);
    assert pieces[index..last + 1][1..] == pieces[index + 1..last + 1];
    var data := Trimmed(piece, trim, remaining);
    if fetch(index).Success? && remaining > |data| {
      SpanWalkDelivers(fetch, pieces, index + 1, last, 0, remaining - |data|);
      assert rest[0..remaining - |data|] == rest[..remaining - |data|];
    }
    SpanStep(fetch, piece, rest, index, last, trim, remaining);
  }

  lemma GenuineSpan(cipher: Cipher, key: Key, base: Bytes, chunkPt: nat, raw: Bytes, pt: Bytes, link: Link,
                    kind: BackendKind)
    requires cipher.Correct() && chunkPt > 0 && |base| == BASE_LEN && |pt| < U64
    requires Genuine(cipher, key, base, chunkPt, raw, pt)
    ensures var fetch, pieces := SpanFetcher(cipher, key, base, chunkPt, raw, link, kind), Pieces(pt, chunkPt);
      && SpanSafe(fetch, pieces)
      && (raw == StreamObject(cipher, key, base, chunkPt, pt) && Answers(link) ==> SpanOpens(fetch, pieces))
  {
    forall i: nat | i < |Pieces(pt, chunkPt)| {
      SpanChunkSafe(cipher, key, base, chunkPt, raw, pt, link, kind, i);
    }
    if raw == StreamObject(cipher, key, base, chunkPt, pt) && Answers(link) {
      forall i: nat | i < |Pieces(pt, chunkPt)| {
        SpanChunkIntact(cipher, key, base, chunkPt, pt, link, kind, i);
      }
    }
  }

  lemma SelectedSpan(before: Bytes, within: Bytes, after: Bytes, off: nat, trim: nat, len: nat)
    requires off == |before| + trim && off + len <= |before| + |within|
    ensures trim + len <= |within|
    ensures (before + within + after)[off..off + len] == within[trim..trim + len]
  {
  }

  /** The pieces from `first` to `last`, and the plaintext around them. */
  lemma StretchOfPieces(pt: Bytes, chunkPt: nat, first: nat, last: nat)
    requires chunkPt > 0 && first <= last < |Pieces(pt, chunkPt)|
    ensures var pieces := Pieces(pt, chunkPt);
      && pt == Flatten(pieces[..first]) + Flatten(pieces[first..last + 1]) + Flatten(pieces[last + 1..])
      && |Flatten(pieces[..first])| == Min(first * chunkPt, |pt|)
      && |Flatten(pieces[..first])| + |Flatten(pieces[first..last + 1])| == Min(last * chunkPt + chunkPt, |pt|)
  {
    var pieces := Pieces(pt, chunkPt);
    PrefixLength(pt, chunkPt, first);
    PrefixLength(pt, chunkPt, last + 1);
    Distribute(last, 1, chunkPt);
    PiecesJoin(pt, chunkPt);
    var before, within, after := pieces[..first], pieces[first..last + 1], pieces[last + 1..];
    assert pieces[..last + 1] == before + within && pieces == before + within + after;
    FlattenAppend(before, within);
    FlattenAppend(before + within, after);
  }

  /** The pieces from the first to the last index cover the span, `Remainder(off, chunkPt)` bytes in. */
  lemma CoveringPieces(pt: Bytes, chunkPt: nat, off: nat, len: nat)
    requires chunkPt > 0 && len > 0 && off + len <= |pt|
    ensures var first, last := Quotient(off, chunkPt), Quotient(off + (len - 1), chunkPt);
      var trim := Remainder(off, chunkPt);
      && first <= last < |Pieces(pt, chunkPt)|
      && trim < |Pieces(pt, chunkPt)[first]|
      && trim + len <= |Flatten(Pieces(pt, chunkPt)[first..last + 1])|
      && Flatten(Pieces(pt, chunkPt)[first..last + 1])[trim..trim + len] == pt[off..off + len]
  {
    var first, last, trim := Quotient(off, chunkPt), Quotient(off + (len - 1), chunkPt), Remainder(off, chunkPt);
    var pieces := Pieces(pt, chunkPt);
    PieceOfPosition(pt, chunkPt, off);
    PieceOfPosition(pt, chunkPt, off + (len - 1));
    MulGap(last, first, chunkPt);
    PieceLength(pt, chunkPt, first);
    StretchOfPieces(pt, chunkPt, first, last);
    var before, after := Flatten(pieces[..first]), Flatten(pieces[last + 1..]);
    SelectedSpan(before, Flatten(pieces[first..last + 1]), after, off, trim, len);
  }

  /** The walk over the covering chunks of a span. */
  lemma CoveredSpan(fetch: nat -> Result<Bytes, StorageError>, pt: Bytes, chunkPt: nat, off: nat, len: nat)
    requires chunkPt > 0 && SpanSafe(fetch, Pieces(pt, chunkPt)) && len > 0 && off + len <= |pt|
    ensures var items := SpanWalk(fetch, Quotient(off, chunkPt), Quotient(off + (len - 1), chunkPt),
                                  Remainder(off, chunkPt), len);
      Delivers(items, pt[off..off + len]) && (SpanOpens(fetch, Pieces(pt, chunkPt)) ==> Complete(items))
  {
    CoveringPieces(pt, chunkPt, off, len);
    SpanWalkDelivers(fetch, Pieces(pt, chunkPt), Quotient(off, chunkPt), Quotient(off + (len - 1), chunkPt),
                     Remainder(off, chunkPt), len);
  }

  /** The quotients and the remainder `v2_span_stream` computes select exactly the span asked for. */
  lemma WholeSpanDelivers(cipher: Cipher, key: Key, base: Bytes, chunkPt: nat, raw: Bytes, pt: Bytes,
                          link: Link, kind: BackendKind, off: nat, len: nat)
    requires cipher.Correct() && chunkPt > 0 && |base| == BASE_LEN && |pt| < U64
    requires Genuine(cipher, key, base, chunkPt, raw, pt)
    requires len > 0 && off + len <= |pt|
    ensures var items := SpanWalk(SpanFetcher(cipher, key, base, chunkPt, raw, link, kind),
                                  Quotient(off, chunkPt), Quotient(off + (len - 1), chunkPt),
                                  Remainder(off, chunkPt), len);
      && Delivers(items, pt[off..off + len])
      && (raw == StreamObject(cipher, key, base, chunkPt, pt) && Answers(link) ==> Complete(items))
  {
    GenuineSpan(cipher, key, base, chunkPt, raw, pt, link, kind);
    CoveredSpan(SpanFetcher(cipher, key, base, chunkPt, raw, link, kind), pt, chunkPt, off, len);
  }

  // ---- raw_span_stream ----

  /** The part of `body` in the span, as much of it as there is. */
  function Clip(body: Bytes, skip: nat, take: nat): Bytes {
    if skip >= |body| then [] else body[skip..Min(skip + take, |body|)]
  }

  lemma ClipBeyond(data: Bytes, rest: Bytes, skip: nat, take: nat)
    requires skip >= |data|
    ensures Clip(data + rest, skip, take) == Clip(rest, skip - |data|, take)
  {
    if skip - |data| < |rest| {
      var hi := Min(skip - |data| + take, |rest|);
      assert (data + rest)[skip..|data| + hi] == rest[skip - |data|..hi];
    }
  }

  lemma ClipWithin(data: Bytes, rest: Bytes, skip: nat, take: nat)
    requires skip + take <= |data|
    ensures Clip(data + rest, skip, take) == data[skip..skip + take]
  {
    assert (data + rest)[skip..skip + take] == data[skip..skip + take];
  }

  lemma ClipAcross(data: Bytes, rest: Bytes, skip: nat, take: nat)
    requires skip < |data|
    ensures var end := Min(skip + take, |data|);
      Clip(data + rest, skip, take) == data[skip..end] + Clip(rest, 0, take - (end - skip))
  {
    if skip + take <= |data| {
      ClipWithin(data, rest, skip, take);
      assert Clip(rest, 0, 0) == [];
    } else {
      var n := Min(take - (|data| - skip), |rest|);
      assert Clip(rest, 0, take - (|data| - skip)) == rest[..n];
      assert (data + rest)[skip..|data| + n] == data[skip..] + rest[..n];
    }
  }

  /** A chunk that the span begins in. */
  lemma TakeFrom(data: Bytes, rest: Bytes, tail: seq<Item>, skip: nat, take: nat)
    requires skip < |data| && take > 0
    requires var left := take - (Min(skip + take, |data|) - skip);
      Text(tail) == Clip(rest, 0, left) && (Complete(tail) <==> left == 0 || left <= |rest|)
    ensures var items := [Chunk(data[skip..Min(skip + take, |data|)])] + tail;
      Text(items) == Clip(data + rest, skip, take) && (Complete(items) <==> skip + take <= |data| + |rest|)
  {
    ClipAcross(data, rest, skip, take);
    TextCons(data[skip..Min(skip + take, |data|)], tail);
  }

  /**
   * Skip and take over any way the backend splits the object, empty chunks included: the span is cut
   * from what the backend delivered, and an error ends the stream exactly when that was too short.
   */
  lemma {:induction false} SkipTakeSlices(inner: seq<Item>, skip: nat, take: nat)
    ensures var items := SkipTake(inner, skip, take);
      && Text(items) == Clip(Text(inner), skip, take)
      && (Complete(items) <==> take == 0 || skip + take <= |Text(inner)|)
  {
    var items := SkipTake(inner, skip, take);
    if take > 0 && inner != [] && inner[0].Chunk? {
      var data, rest := inner[0].data, inner[1..];
      if skip >= |data| {
        ClipBeyond(data, Text(rest), skip, take);
        SkipTakeSlices(rest, skip - |data|, take);
      } else {
        var left := take - (Min(skip + take, |data|) - skip);
        SkipTakeSlices(rest, 0, left);
        TakeFrom(data, Text(rest), SkipTake(rest, 0, left), skip, take);
      }
    } else if take > 0 {
      assert items[0].Broken?;
    }
  }
}
