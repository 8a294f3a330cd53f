/** The idealised cipher can be met, and so can every hypothesis about damaged objects. */
module Tampering {
  import opened ByteStrings
  import opened DamagedObjects
  import opened ObjectCrypt
  import opened StoredObjects
  import opened StreamFormat
  import opened StreamLaws
  import opened StreamReads
  import opened Wrappers

  /** Sixteen bytes, all alike. */
  function Tagged(b: byte): (r: Bytes)
    ensures |r| == TAG_LEN && forall i | 0 <= i < TAG_LEN :: r[i] == b
  {
    [b, b, b, b, b, b, b, b, b, b, b, b, b, b, b, b]
  }

  const SEALED: byte := 0xAA
  const NEVER_SEALED: byte := 0xBB

  /** The tag of a call in the log differs from that of any other. */
  function Tag(log: SealLog, nonce: Bytes, p: Bytes): (r: Bytes)
    ensures |r| == TAG_LEN
  {
    Tagged(if (nonce, p) in log then SEALED else NEVER_SEALED)
  }

  function IdealDecrypt(log: SealLog, nonce: Bytes, ct: Bytes): Option<Bytes> {
    if |ct| < TAG_LEN then None
    else
      var p := ct[..|ct| - TAG_LEN];
      if ct[|ct| - TAG_LEN..] == Tag(log, nonce, p) then Some(p) else None
  }

  /** A cipher for everyone who only ever sealed what is in the log. */
  function Ideal(log: SealLog): Cipher {
    Cipher((k: Key, nonce: Bytes, p: Bytes) => p + Tag(log, nonce, p),
           (k: Key, nonce: Bytes, ct: Bytes) => IdealDecrypt(log, nonce, ct))
  }

  lemma IdealIsCorrect(log: SealLog)
    ensures Ideal(log).Correct()
  {
    forall nonce, p
      ensures IdealDecrypt(log, nonce, p + Tag(log, nonce, p)) == Some(p)
    {
      var ct := p + Tag(log, nonce, p);
      assert ct[..|p|] == p && ct[|p|..] == Tag(log, nonce, p);
    }
    forall nonce, ct: Bytes | IdealDecrypt(log, nonce, ct).Some?
      ensures ct == IdealDecrypt(log, nonce, ct).value + Tag(log, nonce, IdealDecrypt(log, nonce, ct).value)
    {
      assert ct == ct[..|ct| - TAG_LEN] + ct[|ct| - TAG_LEN..];
    }
  }

  /** The tag of something never sealed lies here. */
  predicate ForeignTag(raw: Bytes, at: nat) {
    at + TAG_LEN <= |raw| && raw[at..at + TAG_LEN] == Tagged(NEVER_SEALED)
  }

  /** Any bytes at all are unforged, unless such a tag lies somewhere in them. */
  lemma IdealIsUnforged(log: SealLog, key: Key, raw: Bytes)
    requires forall at :: !ForeignTag(raw, at)
    ensures Unforged(Ideal(log), key, log, raw)
  {
    forall nonce, lo, hi | 0 <= lo <= hi <= |raw| && IdealDecrypt(log, nonce, raw[lo..hi]).Some?
      ensures (nonce, IdealDecrypt(log, nonce, raw[lo..hi]).value) in log
    {
      var ct := raw[lo..hi];
      assert ct[|ct| - TAG_LEN..] == raw[hi - TAG_LEN..hi - TAG_LEN + TAG_LEN];
      assert !ForeignTag(raw, hi - TAG_LEN);
    }
  }

  // ---- A damaged object ----

  const BASE: Bytes := Tagged(0)
  const TEXT: Bytes := [1, 2]

  /** An object of two one-byte chunks whose second chunk was overwritten with the first. */
  function Damaged(): Bytes {
    StreamHeader(1, BASE) + ([1] + Tagged(SEALED)) + ([1] + Tagged(SEALED))
  }

  /** A backend that answers everything. */
  function Answering(): Link {
    Link((off: nat, len: nat) => true, true, (raw: Bytes) => [Chunk(raw)])
  }

  lemma HeaderHasNoTag()
    ensures |StreamHeader(1, BASE)| == STREAM_HEADER_LEN
    ensures forall i | 0 <= i < STREAM_HEADER_LEN :: StreamHeader(1, BASE)[i] != NEVER_SEALED
  {
    assert BigEndian(1, 4) == BigEndian(0, 3) + [1];
    assert BigEndian(0, 3) == BigEndian(0, 2) + [0];
    assert BigEndian(0, 2) == BigEndian(0, 1) + [0];
    assert BigEndian(0, 1) == [0];
    assert BigEndian(1, 4) == [0, 0, 0, 1];
  }

  lemma DamagedHasNoForeignTag()
    ensures forall at :: !ForeignTag(Damaged(), at)
  {
    HeaderHasNoTag();
    forall at: nat | at + TAG_LEN <= |Damaged()|
      ensures !ForeignTag(Damaged(), at)
    {
      assert Damaged()[at..at + TAG_LEN][0] == Damaged()[at] != NEVER_SEALED;
    }
  }

  ghost function TextLog(): SealLog {
    LogOf(BASE, Pieces(TEXT, 1))
  }

  lemma TextPieces()
    ensures Pieces(TEXT, 1) == [[1], [2]]
  {
    assert TEXT[..1] == [1] && TEXT[1..] == [2];
  }

  /**
   * All that `DamagedStream` asks for holds of this object, although it is not the one that was written; so what a
   * reader gets of it is a prefix of the text, and never a clean end before the whole of it.
   */
  lemma DamagedObjectExists(key: Key)
    ensures var cipher, raw := Ideal(TextLog()), Damaged();
      && cipher.Correct() && StreamHeader(1, BASE) <= raw && Answering().ranged(0, 4)
      && FreshBase(BASE, {}) && Unforged(cipher, key, {} + TextLog(), raw)
      && raw != StreamObject(cipher, key, BASE, 1, TEXT)
      && var r := StreamOf(cipher, Some(key), raw, |TEXT|, Answering());
      r.Success? ==> Delivers(r.value, TEXT)
  {
    var cipher := Ideal(TextLog());
    IdealIsCorrect(TextLog());
    DamagedHasNoForeignTag();
    assert {} + TextLog() == TextLog();
    IdealIsUnforged(TextLog(), key, Damaged());
    DamagedStream(cipher, key, BASE, 1, Damaged(), TEXT, Answering(), {});
    TextPieces();
    ChunkAt(cipher, key, BASE, 1, TEXT, 1);
    HeaderHasNoTag();
    var at := ChunkOffset(1, 1);
    assert StreamObject(cipher, key, BASE, 1, TEXT)[at..at + 1 + TAG_LEN] == SealChunk(cipher, key, BASE, 1, [2]);
    assert SealChunk(cipher, key, BASE, 1, [2])[0] == 2;
    assert Damaged()[at] == 1;
  }

  /** Both chunks lie in the object as the first was sealed; only under the first index was that ever done. */
  lemma DamagedChunks()
    ensures ChunkOffset(1, 0) == 24 && ChunkOffset(1, 1) == 41 && |Damaged()| == 58
    ensures Damaged()[24..41] == Damaged()[41..58] == [1] + Tagged(SEALED)
    ensures (StreamNonce(BASE, 0), [1]) in TextLog() && (StreamNonce(BASE, 1), [1]) !in TextLog()
  {
    HeaderHasNoTag();
    TextPieces();
    var pieces := Pieces(TEXT, 1);
    assert (StreamNonce(BASE, 0), pieces[0]) in TextLog();
    if (StreamNonce(BASE, 1), [1 as byte]) in TextLog() {
      var i :| 0 <= i < |pieces| && (StreamNonce(BASE, i), pieces[i]) == (StreamNonce(BASE, 1), [1]);
      StreamNonceInjective(BASE, i, BASE, 1);
      assert false;
    }
  }

  lemma ChunkOpens(log: SealLog, nonce: Bytes)
    ensures IdealDecrypt(log, nonce, [1] + Tagged(SEALED)) == if (nonce, [1]) in log then Some([1]) else None
  {
    var ct := [1] + Tagged(SEALED);
    assert ct[..1] == [1] && ct[1..] == Tagged(SEALED);
    assert Tagged(SEALED)[0] != Tagged(NEVER_SEALED)[0];
  }

  /** Behind an intact header, and with every fetch answered, a keyed stream is the chunk walk. */
  lemma StreamIsWalk(cipher: Cipher, key: Key, base: Bytes, chunkPt: nat, raw: Bytes, ptLen: nat, link: Link)
    requires |base| == BASE_LEN && 0 < chunkPt <= MAX_CHUNK_PT
    requires StreamHeader(chunkPt, base) <= raw && Answers(link)
    ensures StreamOf(cipher, Some(key), raw, ptLen, link)
            == Success(ChunkWalk(WalkFetcher(cipher, key, base, raw, link), chunkPt, STREAM_HEADER_LEN, ptLen, 0,
                                 StreamChunkCount(ptLen, chunkPt)))
  {
    HeaderReads(base, chunkPt, raw, link);
    ProbeReads(raw, link);
  }

  lemma DamagedWalk(key: Key)
    ensures ChunkWalk(WalkFetcher(Ideal(TextLog()), key, BASE, Damaged(), Answering()), 1, STREAM_HEADER_LEN, 2, 0, 2)
            == [Chunk([1]), Broken(Backend("stream chunk decrypt failed"))]
  {
    DamagedChunks();
    ChunkOpens(TextLog(), StreamNonce(BASE, 0));
    ChunkOpens(TextLog(), StreamNonce(BASE, 1));
    var fetch := WalkFetcher(Ideal(TextLog()), key, BASE, Damaged(), Answering());
    assert fetch(24, 17, 0) == Success([1]);
    assert fetch(41, 17, 1) == Failure(Backend("stream chunk decrypt failed"));
    assert ChunkWalk(fetch, 1, 41, 1, 1, 2) == [Broken(Backend("stream chunk decrypt failed"))];
    assert ChunkWalk(fetch, 1, 24, 2, 0, 2) == [Chunk([1])] + ChunkWalk(fetch, 1, 41, 1, 1, 2);
  }

  /** What a reader gets: the first chunk, and an error in place of the second. */
  lemma DamagedObjectBreaks(key: Key)
    ensures StreamOf(Ideal(TextLog()), Some(key), Damaged(), |TEXT|, Answering())
            == Success([Chunk([1]), Broken(Backend("stream chunk decrypt failed"))])
  {
    TextPieces();
    PieceCount(TEXT, 1);
    StreamIsWalk(Ideal(TextLog()), key, BASE, 1, Damaged(), |TEXT|, Answering());
    DamagedWalk(key);
  }
}
