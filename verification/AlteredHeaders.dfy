/** For which altered chunk sizes spans of a v2 object go wrong. */
module AlteredHeaders {
  import opened Arithmetic
  import opened ByteStrings
  import opened DamagedObjects
  import opened ObjectCrypt
  import S = StoredObjects
  import opened StreamFormat
  import opened StreamLaws
  import opened StreamReads
  import opened Tampering
  import opened Wrappers

  predicate SpanDelivers(cipher: Cipher, key: Key, raw: Bytes, pt: Bytes, link: Link, kind: BackendKind, off: nat,
                         len: nat)
    requires off + len <= |pt|
  {
    var r := RangeStreamOf(cipher, Some(key), raw, link, kind, off, len);
    r.Success? ==> Delivers(r.value, pt[off..off + len])
  }

  /**
   * Every span of every damaged object of `n` bytes, cut at `chunkPt` and with a header that names `chunkPt'`, delivers
   * a prefix of the true plaintext, and a clean end only with all of it.
   */
  ghost predicate SpansSurvive(chunkPt: nat, chunkPt': nat, n: nat)
    requires chunkPt > 0
  {
    forall cipher, key, base, raw, pt, link, others, kind, off: nat, len: nat
      | |pt| == n && off + len <= |pt| && Damages(cipher, key, base, chunkPt, chunkPt', raw, pt, link, others) ::
      SpanDelivers(cipher, key, raw, pt, link, kind, off, len)
  }

  // ---- Planting a sealed piece where another chunk size looks for it ----

  function Zeros(n: nat): (r: Bytes)
    ensures |r| == n && forall i | 0 <= i < n :: r[i] == 0
  {
    if n == 0 then [] else Zeros(n - 1) + [0]
  }

  /** Zeros but for a one. */
  function Marked(n: nat, at: nat): (r: Bytes)
    requires at < n
    ensures |r| == n && forall i | 0 <= i < n :: r[i] == if i == at then 1 else 0
  {
    Zeros(at) + [1] + Zeros(n - at - 1)
  }

  /** A header, some padding, and a sealed piece at the end. */
  function Planted(chunkPt: nat, gap: nat, piece: Bytes): Bytes {
    StreamHeader(chunkPt, BASE) + Zeros(gap) + piece + Tagged(SEALED)
  }

  lemma PlantedBegins(chunkPt: nat, gap: nat, piece: Bytes)
    requires 0 < chunkPt <= MAX_CHUNK_PT
    ensures var raw := Planted(chunkPt, gap, piece);
      && |raw| == STREAM_HEADER_LEN + gap + |piece| + TAG_LEN && StreamHeader(chunkPt, BASE) <= raw
      && IsStreamSealed(raw) && raw[8..8 + BASE_LEN] == BASE && FromBigEndian(raw[4..8]) == chunkPt
      && raw[STREAM_HEADER_LEN + gap..] == piece + Tagged(SEALED)
  {
    assert chunkPt < Capacity(4) by {
      assert Capacity(4) == 0x1_0000_0000;
    }
    BigEndianRoundTrip(chunkPt, 4);
    var raw := Planted(chunkPt, gap, piece);
    assert raw[..4] == MAGIC_V2 && raw[4..8] == BigEndian(chunkPt, 4) && raw[8..8 + BASE_LEN] == BASE;
    assert raw[..STREAM_HEADER_LEN] == StreamHeader(chunkPt, BASE);
  }

  /** The chunk size in the header is too short for a tag of something never sealed. */
  lemma PlantedHasNoForeignTag(chunkPt: nat, gap: nat, piece: Bytes)
    requires forall i | 0 <= i < |piece| :: piece[i] <= 1
    ensures forall at :: !ForeignTag(Planted(chunkPt, gap, piece), at)
  {
    var raw := Planted(chunkPt, gap, piece);
    forall at: nat | at + TAG_LEN <= |raw|
      ensures !ForeignTag(raw, at)
    {
      var j := if 4 <= at < 8 then 8 else at;
      assert raw[at..at + TAG_LEN][j - at] == raw[j] != NEVER_SEALED;
    }
  }

  lemma SealedOpens(log: SealLog, nonce: Bytes, piece: Bytes)
    requires (nonce, piece) in log
    ensures IdealDecrypt(log, nonce, piece + Tagged(SEALED)) == Some(piece)
  {
    var ct := piece + Tagged(SEALED);
    assert ct[..|piece|] == piece && ct[|piece|..] == Tagged(SEALED);
  }

  lemma PlantedWindow(chunkPt: nat, gap: nat, piece: Bytes)
    requires 0 < chunkPt <= MAX_CHUNK_PT && |piece| <= chunkPt
    ensures var raw, at := Planted(chunkPt, gap, piece), STREAM_HEADER_LEN + gap;
      at < |raw| && raw[at..Min(at + (chunkPt + TAG_LEN), |raw|)] == piece + Tagged(SEALED)
  {
    PlantedBegins(chunkPt, gap, piece);
    var raw, at := Planted(chunkPt, gap, piece), STREAM_HEADER_LEN + gap;
    assert raw[at..Min(at + (chunkPt + TAG_LEN), |raw|)] == raw[at..];
  }

  /** A sealed piece at the end of the object is found as the chunk of its index, if it is not too long. */
  lemma PlantedOpens(log: SealLog, key: Key, kind: BackendKind, chunkPt: nat, index: nat, piece: Bytes)
    requires 0 < chunkPt <= MAX_CHUNK_PT && |piece| <= chunkPt && (StreamNonce(BASE, index), piece) in log
    ensures SpanChunk(Ideal(log), key, BASE, chunkPt, Planted(chunkPt, index * (chunkPt + TAG_LEN), piece), Answering(),
                      kind, index) == Success(piece)
  {
    PlantedWindow(chunkPt, index * (chunkPt + TAG_LEN), piece);
    SealedOpens(log, StreamNonce(BASE, index), piece);
  }

  /** The planted object is one that damage could leave. */
  lemma PlantedIsDamage(key: Key, chunkPt: nat, chunkPt': nat, pt: Bytes, gap: nat, piece: Bytes)
    requires chunkPt > 0 && 0 < chunkPt' <= MAX_CHUNK_PT && forall i | 0 <= i < |piece| :: piece[i] <= 1
    ensures Damages(Ideal(LogOf(BASE, Pieces(pt, chunkPt))), key, BASE, chunkPt, chunkPt',
                    Planted(chunkPt', gap, piece), pt, Answering(), {})
  {
    var log, raw := LogOf(BASE, Pieces(pt, chunkPt)), Planted(chunkPt', gap, piece);
    IdealIsCorrect(log);
    PlantedBegins(chunkPt', gap, piece);
    PlantedHasNoForeignTag(chunkPt', gap, piece);
    IdealIsUnforged(log, key, raw);
    assert {} + log == log;
  }

  /** What a span of the planted object comes to. */
  lemma PlantedSpan(log: SealLog, key: Key, kind: BackendKind, chunkPt: nat, gap: nat, piece: Bytes, off: nat, len: nat)
    requires 0 < chunkPt <= MAX_CHUNK_PT && len > 0 && off + len <= U64
    ensures var raw := Planted(chunkPt, gap, piece);
      RangeStreamOf(Ideal(log), Some(key), raw, Answering(), kind, off, len)
      == Success(SpanWalk(SpanFetcher(Ideal(log), key, BASE, chunkPt, raw, Answering(), kind), Quotient(off, chunkPt),
                          Quotient(off + (len - 1), chunkPt), Remainder(off, chunkPt), len))
  {
    var raw := Planted(chunkPt, gap, piece);
    PlantedBegins(chunkPt, gap, piece);
    SpanIsWalk(Ideal(log), key, raw, Answering(), kind, off, len);
    S.HeaderReads(BASE, chunkPt, raw, Answering());
  }

  // ---- The two ways to go wrong ----

  /** A walk through one chunk that ends before the span begins. */
  lemma SkippedWalk(fetch: nat -> Result<Bytes, StorageError>, piece: Bytes)
    requires fetch(0) == Success(piece) && piece != []
    ensures SpanWalk(fetch, 0, 0, |piece|, 1) == []
  {
    assert SpanWalk(fetch, 1, 0, 0, 1) == [];
  }

  /** A span behind the end of the one chunk it is looked for in ends cleanly, with nothing. */
  lemma PlantedGap(log: SealLog, key: Key, kind: BackendKind, chunkPt: nat, piece: Bytes)
    requires 0 < |piece| < chunkPt <= MAX_CHUNK_PT && (StreamNonce(BASE, 0), piece) in log
    ensures RangeStreamOf(Ideal(log), Some(key), Planted(chunkPt, 0 * (chunkPt + TAG_LEN), piece), Answering(), kind,
                          |piece|, 1) == Success([])
  {
    var raw := Planted(chunkPt, 0 * (chunkPt + TAG_LEN), piece);
    PlantedOpens(log, key, kind, chunkPt, 0, piece);
    PlantedSpan(log, key, kind, chunkPt, 0 * (chunkPt + TAG_LEN), piece, |piece|, 1);
    DivUnique(|piece|, chunkPt, 0, |piece|);
    SkippedWalk(SpanFetcher(Ideal(log), key, BASE, chunkPt, raw, Answering(), kind), piece);
  }

  /** A larger chunk size takes the second piece for a part of the first, and ends cleanly without it. */
  lemma LargerSizeLosesBytes(chunkPt: nat, chunkPt': nat, n: nat)
    requires 0 < chunkPt < chunkPt' <= MAX_CHUNK_PT && chunkPt < n < U64
    ensures !SpansSurvive(chunkPt, chunkPt', n)
  {
    var pt, key: Key := Zeros(n), [];
    PieceAt(pt, chunkPt, 0);
    var log, piece := LogOf(BASE, Pieces(pt, chunkPt)), Pieces(pt, chunkPt)[0];
    assert (StreamNonce(BASE, 0), Pieces(pt, chunkPt)[0]) in log;
    var gap := 0 * (chunkPt' + TAG_LEN);
    PlantedIsDamage(key, chunkPt, chunkPt', pt, gap, piece);
    PlantedGap(log, key, S3, chunkPt', piece);
    assert !SpanDelivers(Ideal(log), key, Planted(chunkPt', gap, piece), pt, Answering(), S3, chunkPt, 1);
  }

  lemma LastIndex(n: nat, chunkPt: nat, chunkPt': nat)
    requires 0 < chunkPt' < chunkPt < n
    ensures var last := StreamChunkCount(n, chunkPt) - 1;
      last >= 1 && 0 <= last * chunkPt' < last * chunkPt < n
  {
    var pt := Zeros(n);
    PieceCount(pt, chunkPt);
    OnePieceOrMore(pt, chunkPt);
    var last := StreamChunkCount(n, chunkPt) - 1;
    PieceAt(pt, chunkPt, last);
    MulGap(chunkPt', chunkPt, last);
  }

  lemma MisplacedByte(fetch: nat -> Result<Bytes, StorageError>, piece: Bytes, index: nat)
    requires fetch(index) == Success(piece) && piece != []
    ensures Text(SpanWalk(fetch, index, index, 0, 1)) == [piece[0]]
  {
    SpanUnfolds(fetch, piece, index, index, 0, 1);
    TextOne([piece[0]]);
    assert Trimmed(piece, 0, 1) == [piece[0]];
    assert [Chunk([piece[0]])] + [] == [Chunk([piece[0]])];
  }

  /** The first byte of the piece is served as the byte where the chunk would begin. */
  lemma PlantedByte(log: SealLog, key: Key, kind: BackendKind, chunkPt: nat, index: nat, piece: Bytes)
    requires 0 < chunkPt <= MAX_CHUNK_PT && 0 < |piece| <= chunkPt && (StreamNonce(BASE, index), piece) in log
    requires 0 <= index * chunkPt < U64
    ensures var raw := Planted(chunkPt, index * (chunkPt + TAG_LEN), piece);
      var r := RangeStreamOf(Ideal(log), Some(key), raw, Answering(), kind, index * chunkPt, 1);
      r.Success? && Text(r.value) == [piece[0]]
  {
    var raw := Planted(chunkPt, index * (chunkPt + TAG_LEN), piece);
    PlantedOpens(log, key, kind, chunkPt, index, piece);
    PlantedSpan(log, key, kind, chunkPt, index * (chunkPt + TAG_LEN), piece, index * chunkPt, 1);
    DivUnique(index * chunkPt, chunkPt, index, 0);
    MisplacedByte(SpanFetcher(Ideal(log), key, BASE, chunkPt, raw, Answering(), kind), piece, index);
  }

  /** The last piece of the marked plaintext begins with the mark. */
  lemma MarkedPiece(n: nat, chunkPt: nat, last: nat)
    requires 0 < chunkPt < n && last == StreamChunkCount(n, chunkPt) - 1 && 0 <= last * chunkPt < n
    ensures var pt := Marked(n, last * chunkPt);
      var pieces := Pieces(pt, chunkPt);
      && last == |pieces| - 1 && |pieces[last]| == LastLength(n, chunkPt) > 0 && pieces[last][0] == 1
      && forall i | 0 <= i < |pieces[last]| :: pieces[last][i] <= 1
  {
    var pt := Marked(n, last * chunkPt);
    PieceCount(pt, chunkPt);
    PieceAt(pt, chunkPt, last);
    LastPiece(pt, chunkPt);
  }

  /** A span that asks for a zero and gets a one. */
  lemma MisplacedSpan(chunkPt: nat, chunkPt': nat, pt: Bytes, key: Key, kind: BackendKind, last: nat)
    requires 0 < chunkPt && 0 < chunkPt' <= MAX_CHUNK_PT && last < |Pieces(pt, chunkPt)|
    requires 0 < |Pieces(pt, chunkPt)[last]| <= chunkPt' && Pieces(pt, chunkPt)[last][0] == 1
    requires 0 <= last * chunkPt' < |pt| < U64 && pt[last * chunkPt'] == 0
    ensures !SpanDelivers(Ideal(LogOf(BASE, Pieces(pt, chunkPt))), key,
                          Planted(chunkPt', last * (chunkPt' + TAG_LEN), Pieces(pt, chunkPt)[last]), pt, Answering(),
                          kind, last * chunkPt', 1)
  {
    var log, piece, off := LogOf(BASE, Pieces(pt, chunkPt)), Pieces(pt, chunkPt)[last], last * chunkPt';
    assert (StreamNonce(BASE, last), Pieces(pt, chunkPt)[last]) in log;
    PlantedByte(log, key, kind, chunkPt', last, piece);
    assert pt[off..off + 1][0] == 0;
  }

  /** A smaller one, not too small for the last piece, serves that piece from where it does not belong. */
  lemma SmallerSizeMisplacesBytes(chunkPt: nat, chunkPt': nat, n: nat)
    requires 0 < chunkPt' < chunkPt <= MAX_CHUNK_PT && chunkPt < n < U64 && LastLength(n, chunkPt) <= chunkPt'
    ensures !SpansSurvive(chunkPt, chunkPt', n)
  {
    LastIndex(n, chunkPt, chunkPt');
    var last, key: Key := StreamChunkCount(n, chunkPt) - 1, [];
    MarkedPiece(n, chunkPt, last);
    var pt := Marked(n, last * chunkPt);
    var gap, piece := last * (chunkPt' + TAG_LEN), Pieces(pt, chunkPt)[last];
    PlantedIsDamage(key, chunkPt, chunkPt', pt, gap, piece);
    MisplacedSpan(chunkPt, chunkPt', pt, key, S3, last);
  }

  lemma RefusedSize(cipher: Cipher, key: Key, base: Bytes, chunkPt: nat, chunkPt': nat, raw: Bytes, pt: Bytes,
                    link: Link, kind: BackendKind, others: SealLog, off: nat, len: nat)
    requires chunkPt > 0 && |pt| < U64 && off + len <= |pt|
    requires Damages(cipher, key, base, chunkPt, chunkPt', raw, pt, link, others)
    requires !(0 < chunkPt' <= MAX_CHUNK_PT)
    ensures SpanDelivers(cipher, key, raw, pt, link, kind, off, len)
  {
    if len > 0 {
      SpanIsWalk(cipher, key, raw, link, kind, off, len);
      var header := FetchExact(raw, link, 0, STREAM_HEADER_LEN);
      if header.Success? && ParseStreamHeader(header.value).Success? {
        ParsedFromObject(raw, link);
        assert false;
      }
    }
  }

  /**
   * The header is not sealed. A stream survives any change of it, but spans survive a change of the chunk size exactly
   * when the reader refuses the new one, or it is harmless: the object is a single piece, or no piece fits under it.
   */
  lemma SpansNeedTheChunkSize(chunkPt: nat, chunkPt': nat, n: nat)
    requires 0 < chunkPt <= MAX_CHUNK_PT && n < U64
    ensures SpansSurvive(chunkPt, chunkPt', n)
            <==> !(0 < chunkPt' <= MAX_CHUNK_PT) || Harmless(chunkPt, chunkPt', n)
  {
    if 0 < chunkPt' <= MAX_CHUNK_PT && !Harmless(chunkPt, chunkPt', n) {
      if chunkPt < chunkPt' {
        LargerSizeLosesBytes(chunkPt, chunkPt', n);
      } else {
        SmallerSizeMisplacesBytes(chunkPt, chunkPt', n);
      }
    } else {
      forall cipher, key, base, raw, pt, link, others, kind, off: nat, len: nat
        | |pt| == n && off + len <= |pt| && Damages(cipher, key, base, chunkPt, chunkPt', raw, pt, link, others)
        ensures SpanDelivers(cipher, key, raw, pt, link, kind, off, len)
      {
        if Harmless(chunkPt, chunkPt', n) {
          HarmlessRange(cipher, key, base, chunkPt, chunkPt', raw, pt, link, kind, others, off, len);
        } else {
          RefusedSize(cipher, key, base, chunkPt, chunkPt', raw, pt, link, kind, others, off, len);
        }
      }
    }
  }
}
