/** What readers get of v2 objects that were altered or cut short. */
module DamagedObjects {
  import opened Arithmetic
  import opened ByteStrings
  import opened ObjectCrypt
  import opened StoredObjects
  import opened StreamFormat
  import opened StreamLaws
  import opened StreamReads
  import opened Wrappers

  /** The header, if the object has one, names a base that was drawn for no other object. */
  ghost predicate NamesFreshBase(raw: Bytes, others: SealLog) {
    |raw| >= STREAM_HEADER_LEN ==> FreshBase(raw[8..8 + BASE_LEN], others)
  }

  /** The header, if the object has one, names this chunk size. */
  predicate NamesChunkSize(raw: Bytes, chunkPt: nat) {
    |raw| >= STREAM_HEADER_LEN ==> FromBigEndian(raw[4..8]) == chunkPt
  }

  // ---- Whole streams ----

  /** Whatever base the header names, what a chunk opens to is the piece of its index, and the base is the object's. */
  lemma OpenedIsPiece(cipher: Cipher, key: Key, base: Bytes, pieces: seq<Bytes>, base': Bytes, raw: Bytes,
                      others: SealLog, index: nat, lo: nat, hi: nat)
    requires cipher.Correct() && |base| == |base'| == BASE_LEN && |pieces| < U64 && index < U64
    requires FreshBase(base', others) && Unforged(cipher, key, others + LogOf(base, pieces), raw)
    requires lo <= hi <= |raw| && OpenChunk(cipher, key, base', index, raw[lo..hi]).Some?
    ensures base' == base && index < |pieces|
    ensures OpenChunk(cipher, key, base', index, raw[lo..hi]).value == pieces[index]
    ensures hi - lo == |pieces[index]| + TAG_LEN
  {
    var plain := OpenChunk(cipher, key, base', index, raw[lo..hi]).value;
    assert (StreamNonce(base', index), plain) in LogOf(base, pieces);
    var i :| 0 <= i < |pieces| && (StreamNonce(base, i), pieces[i]) == (StreamNonce(base', index), plain);
    StreamNonceInjective(base, i, base', index);
  }

  /** A first piece that fills the chunk of another chunk size too is the whole plaintext. */
  lemma OnlyPiece(pt: Bytes, chunkPt: nat, chunkPt': nat)
    requires chunkPt > 0 && pt != [] && chunkPt' != chunkPt
    requires |Pieces(pt, chunkPt)[0]| == Min(|pt|, chunkPt')
    ensures Pieces(pt, chunkPt) == [pt] && |pt| <= chunkPt'
  {
    PieceLength(pt, chunkPt, 0);
  }

  /** The first chunk under an altered header opens to all of the plaintext or not at all. */
  lemma AlteredHeaderOpens(cipher: Cipher, key: Key, base: Bytes, chunkPt: nat, base': Bytes, chunkPt': nat, raw: Bytes,
                           pt: Bytes, link: Link, others: SealLog)
    requires cipher.Correct() && |base| == |base'| == BASE_LEN && chunkPt > 0 && |pt| < U64 && pt != []
    requires base' != base || chunkPt' != chunkPt
    requires FreshBase(base', others) && Unforged(cipher, key, others + LogOf(base, Pieces(pt, chunkPt)), raw)
    ensures var here := Min(|pt|, chunkPt');
      var got := WalkChunk(cipher, key, base', raw, link, STREAM_HEADER_LEN, here + TAG_LEN, 0);
      got.Success? ==> got.value == pt && |pt| <= chunkPt'
  {
    var here := Min(|pt|, chunkPt');
    if WalkChunk(cipher, key, base', raw, link, STREAM_HEADER_LEN, here + TAG_LEN, 0).Success? {
      PiecesFewer(pt, chunkPt);
      OpenedIsPiece(cipher, key, base, Pieces(pt, chunkPt), base', raw, others, 0,
                    STREAM_HEADER_LEN, STREAM_HEADER_LEN + here + TAG_LEN);
      OnlyPiece(pt, chunkPt, chunkPt');
    }
  }

  /** A walk whose first chunk is all of the plaintext, or an error. */
  lemma FirstChunkDecides(fetch: (nat, nat, nat) -> Result<Bytes, StorageError>, pt: Bytes, chunkPt: nat)
    requires chunkPt > 0
    requires pt != [] ==>
      var got := fetch(STREAM_HEADER_LEN, Min(|pt|, chunkPt) + TAG_LEN, 0);
      got.Success? ==> got.value == pt && |pt| <= chunkPt
    ensures Delivers(ChunkWalk(fetch, chunkPt, STREAM_HEADER_LEN, |pt|, 0, StreamChunkCount(|pt|, chunkPt)), pt)
  {
    PieceCount(pt, chunkPt);
    if pt != [] {
      match fetch(STREAM_HEADER_LEN, Min(|pt|, chunkPt) + TAG_LEN, 0)
      case Failure(e) => BrokenDelivers(e, pt);
      case Success(_) =>
        TextOne(pt);
        assert ChunkWalk(fetch, chunkPt, STREAM_HEADER_LEN, |pt|, 0, 1) == [Chunk(pt)] + [];
    }
  }

  lemma AlteredHeaderWalk(cipher: Cipher, key: Key, base: Bytes, chunkPt: nat, base': Bytes, chunkPt': nat, raw: Bytes,
                          pt: Bytes, link: Link, others: SealLog)
    requires cipher.Correct() && |base| == |base'| == BASE_LEN && chunkPt > 0 && chunkPt' > 0 && |pt| < U64
    requires base' != base || chunkPt' != chunkPt
    requires FreshBase(base', others) && Unforged(cipher, key, others + LogOf(base, Pieces(pt, chunkPt)), raw)
    ensures Delivers(ChunkWalk(WalkFetcher(cipher, key, base', raw, link), chunkPt', STREAM_HEADER_LEN, |pt|, 0,
                               StreamChunkCount(|pt|, chunkPt')), pt)
  {
    if pt != [] {
      AlteredHeaderOpens(cipher, key, base, chunkPt, base', chunkPt', raw, pt, link, others);
    }
    FirstChunkDecides(WalkFetcher(cipher, key, base', raw, link), pt, chunkPt');
  }

  /** What the parsed header says of the object. */
  lemma ParsedFromObject(raw: Bytes, link: Link)
    requires var header := FetchExact(raw, link, 0, STREAM_HEADER_LEN);
      header.Success? && ParseStreamHeader(header.value).Success?
    ensures |raw| >= STREAM_HEADER_LEN
    ensures var (chunkPt, base) := ParseStreamHeader(raw[0..STREAM_HEADER_LEN]).value;
      && StreamHeader(chunkPt, base) <= raw && base == raw[8..8 + BASE_LEN] && |base| == BASE_LEN
      && 0 < chunkPt <= MAX_CHUNK_PT && chunkPt == FromBigEndian(raw[4..8])
  {
    ParsedHeaderIsPrinted(raw[0..STREAM_HEADER_LEN]);
    assert raw[0..STREAM_HEADER_LEN][4..8] == raw[4..8];
    assert raw[0..STREAM_HEADER_LEN][8..8 + BASE_LEN] == raw[8..8 + BASE_LEN];
    assert raw[0..STREAM_HEADER_LEN][..STREAM_HEADER_LEN] == raw[..STREAM_HEADER_LEN];
  }

  /**
   * Whatever happened to an object that still begins with its magic, to its header or behind it, and whatever fetches
   * fail: a stream never emits anything but a prefix of the true plaintext, and ends without an error exactly when it
   * emitted it all.
   */
  lemma DamagedStream(cipher: Cipher, key: Key, base: Bytes, chunkPt: nat, raw: Bytes, pt: Bytes, link: Link,
                      others: SealLog)
    requires cipher.Correct() && |base| == BASE_LEN && 0 < chunkPt <= MAX_CHUNK_PT && |pt| < U64
    requires IsStreamSealed(raw) && link.ranged(0, 4) && NamesFreshBase(raw, others)
    requires Unforged(cipher, key, others + LogOf(base, Pieces(pt, chunkPt)), raw)
    ensures var r := StreamOf(cipher, Some(key), raw, |pt|, link);
      r.Success? ==> Delivers(r.value, pt)
  {
    ProbeReads(raw, link);
    var header := FetchExact(raw, link, 0, STREAM_HEADER_LEN);
    if header.Success? && ParseStreamHeader(header.value).Success? {
      ParsedFromObject(raw, link);
      var (chunkPt', base') := ParseStreamHeader(header.value).value;
      if base' == base && chunkPt' == chunkPt {
        UnforgedIsGenuine(cipher, key, base, chunkPt, raw, pt, others);
        WholeWalkDelivers(cipher, key, base, chunkPt, raw, pt, link);
      } else {
        AlteredHeaderWalk(cipher, key, base, chunkPt, base', chunkPt', raw, pt, link, others);
      }
    }
  }

  // ---- Spans ----

  lemma QuotientSmall(a: nat, d: nat)
    requires d > 0
    ensures Quotient(a, d) <= a
  {
    var q := Quotient(a, d);
    MulMonotone(1, d, q);
  }

  /** A span walk whose first chunk is all of the plaintext, or an error. */
  lemma FirstDecides(fetch: nat -> Result<Bytes, StorageError>, pt: Bytes, chunkPt: nat, off: nat, len: nat)
    requires chunkPt > 0 && len > 0 && off + len <= |pt|
    requires var first := Quotient(off, chunkPt);
      fetch(first).Success? ==> fetch(first).value == pt && first == 0 && |pt| <= chunkPt
    ensures Delivers(SpanWalk(fetch, Quotient(off, chunkPt), Quotient(off + (len - 1), chunkPt),
                              Remainder(off, chunkPt), len), pt[off..off + len])
  {
    var first, last := Quotient(off, chunkPt), Quotient(off + (len - 1), chunkPt);
    MulGap(last, first, chunkPt);
    match fetch(first)
    case Failure(e) =>
      assert SpanWalk(fetch, first, last, Remainder(off, chunkPt), len) == [Broken(e)];
      BrokenDelivers(e, pt[off..off + len]);
    case Success(_) =>
      DivUnique(off, chunkPt, 0, off);
      DivUnique(off + (len - 1), chunkPt, 0, off + (len - 1));
      SpanUnfolds(fetch, pt, 0, 0, off, len);
      assert SpanWalk(fetch, 0, 0, off, len) == [Chunk(pt[off..off + len])];
      TextOne(pt[off..off + len]);
  }

  /** The window that a span reader opened. */
  lemma SpanChunkOpened(cipher: Cipher, key: Key, base: Bytes, chunkPt: nat, raw: Bytes, link: Link, kind: BackendKind,
                        index: nat, lo: nat, hi: nat)
    requires lo == ChunkOffset(chunkPt, index) && hi == Min(lo + (chunkPt + TAG_LEN), |raw|)
    requires SpanChunk(cipher, key, base, chunkPt, raw, link, kind, index).Success?
    ensures lo <= hi <= |raw|
    ensures OpenChunk(cipher, key, base, index, raw[lo..hi])
            == Some(SpanChunk(cipher, key, base, chunkPt, raw, link, kind, index).value)
  {
  }

  /** Under another object's base no chunk opens. */
  lemma OtherBaseOpensNothing(cipher: Cipher, key: Key, base: Bytes, chunkPt: nat, base': Bytes, raw: Bytes, pt: Bytes,
                              link: Link, kind: BackendKind, others: SealLog, index: nat)
    requires cipher.Correct() && |base| == |base'| == BASE_LEN && chunkPt > 0 && |pt| < U64 && base' != base
    requires FreshBase(base', others) && Unforged(cipher, key, others + LogOf(base, Pieces(pt, chunkPt)), raw)
    requires index < U64
    ensures SpanChunk(cipher, key, base', chunkPt, raw, link, kind, index).Failure?
  {
    PiecesFewer(pt, chunkPt);
    if SpanChunk(cipher, key, base', chunkPt, raw, link, kind, index).Success? {
      var lo := ChunkOffset(chunkPt, index);
      var hi := Min(lo + (chunkPt + TAG_LEN), |raw|);
      SpanChunkOpened(cipher, key, base', chunkPt, raw, link, kind, index, lo, hi);
      OpenedIsPiece(cipher, key, base, Pieces(pt, chunkPt), base', raw, others, index, lo, hi);
      assert false;
    }
  }

  lemma AlteredBaseSpan(cipher: Cipher, key: Key, base: Bytes, chunkPt: nat, base': Bytes, raw: Bytes, pt: Bytes,
                        link: Link, kind: BackendKind, others: SealLog, off: nat, len: nat)
    requires cipher.Correct() && |base| == |base'| == BASE_LEN && chunkPt > 0 && |pt| < U64 && base' != base
    requires FreshBase(base', others) && Unforged(cipher, key, others + LogOf(base, Pieces(pt, chunkPt)), raw)
    requires len > 0 && off + len <= |pt|
    ensures Delivers(SpanWalk(SpanFetcher(cipher, key, base', chunkPt, raw, link, kind),
                              Quotient(off, chunkPt), Quotient(off + (len - 1), chunkPt), Remainder(off, chunkPt), len),
                     pt[off..off + len])
  {
    QuotientSmall(off, chunkPt);
    OtherBaseOpensNothing(cipher, key, base, chunkPt, base', raw, pt, link, kind, others, Quotient(off, chunkPt));
    FirstDecides(SpanFetcher(cipher, key, base', chunkPt, raw, link, kind), pt, chunkPt, off, len);
  }

  /** The walk of a span under a header that names the chunk size. */
  lemma NamedSpan(cipher: Cipher, key: Key, base: Bytes, chunkPt: nat, base': Bytes, raw: Bytes, pt: Bytes,
                  link: Link, kind: BackendKind, others: SealLog, off: nat, len: nat)
    requires cipher.Correct() && |base| == |base'| == BASE_LEN && chunkPt > 0 && |pt| < U64
    requires FreshBase(base', others) && Unforged(cipher, key, others + LogOf(base, Pieces(pt, chunkPt)), raw)
    requires len > 0 && off + len <= |pt|
    ensures Delivers(SpanWalk(SpanFetcher(cipher, key, base', chunkPt, raw, link, kind),
                              Quotient(off, chunkPt), Quotient(off + (len - 1), chunkPt), Remainder(off, chunkPt), len),
                     pt[off..off + len])
  {
    if base' == base {
      UnforgedIsGenuine(cipher, key, base, chunkPt, raw, pt, others);
      WholeSpanDelivers(cipher, key, base, chunkPt, raw, pt, link, kind, off, len);
    } else {
      AlteredBaseSpan(cipher, key, base, chunkPt, base', raw, pt, link, kind, others, off, len);
    }
  }

  /** What a keyed span read of an object with the magic comes to. */
  lemma SpanIsWalk(cipher: Cipher, key: Key, raw: Bytes, link: Link, kind: BackendKind, off: nat, len: nat)
    requires IsStreamSealed(raw) && link.ranged(0, 4) && len > 0 && off + len <= U64
    ensures var header := FetchExact(raw, link, 0, STREAM_HEADER_LEN);
      var r := RangeStreamOf(cipher, Some(key), raw, link, kind, off, len);
      if header.Failure? || ParseStreamHeader(header.value).Failure? then r.Failure?
      else
        var (chunkPt, base) := ParseStreamHeader(header.value).value;
        r == Success(SpanWalk(SpanFetcher(cipher, key, base, chunkPt, raw, link, kind), Quotient(off, chunkPt),
                              Quotient(off + (len - 1), chunkPt), Remainder(off, chunkPt), len))
  {
    ProbeReads(raw, link);
  }

  /** The same for every span in bounds, as long as the header still names the chunk size. */
  lemma DamagedRange(cipher: Cipher, key: Key, base: Bytes, chunkPt: nat, raw: Bytes, pt: Bytes, link: Link,
                     kind: BackendKind, others: SealLog, off: nat, len: nat)
    requires cipher.Correct() && |base| == BASE_LEN && 0 < chunkPt <= MAX_CHUNK_PT && |pt| < U64
    requires IsStreamSealed(raw) && link.ranged(0, 4) && NamesFreshBase(raw, others) && NamesChunkSize(raw, chunkPt)
    requires Unforged(cipher, key, others + LogOf(base, Pieces(pt, chunkPt)), raw)
    requires off + len <= |pt|
    ensures var r := RangeStreamOf(cipher, Some(key), raw, link, kind, off, len);
      r.Success? ==> Delivers(r.value, pt[off..off + len])
  {
    if len > 0 {
      SpanIsWalk(cipher, key, raw, link, kind, off, len);
      var header := FetchExact(raw, link, 0, STREAM_HEADER_LEN);
      if header.Success? && ParseStreamHeader(header.value).Success? {
        ParsedFromObject(raw, link);
        var base' := ParseStreamHeader(header.value).value.1;
        NamedSpan(cipher, key, base, chunkPt, base', raw, pt, link, kind, others, off, len);
      }
    }
  }

  // ---- Spans under another chunk size ----

  /** The length of the last piece of a plaintext that is not empty. */
  function LastLength(n: nat, chunkPt: nat): int
    requires chunkPt > 0
  {
    n - (StreamChunkCount(n, chunkPt) - 1) * chunkPt
  }

  /**
   * A header that names `chunkPt'` for an object of `n` bytes cut at `chunkPt` does no harm to spans: it is the right
   * one, or the object is a single piece, or no piece is short enough to be opened under it.
   */
  predicate Harmless(chunkPt: nat, chunkPt': nat, n: nat)
    requires chunkPt > 0
  {
    chunkPt' == chunkPt || n <= chunkPt || chunkPt' < LastLength(n, chunkPt)
  }

  lemma LastPiece(pt: Bytes, chunkPt: nat)
    requires chunkPt > 0 && pt != []
    ensures var pieces := Pieces(pt, chunkPt);
      pieces != [] && |pieces[|pieces| - 1]| == LastLength(|pt|, chunkPt) <= chunkPt
  {
    PieceCount(pt, chunkPt);
    var last := |Pieces(pt, chunkPt)| - 1;
    PieceAt(pt, chunkPt, last);
    PieceLength(pt, chunkPt, last);
    Distribute(last, 1, chunkPt);
  }

  lemma OnePieceOrMore(pt: Bytes, chunkPt: nat)
    requires chunkPt > 0 && pt != []
    ensures |pt| <= chunkPt <==> |Pieces(pt, chunkPt)| == 1
    ensures |pt| <= chunkPt ==> Pieces(pt, chunkPt) == [pt]
  {
    if |pt| > chunkPt {
      assert Pieces(pt[chunkPt..], chunkPt) != [];
    }
  }

  lemma PieceLengths(pt: Bytes, chunkPt: nat, i: nat)
    requires chunkPt > 0 && i < |Pieces(pt, chunkPt)|
    ensures |Pieces(pt, chunkPt)[i]| == if i + 1 == |Pieces(pt, chunkPt)| then LastLength(|pt|, chunkPt) else chunkPt
    ensures LastLength(|pt|, chunkPt) <= chunkPt
    ensures |pt| <= chunkPt ==> Pieces(pt, chunkPt) == [pt]
  {
    PieceLength(pt, chunkPt, i);
    LastPiece(pt, chunkPt);
    OnePieceOrMore(pt, chunkPt);
  }

  /** Where the header is harmless, no chunk opens under it but a whole object. */
  lemma HarmlessOpens(cipher: Cipher, key: Key, base: Bytes, chunkPt: nat, base': Bytes, chunkPt': nat, raw: Bytes,
                      pt: Bytes, link: Link, kind: BackendKind, others: SealLog, first: nat)
    requires cipher.Correct() && |base| == |base'| == BASE_LEN && chunkPt > 0 && |pt| < U64 && first < U64
    requires chunkPt' != chunkPt && Harmless(chunkPt, chunkPt', |pt|)
    requires FreshBase(base', others) && Unforged(cipher, key, others + LogOf(base, Pieces(pt, chunkPt)), raw)
    ensures var got := SpanChunk(cipher, key, base', chunkPt', raw, link, kind, first);
      got.Success? ==> got.value == pt && first == 0 && |pt| <= chunkPt'
  {
    var got := SpanChunk(cipher, key, base', chunkPt', raw, link, kind, first);
    if got.Success? {
      var lo := ChunkOffset(chunkPt', first);
      PiecesFewer(pt, chunkPt);
      var hi := Min(lo + (chunkPt' + TAG_LEN), |raw|);
      SpanChunkOpened(cipher, key, base', chunkPt', raw, link, kind, first, lo, hi);
      OpenedIsPiece(cipher, key, base, Pieces(pt, chunkPt), base', raw, others, first, lo, hi);
      PieceLengths(pt, chunkPt, first);
    }
  }

  lemma HarmlessSpan(cipher: Cipher, key: Key, base: Bytes, chunkPt: nat, base': Bytes, chunkPt': nat, raw: Bytes,
                     pt: Bytes, link: Link, kind: BackendKind, others: SealLog, off: nat, len: nat)
    requires cipher.Correct() && |base| == |base'| == BASE_LEN && chunkPt > 0 && chunkPt' > 0 && |pt| < U64
    requires chunkPt' != chunkPt && Harmless(chunkPt, chunkPt', |pt|)
    requires FreshBase(base', others) && Unforged(cipher, key, others + LogOf(base, Pieces(pt, chunkPt)), raw)
    requires len > 0 && off + len <= |pt|
    ensures Delivers(SpanWalk(SpanFetcher(cipher, key, base', chunkPt', raw, link, kind), Quotient(off, chunkPt'),
                              Quotient(off + (len - 1), chunkPt'), Remainder(off, chunkPt'), len), pt[off..off + len])
  {
    var first := Quotient(off, chunkPt');
    QuotientSmall(off, chunkPt');
    HarmlessOpens(cipher, key, base, chunkPt, base', chunkPt', raw, pt, link, kind, others, first);
    FirstDecides(SpanFetcher(cipher, key, base', chunkPt', raw, link, kind), pt, chunkPt', off, len);
  }

  /** All that a damaged object may be, when its header names `chunkPt'` and a base of no other object. */
  ghost predicate Damages(cipher: Cipher, key: Key, base: Bytes, chunkPt: nat, chunkPt': nat, raw: Bytes, pt: Bytes,
                          link: Link, others: SealLog)
    requires chunkPt > 0
  {
    && cipher.Correct() && |base| == BASE_LEN
    && IsStreamSealed(raw) && link.ranged(0, 4) && NamesFreshBase(raw, others) && NamesChunkSize(raw, chunkPt')
    && Unforged(cipher, key, others + LogOf(base, Pieces(pt, chunkPt)), raw)
  }

  lemma HarmlessRange(cipher: Cipher, key: Key, base: Bytes, chunkPt: nat, chunkPt': nat, raw: Bytes, pt: Bytes,
                      link: Link, kind: BackendKind, others: SealLog, off: nat, len: nat)
    requires 0 < chunkPt <= MAX_CHUNK_PT && |pt| < U64 && off + len <= |pt|
    requires Damages(cipher, key, base, chunkPt, chunkPt', raw, pt, link, others)
    requires Harmless(chunkPt, chunkPt', |pt|)
    ensures var r := RangeStreamOf(cipher, Some(key), raw, link, kind, off, len);
      r.Success? ==> Delivers(r.value, pt[off..off + len])
  {
    if chunkPt' == chunkPt {
      DamagedRange(cipher, key, base, chunkPt, raw, pt, link, kind, others, off, len);
    } else if len > 0 {
      SpanIsWalk(cipher, key, raw, link, kind, off, len);
      var header := FetchExact(raw, link, 0, STREAM_HEADER_LEN);
      if header.Success? && ParseStreamHeader(header.value).Success? {
        ParsedFromObject(raw, link);
        var base' := ParseStreamHeader(header.value).value.1;
        HarmlessSpan(cipher, key, base, chunkPt, base', chunkPt', raw, pt, link, kind, others, off, len);
      }
    }
  }

  // ---- Truncated objects ----

  /** What is left of a written object holds whole chunks as they were written, and an exact fetch gets nothing else. */
  lemma TruncatedWalkIsSafe(cipher: Cipher, key: Key, base: Bytes, chunkPt: nat, pt: Bytes, n: nat, link: Link)
    requires cipher.Correct() && |base| == BASE_LEN && chunkPt > 0
    requires n <= |StreamObject(cipher, key, base, chunkPt, pt)|
    ensures WalkSafe(WalkFetcher(cipher, key, base, StreamObject(cipher, key, base, chunkPt, pt)[..n], link), chunkPt,
                     Pieces(pt, chunkPt))
  {
    var raw, pieces := StreamObject(cipher, key, base, chunkPt, pt), Pieces(pt, chunkPt);
    forall i: nat | i < |pieces|
      ensures var at := ChunkOffset(chunkPt, i);
        var got := WalkChunk(cipher, key, base, raw[..n], link, at, |pieces[i]| + TAG_LEN, i);
        got.Success? ==> got.value == pieces[i]
    {
      ChunkAt(cipher, key, base, chunkPt, pt, i);
      var at := ChunkOffset(chunkPt, i);
      if at + |pieces[i]| + TAG_LEN <= n {
        assert raw[..n][at..at + |pieces[i]| + TAG_LEN] == raw[at..at + |pieces[i]| + TAG_LEN];
      }
    }
  }

  /** The magic and the header survive a cut behind them. */
  lemma TruncatedBegins(cipher: Cipher, key: Key, base: Bytes, chunkPt: nat, pt: Bytes, n: nat)
    requires |base| == BASE_LEN && 0 < chunkPt <= MAX_CHUNK_PT
    requires n <= |StreamObject(cipher, key, base, chunkPt, pt)|
    ensures var cut := StreamObject(cipher, key, base, chunkPt, pt)[..n];
      && (n >= 4 ==> IsStreamSealed(cut))
      && (n >= STREAM_HEADER_LEN ==>
            && StreamHeader(chunkPt, base) <= cut
            && cut[8..8 + BASE_LEN] == base && FromBigEndian(cut[4..8]) == chunkPt)
  {
    var raw := StreamObject(cipher, key, base, chunkPt, pt);
    assert chunkPt < Capacity(4) by {
      assert Capacity(4) == 0x1_0000_0000;
    }
    HeaderRoundTrip(chunkPt, base, []);
    BigEndianRoundTrip(chunkPt, 4);
    assert raw[..STREAM_HEADER_LEN] == StreamHeader(chunkPt, base);
    assert raw[..4] == MAGIC_V2 && raw[4..8] == BigEndian(chunkPt, 4) && raw[8..8 + BASE_LEN] == base;
    if n >= 4 {
      assert raw[..n][..4] == raw[..4];
    }
    if n >= STREAM_HEADER_LEN {
      assert raw[..n][..STREAM_HEADER_LEN] == raw[..STREAM_HEADER_LEN];
      assert raw[..n][4..8] == raw[4..8] && raw[..n][8..8 + BASE_LEN] == raw[8..8 + BASE_LEN];
    }
  }

  /**
   * Truncation fails closed, over a backend that answers everything, exactly down to the four bytes of the magic: an
   * object cut shorter than its probe is streamed as it lies, to a clean end.
   */
  lemma TruncationFailsClosed(cipher: Cipher, key: Key, base: Bytes, chunkPt: nat, pt: Bytes, n: nat, link: Link)
    requires cipher.Correct() && |base| == BASE_LEN && 0 < chunkPt <= MAX_CHUNK_PT
    requires n <= |StreamObject(cipher, key, base, chunkPt, pt)|
    requires Healthy(link, StreamObject(cipher, key, base, chunkPt, pt)[..n])
    ensures var cut := StreamObject(cipher, key, base, chunkPt, pt)[..n];
      var r := StreamOf(cipher, Some(key), cut, |pt|, link);
      (r.Success? ==> Faithful(r.value, pt)) <==> n >= 4 || cut == pt
  {
    var cut := StreamObject(cipher, key, base, chunkPt, pt)[..n];
    TruncatedBegins(cipher, key, base, chunkPt, pt, n);
    ProbeReads(cut, link);
    if n >= STREAM_HEADER_LEN {
      HeaderReads(base, chunkPt, cut, link);
      TruncatedWalkIsSafe(cipher, key, base, chunkPt, pt, n, link);
      SafeWalkDelivers(WalkFetcher(cipher, key, base, cut, link), pt, chunkPt);
    }
  }

  /** A rest too short for the probe is taken for plaintext. */
  lemma StumpSpan(cipher: Cipher, key: Key, cut: Bytes, pt: Bytes, link: Link, kind: BackendKind, off: nat, len: nat)
    requires |cut| < 4 && Healthy(link, cut) && off + len <= |pt|
    ensures var r := RangeStreamOf(cipher, Some(key), cut, link, kind, off, len);
      (r.Success? ==> Faithful(r.value, pt[off..off + len]))
      <==> (len <= SPAN_SINGLE_MAX && off + len > |cut|) || Clip(cut, off, len) <= pt[off..off + len]
  {
    if len > SPAN_SINGLE_MAX {
      SkipTakeSlices(link.stream(cut), off, len);
    } else if off + len <= |cut| {
      TextOne(cut[off..off + len]);
    }
  }

  /**
   * The same for spans of an object cut anywhere behind its magic. A shorter rest is taken for plaintext, which does no
   * harm exactly when the span ends beyond it and is fetched in one piece, or what the rest has of it is right.
   */
  lemma TruncatedSpansFailClosed(cipher: Cipher, key: Key, base: Bytes, chunkPt: nat, pt: Bytes, n: nat, link: Link,
                                 kind: BackendKind, others: SealLog, off: nat, len: nat)
    requires cipher.Correct() && |base| == BASE_LEN && 0 < chunkPt <= MAX_CHUNK_PT && |pt| < U64
    requires n <= |StreamObject(cipher, key, base, chunkPt, pt)|
    requires Healthy(link, StreamObject(cipher, key, base, chunkPt, pt)[..n]) && FreshBase(base, others)
    requires Unforged(cipher, key, others + LogOf(base, Pieces(pt, chunkPt)),
                      StreamObject(cipher, key, base, chunkPt, pt)[..n])
    requires off + len <= |pt|
    ensures var cut := StreamObject(cipher, key, base, chunkPt, pt)[..n];
      var r := RangeStreamOf(cipher, Some(key), cut, link, kind, off, len);
      (r.Success? ==> Faithful(r.value, pt[off..off + len]))
      <==> n >= 4 || (len <= SPAN_SINGLE_MAX && off + len > n) || Clip(cut, off, len) <= pt[off..off + len]
  {
    var cut := StreamObject(cipher, key, base, chunkPt, pt)[..n];
    TruncatedBegins(cipher, key, base, chunkPt, pt, n);
    if n >= 4 {
      DamagedRange(cipher, key, base, chunkPt, cut, pt, link, kind, others, off, len);
    } else {
      StumpSpan(cipher, key, cut, pt, link, kind, off, len);
    }
  }

  /** Every written object that is cut to three bytes is served as those three. */
  lemma StumpIsServed(cipher: Cipher, key: Key, base: Bytes, chunkPt: nat, pt: Bytes, link: Link)
    requires cipher.Correct() && |base| == BASE_LEN && 0 < chunkPt <= MAX_CHUNK_PT
    requires Healthy(link, MAGIC_V2[..3])
    ensures var raw := StreamObject(cipher, key, base, chunkPt, pt);
      && |raw| >= STREAM_HEADER_LEN && raw[..3] == MAGIC_V2[..3]
      && var r := StreamOf(cipher, Some(key), raw[..3], |pt|, link);
      r.Success? && Complete(r.value) && Text(r.value) == MAGIC_V2[..3]
  {
    StoredLength(cipher, key, base, chunkPt, pt);
    assert StreamObject(cipher, key, base, chunkPt, pt)[..3] == MAGIC_V2[..3];
  }
}
