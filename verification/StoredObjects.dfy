/**
 * The promises of the store's read paths over whole stored objects, in all three on-disk formats and
 * under any pattern of backend failures.
 */
module StoredObjects {
  import opened ByteStrings
  import opened ObjectCrypt
  import opened StreamFormat
  import opened StreamLaws
  import opened StreamReads
  import opened Wrappers

  /** How an object lies in the store: legacy plaintext, a v1 whole-object seal, or v2 sealed chunks. */
  datatype Format = Plain | Whole(nonce: Bytes) | Chunked(base: Bytes, chunkPt: nat)

  /** A store configured with `key` can hold `pt` in this format and find it again. */
  predicate Storable(format: Format, key: Option<Key>, pt: Bytes) {
    match format
    case Plain => !IsEncrypted(pt) && !IsStreamSealed(pt)
    case Whole(nonce) => key.Some? && |nonce| == NONCE_LEN
    case Chunked(base, chunkPt) => key.Some? && |base| == BASE_LEN && 0 < chunkPt <= MAX_CHUNK_PT
  }

  function Stored(cipher: Cipher, format: Format, key: Option<Key>, pt: Bytes): Bytes
    requires Storable(format, key, pt)
  {
    match format
    case Plain => pt
    case Whole(nonce) => Seal(cipher, key.value, nonce, pt)
    case Chunked(base, chunkPt) => StreamObject(cipher, key.value, base, chunkPt, pt)
  }

  /** The bytes a client received so far belong to `target`, and a stream without an error carried all of it. */
  ghost predicate Faithful(items: seq<Item>, target: Bytes) {
    && Text(items) <= target
    && (Complete(items) ==> Text(items) == target)
  }

  // ---- The three formats, one read path at a time ----

  lemma ProbeReads(raw: Bytes, link: Link)
    ensures var probe := FetchExact(raw, link, 0, 4);
      && (probe.Success? <==> |raw| >= 4 && link.ranged(0, 4))
      && (probe.Success? ==>
            && (IsEncrypted(probe.value) <==> IsEncrypted(raw))
            && (IsStreamSealed(probe.value) <==> IsStreamSealed(raw)))
  {
    if |raw| >= 4 {
      assert raw[..4] == raw[0..4];
      if IsEncrypted(raw[0..4]) || IsStreamSealed(raw[0..4]) {
        assert raw == raw[..4] + raw[4..];
      }
    }
  }

  lemma Magics(raw: Bytes)
    requires |raw| >= 4
    ensures IsEncrypted(raw) <==> raw[..4] == MAGIC
    ensures IsStreamSealed(raw) <==> raw[..4] == MAGIC_V2
    ensures !(IsEncrypted(raw) && IsStreamSealed(raw))
  {
    assert MAGIC[3] != MAGIC_V2[3];
    assert raw == raw[..4] + raw[4..];
  }

  lemma StoredShape(cipher: Cipher, format: Format, key: Option<Key>, pt: Bytes)
    requires cipher.Correct() && Storable(format, key, pt)
    ensures var raw := Stored(cipher, format, key, pt);
      && (IsEncrypted(raw) <==> format.Whole?)
      && (IsStreamSealed(raw) <==> format.Chunked?)
      && (!format.Plain? ==> |raw| >= STREAM_HEADER_LEN && |raw| > |pt|)
  {
    match format
    case Plain =>
    case Whole(nonce) =>
      OpenInvertsSeal(cipher, key.value, nonce, pt, []);
      assert Seal(cipher, key.value, nonce, pt)[..4] == MAGIC;
      Magics(Stored(cipher, format, key, pt));
    case Chunked(base, chunkPt) =>
      StoredLength(cipher, key.value, base, chunkPt, pt);
      assert Stored(cipher, format, key, pt)[..4] == MAGIC_V2;
      Magics(Stored(cipher, format, key, pt));
  }

  /** The header read and parse both stream readers start with, over any object with that header. */
  lemma HeaderReads(base: Bytes, chunkPt: nat, raw: Bytes, link: Link)
    requires |base| == BASE_LEN && 0 < chunkPt <= MAX_CHUNK_PT
    requires StreamHeader(chunkPt, base) <= raw
    ensures IsStreamSealed(raw) && !IsEncrypted(raw) && |raw| >= STREAM_HEADER_LEN
    ensures var header := FetchExact(raw, link, 0, STREAM_HEADER_LEN);
      && (header.Success? <==> link.ranged(0, STREAM_HEADER_LEN))
      && (header.Success? ==> ParseStreamHeader(header.value) == Success((chunkPt, base)))
  {
    assert chunkPt < Capacity(4) by {
      assert Capacity(4) == 0x1_0000_0000;
    }
    HeaderRoundTrip(chunkPt, base, []);
    assert raw[0..STREAM_HEADER_LEN] == StreamHeader(chunkPt, base);
    assert raw[..4] == StreamHeader(chunkPt, base)[..4] == MAGIC_V2;
    Magics(raw);
  }

  lemma ChunkedBegins(cipher: Cipher, key: Key, base: Bytes, chunkPt: nat, pt: Bytes)
    requires chunkPt > 0
    ensures StreamHeader(chunkPt, base) <= StreamObject(cipher, key, base, chunkPt, pt)
  {
  }

  // ---- Objects whose chunks are genuine ----

  lemma ChunkedStream(cipher: Cipher, key: Key, base: Bytes, chunkPt: nat, raw: Bytes, pt: Bytes, link: Link)
    requires cipher.Correct() && |base| == BASE_LEN && 0 < chunkPt <= MAX_CHUNK_PT && |pt| < U64
    requires StreamHeader(chunkPt, base) <= raw && link.ranged(0, 4)
    requires Genuine(cipher, key, base, chunkPt, raw, pt)
    ensures var r := StreamOf(cipher, Some(key), raw, |pt|, link);
      && (r.Success? ==> Delivers(r.value, pt))
      && (raw == StreamObject(cipher, key, base, chunkPt, pt) && Answers(link) ==> r.Success? && Complete(r.value))
  {
    ProbeReads(raw, link);
    HeaderReads(base, chunkPt, raw, link);
    WholeWalkDelivers(cipher, key, base, chunkPt, raw, pt, link);
  }

  lemma ChunkedRange(cipher: Cipher, key: Key, base: Bytes, chunkPt: nat, raw: Bytes, pt: Bytes, link: Link,
                     kind: BackendKind,
                     off: nat, len: nat)
    requires cipher.Correct() && |base| == BASE_LEN && 0 < chunkPt <= MAX_CHUNK_PT && |pt| < U64
    requires StreamHeader(chunkPt, base) <= raw && link.ranged(0, 4)
    requires Genuine(cipher, key, base, chunkPt, raw, pt)
    requires off + len <= |pt|
    ensures var r := RangeStreamOf(cipher, Some(key), raw, link, kind, off, len);
      && (r.Success? ==> Delivers(r.value, pt[off..off + len]))
      && (raw == StreamObject(cipher, key, base, chunkPt, pt) && Answers(link) ==> r.Success? && Complete(r.value))
  {
    if len > 0 {
      ProbeReads(raw, link);
      HeaderReads(base, chunkPt, raw, link);
      WholeSpanDelivers(cipher, key, base, chunkPt, raw, pt, link, kind, off, len);
    }
  }

  // ---- Reading back what was stored ----

  /**
   * In every format a stream read emits only a prefix of the plaintext and, without an error, all of it;
   * over a healthy backend it succeeds. A sealed object needs its four-byte probe answered for this.
   */
  lemma StreamGivesBack(cipher: Cipher, format: Format, key: Option<Key>, pt: Bytes, link: Link)
    requires cipher.Correct() && Storable(format, key, pt) && |pt| < U64
    requires Honest(link, Stored(cipher, format, key, pt))
    requires format.Plain? || link.ranged(0, 4)
    ensures var raw := Stored(cipher, format, key, pt);
      var r := StreamOf(cipher, key, raw, |pt|, link);
      && (r.Success? ==> Faithful(r.value, pt))
      && (Healthy(link, raw) ==> r.Success? && Complete(r.value))
  {
    var raw := Stored(cipher, format, key, pt);
    ProbeReads(raw, link);
    StoredShape(cipher, format, key, pt);
    TextOne(pt);
    match format
    case Plain =>
    case Whole(nonce) => OpenInvertsSeal(cipher, key.value, nonce, pt, []);
    case Chunked(base, chunkPt) =>
      ChunkedBegins(cipher, key.value, base, chunkPt, pt);
      IntactIsGenuine(cipher, key.value, base, chunkPt, pt);
      ChunkedStream(cipher, key.value, base, chunkPt, raw, pt, link);
  }

  lemma RawSpanGivesBack(raw: Bytes, link: Link, off: nat, len: nat)
    requires Honest(link, raw) && off + len <= |raw|
    ensures var r := RawSpanOf(raw, link, off, len);
      && (r.Success? ==> Faithful(r.value, raw[off..off + len]))
      && (Healthy(link, raw) ==> r.Success? && Complete(r.value))
  {
    if len <= SPAN_SINGLE_MAX {
      TextOne(raw[off..off + len]);
      if len == 0 { TextOne([]); }
    } else {
      SkipTakeSlices(link.stream(raw), off, len);
      var body := Text(link.stream(raw));
      assert Clip(body, off, len) <= raw[off..off + len];
    }
  }

  /** The same promise for any span in bounds: a span read emits the bytes of that span of the plaintext. */
  lemma RangeGivesBack(cipher: Cipher, format: Format, key: Option<Key>, pt: Bytes, link: Link, kind: BackendKind,
                       off: nat, len: nat)
    requires cipher.Correct() && Storable(format, key, pt) && |pt| < U64
    requires Honest(link, Stored(cipher, format, key, pt))
    requires format.Plain? || link.ranged(0, 4)
    requires off + len <= |pt|
    ensures var raw := Stored(cipher, format, key, pt);
      var r := RangeStreamOf(cipher, key, raw, link, kind, off, len);
      && (r.Success? ==> Faithful(r.value, pt[off..off + len]))
      && (Healthy(link, raw) ==> r.Success? && Complete(r.value))
  {
    var raw := Stored(cipher, format, key, pt);
    if len > 0 {
      ProbeReads(raw, link);
      StoredShape(cipher, format, key, pt);
      TextOne(pt[off..off + len]);
      match format
      case Plain => RawSpanGivesBack(raw, link, off, len);
      case Whole(nonce) => OpenInvertsSeal(cipher, key.value, nonce, pt, []);
      case Chunked(base, chunkPt) =>
        ChunkedBegins(cipher, key.value, base, chunkPt, pt);
        IntactIsGenuine(cipher, key.value, base, chunkPt, pt);
        ChunkedRange(cipher, key.value, base, chunkPt, raw, pt, link, kind, off, len);
    }
  }

  /** The random-access path refines slicing the streamed object. */
  lemma RangeRefinesStream(cipher: Cipher, format: Format, key: Option<Key>, pt: Bytes, link: Link, link': Link,
                           kind: BackendKind,
                           off: nat, len: nat)
    requires cipher.Correct() && Storable(format, key, pt) && |pt| < U64
    requires Healthy(link, Stored(cipher, format, key, pt)) && Healthy(link', Stored(cipher, format, key, pt))
    requires off + len <= |pt|
    ensures var raw := Stored(cipher, format, key, pt);
      var whole, span := StreamOf(cipher, key, raw, |pt|, link), RangeStreamOf(cipher, key, raw, link', kind, off, len);
      && whole.Success? && span.Success? && Complete(whole.value) && Complete(span.value)
      && Text(whole.value) == pt
      && Text(span.value) == Text(whole.value)[off..off + len]
  {
    StreamGivesBack(cipher, format, key, pt, link);
    RangeGivesBack(cipher, format, key, pt, link', kind, off, len);
  }

  // ---- Where the promise ends ----

  /**
   * A sealed object whose four-byte probe fails for any reason but a missing file is served raw. So, over a
   * backend that then streams the object, only the answered probe keeps ciphertext from the client.
   */
  lemma ProbeGuardsSealedObjects(cipher: Cipher, format: Format, key: Option<Key>, pt: Bytes, link: Link)
    requires cipher.Correct() && Storable(format, key, pt) && !format.Plain? && |pt| < U64
    requires Honest(link, Stored(cipher, format, key, pt)) && Complete(link.stream(Stored(cipher, format, key, pt)))
    ensures var r := StreamOf(cipher, key, Stored(cipher, format, key, pt), |pt|, link);
      (r.Success? ==> Text(r.value) <= pt) <==> link.ranged(0, 4)
  {
    ProbeReads(Stored(cipher, format, key, pt), link);
    StoredShape(cipher, format, key, pt);
    if link.ranged(0, 4) {
      StreamGivesBack(cipher, format, key, pt, link);
    }
  }

  /** A backend that refuses every ranged read, and streams and reads whole objects as they are. */
  function Refusing(): Link {
    Link((_, _) => false, true, raw => [Chunk(raw)])
  }

  /** Over such a backend every sealed object leaves as ciphertext, with no error. */
  lemma RefusedProbeServesSealedBytes(cipher: Cipher, format: Format, key: Option<Key>, pt: Bytes)
    requires cipher.Correct() && Storable(format, key, pt) && !format.Plain?
    ensures var raw := Stored(cipher, format, key, pt);
      && Honest(Refusing(), raw)
      && StreamOf(cipher, key, raw, |pt|, Refusing()) == Success([Chunk(raw)])
      && Complete([Chunk(raw)]) && Text([Chunk(raw)]) == raw && !(raw <= pt)
  {
    TextOne(Stored(cipher, format, key, pt));
    StoredShape(cipher, format, key, pt);
  }

  /** The backend answers a raw read of this span, or streams the object to its end when the span is a long one. */
  predicate ServesSpan(link: Link, raw: Bytes, off: nat, len: nat) {
    if len <= SPAN_SINGLE_MAX then link.ranged(off, len) else Complete(link.stream(raw))
  }

  lemma RawSpanIsServed(raw: Bytes, link: Link, off: nat, len: nat)
    requires Honest(link, raw) && ServesSpan(link, raw, off, len) && off + len <= |raw|
    ensures var r := RawSpanOf(raw, link, off, len);
      r.Success? && Text(r.value) == raw[off..off + len]
  {
    if len <= SPAN_SINGLE_MAX {
      TextOne(raw[off..off + len]);
      if len == 0 { TextOne([]); }
    } else {
      SkipTakeSlices(link.stream(raw), off, len);
    }
  }

  /**
   * The same for spans: what a client gets of a sealed object, over a backend that serves the raw span, is plaintext
   * exactly when the probe was answered, or the ciphertext happens to have the very bytes asked for at that place.
   */
  lemma ProbeGuardsSealedSpans(cipher: Cipher, format: Format, key: Option<Key>, pt: Bytes, link: Link,
                               kind: BackendKind, off: nat, len: nat)
    requires cipher.Correct() && Storable(format, key, pt) && !format.Plain? && |pt| < U64
    requires Honest(link, Stored(cipher, format, key, pt))
    requires ServesSpan(link, Stored(cipher, format, key, pt), off, len) && off + len <= |pt|
    ensures var raw := Stored(cipher, format, key, pt);
      var r := RangeStreamOf(cipher, key, raw, link, kind, off, len);
      |raw| > |pt| &&
      ((r.Success? ==> Text(r.value) <= pt[off..off + len])
       <==> link.ranged(0, 4) || raw[off..off + len] == pt[off..off + len])
  {
    var raw := Stored(cipher, format, key, pt);
    StoredShape(cipher, format, key, pt);
    if link.ranged(0, 4) {
      RangeGivesBack(cipher, format, key, pt, link, kind, off, len);
    } else if len > 0 {
      ProbeReads(raw, link);
      RawSpanIsServed(raw, link, off, len);
    }
  }

  /** The object begins with "UWU1" or "UWU2". */
  predicate BeginsSealed(raw: Bytes) {
    [0x55, 0x57, 0x55, 0x31] <= raw || [0x55, 0x57, 0x55, 0x32] <= raw
  }

  /** Stored without a key, a plaintext streams back, but for one that begins with a seal's magic: that is an error. */
  lemma UnsealedReadsBack(cipher: Cipher, pt: Bytes, link: Link)
    requires cipher.Correct() && |pt| < U64 && Healthy(link, pt)
    ensures var r := StreamOf(cipher, None, pt, |pt|, link);
      && ((r.Success? && Complete(r.value) && Text(r.value) == pt) <==> !BeginsSealed(pt))
      && (r.Failure? <==> BeginsSealed(pt))
  {
    ProbeReads(pt, link);
  }

  /** So does every span of it, from either backend, and in one fetch or as a stream. */
  lemma UnsealedSpanReadsBack(cipher: Cipher, raw: Bytes, link: Link, kind: BackendKind, off: nat, len: nat)
    requires Healthy(link, raw) && len > 0 && off + len <= |raw|
    ensures var r := RangeStreamOf(cipher, None, raw, link, kind, off, len);
      && ((r.Success? && Complete(r.value) && Text(r.value) == raw[off..off + len]) <==> !BeginsSealed(raw))
      && (r.Failure? <==> BeginsSealed(raw))
  {
    ProbeReads(raw, link);
    RawSpanGivesBack(raw, link, off, len);
  }

  /** Whatever the backend does after an answered probe, a store without a key gives out no part of a sealed object. */
  lemma KeylessStoreRefuses(cipher: Cipher, raw: Bytes, ptLen: nat, link: Link, kind: BackendKind, off: nat, len: nat)
    requires BeginsSealed(raw) && link.ranged(0, 4) && len > 0
    ensures StreamOf(cipher, None, raw, ptLen, link).Failure?
    ensures RangeStreamOf(cipher, None, raw, link, kind, off, len).Failure?
  {
    ProbeReads(raw, link);
  }

  /** The object is this plaintext, or a v1 seal of it under the configured key. */
  ghost predicate ReadsAs(cipher: Cipher, key: Option<Key>, raw: Bytes, pt: Bytes) {
    if IsEncrypted(raw) then
      key.Some? && exists nonce: Bytes :: |nonce| == NONCE_LEN && raw == Seal(cipher, key.value, nonce, pt)
    else raw == pt
  }

  /** A buffered read of any bytes whatever gives exactly what they read as, and an error when that is nothing. */
  lemma BufferedReadsAs(cipher: Cipher, key: Option<Key>, raw: Bytes, pt: Bytes)
    requires cipher.Correct()
    ensures DecryptIfNeeded(cipher, key, raw) == Success(pt) <==> ReadsAs(cipher, key, raw, pt)
  {
    if IsEncrypted(raw) && key.Some? {
      OpenInvertsSeal(cipher, key.value, seq(NONCE_LEN, _ => 0), [], raw);
      if Open(cipher, key.value, raw) == Some(pt) {
        assert raw == Seal(cipher, key.value, raw[4..4 + NONCE_LEN], pt);
      }
      forall nonce: Bytes | |nonce| == NONCE_LEN && raw == Seal(cipher, key.value, nonce, pt)
        ensures Open(cipher, key.value, raw) == Some(pt)
      {
        OpenInvertsSeal(cipher, key.value, nonce, pt, raw);
      }
    }
  }

  /** What `Store::put` writes reads as what it was given, unless a keyless store is given a seal's magic. */
  lemma WholeSealReadsAs(cipher: Cipher, key: Option<Key>, nonce: Bytes, pt: Bytes)
    requires |nonce| == NONCE_LEN
    ensures ReadsAs(cipher, key, if key.Some? then Seal(cipher, key.value, nonce, pt) else pt, pt)
            <==> key.Some? || !IsEncrypted(pt)
  {
    if key.Some? {
      assert MAGIC <= Seal(cipher, key.value, nonce, pt);
    }
  }

  /**
   * `Store::get` buffers an object but never looks for v2 chunks: it gives back plaintext and v1 seals, and hands out
   * a v2 object as it lies.
   */
  lemma BufferedGetGivesBack(cipher: Cipher, format: Format, key: Option<Key>, pt: Bytes)
    requires cipher.Correct() && Storable(format, key, pt)
    ensures var raw := Stored(cipher, format, key, pt);
      DecryptIfNeeded(cipher, key, raw) == Success(if format.Chunked? then raw else pt)
    ensures DecryptIfNeeded(cipher, key, Stored(cipher, format, key, pt)) == Success(pt) <==> !format.Chunked?
  {
    StoredShape(cipher, format, key, pt);
    if format.Whole? {
      OpenInvertsSeal(cipher, key.value, format.nonce, pt, []);
    }
  }

  /**
   * With a key, an object that is not in chunks streams as what it reads as, whoever wrote it, and does not stream when
   * that is nothing, as under another key. Spans are cut from the same.
   */
  lemma KeyedReadsAs(cipher: Cipher, key: Key, raw: Bytes, ptLen: nat, pt: Bytes, link: Link, kind: BackendKind,
                     off: nat, len: nat)
    requires cipher.Correct() && Healthy(link, raw) && |raw| >= 4 && !([0x55, 0x57, 0x55, 0x32] <= raw)
    ensures StreamOf(cipher, Some(key), raw, ptLen, link) == Success([Chunk(pt)])
       <==> ReadsAs(cipher, Some(key), raw, pt)
    ensures var r := RangeStreamOf(cipher, Some(key), raw, link, kind, off, len);
      [0x55, 0x57, 0x55, 0x31] <= raw && len > 0 ==>
        && (ReadsAs(cipher, Some(key), raw, pt) && off + len <= |pt| ==> r == Success([Chunk(pt[off..off + len])]))
        && (r.Success? ==> exists pt :: ReadsAs(cipher, Some(key), raw, pt) && off + len <= |pt|)
  {
    ProbeReads(raw, link);
    Magics(raw);
    BufferedReadsAs(cipher, Some(key), raw, pt);
    var read := DecryptIfNeeded(cipher, Some(key), raw);
    if read.Success? {
      BufferedReadsAs(cipher, Some(key), raw, read.value);
    }
  }

  /** A sealed object that is not in chunks is read whole, or not at all, also for a span of it. */
  lemma SealedIsReadWhole(cipher: Cipher, key: Key, raw: Bytes, ptLen: nat, link: Link, kind: BackendKind, off: nat,
                          len: nat)
    requires [0x55, 0x57, 0x55, 0x31] <= raw && link.ranged(0, 4) && !link.whole && len > 0
    ensures StreamOf(cipher, Some(key), raw, ptLen, link).Failure?
    ensures RangeStreamOf(cipher, Some(key), raw, link, kind, off, len).Failure?
  {
    ProbeReads(raw, link);
    Magics(raw);
  }
}
