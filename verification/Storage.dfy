/** The object store: spooled uploads in, plaintext streams out. */
module Storage {
  import opened Arithmetic
  import opened ByteStrings
  import opened Multipart
  import opened ObjectCrypt
  import opened StreamFormat
  import opened StoredObjects
  import opened StreamReads
  import opened Wrappers

  /** A spooled upload, read through a cursor. Any read may come back short. */
  class SpoolFile {
    const data: Bytes
    var pos: nat

    ghost predicate Valid()
      reads this
    {
      pos <= |data|
    }

    constructor (data: Bytes)
      ensures Valid() && this.data == data && pos == 0
    {
      this.data := data;
      pos := 0;
    }

    /** At least one byte and at most `limit` of them; nothing only at the end of the file. */
    method Read(limit: nat) returns (got: Bytes)
      requires Valid()
      modifies this`pos
      ensures Valid() && pos == old(pos) + |got| && got == data[old(pos)..pos]
      ensures |got| <= limit
      ensures got == [] <==> limit == 0 || old(pos) == |data|
    {
      if limit == 0 || pos == |data| {
        return [];
      }
      var most := Min(limit, |data| - pos);
      var n :| 1 <= n <= most;
      got := data[pos..pos + n];
      pos := pos + n;
    }

    /** Read until the buffer is full or the file ends. */
    method Fill(buf: array<byte>) returns (filled: nat)
      requires Valid()
      modifies this`pos, buf
      ensures Valid() && pos == old(pos) + filled && filled <= buf.Length
      ensures buf[..filled] == data[old(pos)..][..filled]
      ensures filled < buf.Length ==> pos == |data|
    {
      filled := 0;
      while filled < buf.Length
        invariant Valid() && filled <= buf.Length && pos == old(pos) + filled
        invariant buf[..filled] == data[old(pos)..pos]
      {
        var got := Read(buf.Length - filled);
        if got == [] {
          break;
        }
        ghost var before := buf[..filled];
        forall i | 0 <= i < |got| {
          buf[filled + i] := got[i];
        }
        assert buf[..filled + |got|] == before + got;
        assert data[old(pos)..pos] == data[old(pos)..old(pos) + filled] + got;
        filled := filled + |got|;
      }
    }
  }

  /** The seal of one upload: its key and its fresh base nonce. */
  datatype Framing = Framing(key: Key, base: Bytes)

  /** What the pump sends for these plaintext pieces. */
  function Framed(cipher: Cipher, framing: Option<Framing>, pieces: seq<Bytes>): (r: seq<Bytes>)
    ensures |r| == |pieces|
  {
    match framing
    case None => pieces
    case Some(f) => SealPieces(cipher, f.key, f.base, pieces)
  }

  function FramePiece(cipher: Cipher, framing: Option<Framing>, index: nat, piece: Bytes): Bytes {
    match framing
    case None => piece
    case Some(f) => SealChunk(cipher, f.key, f.base, index, piece)
  }

  lemma FramedAppend(cipher: Cipher, framing: Option<Framing>, pieces: seq<Bytes>, piece: Bytes)
    ensures Framed(cipher, framing, pieces + [piece])
         == Framed(cipher, framing, pieces) + [FramePiece(cipher, framing, |pieces|, piece)]
  {
  }

  function Header(framing: Option<Framing>, chunkPt: nat): Bytes {
    match framing
    case None => []
    case Some(f) => StreamHeader(chunkPt, f.base)
  }

  /** What a successful `put_file` leaves in the store. */
  function Uploaded(cipher: Cipher, framing: Option<Framing>, chunkPt: nat, pt: Bytes): Bytes
    requires chunkPt > 0
  {
    match framing
    case None => pt
    case Some(f) => StreamObject(cipher, f.key, f.base, chunkPt, pt)
  }

  /** The v2 header is fused onto the first piece, never sent alone. */
  function Fused(header: Bytes, pieces: seq<Bytes>): seq<Bytes>
    requires pieces != []
  {
    [header + pieces[0]] + pieces[1..]
  }

  lemma FusedJoins(header: Bytes, pieces: seq<Bytes>)
    requires pieces != []
    ensures Flatten(Fused(header, pieces)) == header + Flatten(pieces)
  {
    assert Fused(header, pieces)[1..] == pieces[1..];
  }

  lemma UploadedJoins(cipher: Cipher, framing: Option<Framing>, chunkPt: nat, pt: Bytes)
    requires chunkPt > 0
    ensures Uploaded(cipher, framing, chunkPt, pt)
         == Header(framing, chunkPt) + Flatten(Framed(cipher, framing, Pieces(pt, chunkPt)))
  {
    PiecesJoin(pt, chunkPt);
  }

  /** With the 8 MiB chunk every part but the last is above S3's minimum, sealed or not. */
  lemma NonFinalPartsAreLarge(cipher: Cipher, framing: Option<Framing>, pt: Bytes, i: nat)
    requires cipher.Correct()
    requires i + 1 < |Pieces(pt, STREAM_CHUNK_PT)|
    ensures var parts := Fused(Header(framing, STREAM_CHUNK_PT), Framed(cipher, framing, Pieces(pt, STREAM_CHUNK_PT)));
      |parts[i]| > 5 * 1024 * 1024
  {
    PieceLength(pt, STREAM_CHUNK_PT, i);
  }

  function FramingFor(key: Option<Key>, base: Bytes): Option<Framing> {
    match key
    case None => None
    case Some(k) => Some(Framing(k, base))
  }

  /**
   * What `put_file` leaves behind reads back: streamed whole it is the uploaded plaintext, and any span of
   * it is that span of the plaintext. Empty uploads and exact multiples of the chunk size are no exception.
   */
  lemma PutFileThenRead(cipher: Cipher, key: Option<Key>, base: Bytes, chunkPt: nat, pt: Bytes, link: Link,
                        kind: BackendKind,
                        off: nat, len: nat)
    requires cipher.Correct() && |base| == BASE_LEN && 0 < chunkPt <= MAX_CHUNK_PT && |pt| < U64
    requires key.None? ==> !IsEncrypted(pt) && !IsStreamSealed(pt)
    requires Healthy(link, Uploaded(cipher, FramingFor(key, base), chunkPt, pt))
    requires off + len <= |pt|
    ensures var raw := Uploaded(cipher, FramingFor(key, base), chunkPt, pt);
      var whole, span := StreamOf(cipher, key, raw, |pt|, link), RangeStreamOf(cipher, key, raw, link, kind, off, len);
      && whole.Success? && Complete(whole.value) && Text(whole.value) == pt
      && span.Success? && Complete(span.value) && Text(span.value) == pt[off..off + len]
  {
    var format := if key.None? then Plain else Chunked(base, chunkPt);
    RangeRefinesStream(cipher, format, key, pt, link, link, kind, off, len);
  }

  /**
   * The same for the chunks the store ships with, of 8 MiB: every upload shorter than 2^64 bytes reads back, whole and
   * by span, from a store with a key and from one without, if it does not begin with a seal's magic there.
   */
  lemma ShippedChunksReadBack(cipher: Cipher, key: Option<Key>, base: Bytes, pt: Bytes, link: Link, kind: BackendKind,
                              off: nat, len: nat)
    requires cipher.Correct() && |base| == 16 && |pt| < 0x1_0000_0000_0000_0000
    requires key.Some? || !BeginsSealed(pt)
    requires Healthy(link, Uploaded(cipher, FramingFor(key, base), STREAM_CHUNK_PT, pt))
    requires off + len <= |pt|
    ensures STREAM_CHUNK_PT == 0x80_0000
    ensures var raw := Uploaded(cipher, FramingFor(key, base), STREAM_CHUNK_PT, pt);
      var whole, span := StreamOf(cipher, key, raw, |pt|, link), RangeStreamOf(cipher, key, raw, link, kind, off, len);
      && whole.Success? && Complete(whole.value) && Text(whole.value) == pt
      && span.Success? && Complete(span.value) && Text(span.value) == pt[off..off + len]
  {
    PutFileThenRead(cipher, key, base, STREAM_CHUNK_PT, pt, link, kind, off, len);
  }

  /** Which of the backend's answers to an upload are successes: a plain PUT, or the steps of a streamed one. */
  datatype Uplink = Uplink(put: bool, create: bool, part: nat -> bool, complete: bool)

  predicate AllParts(uplink: Uplink, n: nat) {
    forall no: nat | 1 <= no <= n :: uplink.part(no)
  }

  /** Nothing is cut from an empty spool, one piece up to the size of a chunk, and else as many as there are chunks. */
  lemma PiecesNeeded(pt: Bytes, chunkPt: nat)
    requires chunkPt > 0
    ensures var n := |Pieces(pt, chunkPt)|;
      (n == 0 <==> pt == []) && (n == 1 <==> 0 < |pt| <= chunkPt) && n == StreamChunkCount(|pt|, chunkPt)
  {
    PieceCount(pt, chunkPt);
    if |pt| > chunkPt {
      PieceAt(pt, chunkPt, 0);
    }
  }

  /** A key the store accepts (`assert_safe_key`). */
  predicate SafeKey(key: string) {
    && key != "" && key[0] != '/'
    && forall i | 0 <= i < |key| - 1 :: !(key[i] == '.' && key[i + 1] == '.')
  }

  /** It refuses the empty key, a path from the root, and whatever has two dots in a row. */
  lemma UnsafeKeys(a: string, b: string)
    ensures !SafeKey("") && !SafeKey("/" + a) && !SafeKey(a + ".." + b)
  {
    var key := a + ".." + b;
    assert key[|a|] == '.' && key[|a| + 1] == '.';
  }

  lemma Associate<T>(a: seq<T>, b: seq<T>, c: seq<T>)
    ensures a + (b + c) == a + b + c
  {
  }

  class Store {
    const cipher: Cipher
    const kind: BackendKind
    const encryptionKey: Option<Key>
    const chunkPt: nat
    var objects: map<string, Bytes>

    constructor (cipher: Cipher, kind: BackendKind, encryptionKey: Option<Key>, chunkPt: nat)
      ensures this.cipher == cipher && this.kind == kind && this.encryptionKey == encryptionKey
      ensures this.chunkPt == chunkPt && objects == map[]
    {
      this.cipher, this.kind, this.encryptionKey, this.chunkPt := cipher, kind, encryptionKey, chunkPt;
      objects := map[];
    }

    // ---- Writing ----

    method RawPut(key: string, bytes: Bytes, uplink: Uplink) returns (r: Result<(), StorageError>)
      requires SafeKey(key)
      modifies this`objects
      ensures r.Success? <==> uplink.put
      ensures objects == if r.Success? then old(objects)[key := bytes] else old(objects)
    {
      if !uplink.put {
        return Failure(Backend("put failed"));
      }
      objects := objects[key := bytes];
      r := Success(());
    }

    /** Cut the spool into chunk-sized pieces, whatever sizes its reads come in, and seal each under its index. */
    method Pump(file: SpoolFile, framing: Option<Framing>) returns (sent: seq<Bytes>)
      requires file.Valid() && file.pos == 0 && chunkPt > 0
      modifies file`pos
      ensures sent == Framed(cipher, framing, Pieces(file.data, chunkPt))
    {
      var buf := new byte[chunkPt];
      ghost var plain: seq<Bytes> := [];
      sent := [];
      while true
        invariant file.Valid()
        invariant plain + Pieces(file.data[file.pos..], chunkPt) == Pieces(file.data, chunkPt)
        invariant sent == Framed(cipher, framing, plain)
        decreases |file.data| - file.pos
      {
        ghost var rest := file.data[file.pos..];
        var filled := file.Fill(buf);
        if filled == 0 {
          break;
        }
        assert file.data[file.pos..] == rest[filled..];
        PiecesStep(rest, chunkPt, filled);
        FramedAppend(cipher, framing, plain, rest[..filled]);
        Associate(plain, [rest[..filled]], Pieces(rest[filled..], chunkPt));
        plain := plain + [rest[..filled]];
        sent := sent + [FramePiece(cipher, framing, |sent|, buf[..filled])];
        if filled < buf.Length {
          break;
        }
      }
    }

    /** Sequential write to a temporary sibling, published by the rename. */
    method StreamWrite(key: string, parts: seq<Bytes>, uplink: Uplink) returns (r: Result<(), StorageError>)
      requires SafeKey(key)
      modifies this`objects
      ensures r.Success? <==> uplink.create && uplink.complete && AllParts(uplink, |parts|)
      ensures objects == if r.Success? then old(objects)[key := Flatten(parts)] else old(objects)
    {
      if !uplink.create {
        return Failure(Backend("create failed"));
      }
      var tmp: Bytes := [];
      for i := 0 to |parts|
        invariant tmp == Flatten(parts[..i])
        invariant AllParts(uplink, i)
        invariant objects == old(objects)
      {
        if !uplink.part(i + 1) {
          return Failure(Backend("write failed"));
        }
        assert parts[..i + 1] == parts[..i] + [parts[i]];
        FlattenAppend(parts[..i], [parts[i]]);
        assert Flatten([parts[i]]) == parts[i] + Flatten([]);
        tmp := tmp + parts[i];
      }
      assert parts[..|parts|] == parts;
      if !uplink.complete {
        return Failure(Backend("rename failed"));
      }
      objects := objects[key := tmp];
      r := Success(());
    }

    /**
     * Concurrent part uploads. Which in-flight part finishes next, and whether one is joined before the
     * next piece arrives, is left open; the outcome does not depend on it.
     */
    method UploadParts(parts: seq<Bytes>, uplink: Uplink)
      returns (etags: seq<nat>, uploaded: map<nat, Bytes>, failed: bool)
      ensures failed <==> !AllParts(uplink, |parts|)
      ensures !failed ==> PartsInv(parts, uplink.part, |parts|, {}, etags, uploaded)
    {
      var partNo: nat, inFlight: set<nat> := 0, {};
      etags, uploaded, failed := [], map[], false;
      while true
        invariant PartsInv(parts, uplink.part, partNo, inFlight, etags, uploaded)
        decreases 2 * (|parts| - partNo) + |inFlight|
      {
        var joins: bool := *;
        if inFlight != {} && joins {
          var no :| no in inFlight;
          if !uplink.part(no) {
            failed := true;
            break;
          }
          PartJoins(parts, uplink.part, partNo, inFlight, etags, uploaded, no);
          inFlight, etags, uploaded := inFlight - {no}, etags + [no], uploaded[no := parts[no - 1]];
        } else {
          if partNo == |parts| {
            break;
          }
          PartStarts(parts, uplink.part, partNo, inFlight, etags, uploaded);
          partNo := partNo + 1;
          inFlight := inFlight + {partNo};
        }
      }
      assert failed ==> !AllParts(uplink, |parts|);
      // Nothing outlives the call: the rest is drained, and any failure is remembered.
      while inFlight != {}
        invariant failed ==> !AllParts(uplink, |parts|)
        invariant !failed ==> partNo == |parts|
        invariant PartsInv(parts, uplink.part, partNo, inFlight, etags, uploaded) || failed
        invariant forall no | no in inFlight :: 1 <= no <= |parts|
      {
        var no :| no in inFlight;
        if uplink.part(no) {
          if !failed {
            PartJoins(parts, uplink.part, partNo, inFlight, etags, uploaded, no);
          }
          etags, uploaded := etags + [no], uploaded[no := parts[no - 1]];
        } else {
          failed := true;
        }
        inFlight := inFlight - {no};
      }
    }

    method MultipartUpload(key: string, parts: seq<Bytes>, uplink: Uplink) returns (r: Result<(), StorageError>)
      requires SafeKey(key)
      modifies this`objects
      ensures r.Success? <==> uplink.create && uplink.complete && parts != [] && AllParts(uplink, |parts|)
      ensures objects == if r.Success? then old(objects)[key := Flatten(parts)] else old(objects)
    {
      if !uplink.create {
        return Failure(Backend("create failed"));
      }
      var etags, uploaded, failed := UploadParts(parts, uplink);
      if failed {
        return Failure(Backend("part upload failed"));
      }
      if etags == [] {
        assert parts != [] ==> 1 in etags;
        return Failure(Backend("no parts uploaded"));
      }
      SortedCompletions(etags, |parts|);
      AssembleNumbers(uploaded, parts, |parts|);
      assert parts[..|parts|] == parts;
      if !uplink.complete {
        return Failure(Backend("complete failed"));
      }
      objects := objects[key := Assemble(uploaded, SortParts(etags))];
      r := Success(());
    }

    /** Store a spooled upload of `ptLen` bytes. */
    method PutFile(key: string, file: SpoolFile, ptLen: nat, base: Bytes, uplink: Uplink)
      returns (r: Result<(), StorageError>)
      requires SafeKey(key) && chunkPt > 0 && file.Valid() && file.pos == 0
      modifies this`objects, file`pos
      ensures r.Success? <==>
        if file.data == [] then ptLen == 0 && uplink.put
        else if |file.data| <= chunkPt then uplink.put
        else uplink.create && uplink.complete && AllParts(uplink, StreamChunkCount(|file.data|, chunkPt))
      ensures objects == if !r.Success? then old(objects)
        else old(objects)[key := Uploaded(cipher, FramingFor(encryptionKey, base), chunkPt, file.data)]
    {
      var framing := FramingFor(encryptionKey, base);
      var header := Header(framing, chunkPt);
      var sent := Pump(file, framing);
      PiecesNeeded(file.data, chunkPt);
      UploadedJoins(cipher, framing, chunkPt, file.data);
      assert Uploaded(cipher, framing, chunkPt, file.data) == header + Flatten(sent);
      if sent == [] {
        assert header + Flatten(sent) == header;
        if ptLen == 0 {
          r := RawPut(key, header, uplink);
        } else {
          r := Failure(Backend("upload spool vanished"));
        }
      } else if |sent| == 1 {
        assert Flatten(sent) == sent[0] + Flatten(sent[1..]) && sent[1..] == [];
        assert header + Flatten(sent) == header + sent[0];
        r := RawPut(key, header + sent[0], uplink);
      } else {
        FusedJoins(header, sent);
        if kind == Local {
          r := StreamWrite(key, Fused(header, sent), uplink);
        } else {
          r := MultipartUpload(key, Fused(header, sent), uplink);
        }
      }
    }

    /** Store a small object whole (v1 seal); it reads back, but for a seal's magic given to a keyless store. */
    method Put(key: string, bytes: Bytes, nonce: Bytes, uplink: Uplink) returns (r: Result<(), StorageError>)
      requires SafeKey(key)
      modifies this`objects
      ensures r.Success? <==> uplink.put
      ensures objects == if !r.Success? then old(objects)
        else old(objects)[key := if encryptionKey.Some? then Seal(cipher, encryptionKey.value, nonce, bytes) else bytes]
      ensures r.Success? && |nonce| == NONCE_LEN ==>
        (ReadsAs(cipher, encryptionKey, objects[key], bytes) <==> encryptionKey.Some? || !IsEncrypted(bytes))
    {
      if |nonce| == NONCE_LEN {
        WholeSealReadsAs(cipher, encryptionKey, nonce, bytes);
      }
      var stored := if encryptionKey.Some? then Seal(cipher, encryptionKey.value, nonce, bytes) else bytes;
      r := RawPut(key, stored, uplink);
    }

    /** Deleting a missing object succeeds; any other error of the backend is passed on, with nothing deleted. */
    method Delete(key: string, answers: bool) returns (r: Result<(), StorageError>)
      requires SafeKey(key)
      modifies this`objects
      ensures r.Success? <==> answers
      ensures r.Success? ==> key !in objects && objects == old(objects) - {key}
      ensures r.Failure? ==> r.error != NotFound && objects == old(objects)
    {
      if !answers {
        return Failure(Backend("delete failed"));
      }
      objects := objects - {key};
      r := Success(());
    }

    // ---- Reading ----

    /** The task that `get_stream` spawns. */
    method WalkChunks(fetch: (nat, nat, nat) -> Result<Bytes, StorageError>, chunk: nat, ptLen: nat)
      returns (items: seq<Item>)
      requires chunk > 0
      ensures items == ChunkWalk(fetch, chunk, STREAM_HEADER_LEN, ptLen, 0, StreamChunkCount(ptLen, chunk))
    {
      var count := StreamChunkCount(ptLen, chunk);
      var off: nat, remaining: nat := STREAM_HEADER_LEN, ptLen;
      items := [];
      ghost var rest := ChunkWalk(fetch, chunk, off, remaining, 0, count);
      ghost var whole := rest;
      for index := 0 to count
        invariant rest == ChunkWalk(fetch, chunk, off, remaining, index, count)
        invariant items + rest == whole
      {
        var here := Min(remaining, chunk);
        var got := fetch(off, here + TAG_LEN, index);
        if got.Failure? {
          return items + [Broken(got.error)];
        }
        off, remaining := off + here + TAG_LEN, remaining - here;
        rest := ChunkWalk(fetch, chunk, off, remaining, index + 1, count);
        Associate(items, [Chunk(got.value)], rest);
        items := items + [Chunk(got.value)];
      }
    }

    method GetStream(key: string, ptLen: nat, link: Link) returns (r: Result<seq<Item>, StorageError>)
      requires SafeKey(key)
      ensures r == if key !in objects then Failure(NotFound)
        else StreamOf(cipher, encryptionKey, objects[key], ptLen, link)
    {
      if key !in objects {
        return Failure(NotFound);
      }
      var raw := objects[key];
      var probe := FetchExact(raw, link, 0, 4);
      if probe.Failure? {
        return Success(link.stream(raw));
      }
      if encryptionKey.None? {
        if IsEncrypted(probe.value) || IsStreamSealed(probe.value) {
          return Failure(Backend("object is encrypted but UWUU_STORAGE_ENCRYPTION_KEY is unset"));
        }
        return Success(link.stream(raw));
      }
      if !IsStreamSealed(probe.value) {
        if !link.whole {
          return Failure(Backend("read failed"));
        }
        var pt := DecryptIfNeeded(cipher, encryptionKey, raw);
        return if pt.Success? then Success([Chunk(pt.value)]) else Failure(pt.error);
      }
      var header := FetchExact(raw, link, 0, STREAM_HEADER_LEN);
      if header.Failure? {
        return Failure(header.error);
      }
      var parsed := ParseStreamHeader(header.value);
      if parsed.Failure? {
        return Failure(Backend(parsed.error));
      }
      var (chunk, base) := parsed.value;
      var items := WalkChunks(WalkFetcher(cipher, encryptionKey.value, base, raw, link), chunk, ptLen);
      r := Success(items);
    }

    /** A plaintext span: one ranged fetch, or the raw stream with skip and take. */
    method RawSpanStream(raw: Bytes, off: nat, len: nat, link: Link) returns (r: Result<seq<Item>, StorageError>)
      ensures r == RawSpanOf(raw, link, off, len)
    {
      if len <= SPAN_SINGLE_MAX {
        var bytes := FetchExact(raw, link, off, len);
        return if bytes.Success? then Success([Chunk(bytes.value)]) else Failure(bytes.error);
      }
      var inner := link.stream(raw);
      var skip: nat, take: nat, next: nat := off, len, 0;
      var items: seq<Item> := [];
      while take > 0
        invariant next <= |inner|
        invariant items + SkipTake(inner[next..], skip, take) == SkipTake(inner, off, len)
        decreases |inner| - next
      {
        if next == |inner| {
          assert inner[next..] == [];
          assert items + [Broken(Backend("truncated span"))] == SkipTake(inner, off, len);
          return Success(items + [Broken(Backend("truncated span"))]);
        }
        var item := inner[next];
        assert inner[next..] == [item] + inner[next + 1..] && inner[next..][1..] == inner[next + 1..];
        next := next + 1;
        if item.Broken? {
          assert SkipTake([item] + inner[next..], skip, take) == [item];
          assert items + [item] == SkipTake(inner, off, len);
          return Success(items + [item]);
        }
        if skip >= |item.data| {
          skip := skip - |item.data|;
          continue;
        }
        var start := skip;
        skip := 0;
        var end := Min(start + take, |item.data|);
        take := take - (end - start);
        Associate(items, [Chunk(item.data[start..end])], SkipTake(inner[next..], 0, take));
        items := items + [Chunk(item.data[start..end])];
      }
      assert items == SkipTake(inner, off, len);
      r := Success(items);
    }

    /** The task that `v2_span_stream` spawns. */
    method WalkSpan(fetch: nat -> Result<Bytes, StorageError>, first: nat, last: nat, trim0: nat, len: nat)
      returns (items: seq<Item>)
      ensures items == SpanWalk(fetch, first, last, trim0, len)
    {
      var index: nat, trim: nat, remaining: nat := first, trim0, len;
      items := [];
      ghost var rest := SpanWalk(fetch, first, last, trim0, len);
      ghost var whole := rest;
      while index <= last
        invariant rest == SpanWalk(fetch, index, last, trim, remaining)
        invariant items + rest == whole
        decreases last + 1 - index
      {
        var got := fetch(index);
        if got.Failure? {
          return items + [Broken(got.error)];
        }
        var pt := got.value;
        if trim > 0 && trim >= |pt| {
          trim := trim - |pt|;
        } else {
          var data := Trimmed(pt, trim, remaining);
          trim, remaining := 0, remaining - |data|;
          if remaining == 0 {
            return items + [Chunk(data)];
          }
          rest := SpanWalk(fetch, index + 1, last, trim, remaining);
          Associate(items, [Chunk(data)], rest);
          items := items + [Chunk(data)];
        }
        index := index + 1;
      }
    }

    /** A v2 span: the covering chunks only, trimmed at both ends. */
    method SealedSpanStream(raw: Bytes, key: Key, off: nat, len: nat, link: Link)
      returns (r: Result<seq<Item>, StorageError>)
      requires len > 0
      ensures r == SealedSpanOf(cipher, key, raw, link, kind, off, len)
    {
      var header := FetchExact(raw, link, 0, STREAM_HEADER_LEN);
      if header.Failure? {
        return Failure(header.error);
      }
      var parsed := ParseStreamHeader(header.value);
      if parsed.Failure? {
        return Failure(Backend(parsed.error));
      }
      var (chunk, base) := parsed.value;
      if off + (len - 1) >= U64 {
        return Failure(Backend("range overflow"));
      }
      var first, last := Quotient(off, chunk), Quotient(off + (len - 1), chunk);
      var fetch := SpanFetcher(cipher, key, base, chunk, raw, link, kind);
      var items := WalkSpan(fetch, first, last, Remainder(off, chunk), len);
      r := Success(items);
    }

    method GetRangeStream(key: string, off: nat, len: nat, link: Link) returns (r: Result<seq<Item>, StorageError>)
      requires SafeKey(key)
      ensures r == if len > 0 && key !in objects then Failure(NotFound)
        else RangeStreamOf(cipher, encryptionKey, if key in objects then objects[key] else [], link, kind, off, len)
    {
      if len == 0 {
        return Success([]);
      }
      if key !in objects {
        return Failure(NotFound);
      }
      var raw := objects[key];
      var probe := FetchExact(raw, link, 0, 4);
      if probe.Failure? {
        r := RawSpanStream(raw, off, len, link);
        return;
      }
      if encryptionKey.None? {
        if IsEncrypted(probe.value) || IsStreamSealed(probe.value) {
          return Failure(Backend("object is encrypted but UWUU_STORAGE_ENCRYPTION_KEY is unset"));
        }
        r := RawSpanStream(raw, off, len, link);
        return;
      }
      if IsStreamSealed(probe.value) {
        r := SealedSpanStream(raw, encryptionKey.value, off, len, link);
        return;
      }
      if IsEncrypted(probe.value) {
        if !link.whole {
          return Failure(Backend("read failed"));
        }
        var pt := DecryptIfNeeded(cipher, encryptionKey, raw);
        if pt.Failure? {
          return Failure(pt.error);
        }
        var slice := SlicePlaintext(pt.value, off, len);
        return if slice.Success? then Success([Chunk(slice.value)]) else Failure(slice.error);
      }
      r := RawSpanStream(raw, off, len, link);
    }

    /**
     * A small object read whole. An answered read of a stored object gives exactly what the object reads as, and an
     * error when that is nothing; so plaintext and v1 seals come back, and v2 chunks come out sealed.
     */
    method Get(key: string, link: Link) returns (r: Result<Bytes, StorageError>)
      requires SafeKey(key)
      ensures r == Failure(NotFound) <==> key !in objects
      ensures r.Success? ==> key in objects && link.whole
      ensures cipher.Correct() && key in objects && link.whole ==>
        forall pt :: r == Success(pt) <==> ReadsAs(cipher, encryptionKey, objects[key], pt)
      ensures cipher.Correct() && key in objects && link.whole ==>
        forall format, pt | Storable(format, encryptionKey, pt)
          && objects[key] == Stored(cipher, format, encryptionKey, pt) ::
          r == Success(if format.Chunked? then objects[key] else pt)
    {
      if key !in objects {
        return Failure(NotFound);
      }
      if !link.whole {
        return Failure(Backend("read failed"));
      }
      r := DecryptIfNeeded(cipher, encryptionKey, objects[key]);
      if cipher.Correct() {
        forall pt {
          BufferedReadsAs(cipher, encryptionKey, objects[key], pt);
        }
        forall format, pt | Storable(format, encryptionKey, pt)
          && objects[key] == Stored(cipher, format, encryptionKey, pt)
        {
          BufferedGetGivesBack(cipher, format, encryptionKey, pt);
        }
      }
    }
  }
}
