/**
 * What the store's read paths emit, as functions of the stored bytes and of how the backend behaves during the call.
 */
module StreamReads {
  import opened Arithmetic
  import opened ByteStrings
  import opened ObjectCrypt
  import opened StreamFormat
  import opened Wrappers

  datatype StorageError = NotFound | Backend(why: string)

  /** One message of a download stream. A `Broken` ends the body. */
  datatype Item = Chunk(data: Bytes) | Broken(error: StorageError)

  datatype BackendKind = Local | S3

  /**
   * The behaviour of the backend during one call: which ranged reads it answers, whether it answers a
   * whole-object read, and how it splits (and perhaps cuts short) the body of a streamed read.
   */
  datatype Link = Link(ranged: (nat, nat) -> bool, whole: bool, stream: Bytes -> seq<Item>)

  const SPAN_SINGLE_MAX := 32 * 1024 * 1024

  /** The bytes a client receives before the stream ends or breaks. */
  function Text(items: seq<Item>): Bytes {
    if items == [] || items[0].Broken? then [] else items[0].data + Text(items[1..])
  }

  /** The stream ends without an error. */
  predicate Complete(items: seq<Item>) {
    items == [] || (items[0].Chunk? && Complete(items[1..]))
  }

  lemma TextCons(data: Bytes, rest: seq<Item>)
    ensures Text([Chunk(data)] + rest) == data + Text(rest)
    ensures Complete([Chunk(data)] + rest) <==> Complete(rest)
  {
    assert ([Chunk(data)] + rest)[1..] == rest;
  }

  lemma TextOne(data: Bytes)
    ensures Text([Chunk(data)]) == data && Complete([Chunk(data)])
  {
    assert [Chunk(data)][1..] == [];
  }

  /** A backend may fail, but it never makes bytes up. */
  ghost predicate Honest(link: Link, raw: Bytes) {
    && Text(link.stream(raw)) <= raw
    && (Complete(link.stream(raw)) ==> Text(link.stream(raw)) == raw)
  }

  ghost predicate Healthy(link: Link, raw: Bytes) {
    && Honest(link, raw)
    && (forall off, len :: link.ranged(off, len))
    && link.whole
    && Complete(link.stream(raw))
  }

  // ---- Primitive reads ----

  /** `raw_get_range`: exactly `len` bytes or an error. */
  function FetchExact(raw: Bytes, link: Link, off: nat, len: nat): (r: Result<Bytes, StorageError>)
    ensures r.Success? && len > 0 ==> off + len <= |raw| && r.value == raw[off..off + len]
  {
    if len == 0 then Success([])
    else if !link.ranged(off, len) then Failure(Backend("ranged read failed"))
    else if off + len > |raw| then Failure(Backend("short ranged read"))
    else Success(raw[off..off + len])
  }

  /** `raw_get_range_relaxed`: the end of the object may cut the read short; S3 refuses to start past it. */
  function FetchRelaxed(raw: Bytes, link: Link, kind: BackendKind, off: nat, len: nat): Result<Bytes, StorageError> {
    if !link.ranged(off, len) then Failure(Backend("ranged read failed"))
    else if off >= |raw| then if kind == S3 then Failure(Backend("range not satisfiable")) else Success([])
    else Success(raw[off..Min(off + len, |raw|)])
  }

  function DecryptIfNeeded(cipher: Cipher, key: Option<Key>, raw: Bytes): Result<Bytes, StorageError> {
    if !IsEncrypted(raw) then Success(raw)
    else if key.None? then Failure(Backend("object is encrypted but UWUU_STORAGE_ENCRYPTION_KEY is unset"))
    else
      match Open(cipher, key.value, raw)
      case None => Failure(Backend("object decrypt failed"))
      case Some(pt) => Success(pt)
  }

  function SlicePlaintext(pt: Bytes, off: nat, len: nat): Result<Bytes, StorageError> {
    if off + len > |pt| then Failure(Backend("short ranged read")) else Success(pt[off..off + len])
  }

  // ---- Whole-object streams ----

  /** Fetch `len` sealed bytes at `off` and open them as chunk `index`. */
  function WalkChunk(cipher: Cipher, key: Key, base: Bytes, raw: Bytes, link: Link, off: nat, len: nat, index: nat)
    : Result<Bytes, StorageError>
  {
    match FetchExact(raw, link, off, len)
    case Failure(e) => Failure(e)
    case Success(bytes) =>
      match OpenChunk(cipher, key, base, index, bytes)
      case None => Failure(Backend("stream chunk decrypt failed"))
      case Some(pt) => Success(pt)
  }

  function WalkFetcher(cipher: Cipher, key: Key, base: Bytes, raw: Bytes, link: Link)
    : (nat, nat, nat) -> Result<Bytes, StorageError>
  {
    (off: nat, len: nat, index: nat) => WalkChunk(cipher, key, base, raw, link, off, len, index)
  }

  /**
   * The chunk walk of `get_stream` from chunk `index`, with `remaining` plaintext bytes to go;
   * `fetch(off, len, i)` reads and opens chunk `i`.
   */
  function ChunkWalk(fetch: (nat, nat, nat) -> Result<Bytes, StorageError>, chunkPt: nat,
                     off: nat, remaining: nat, index: nat, count: nat): seq<Item>
    decreases count - index
  {
    if index >= count then []
    else
      var here := Min(remaining, chunkPt);
      match fetch(off, here + TAG_LEN, index)
      case Failure(e) => [Broken(e)]
      case Success(pt) =>
        [Chunk(pt)] + ChunkWalk(fetch, chunkPt, off + here + TAG_LEN, remaining - here, index + 1, count)
  }

  function StreamOf(cipher: Cipher, key: Option<Key>, raw: Bytes, ptLen: nat, link: Link)
    : Result<seq<Item>, StorageError>
  {
    match FetchExact(raw, link, 0, 4)
    case Failure(_) => Success(link.stream(raw))
    case Success(probe) =>
      if key.None? then
        if IsEncrypted(probe) || IsStreamSealed(probe) then
          Failure(Backend("object is encrypted but UWUU_STORAGE_ENCRYPTION_KEY is unset"))
        else
          Success(link.stream(raw))
      else if !IsStreamSealed(probe) then
        if !link.whole then Failure(Backend("read failed"))
        else
          match DecryptIfNeeded(cipher, key, raw)
          case Failure(e) => Failure(e)
          case Success(pt) => Success([Chunk(pt)])
      else
        match FetchExact(raw, link, 0, STREAM_HEADER_LEN)
        case Failure(e) => Failure(e)
        case Success(header) =>
          match ParseStreamHeader(header)
          case Failure(e) => Failure(Backend(e))
          case Success((chunkPt, base)) =>
            Success(ChunkWalk(WalkFetcher(cipher, key.value, base, raw, link), chunkPt,
                              STREAM_HEADER_LEN, ptLen, 0, StreamChunkCount(ptLen, chunkPt)))
  }

  // ---- Spans ----

  /** The skip/take pump of `raw_span_stream` over the backend's own chunking. */
  function SkipTake(inner: seq<Item>, skip: nat, take: nat): seq<Item> {
    if take == 0 then []
    else if inner == [] then [Broken(Backend("truncated span"))]
    else if inner[0].Broken? then [inner[0]]
    else
      var data := inner[0].data;
      if skip >= |data| then SkipTake(inner[1..], skip - |data|, take)
      else
        var end := Min(skip + take, |data|);
        [Chunk(data[skip..end])] + SkipTake(inner[1..], 0, take - (end - skip))
  }

  function RawSpanOf(raw: Bytes, link: Link, off: nat, len: nat): Result<seq<Item>, StorageError> {
    if len <= SPAN_SINGLE_MAX then
      match FetchExact(raw, link, off, len)
      case Failure(e) => Failure(e)
      case Success(bytes) => Success([Chunk(bytes)])
    else
      Success(SkipTake(link.stream(raw), off, len))
  }

  /** Fetch up to a full sealed chunk where chunk `index` starts, and open it. */
  function SpanChunk(cipher: Cipher, key: Key, base: Bytes, chunkPt: nat, raw: Bytes, link: Link, kind: BackendKind,
                     index: nat): Result<Bytes, StorageError>
  {
    match FetchRelaxed(raw, link, kind, ChunkOffset(chunkPt, index), chunkPt + TAG_LEN)
    case Failure(e) => Failure(e)
    case Success(bytes) =>
      if bytes == [] then Failure(Backend("truncated stream object"))
      else
        match OpenChunk(cipher, key, base, index, bytes)
        case None => Failure(Backend("stream chunk decrypt failed"))
        case Some(pt) => Success(pt)
  }

  function SpanFetcher(cipher: Cipher, key: Key, base: Bytes, chunkPt: nat, raw: Bytes, link: Link, kind: BackendKind)
    : nat -> Result<Bytes, StorageError>
  {
    (index: nat) => SpanChunk(cipher, key, base, chunkPt, raw, link, kind, index)
  }

  /** What one chunk contributes to a span. */
  function Trimmed(pt: Bytes, trim: nat, remaining: nat): (r: Bytes)
    requires trim <= |pt|
    ensures |r| == Min(remaining, |pt| - trim)
  {
    pt[trim..trim + Min(remaining, |pt| - trim)]
  }

  /**
   * The covering-chunk walk of `v2_span_stream`: drop `trim` bytes, then emit `remaining`;
   * `fetch(i)` reads and opens chunk `i`.
   */
  function SpanWalk(fetch: nat -> Result<Bytes, StorageError>, index: nat, last: nat, trim: nat,
                    remaining: nat): seq<Item>
    decreases last + 1 - index
  {
    if index > last then []
    else
      match fetch(index)
      case Failure(e) => [Broken(e)]
      case Success(pt) =>
        if trim > 0 && trim >= |pt| then
          SpanWalk(fetch, index + 1, last, trim - |pt|, remaining)
        else
          var data := Trimmed(pt, trim, remaining);
          [Chunk(data)] + if remaining == |data| then [] else SpanWalk(fetch, index + 1, last, 0, remaining - |data|)
  }

  function SealedSpanOf(cipher: Cipher, key: Key, raw: Bytes, link: Link, kind: BackendKind, off: nat, len: nat)
    : Result<seq<Item>, StorageError>
    requires len > 0
  {
    match FetchExact(raw, link, 0, STREAM_HEADER_LEN)
    case Failure(e) => Failure(e)
    case Success(header) =>
      match ParseStreamHeader(header)
      case Failure(e) => Failure(Backend(e))
      case Success((chunkPt, base)) =>
        if off + (len - 1) >= U64 then Failure(Backend("range overflow"))
        else
          Success(SpanWalk(SpanFetcher(cipher, key, base, chunkPt, raw, link, kind),
                           Quotient(off, chunkPt), Quotient(off + (len - 1), chunkPt), Remainder(off, chunkPt), len))
  }

  function RangeStreamOf(cipher: Cipher, key: Option<Key>, raw: Bytes, link: Link, kind: BackendKind, off: nat,
                         len: nat)
    : Result<seq<Item>, StorageError>
  {
    if len == 0 then Success([])
    else
      match FetchExact(raw, link, 0, 4)
      case Failure(_) => RawSpanOf(raw, link, off, len)
      case Success(probe) =>
        if key.None? then
          if IsEncrypted(probe) || IsStreamSealed(probe) then
            Failure(Backend("object is encrypted but UWUU_STORAGE_ENCRYPTION_KEY is unset"))
          else
            RawSpanOf(raw, link, off, len)
        else if IsStreamSealed(probe) then
          SealedSpanOf(cipher, key.value, raw, link, kind, off, len)
        else if IsEncrypted(probe) then
          if !link.whole then Failure(Backend("read failed"))
          else
            match DecryptIfNeeded(cipher, key, raw)
            case Failure(e) => Failure(e)
            case Success(pt) =>
              match SlicePlaintext(pt, off, len)
              case Failure(e) => Failure(e)
              case Success(slice) => Success([Chunk(slice)])
        else
          RawSpanOf(raw, link, off, len)
  }

  // ---- Which chunks of a stored object can open ----

  /** The bytes a reader takes for chunk `index` when it asks for `len` of them. */
  function Window(raw: Bytes, chunkPt: nat, index: nat, len: nat): Bytes
    requires ChunkOffset(chunkPt, index) + len <= |raw|
  {
    raw[ChunkOffset(chunkPt, index)..ChunkOffset(chunkPt, index) + len]
  }

  /** The two lengths the readers ask for: the one the plaintext length implies, and "up to a full chunk". */
  predicate ReaderAsks(raw: Bytes, chunkPt: nat, ptLen: nat, index: nat, len: nat) {
    var at := ChunkOffset(chunkPt, index);
    && at + len <= |raw|
    && (len == Min(ptLen - Min(index * chunkPt, ptLen), chunkPt) + TAG_LEN || len == Min(chunkPt + TAG_LEN, |raw| - at))
  }

  /** Every chunk of `raw` that a reader can open is the piece of `pt` with the same index. */
  ghost predicate Genuine(cipher: Cipher, key: Key, base: Bytes, chunkPt: nat, raw: Bytes, pt: Bytes)
    requires chunkPt > 0
  {
    forall index: nat, len: nat | index < U64 && ReaderAsks(raw, chunkPt, |pt|, index, len) ::
      var plain := OpenChunk(cipher, key, base, index, Window(raw, chunkPt, index, len));
      plain.Some? ==> index < |Pieces(pt, chunkPt)| && plain.value == Pieces(pt, chunkPt)[index]
  }
}
