/** At-rest encryption of stored objects: the v1 whole-object seal and the v2 chunked framing. */
module ObjectCrypt {
  import opened Arithmetic
  import opened ByteStrings
  import opened Wrappers

  type Key = Bytes

  const MAGIC: Bytes := [0x55, 0x57, 0x55, 0x31]     // "UWU1"
  const MAGIC_V2: Bytes := [0x55, 0x57, 0x55, 0x32]  // "UWU2"
  const NONCE_LEN := 24
  const TAG_LEN := 16
  const OVERHEAD := 4 + NONCE_LEN + TAG_LEN
  const BASE_LEN := 16
  const STREAM_HEADER_LEN := 24
  const STREAM_CHUNK_PT := 8 * 1024 * 1024
  const MAX_CHUNK_PT := 64 * 1024 * 1024
  const U64 := 0x1_0000_0000_0000_0000

  /** An authenticated cipher: `encrypt(key, nonce, plaintext)` and `decrypt(key, nonce, ciphertext)`. */
  datatype Cipher = Cipher(
    encrypt: (Key, Bytes, Bytes) -> Bytes,
    decrypt: (Key, Bytes, Bytes) -> Option<Bytes>
  ) {
    /** Encryption adds a 16-byte tag, and decryption is exactly its inverse. */
    ghost predicate Correct() {
      && (forall k, n, p :: |encrypt(k, n, p)| == |p| + TAG_LEN)
      && (forall k, n, p :: decrypt(k, n, encrypt(k, n, p)) == Some(p))
      && (forall k, n, ct :: decrypt(k, n, ct).Some? ==> ct == encrypt(k, n, decrypt(k, n, ct).value))
    }
  }

  predicate IsEncrypted(bytes: Bytes) {
    MAGIC <= bytes
  }

  predicate IsStreamSealed(bytes: Bytes) {
    MAGIC_V2 <= bytes
  }

  // ---- v1: one seal over the whole object ----

  function Seal(cipher: Cipher, key: Key, nonce: Bytes, plaintext: Bytes): Bytes {
    MAGIC + nonce + cipher.encrypt(key, nonce, plaintext)
  }

  function Open(cipher: Cipher, key: Key, bytes: Bytes): Option<Bytes> {
    if !IsEncrypted(bytes) || |bytes| < OVERHEAD then
      None
    else
      cipher.decrypt(key, bytes[4..4 + NONCE_LEN], bytes[4 + NONCE_LEN..])
  }

  /**
   * A sealed object is "UWU1", its nonce and the sealed bytes. Opening undoes sealing, and whatever opens is a seal of
   * what it opened to.
   */
  lemma OpenInvertsSeal(cipher: Cipher, key: Key, nonce: Bytes, plaintext: Bytes, bytes: Bytes)
    requires cipher.Correct()
    requires |nonce| == NONCE_LEN
    ensures Seal(cipher, key, nonce, plaintext)
         == [0x55, 0x57, 0x55, 0x31] + nonce + cipher.encrypt(key, nonce, plaintext)
    ensures |Seal(cipher, key, nonce, plaintext)| == 44 + |plaintext| == OVERHEAD + |plaintext|
    ensures Open(cipher, key, Seal(cipher, key, nonce, plaintext)) == Some(plaintext)
    ensures Open(cipher, key, bytes).Some? ==>
      && |bytes| >= 44
      && bytes == Seal(cipher, key, bytes[4..28], Open(cipher, key, bytes).value)
  {
    var s := Seal(cipher, key, nonce, plaintext);
    assert s[..4] == MAGIC;
    assert s[4..4 + NONCE_LEN] == nonce;
    assert s[4 + NONCE_LEN..] == cipher.encrypt(key, nonce, plaintext);
    if Open(cipher, key, bytes).Some? {
      assert bytes == bytes[..4] + bytes[4..4 + NONCE_LEN] + bytes[4 + NONCE_LEN..];
    }
  }

  // ---- v2: a 24-byte header, then independently sealed chunks ----

  function StreamHeader(chunkPt: nat, base: Bytes): Bytes {
    MAGIC_V2 + BigEndian(chunkPt, 4) + base
  }

  function ParseStreamHeader(header: Bytes): (r: Result<(nat, Bytes), string>)
    ensures r.Success? ==> 0 < r.value.0 <= 0x400_0000 && |r.value.1| == 16
  {
    if |header| < STREAM_HEADER_LEN || !IsStreamSealed(header) then
      Failure("not a v2 stream object")
    else
      var chunkPt := FromBigEndian(header[4..8]);
      if chunkPt == 0 || chunkPt > MAX_CHUNK_PT then
        Failure("bad v2 chunk size")
      else
        Success((chunkPt, header[8..8 + BASE_LEN]))
  }

  /**
   * The framing in bytes: "UWU2", a chunk size of four bytes between 1 and 64 MiB, and sixteen bytes of base nonce are
   * a header, whatever follows them, and nothing else is.
   */
  lemma HeaderBytes(header: Bytes)
    ensures ParseStreamHeader(header).Success? <==>
      && |header| >= 24
      && header[..4] == [0x55, 0x57, 0x55, 0x32]
      && 0 < FromBigEndian(header[4..8]) <= 0x400_0000
    ensures ParseStreamHeader(header).Success? ==>
      ParseStreamHeader(header).value == (FromBigEndian(header[4..8]), header[8..24])
  {
    if |header| >= 24 {
      assert header == header[..4] + header[4..];
    }
  }

  /** Of all headers of the right form, those are accepted that name one of these chunk sizes. */
  lemma AcceptedChunkSizes(size: Bytes, base: Bytes)
    requires |size| == 4 && |base| == 16
    ensures ParseStreamHeader([0x55, 0x57, 0x55, 0x32] + size + base)
         == if 0 < FromBigEndian(size) <= 0x400_0000 then Success((FromBigEndian(size), base))
            else Failure("bad v2 chunk size")
  {
    var header := [0x55, 0x57, 0x55, 0x32] + size + base;
    assert header[..4] == [0x55, 0x57, 0x55, 0x32] && header[4..8] == size && header[8..24] == base;
    HeaderBytes(header);
  }

  /** The header the writer sends: "UWU2", 8 MiB in four bytes, and its base nonce; the reader takes it. */
  lemma WrittenHeader(base: Bytes)
    requires |base| == 16
    ensures StreamHeader(STREAM_CHUNK_PT, base) == [0x55, 0x57, 0x55, 0x32, 0x00, 0x80, 0x00, 0x00] + base
    ensures ParseStreamHeader(StreamHeader(STREAM_CHUNK_PT, base)) == Success((0x80_0000, base))
  {
    var size: Bytes := [0x00, 0x80, 0x00, 0x00];
    FourBytes(size);
    FromBigEndianRoundTrip(size);
    assert StreamHeader(STREAM_CHUNK_PT, base) == [0x55, 0x57, 0x55, 0x32] + size + base;
    AcceptedChunkSizes(size, base);
  }

  /** A printed header parses back exactly when its chunk size is one the reader accepts. */
  lemma HeaderRoundTrip(chunkPt: nat, base: Bytes, rest: Bytes)
    requires |base| == BASE_LEN && chunkPt < Capacity(4)
    ensures |StreamHeader(chunkPt, base)| == STREAM_HEADER_LEN
    ensures (StreamHeader(chunkPt, base) + rest)[..STREAM_HEADER_LEN] == StreamHeader(chunkPt, base)
    ensures ParseStreamHeader(StreamHeader(chunkPt, base)) == Success((chunkPt, base))
       <==> 0 < chunkPt <= 0x400_0000
  {
    var h := StreamHeader(chunkPt, base);
    assert h[..4] == MAGIC_V2;
    assert h[4..8] == BigEndian(chunkPt, 4);
    assert h[8..8 + BASE_LEN] == base;
    BigEndianRoundTrip(chunkPt, 4);
  }

  /** Whatever parses is a printed header: the reader accepts no other framing. */
  lemma ParsedHeaderIsPrinted(header: Bytes)
    requires ParseStreamHeader(header).Success?
    ensures var (chunkPt, base) := ParseStreamHeader(header).value;
      && 0 < chunkPt <= MAX_CHUNK_PT
      && |base| == BASE_LEN
      && StreamHeader(chunkPt, base) == header[..STREAM_HEADER_LEN]
  {
    FromBigEndianRoundTrip(header[4..8]);
    assert header[..STREAM_HEADER_LEN] == header[..4] + header[4..8] + header[8..8 + BASE_LEN];
  }

  function StreamNonce(base: Bytes, index: nat): Bytes {
    base + BigEndian(index, 8)
  }

  /** The nonce of a chunk is 24 bytes: the object's base, then the index of the chunk, big-endian. */
  lemma NonceNamesChunk(base: Bytes, index: nat)
    requires |base| == 16 && index < 0x1_0000_0000_0000_0000
    ensures |StreamNonce(base, index)| == 24 == NONCE_LEN
    ensures StreamNonce(base, index)[..16] == base
    ensures FromBigEndian(StreamNonce(base, index)[16..]) == index
  {
    EightBytes();
    BigEndianRoundTrip(index, 8);
    assert StreamNonce(base, index)[16..] == BigEndian(index, 8);
  }

  /** No two chunks, of one object or of objects with different bases, share a nonce. */
  lemma StreamNonceInjective(base: Bytes, i: nat, base': Bytes, j: nat)
    requires |base| == |base'| == BASE_LEN
    requires i < U64 && j < U64
    requires StreamNonce(base, i) == StreamNonce(base', j)
    ensures base == base' && i == j
  {
    assert StreamNonce(base, i)[..BASE_LEN] == base && StreamNonce(base', j)[..BASE_LEN] == base';
    assert StreamNonce(base, i)[BASE_LEN..] == BigEndian(i, 8);
    assert StreamNonce(base', j)[BASE_LEN..] == BigEndian(j, 8);
    EightBytes();
    BigEndianRoundTrip(i, 8);
    BigEndianRoundTrip(j, 8);
  }

  function SealChunk(cipher: Cipher, key: Key, base: Bytes, index: nat, plaintext: Bytes): Bytes {
    cipher.encrypt(key, StreamNonce(base, index), plaintext)
  }

  function OpenChunk(cipher: Cipher, key: Key, base: Bytes, index: nat, bytes: Bytes): Option<Bytes> {
    cipher.decrypt(key, StreamNonce(base, index), bytes)
  }

  function StreamChunkCount(ptLen: nat, chunkPt: nat): nat
    requires chunkPt > 0
  {
    Quotient(ptLen + chunkPt - 1, chunkPt)
  }
}
