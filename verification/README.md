# A verified model of the file host's storage and lifecycle

The repository is a file and paste host. Uploads are spooled to disk, sealed in chunks, and stored once for each
content; links name them by an eight-letter core that is never issued twice; thumbnails, expiry, burn-after-read and
garbage collection all work on the same tables and the same byte store. This Dafny project models that core and proves
what it promises. `dafny verify dfyconfig.toml` checks everything.

## What is modelled

**The sealed object store** (`src/storage.rs`, `src/object_crypt.rs`, `src/range.rs`). `Storage` holds the store as a
class whose methods loop as the source does: short spool reads, the chunk pump, the header fused onto the first piece,
the temporary file and rename, concurrent part uploads joined in any order, the chunk walk, the covering-chunk walk and
the skip/take pump. Each is proved equal to a function of the stored bytes and of what the backend answers in that call
(`StreamReads.Link`, `Storage.Uplink`). `StreamFormat`, `StreamLaws` and `StoredObjects` prove what those functions
give: the written format, random access by arithmetic, and delivery from intact objects in all three formats on disk.
`DamagedObjects` and `AlteredHeaders` say what comes of altered and truncated ones, `OverlongSpans` what comes of spans
past the end. The cipher is a parameter (`ObjectCrypt.Cipher`) that adds sixteen bytes and inverts itself;
unforgeability, where it is needed, is a log of everything ever sealed, and `Tampering` exhibits a cipher and a damaged
object that meet all of it. The chunk size is any accepted size; the 8 MiB in use are singled out in
`ObjectCrypt.WrittenHeader`, `Storage.ShippedChunksReadBack` and the bound about S3 parts.

**The object lifecycle** (`src/db.rs`, `src/routes/upload.rs`, `src/routes/files.rs`, `src/routes/gc.rs`,
`src/expiry.rs`, `src/routes/pastes.rs`). `Lifecycle` is a transition system with one step for each SQL statement or
store call of each handler: uploads, backfills, deletes, burn readers, sweeps and collections, any number of them,
interleaved at will, each free to stop for good at any point. `acquire_object` takes effect in whichever of its two
statements changes a row, and has no effect when neither does; a release is one step, as said below. A rollback whose
release fails goes on, and leaves its reference counted. A delete is opened with a credential that the item accepts, its
owner or its delete token.

`LifecycleInvariant` says what holds, `LifecycleSteps` that each step keeps it. `LifecycleLaws`, `LifecycleGuards`,
`LifecycleBurns`, `LifecycleKeys`, `LifecycleReads` and `LifecyclePrivate` state the theorems over whole runs; the last compares the instance with a store
that keeps one private copy for each link. Reads are promised for keys that the run issues once, as it does every files/
key. A thumbnail's key can be issued again, and `LifecycleRaces` gives the runs that then go wrong, for every such key.

`Instance` holds the same handlers as methods that run from their first statement to their last, with any of their
statements and store calls failing, and `Shelf` says what each does in the end. `SerialRuns` shows uninterrupted runs of
the transition system for uploads with and without a thumbnail, with a PUT, an INSERT or the release of a rollback that
fails, bytes that a rollback leaves behind and the collection that takes them, backfills, deletes, sweeps of one file,
burn reads, and pastes from creation to removal.

**Smaller stateful parts**: the anonymous throttle, collection order, the merged public feed, archive entry names, file
name cleaning, range headers, the local inventory walk, and the report and effect of a collection.

Digests stand for contents (collisions are assumed away) and cores are numbers in the transition system;
`Ids.KeysInjective` is why keys can be told apart by core alone. Randomness, clocks, backend answers, `ffmpeg` and
Unicode lower-casing are parameters or free choices.

Where the code and its own comments differ, the code is modelled:

- `src/db.rs:567-586` releases with an UPDATE and an unconditional DELETE, although `migrations/0002_expansion.sql:6-8`
  promises row locks. The transition system takes the promise, a release in one step. Sent as two statements, a last
  release keeps the counts exactly when other handlers gave back between the two as many references to the object as
  they acquired there (`Ledger.SplitReleaseConserves`); `Ledger.AcquiredBetweenIsLost` is a run that loses one.
- `src/mime.rs:63-64` caps names at 128 characters; the code cuts 128 bytes and panics inside a character
  (`FileNames.SanitizePanics`, and `FileNames.SanitizePanicsOn` for names it panics on).
- `src/storage.rs:813-815` says truncation fails closed. It does down to the four bytes of the probe: a sealed object cut
  shorter is streamed as it lies, to a clean end (`DamagedObjects.TruncationFailsClosed`, with the exact condition, and
  `DamagedObjects.StumpIsServed`).
- `src/storage.rs:824-825` takes any failed probe but that of a missing object for a short plaintext, so a sealed object
  whose probe is refused is served as it lies (`StoredObjects.ProbeGuardsSealedObjects`, and
  `StoredObjects.RefusedProbeServesSealedBytes` for a backend under which it is).
- `src/storage.rs:813-815` bounds the walk of a stream by the size in the table; a span trusts the chunk size in the
  header, which is not sealed (`AlteredHeaders.SpansNeedTheChunkSize`, with the exact condition).
- `src/storage.rs:889-893` promises a span of the plaintext. One that runs past the end of a v2 object is cut short without
  an error when it ends within the full size of the last chunk (`OverlongSpans.SpansPastTheEnd`, with the exact
  condition); the handlers ask for spans within the file only (`Range.SatisfiableInBounds`).
- `src/routes/files.rs:420-421` means a storage failure not to consume a burn file's one read; a release or a byte
  deletion that fails after the DELETE does consume it (`Instance.Instance.ReadBurned`, with the exact condition, and
  `LifecycleRaces.FailedRemovalConsumesABurn`).
- `src/routes/zip.rs:145` reads files with `Store::get`, which never opens v2 objects (`StoredObjects.BufferedGetGivesBack`).
- `src/routes/collections.rs:485-487` reports a position that a re-added item does not get (`Collection.AddItem`).
- `src/ratelimit.rs:32-33` reads the clock before it takes the lock; any step back in the order of checks can then break
  a limit of two or more (`RateLimit.BoundedUnderSkew`).
- `src/routes/gc.rs:161-173` does not list `thumbs/`, so thumbnails in use are reported as missing (`Gc.FalseAlarms`).

## Model

| member | source | states |
|---|---|---|
| `ObjectCrypt.OpenInvertsSeal` | src/object_crypt.rs:42-75 | a whole-object seal is "UWU1", the nonce and the sealed bytes, 44 bytes more than the plaintext; opening undoes it, and nothing else opens |
| `ObjectCrypt.HeaderBytes` | src/object_crypt.rs:116-127 | any bytes are taken for a header exactly when there are 24, the first four "UWU2" and the next four a number from 1 to 64 MiB, which is then the chunk size |
| `ObjectCrypt.AcceptedChunkSizes` | src/object_crypt.rs:116-127 | for every size and base, "UWU2" with them parses to them, or is refused for its size |
| `ObjectCrypt.WrittenHeader` | src/object_crypt.rs:91-114 | the header that is written, byte by byte, names 8 MiB, and the reader takes it |
| `ObjectCrypt.HeaderRoundTrip` | src/object_crypt.rs:107-127 | a printed header parses back exactly when its chunk size is an accepted one |
| `ObjectCrypt.ParsedHeaderIsPrinted` | src/object_crypt.rs:107-127 | whatever parses is a printed header |
| `ObjectCrypt.StreamNonceInjective` | src/object_crypt.rs:129-134 | no two chunks, of one object or of two with different bases, share a nonce |
| `ObjectCrypt.NonceNamesChunk` | src/object_crypt.rs:129-134 | a nonce has 24 bytes: the base, then the index big-endian, for every 64-bit index |
| `StreamFormat.PiecesJoin` | src/storage.rs:616-651 | the pieces an upload is cut into join to the plaintext |
| `StreamFormat.PieceCount` | src/object_crypt.rs:160-167 | the writer cuts as many pieces as the reader will ask for, for every length |
| `StreamFormat.PieceAt` | src/storage.rs:616-651 | piece i is the plaintext from i chunks on, to the next boundary or the end |
| `StreamFormat.ChunkAt` | src/storage.rs:1005-1016 | sealed chunk i lies where the offset arithmetic says, and the last one ends the object |
| `StreamFormat.StoredLength` | src/storage.rs:592-717 | an object is its plaintext, one header, and one tag for each chunk |
| `StreamLaws.IntactIsGenuine` | src/storage.rs:845-885 | in an object as written, each index opens to its own piece only, for either read path |
| `StreamLaws.UnforgedIsGenuine` | src/object_crypt.rs:129-158 | the same for arbitrary bytes behind the header, from distinct nonces and an unforged cipher |
| `StreamLaws.WalkDelivers` | src/storage.rs:853-885 | from any chunk on the walk delivers the pieces left, or a prefix and an error |
| `StreamLaws.WholeWalkDelivers` | src/storage.rs:845-886 | the whole walk emits a prefix of the plaintext, and ends cleanly exactly when it emitted all |
| `StreamLaws.SpanWalkDelivers` | src/storage.rs:1003-1054 | trim and take over the covering chunks deliver that span of the joined pieces |
| `StreamLaws.CoveringPieces` | src/storage.rs:993-1005 | the first and last index and the trim computed for a span select exactly that span |
| `StreamLaws.SkipTakeSlices` | src/storage.rs:944-980 | skip and take give the span for every way the backend splits the object, and an error exactly when it is too short |
| `DamagedObjects.DamagedStream` | src/storage.rs:816-887 | whatever happened to an object that keeps its magic, to its header or behind it: only a prefix is emitted, and a clean end means all of it |
| `DamagedObjects.DamagedRange` | src/storage.rs:983-1057 | the same for every span in bounds, as long as the header still names the chunk size |
| `AlteredHeaders.SpansNeedTheChunkSize` | src/storage.rs:983-1005 | over all damaged objects of a length, spans survive another chunk size in the header exactly when the reader refuses it, the object is a single piece, or no piece fits under it |
| `DamagedObjects.TruncationFailsClosed` | src/storage.rs:813-887 | an object cut anywhere streams a prefix, and all of it unless it reports an error, exactly when the cut leaves the four bytes of the probe |
| `DamagedObjects.TruncatedSpansFailClosed` | src/storage.rs:904-930 | the same for spans; of a shorter rest exactly when the span ends beyond it in one fetch, or what the rest has of it is right |
| `DamagedObjects.StumpIsServed` | src/storage.rs:821-826 | every written object that is cut to three bytes is served as those three, with a clean end |
| `Tampering.IdealIsUnforged` | src/object_crypt.rs:42-75 | there is a correct cipher for which any bytes without one particular tag are unforged |
| `Tampering.DamagedObjectExists` | src/storage.rs:816-887 | an object that is not the one written meets every hypothesis about damaged objects |
| `Tampering.DamagedObjectBreaks` | src/storage.rs:853-885 | what a reader gets of it: its first chunk, and an error in place of the second |
| `StoredObjects.StreamGivesBack` | src/storage.rs:816-887 | in all three formats a stream emits a prefix, and all of it unless it reports an error |
| `StoredObjects.RangeGivesBack` | src/storage.rs:894-1057 | in all three formats a span in bounds emits that slice of the plaintext |
| `StoredObjects.RangeRefinesStream` | src/storage.rs:894-1092 | the random-access path equals slicing the streamed object |
| `StoredObjects.ProbeGuardsSealedObjects` | src/storage.rs:821-826 | a sealed object is kept from leaving as ciphertext exactly by an answered probe |
| `StoredObjects.ProbeGuardsSealedSpans` | src/storage.rs:904-908 | a span of a sealed object is plaintext exactly by an answered probe, or because the ciphertext equals it there |
| `StoredObjects.RefusedProbeServesSealedBytes` | src/storage.rs:821-826 | a backend under which every sealed object is served as ciphertext, without an error |
| `StoredObjects.UnsealedReadsBack` | src/storage.rs:827-836 | without a key a plaintext streams back exactly when it begins with neither "UWU1" nor "UWU2", and is an error else |
| `StoredObjects.UnsealedSpanReadsBack` | src/storage.rs:904-917 | so does every span of it, from both backends, in one fetch or as a stream |
| `StoredObjects.KeylessStoreRefuses` | src/storage.rs:910-917 | once the probe is answered, a store without a key gives out no part of a sealed object, whatever the backend does |
| `StoredObjects.KeyedReadsAs` | src/storage.rs:837-844 | with a key, any object not in chunks streams as exactly what it reads as, and its spans are cut from that; under another key it does not open |
| `StoredObjects.SealedIsReadWhole` | src/storage.rs:837-844 | an object with a v1 seal is read whole or not at all, also for a span |
| `OverlongSpans.SpansPastTheEnd` | src/storage.rs:894-1057 | in all three formats a span past the end gives at most what is left of the plaintext, and ends without an error exactly when the object is in chunks and the span ends within the full size of the last one |
| `OverlongSpans.ChunkedPastTheEnd` | src/storage.rs:993-1054 | of an object in chunks: refused exactly when the last position does not fit 64 bits, else all there is, then the error of the backend in use |
| `StoredObjects.BufferedReadsAs` | src/storage.rs:719-722 | a buffered read of any bytes gives exactly the plaintext they are, or are a v1 seal of, and an error when there is none |
| `StoredObjects.BufferedGetGivesBack` | src/storage.rs:719-722 | the buffered read gives back plaintext and v1 seals, and hands out a v2 object sealed |
| `Storage.SpoolFile.Read` | src/storage.rs:624-628 | a read may come back short, and is empty only at the end of the file |
| `Storage.SpoolFile.Fill` | src/storage.rs:621-631 | the fill loop takes the next bytes of the file, fewer than a buffer only at its end |
| `Storage.Store.Pump` | src/storage.rs:616-652 | however short the reads, the pieces sent are the plaintext's, each sealed under its index |
| `Storage.NonFinalPartsAreLarge` | src/storage.rs:675-679 | every part but the last is larger than 5 MiB, with or without a key |
| `Multipart.SortedCompletions` | src/storage.rs:375-384 | in whatever order parts complete, they are listed 1 to n, once each |
| `Multipart.AssembleNumbers` | src/storage.rs:376-398 | the parts so listed make up the pieces in order |
| `Storage.Store.UploadParts` | src/storage.rs:314-366 | with joins at any time, the upload fails exactly when some part does, and else every part carries its own piece |
| `Storage.Store.MultipartUpload` | src/storage.rs:295-399 | a success publishes the pieces in order, a failure publishes nothing |
| `Storage.Store.StreamWrite` | src/storage.rs:403-438 | a success publishes all parts at once, a failure publishes nothing |
| `Storage.Store.RawPut` | src/storage.rs:563-573 | one PUT, all or nothing |
| `Storage.Store.PutFile` | src/storage.rs:592-717 | the object published is the framed plaintext; it succeeds exactly when the one PUT does, or for more than a chunk the creation, every part and the completion, and an empty spool only if it was announced so |
| `Storage.PutFileThenRead` | src/storage.rs:592-1057 | what was put reads back, whole and by span, for every plaintext, the empty one and exact multiples included |
| `Storage.ShippedChunksReadBack` | src/storage.rs:604-621 | the same at the 8 MiB in use, with or without a key, for every upload shorter than 2^64 bytes |
| `Storage.Store.Put` | src/storage.rs:575-586 | a small object is sealed whole when there is a key, and reads back exactly unless a keyless store is given a seal's magic |
| `Storage.Store.Delete` | src/storage.rs:724-729 | an answered delete leaves no such object and succeeds, also when there was none; an error of the backend is passed on |
| `Storage.UnsafeKeys` | src/storage.rs:86-91 | no operation takes the empty key, one from the root, or one with two dots in a row |
| `Storage.Store.GetStream` | src/storage.rs:816-887 | the method is the stream function, branch by branch |
| `Storage.Store.WalkChunks` | src/storage.rs:853-885 | the spawned loop is the chunk walk |
| `Storage.Store.GetRangeStream` | src/storage.rs:894-930 | the method is the span function, branch by branch |
| `Storage.Store.RawSpanStream` | src/storage.rs:932-981 | one ranged fetch up to the limit, skip and take above it |
| `Storage.Store.SealedSpanStream` | src/storage.rs:983-1057 | header, quotients, remainder and overflow check of a v2 span |
| `Storage.Store.WalkSpan` | src/storage.rs:1001-1054 | the spawned loop is the covering-chunk walk |
| `Storage.Store.Get` | src/storage.rs:719-722 | an answered read gives exactly what the object reads as: plaintext and v1 seals come back, v2 objects come out sealed |
| `Ledger.CreateBalances` | src/db.rs:545-558 | a new object starts with the one reference its caller holds |
| `Ledger.ShareBalances` | src/db.rs:559-565 | sharing counts the one reference more |
| `Ledger.ReleaseBalances` | src/db.rs:567-586 | a release keeps the count, and says "last" exactly when no other reference is left |
| `Ledger.MoveBalances` | src/routes/files.rs:533-540 | handing a reference between a row and a handler keeps every count |
| `Ledger.UndisturbedIsRelease` | src/db.rs:567-586 | with nothing in between, the UPDATE and the DELETE if it read zero are a release |
| `Ledger.SplitReleaseConserves` | src/db.rs:567-586 | between the UPDATE that read zero and the DELETE others may acquire, release and DELETE: references are conserved exactly when they gave back as many as they acquired |
| `Ledger.AcquiredBetweenIsLost` | src/db.rs:570-582 | an acquire between the two statements is left with a key that has no row |
| `Ledger.ReleasedBetweenIsHarmless` | src/db.rs:570-582 | one that is given back before the DELETE does no harm, although it revived the row |
| `LifecycleConservation.MoveConserves` | src/routes/files.rs:138-246 | each statement of each handler keeps every count equal to its references |
| `LifecycleEvolution.MoveEffect` | src/routes/upload.rs:281-343 | what a statement may do to the tables and the store at all |
| `LifecycleSteps.StepKeeps` | src/routes/upload.rs:266-343 | every step keeps the invariant, and undoes no claim, no spent core and no dead key |
| `LifecycleLaws.RefcountsConserved` | src/db.rs:538-586 | in every state of every run a count equals rows plus thumbnails plus holds, and is never zero |
| `LifecycleLaws.BytesOutliveReferences` | src/routes/gc.rs:269-304 | whoever deletes the bytes of a files/ key, nothing refers to it then or ever after |
| `LifecycleLaws.DeletedIsDead` | src/routes/files.rs:541-548 | a delayed byte deletion hits only keys without object, row or hold |
| `LifecycleLaws.CoreNamesOneContent` | src/db.rs:278-293 | over a whole run a core names at most one content, in one table, and never comes back |
| `LifecyclePrivate.LinksRefinePrivateCopies` | src/db.rs:278-293 | in every run each step publishes one fresh link with its item, withdraws one, or changes none, as a store of private copies would |
| `LifecyclePrivate.RunRefinesPrivateCopies` | src/db.rs:535-565 | and a read of any core, through row, shared object and bytes, gives what its private copy gives, or nothing; nothing exactly for a published file whose object's bytes were never stored |
| `LifecycleLaws.OnlyRightfulRemovals` | src/expiry.rs:16-46 | a row goes only by a delete whose credential the item accepts, by a sweep once its deadline is in the past, or by a reader with the body in hand |
| `LifecycleLaws.BurnedAtMostOnce` | src/routes/files.rs:419-448 | at most one reader gets a burn item's body, and the core names nothing afterwards |
| `LifecycleBurns.BurnsAreServedInTime` | src/routes/files.rs:33-45 | a body that was served has the length announced, and its reader came before the deadline |
| `LifecycleBurns.BurnedFilesAreGone` | src/routes/files.rs:423-435 | whoever is served a burn file has given back the object it read; if that was the last reference, the bytes are gone, and nothing is ever stored there again |
| `LifecycleGuards.ContentStoredOnce` | src/db.rs:545-558 | in every run a content has one object at most, however many uploads of it race |
| `LifecycleGuards.BurnFilesHaveNoThumbnail` | src/routes/upload.rs:297-309 | in every run no burn file has a thumbnail, by its upload or by a backfill |
| `LifecycleGuards.DeadlinesPass` | src/db.rs:347-355 | with time alone every deadline comes to be past, and a sweep may take the file |
| `LifecycleKeys.FileKeysAreIssuedOnce` | src/db.rs:278-293 | in every run every files/ key is issued once at most |
| `LifecycleKeys.OnceBytes` | src/routes/upload.rs:281-343 | under a key issued once there is never anything but the content of its object |
| `LifecycleKeys.BytesIffStored` | src/routes/upload.rs:285-296 | the object of a key issued once has its bytes exactly when the handler that created it has stored them, whatever else fails or stops |
| `LifecycleReads.NeverTheWrongBytes` | src/routes/upload.rs:281-343 | under a live file's key, if it is under files/ or was issued once, there is never anything but its own upload's content |
| `LifecycleReads.ReadsOwnContentIffStored` | src/routes/upload.rs:285-296 | in every run such a file reads back its own upload exactly when the handler that created its object has stored the bytes |
| `LifecycleReads.CalmReadsOwnContent` | src/routes/upload.rs:285-296 | so while that one PUT does not fail, exactly when it is over |
| `LifecycleReads.BurnServesOwnContent` | src/routes/files.rs:419-448 | what a burn read has served, from a key under files/ or issued once, is the content the core was claimed for |
| `LifecycleRaces.OnlyFileKeysAreNeverWrong` | src/routes/files.rs:138-172 | the keys under which no live file has wrong bytes in any run, with or without failed PUTs, are exactly those under files/ |
| `LifecycleRaces.OnlyFileKeysKeepBytes` | src/routes/files.rs:138-172 | the keys under which no live file loses its bytes while no PUT fails are exactly those under files/ |
| `LifecycleRaces.OnlyFileKeysServeBurnsRightly` | src/routes/files.rs:419-448 | the keys from which no burn read serves another content are exactly those under files/ |
| `LifecycleRaces.ThumbnailKeysAreReissued` | src/routes/files.rs:138-172 | for every two cores, a run without any failed PUT in which a file sharing a thumbnail's object loses its bytes |
| `LifecycleRaces.ReissuedKeyServesWrongBytes` | src/routes/files.rs:138-172 | one in which such a file has another content's bytes under its key |
| `LifecycleRaces.BurnReadServesWrongBytes` | src/routes/files.rs:419-448 | and one in which a burn read serves them, their length being the one announced |
| `LifecycleRaces.FailedRemovalConsumesABurn` | src/routes/files.rs:433-435 | a run in which a burn read takes the row, fails to release, and serves nothing |
| `LifecycleRaces.FailedPutStrandsASharer` | src/routes/upload.rs:285-296 | a run in which a failed PUT leaves another upload's live file without bytes, as `ReadsOwnContentIffStored` says it must |
| `Shelf.ReleaseUndoesAcquire` | src/routes/upload.rs:287-296 | a rollback gives back exactly what was acquired and stored |
| `Shelf.RollbackUndoesUpload` | src/routes/upload.rs:337-343 | two rollbacks, in the source's order, give back file and thumbnail, also when they share an object |
| `Shelf.ChangeIsTidy` | src/routes/files.rs:529-550 | every request served alone keeps counts exact and the store equal to the objects |
| `Shelf.SerialReadsOwnContent` | src/routes/files.rs:459-468 | in every serial run every live file reads back its own upload, and no other bytes are kept |
| `SerialRuns.UploadIsARun` | src/routes/upload.rs:266-343 | an upload served alone is a run of the transition system |
| `SerialRuns.PicturedUploadIsARun` | src/routes/upload.rs:297-343 | so is one with a thumbnail |
| `SerialRuns.UnpicturedUploadIsARun` | src/routes/files.rs:138-159 | and one whose thumbnail cannot be stored: it goes on without |
| `SerialRuns.FailedPutIsARun` | src/routes/upload.rs:287-296 | an upload whose PUT fails leaves only its burned core |
| `SerialRuns.RefusedKeyIsARun` | src/routes/upload.rs:285-286 | when another object stands under the candidate key, the upload can only end there, and leaves only its burned core |
| `SerialRuns.StrayBytesAreARun` | src/routes/upload.rs:555-567 | one whose failed PUT stored its bytes, which the rollback cannot delete, leaves them |
| `SerialRuns.CollectionIsARun` | src/routes/gc.rs:263-306 | a collection finds such bytes, and takes them with an object row that counts nothing |
| `SerialRuns.FailedInsertIsARun` | src/routes/upload.rs:337-343 | so does one whose row cannot be inserted |
| `SerialRuns.FailedPicturedInsertIsARun` | src/routes/upload.rs:337-343 | with a thumbnail, too |
| `SerialRuns.KeptMainIsARun` | src/routes/upload.rs:337-343 | when the release of the file fails there, the thumbnail is given back all the same, and one reference stays counted |
| `SerialRuns.KeptThumbIsARun` | src/routes/files.rs:152-172 | when the release of a thumbnail that was not stored fails, the upload still inserts its row |
| `SerialRuns.BackfillIsARun` | src/routes/files.rs:176-246 | a backfilled thumbnail is a run |
| `SerialRuns.FailedBackfillIsARun` | src/routes/files.rs:138-159 | one that cannot be stored changes nothing |
| `SerialRuns.RemoveIsARun` | src/routes/files.rs:529-550 | a removal is a run, by a delete or by a sweep |
| `SerialRuns.BurnReadIsARun` | src/routes/files.rs:419-448 | a burn read is a removal that serves the body |
| `SerialRuns.FailedBurnReadIsARun` | src/routes/files.rs:423-433 | one that cannot collect the body leaves the file as it was |
| `SerialRuns.PasteIsARun` | src/routes/pastes.rs:352-389 | a paste is its row |
| `SerialRuns.PasteEndIsARun` | src/routes/pastes.rs:574-604 | deleting, sweeping or burning it takes the row, and only burning serves the text |
| `Instance.Instance.AcquireObject` | src/db.rs:538-565 | the object of this content if there is one, else a new one, else a refused key; and the new table |
| `Instance.Instance.ReleaseObject` | src/db.rs:567-586 | the new table, and whether the bytes must go |
| `Instance.Instance.TryClaimCore` | src/db.rs:284-293 | won exactly when the core was never claimed, and then reserved |
| `Instance.Instance.ClaimCore` | src/routes/upload.rs:266-279 | the first free candidate is claimed, all before it being taken, and no more than one |
| `Instance.Instance.Rollback` | src/routes/upload.rs:555-567 | one reference back, and the bytes with the last, as far as release and delete go through |
| `Instance.Instance.StoreObject` | src/routes/upload.rs:285-296 | it succeeds exactly when an object has the content, or the candidate key is free and the PUT goes through; and what it leaves either way |
| `Instance.Instance.StoreThumbnail` | src/routes/files.rs:138-172 | a thumbnail comes exactly when its object can be had so; else nothing is left but what a failed PUT and its rollback leave, statement by statement |
| `Instance.Instance.EnsureThumbnail` | src/routes/files.rs:176-246 | it stores one exactly for a file without, that is no burn file and has its bytes; the row gets it and its reference, or the reference is rolled back, or stays counted when the link fails |
| `Instance.Instance.RemoveFile` | src/routes/files.rs:529-550 | it succeeds exactly when each statement and deletion it needs does: false if the row was gone, else the row and both references go, and the bytes nobody else uses; failing later it has taken the row all the same |
| `Instance.Instance.ReadBurned` | src/routes/files.rs:419-448 | a read that fails has consumed the file exactly when it had the whole body in hand, before its deadline, and its DELETE went through; one that succeeds returns the body and removes the file |
| `Instance.Instance.UploadClaimed` | src/routes/upload.rs:281-343 | from the claim on: it succeeds exactly when the INSERT goes through and an object for the content can be had, and the row has a thumbnail exactly when one can be had; a failure takes nothing from anyone, wherever its rollbacks fail, and from a neat shelf nothing is left of it when they go through |
| `Instance.Instance.Upload` | src/routes/upload.rs:266-343 | with the first free of five cores it succeeds exactly so; a failed one inserts no row and burns that core, or none when all were taken; a finished one is its row, object and bytes |
| `Instance.Instance.CreatePaste` | src/routes/pastes.rs:352-389 | a paste under the first free of five cores exactly when its INSERT goes through; else that core is burned |
| `Instance.Instance.ReadPaste` | src/routes/pastes.rs:409-421 | served exactly when its deadline is not past and, for a burn paste, its DELETE goes through; then a burn paste is gone |
| `Instance.Instance.ExpiredFiles` | src/db.rs:347-355 | of the files whose deadline is past the oldest, in their order, up to the limit, and all of them below it |
| `Instance.Instance.SweepFiles` | src/expiry.rs:16-29 | whatever goes had a deadline in the past and was among the 500 fetched; of those all go whose DELETE goes through; below 500 no other overdue file is left; those are counted whose removal went through to its end |
| `Inventory.LocalInventory` | src/routes/gc.rs:85-122 | the stack walk lists every file that some path of names leads to, under the key that the names spell, and nothing else |
| `Gc.FindingIsRight` | src/routes/gc.rs:205-241 | what is found about a key is that its object counts nothing, that its bytes lie where nothing accounts for them, or that its bytes are missing, with the right size, in all cases and no others |
| `Gc.Collector.Inspect` | src/routes/gc.rs:176-261 | the report says exactly what is to be said of the keys, once each, in their order, with their number and the estimate |
| `Gc.Collector.Reclaim` | src/routes/gc.rs:263-306 | in a quiescent state what is freed equals the estimate, and is what the store then holds less; nothing in use goes, every reclaimable key does, and what listed bytes are left are counted or referenced; where bytes cannot be deleted it ends, with all before it done |
| `Gc.ReclaimedIsClean` | src/routes/gc.rs:205-304 | after a pass a finding that is not missing bytes is of a key still referenced |
| `Gc.SecondEstimateIsZero` | src/routes/gc.rs:242-250 | a second inspection has nothing left to estimate |
| `Gc.FalseAlarms` | src/routes/gc.rs:161-215 | an object in use with its bytes stored is reported missing exactly outside the listed prefixes |
| `RateLimit.RecentTwice` | src/ratelimit.rs:35 | pruning twice is pruning once |
| `RateLimit.CheckedStands` | src/ratelimit.rs:31-41 | the pruned list answers as the full admitted history would, now and later |
| `RateLimit.AdmissionKeepsSpacing` | src/ratelimit.rs:36-40 | no more than the limit is ever admitted within less than one window |
| `RateLimit.BoundedUnderSkew` | src/ratelimit.rs:31-41 | over all histories of checks that step back by at most a skew, no window has more admitted hits than the limit, exactly when the skew is zero, the limit at most one, or the window empty |
| `RateLimit.BoundedInAnyOrder` | src/ratelimit.rs:31-41 | over all histories in any order, exactly when the limit is at most one or the window empty |
| `RateLimit.AnonLimiter.Check` | src/ratelimit.rs:31-41 | the list is worth the whole history of checks; in order, a check is admitted exactly when fewer than the limit of all earlier hits are recent, and the limit holds |
| `RateLimit.OutOfOrderChecksOvershoot` | src/ratelimit.rs:32-33 | four checks, the last two in the wrong order, are all admitted and exceed a limit of two |
| `Collections.Pigeonhole` | src/routes/collections.rs:568-597 | as many distinct member keys as members are the members |
| `Collections.AcceptedIsWellPlaced` | src/routes/collections.rs:579-608 | an accepted order gives each member its position, all distinct and not negative |
| `Collections.Collection.AddItem` | src/routes/collections.rs:462-487 | a new item goes to the end, a member stays, and the reported position is the item's exactly when it is new; it fails exactly when the item is not live or the last position is the greatest |
| `Collections.Collection.RemoveItem` | src/routes/collections.rs:502-521 | the item goes, or nothing changes |
| `Collections.Collection.Reorder` | src/routes/collections.rs:537-614 | accepted exactly when the request names each member once, with distinct positions that fit; then the same items are there, and the one each placement names stands at its position |
| `Explore.FetchThrough` | src/routes/explore.rs:35-38 | fetching n of each kind is enough for the first n of the merge |
| `Explore.OneOrder` | src/routes/explore.rs:61 | with distinct times an unstable sort has one result |
| `Explore.SameTimes` | src/routes/explore.rs:61 | any two sorts of the same items have the same times, ties or not |
| `Explore.Page` | src/routes/explore.rs:33-65 | page n is positions 20(n-1) to 20n of the full merge, up to ties, for n from 1 to 10000, and the nearest of these for other numbers; there is a next one exactly when the merge goes on |
| `Explore.PagesCover` | src/routes/explore.rs:33-65 | the pages follow each other without gap or overlap |
| `Zip.CandidateInjective` | src/routes/zip.rs:183-192 | no two tries for a name are alike |
| `Zip.LaterTries` | src/routes/zip.rs:183-188 | else it goes before the last dot, for every name with something before that dot |
| `Zip.PlainTries` | src/routes/zip.rs:183-188 | the name itself is tried first, and without an extension the number goes to the end |
| `Zip.FirstFree` | src/routes/zip.rs:187-192 | the least free suffix, found within one more try than there are taken names |
| `Zip.UniqueName` | src/routes/zip.rs:178-194 | a fresh name derived from the sanitized one, recorded as taken |
| `Zip.DistinctNames` | src/routes/zip.rs:140-161 | the entries of an archive have different names, whatever was asked for |
| `Zip.EntryNames` | src/routes/zip.rs:140-161 | every entry gets a name unless sanitizing one panics |
| `Zip.PasteIsNamedAfter` | src/routes/zip.rs:147-152 | after its title if that has a character that is not whitespace, else after its core |
| `Zip.PasteKeepsExtension` | src/routes/zip.rs:147-157 | a paste's entry keeps `.txt` exactly when the name still fits with it |
| `FileNames.SanitizeFilename` | src/mime.rs:65-86 | the loops compute the cleaned name |
| `FileNames.BaseNameBehind` | src/mime.rs:66-67 | what stands behind the last slash or backslash is the base name |
| `FileNames.CleanedName` | src/mime.rs:65-80 | behind any path, a name loses its first dots once it is filtered, and is "download" if nothing is left |
| `FileNames.FilteredOne` | src/mime.rs:70-74 | each control character goes, each quote and semicolon becomes an underscore, each other character stays |
| `FileNames.SanitizedIsFit` | src/mime.rs:63-86 | the result is never empty or hidden, has no separators, quotes or controls, and at most 128 bytes |
| `FileNames.WidthSteps` | src/mime.rs:82-84 | a character takes one to four bytes, the next one from U+0080, U+0800 and U+10000 on |
| `FileNames.SanitizePanics` | src/mime.rs:81-84 | the cut panics exactly when no prefix of a longer name has 128 bytes |
| `FileNames.SanitizePanicsOn` | src/mime.rs:81-84 | it panics on 127 clean ASCII characters followed by one that is not ASCII |
| `FileNames.SanitizePanicsSomewhere` | src/mime.rs:81-84 | one such name |
| `FileNames.SanitizeIdempotent` | src/mime.rs:65-86 | cleaning twice is cleaning once |
| `Decimal.LastDigit` | src/range.rs:20-24 | numbers are read and printed in decimal, the last digit last |
| `Text.WhitespaceCharacters` | src/range.rs:33-35 | the 25 characters that count as whitespace |
| `Text.TrimBetween` | src/range.rs:30 | trimming gives what stands between the whitespace at both ends |
| `Range.ClosedRange` | src/range.rs:54-73 | `bytes=a-b` for all numbers, however written and with any space around: the interval cut at the end, invalid backwards or beyond 64 bits, unsatisfiable past the end |
| `Range.OpenRange` | src/range.rs:54-73 | `bytes=a-` for all numbers |
| `Range.SuffixRange` | src/range.rs:40-52 | `bytes=-n` for all numbers |
| `Range.OnlyTheseForms` | src/range.rs:26-73 | no other header is a range |
| `Range.NoHeaderIsFull` | src/range.rs:26-29 | the whole object is answered exactly to a request without the header |
| `Range.SatisfiableInBounds` | src/range.rs:37-73 | a satisfiable range lies within the object |
| `Range.DeclaredLengthIsEmitted` | src/routes/files.rs:450-468 | the declared length is the number of bytes the span stream emits |
| `Ids.EveryCoreIsGenerated` | src/ids.rs:19-25 | every string of eight letters and digits without l, o, 0 and 1 comes up for some random bytes |
| `Ids.GenerateCore` | src/ids.rs:19-25 | whatever the bytes, a core is eight letters of the alphabet |
| `Ids.NormalizeExt` | src/ids.rs:29-50 | an extension is empty, or a dot and up to nine lower-case letters, digits and dots |
| `Ids.ExtensionIsLoweredTail` | src/ids.rs:29-50 | behind any path it is the lower-cased text from the last dot on, when that has two to ten letters, digits and dots and something stands before the dot; else empty |
| `Ids.LinkResolves` | src/ids.rs:53-58 | a core with its extension leads back to the core |
| `Ids.KeysInjective` | src/storage.rs:78-80 | different files and thumbnails have different keys |
| `Ids.KeysAreSafe` | src/storage.rs:78-91 | no key made of a core and an extension with one dot makes the store panic |

## Left out

- HTTP handling, templates, sessions, tokens, quotas, mail, passkeys, comments, roles and audit: plumbing or single guarded updates.
- Real cryptography, hashing, image and video processing: idealised or left to a free choice.
- Channel back-pressure, task cancellation by a client that goes away, and panics of spawned tasks: streams are the items they would send.
- Spool files whose reads fail: the single-piece path of `put_file` drops that error (`src/storage.rs:672`).
- `.tmp-` siblings of the local store, and S3 operations that report failure after they took effect, except that a failed PUT in the lifecycle may have stored its bytes.
- 64-bit overflow of offsets: offsets are unbounded, and the overflow check of `v2_span_stream` is modelled as such; the other offsets of spans in bounds of a stored object stay below it.
- Avatars in the transition system (they are stored before they are referenced); a quiescent collection treats them.
- Connections that fail between statements are the step `Abandon`: the handler stops and its references stay counted.
- A sweep of many rows is many one-row sweeps fetched together in the transition system, which allows more orders than the loop.
- Storage keys carry no extension in the transition system: whoever claimed the core fixed it.
- LifecycleReads.ReadsOwnContentIffStored: says nothing of a file stored under a thumbnail's key that the run issued more than once, where it does not hold (`LifecycleRaces.OnlyFileKeysKeepBytes`).
- LifecycleReads.CalmReadsOwnContent: ends at the same keys.
- LifecycleReads.NeverTheWrongBytes: ends at the same keys (`LifecycleRaces.OnlyFileKeysAreNeverWrong`).
- LifecycleReads.BurnServesOwnContent: ends at the same keys (`LifecycleRaces.OnlyFileKeysServeBurnsRightly`).
- LifecyclePrivate.RunRefinesPrivateCopies: ends at the same keys, as far as reads go; the links are refined whatever the keys.
- RateLimit.AnonLimiter.Check: the answer is promised for checks whose times do not go back; for the others `RateLimit.BoundedUnderSkew` says what can happen.
- Explore.Page: among items of the same instant it does not say which comes first, because the sort is unstable.
- Instance.Instance.SweepFiles: the sweep of pastes, a loop of single deletes, appears in the transition system only.
- SerialRuns.RemoveIsARun: removals that fail half-way are in the transition system, without a lemma that singles out their serial runs.
- OverlongSpans.SpansPastTheEnd: behind the end of an object, chunk offsets near 2^64 would overflow, which is not modelled.
- The listing of an S3 bucket page by page: the inventory of a collection is taken as listed.
- Gc.Collector.Reclaim: nothing else runs meanwhile; collections that race with other handlers are in the transition system.
