/** One instance serving one request at a time: each handler as it runs from its first statement to its last. */
module Instance {
  import opened Ledger
  import opened Lifecycle
  import opened Shelf
  import opened Wrappers

  /**
   * Which of a request's fallible steps go through: its PUTs (a failed one may still have left its bytes behind), the
   * INSERT of its row, the collected read and the length it was expected to have, the UPDATE that links a thumbnail,
   * and, row by row and key by key, the DELETE of a row, the release of a reference, the deletion of bytes.
   */
  datatype Luck = Luck(put: bool, thumbPut: bool, published: bool, insert: bool, read: bool, sized: bool, link: bool,
                       rows: Core -> bool, releases: Key -> bool, deletes: Key -> bool)
  {
    /** Whatever is given back is given back whole. */
    ghost predicate Cleans() {
      forall key :: releases(key) && deletes(key)
    }

    /** The reference is given back, and so are the bytes if it was the last. */
    predicate Frees(objects: Objects, key: Key) {
      releases(key) && (LastRelease(objects, key) ==> deletes(key))
    }

    /** Both references of a row are. */
    predicate FreesBoth(objects: Objects, key: Key, thumb: Option<Key>) {
      Frees(objects, key) && (thumb.Some? ==> Frees(Release(objects, key), thumb.value))
    }
  }

  /** What a rollback leaves of a reference to `key`: nothing, unless a statement of the rollback itself fails. */
  function RolledBackObjects(objects: Objects, key: Key, luck: Luck): Objects {
    if luck.releases(key) then Release(objects, key) else objects
  }

  function RolledBackBytes(objects: Objects, bytes: map<Key, Digest>, key: Key, luck: Luck): map<Key, Digest> {
    if luck.releases(key) && luck.deletes(key) then Dropped(objects, bytes, key) else bytes
  }

  /** What a removal leaves of both references of a row: it ends where a statement fails. */
  function FreedObjects(objects: Objects, key: Key, thumb: Option<Key>, luck: Luck): Objects {
    var left := RolledBackObjects(objects, key, luck);
    if thumb.Some? && luck.Frees(objects, key) then RolledBackObjects(left, thumb.value, luck) else left
  }

  function FreedBytes(objects: Objects, bytes: map<Key, Digest>, key: Key, thumb: Option<Key>, luck: Luck)
    : map<Key, Digest>
  {
    var left := RolledBackBytes(objects, bytes, key, luck);
    if thumb.Some? && luck.Frees(objects, key) then RolledBackBytes(Release(objects, key), left, thumb.value, luck)
    else left
  }

  /** The bytes after an acquired object that is new got its own; a shared one is taken to have them. */
  function Brought(objects: Objects, bytes: map<Key, Digest>, key: Key, content: Digest): map<Key, Digest> {
    if key in objects then bytes else bytes[key := content]
  }

  /** What a failed PUT of a new object leaves, after its rollback. */
  predicate LeftOver(objects: Objects, bytes: map<Key, Digest>, key: Key, content: Digest, luck: Luck,
                     objects': Objects, bytes': map<Key, Digest>) {
    && key !in objects && Absent(objects, content)
    && objects' == (if luck.releases(key) then objects else Create(objects, key, content))
    && bytes' == (if luck.releases(key) && luck.deletes(key) then bytes - {key}
                  else if luck.published then bytes[key := content] else bytes)
  }

  /** Every object has its bytes and nothing else is stored, and every object is counted. */
  predicate Neat(objects: Objects, bytes: map<Key, Digest>) {
    Backed(objects, bytes) && Positive(objects)
  }

  datatype UploadError = NoCoreLeft | AcquireFailed | PutFailed | InsertFailed

  datatype ReadError = NotFound | StorageFailed | SizeMismatch | RemovalFailed

  /** The first of the candidates that was never issued. */
  predicate FirstFree(cores: seq<Core>, claims: map<Core, Item>, core: Core) {
    && core !in claims
    && exists i | 0 <= i < |cores| :: cores[i] == core && forall j | 0 <= j < i :: cores[j] in claims
  }

  lemma FirstFreeIsOne(cores: seq<Core>, claims: map<Core, Item>, c: Core, d: Core)
    requires FirstFree(cores, claims, c) && FirstFree(cores, claims, d)
    ensures c == d
  {
  }

  /** Some object has this content. */
  predicate HasContent(objects: Objects, content: Digest) {
    exists key | key in objects :: objects[key].content == content
  }

  /** An object for this content can be had: there is one, or the candidate key is free and its PUT goes through. */
  predicate Obtains(objects: Objects, content: Digest, candidate: Key, put: bool) {
    HasContent(objects, content) || (candidate !in objects && put)
  }

  /** An upload gets a thumbnail: there is a frame, it is no burn file, and an object for the frame can be had. */
  predicate Pictured(objects: Objects, core: Core, item: Item, jpeg: Option<Digest>, luck: Luck) {
    && jpeg.Some? && !item.burn
    && (jpeg.value == item.content || Obtains(objects, jpeg.value, ThumbKey(core), luck.thumbPut))
  }

  /** With the file's object acquired, the thumbnail's can be had just when it could before, or is the same. */
  lemma PicturedAfterwards(objects: Objects, core: Core, item: Item, key: Key, jpeg: Digest, put: bool)
    requires Chosen(objects, item.content, FileKey(core), key)
    ensures Obtains(Acquired(objects, key, item.content), jpeg, ThumbKey(core), put)
       <==> jpeg == item.content || Obtains(objects, jpeg, ThumbKey(core), put)
  {
    var acquired := Acquired(objects, key, item.content);
    assert key in acquired && acquired[key].content == item.content;
    forall k | k in objects
      ensures k in acquired && acquired[k].content == objects[k].content
    {
    }
  }

  /** Under this key both stores have the same. */
  predicate Same(bytes: map<Key, Digest>, bytes': map<Key, Digest>, key: Key) {
    (key in bytes <==> key in bytes') && (key in bytes ==> bytes[key] == bytes'[key])
  }

  /** On a neat shelf, sharing an object brings its bytes. */
  lemma BroughtIsStocked(objects: Objects, bytes: map<Key, Digest>, key: Key, content: Digest)
    requires Neat(objects, bytes) && (key in objects ==> objects[key].content == content)
    ensures Brought(objects, bytes, key, content) == Stocked(bytes, key, content)
    ensures Neat(Acquired(objects, key, content), Stocked(bytes, key, content))
  {
    AcquiredStaysBacked(objects, bytes, key, content);
  }

  /** What a failed PUT leaves is nothing, when its rollback goes through. */
  lemma CleanLeftOver(objects: Objects, bytes: map<Key, Digest>, key: Key, content: Digest, luck: Luck,
                      objects': Objects, bytes': map<Key, Digest>)
    requires Neat(objects, bytes) && luck.Cleans() && LeftOver(objects, bytes, key, content, luck, objects', bytes')
    ensures objects' == objects && bytes' == bytes
  {
  }

  /** The object is still there, with `more` references at least, and what was stored for it is stored. */
  predicate Stays(objects: Objects, bytes: map<Key, Digest>, objects': Objects, bytes': map<Key, Digest>, k: Key,
                  more: nat)
    requires k in objects
  {
    && k in objects' && objects'[k].content == objects[k].content
    && objects'[k].refcount >= objects[k].refcount + more
    && (k in bytes ==> k in bytes' && bytes'[k] == bytes[k])
  }

  /** Whatever objects there were are there, with no fewer references, and what was stored for them is stored. */
  predicate Kept(objects: Objects, bytes: map<Key, Digest>, objects': Objects, bytes': map<Key, Digest>) {
    forall k | k in objects :: Stays(objects, bytes, objects', bytes', k, 0)
  }

  function One(k: Key, key: Key): nat {
    if k == key then 1 else 0
  }

  lemma AcquiredStays(objects: Objects, bytes: map<Key, Digest>, objects': Objects, bytes': map<Key, Digest>, k: Key,
                      more: nat, key: Key, content: Digest)
    requires k in objects && Stays(objects, bytes, objects', bytes', k, more)
    ensures Stays(objects, bytes, Acquired(objects', key, content), Brought(objects', bytes', key, content), k,
                  more + One(k, key))
  {
  }

  lemma RolledBackStays(objects: Objects, bytes: map<Key, Digest>, objects': Objects, bytes': map<Key, Digest>, k: Key,
                        more: nat, key: Key, luck: Luck)
    requires k in objects && objects[k].refcount >= 1
    requires Stays(objects, bytes, objects', bytes', k, more + One(k, key))
    ensures Stays(objects, bytes, RolledBackObjects(objects', key, luck), RolledBackBytes(objects', bytes', key, luck),
                  k, more)
  {
  }

  function RolledBackBoth(objects: Objects, key: Key, thumb: Option<Key>, luck: Luck): Objects {
    var left := RolledBackObjects(objects, key, luck);
    if thumb.Some? then RolledBackObjects(left, thumb.value, luck) else left
  }

  function RolledBackBothBytes(objects: Objects, bytes: map<Key, Digest>, key: Key, thumb: Option<Key>, luck: Luck)
    : map<Key, Digest>
  {
    var kept := RolledBackBytes(objects, bytes, key, luck);
    if thumb.Some? then RolledBackBytes(RolledBackObjects(objects, key, luck), kept, thumb.value, luck) else kept
  }

  /** What an upload has made of the objects when its row is about to be inserted. */
  predicate Made(objects: Objects, bytes: map<Key, Digest>, core: Core, item: Item, key: Key, jpeg: Option<Digest>,
                 thumb: Option<Key>, luck: Luck, objects': Objects, bytes': map<Key, Digest>) {
    var acquired, brought := Acquired(objects, key, item.content), Brought(objects, bytes, key, item.content);
    if thumb.None? then
      || (objects' == acquired && bytes' == brought)
      || (jpeg.Some? && LeftOver(acquired, brought, ThumbKey(core), jpeg.value, luck, objects', bytes'))
    else
      && jpeg.Some? && Chosen(acquired, jpeg.value, ThumbKey(core), thumb.value)
      && objects' == Acquired(acquired, thumb.value, jpeg.value)
      && bytes' == Brought(acquired, brought, thumb.value, jpeg.value)
  }

  /** Of an object there was before, an upload holds what it acquired of it. */
  lemma MadeStays(objects: Objects, bytes: map<Key, Digest>, core: Core, item: Item, key: Key, jpeg: Option<Digest>,
                  thumb: Option<Key>, luck: Luck, objects': Objects, bytes': map<Key, Digest>, k: Key)
    requires k in objects && Made(objects, bytes, core, item, key, jpeg, thumb, luck, objects', bytes')
    ensures Stays(objects, bytes, objects', bytes', k, One(k, key) + if thumb.Some? then One(k, thumb.value) else 0)
  {
    AcquiredStays(objects, bytes, objects, bytes, k, 0, key, item.content);
    var acquired, brought := Acquired(objects, key, item.content), Brought(objects, bytes, key, item.content);
    if thumb.Some? {
      AcquiredStays(objects, bytes, acquired, brought, k, One(k, key), thumb.value, jpeg.value);
    }
  }

  /** It takes nothing from anyone, nor do its rollbacks, wherever they fail. */
  lemma MadeKeeps(objects: Objects, bytes: map<Key, Digest>, core: Core, item: Item, key: Key, jpeg: Option<Digest>,
                  thumb: Option<Key>, luck: Luck, objects': Objects, bytes': map<Key, Digest>)
    requires Positive(objects) && Made(objects, bytes, core, item, key, jpeg, thumb, luck, objects', bytes')
    ensures Kept(objects, bytes, objects', bytes')
    ensures Kept(objects, bytes, RolledBackBoth(objects', key, thumb, luck),
                 RolledBackBothBytes(objects', bytes', key, thumb, luck))
  {
    forall k | k in objects
      ensures Stays(objects, bytes, objects', bytes', k, 0)
      ensures Stays(objects, bytes, RolledBackBoth(objects', key, thumb, luck),
                    RolledBackBothBytes(objects', bytes', key, thumb, luck), k, 0)
    {
      MadeStays(objects, bytes, core, item, key, jpeg, thumb, luck, objects', bytes', k);
      var more := if thumb.Some? then One(k, thumb.value) else 0;
      RolledBackStays(objects, bytes, objects', bytes', k, more, key, luck);
      if thumb.Some? {
        RolledBackStays(objects, bytes, RolledBackObjects(objects', key, luck),
                        RolledBackBytes(objects', bytes', key, luck), k, 0, thumb.value, luck);
      }
    }
  }

  /** The objects of an upload on a neat shelf, and how its rollbacks undo them. */
  lemma NeatUpload(objects: Objects, bytes: map<Key, Digest>, core: Core, item: Item, key: Key, jpeg: Option<Digest>,
                   thumb: Option<Key>, luck: Luck, objects': Objects, bytes': map<Key, Digest>)
    requires Neat(objects, bytes) && Chosen(objects, item.content, FileKey(core), key)
    requires Made(objects, bytes, core, item, key, jpeg, thumb, luck, objects', bytes')
    ensures luck.Cleans() ==>
      var acquired, stocked := Acquired(objects, key, item.content), Stocked(bytes, key, item.content);
      && (if thumb.None? then objects' == acquired && bytes' == stocked
          else
            && objects' == Acquired(acquired, thumb.value, jpeg.value)
            && bytes' == Stocked(stocked, thumb.value, jpeg.value))
      && ReleasedBoth(objects', key, thumb) == objects && DroppedBoth(objects', bytes', key, thumb) == bytes
  {
    var acquired, brought := Acquired(objects, key, item.content), Brought(objects, bytes, key, item.content);
    BroughtIsStocked(objects, bytes, key, item.content);
    if thumb.Some? {
      BroughtIsStocked(acquired, brought, thumb.value, jpeg.value);
      RollbackUndoesUpload(objects, bytes, key, item.content, thumb.value, jpeg.value);
    } else {
      ReleaseUndoesAcquire(objects, bytes, key, item.content);
      if luck.Cleans() && !(objects' == acquired && bytes' == brought) {
        CleanLeftOver(acquired, brought, ThumbKey(core), jpeg.value, luck, objects', bytes');
      }
    }
  }

  // ---- Sweeps ----

  /** The row's deadline has passed. */
  predicate Overdue(files: map<Core, FileRow>, now: nat, core: Core) {
    core in files && files[core].item.expires.Some? && files[core].item.expires.value < now
  }

  /** Both have a deadline, and the first one's is no later. */
  predicate NoLater(files: map<Core, FileRow>, c: Core, d: Core) {
    && c in files && d in files && files[c].item.expires.Some? && files[d].item.expires.Some?
    && files[c].item.expires.value <= files[d].item.expires.value
  }

  /**
   * A fetch of at most `limit` overdue files: oldest first, none younger than an overdue one left out, and all if they
   * fit.
   */
  predicate Batch(files: map<Core, FileRow>, now: nat, limit: nat, batch: seq<Core>) {
    && |batch| <= limit
    && (forall i, j | 0 <= i < j < |batch| :: batch[i] != batch[j])
    && (forall c | c in batch :: Overdue(files, now, c))
    && (forall i, j | 0 <= i < j < |batch| :: NoLater(files, batch[i], batch[j]))
    && (forall c, d | c in batch && d in files && d !in batch && Overdue(files, now, d) :: NoLater(files, c, d))
    && (|batch| < limit ==> forall d | d in files && Overdue(files, now, d) :: d in batch)
  }

  function Deadline(files: map<Core, FileRow>, core: Core): nat
    requires core in files
  {
    if files[core].item.expires.Some? then files[core].item.expires.value else 0
  }

  predicate Oldest(files: map<Core, FileRow>, core: Core, cores: set<Core>)
    requires core in files && forall c | c in cores :: c in files
  {
    forall d | d in cores :: Deadline(files, core) <= Deadline(files, d)
  }

  lemma {:induction false} OldestExists(files: map<Core, FileRow>, cores: set<Core>)
    requires cores != {} && forall c | c in cores :: c in files
    ensures exists c | c in cores :: Oldest(files, c, cores)
  {
    var c :| c in cores;
    if cores == {c} {
      assert Oldest(files, c, cores);
    } else {
      var rest := cores - {c};
      OldestExists(files, rest);
      var o :| o in rest && Oldest(files, o, rest);
      assert Oldest(files, if Deadline(files, c) <= Deadline(files, o) then c else o, cores);
    }
  }

  function Removals(cores: seq<Core>): seq<Change> {
    seq(|cores|, i requires 0 <= i < |cores| => Remove(cores[i]))
  }

  lemma RemovalsThen(cores: seq<Core>, core: Core)
    ensures Removals(cores + [core]) == Removals(cores) + [Remove(core)]
  {
  }

  // ---- Removals that may fail ----

  /** Everything that the removal of this core needs goes through. */
  predicate Removable(shelf: Shelf, core: Core, luck: Luck) {
    && luck.rows(core)
    && (core in shelf.files ==>
          luck.FreesBoth(shelf.objects, shelf.files[core].key, shelf.files[core].thumb))
  }

  /** The shelf after a removal: with its DELETE the row is gone, whatever becomes of its references. */
  function Taken(shelf: Shelf, core: Core, luck: Luck): Shelf {
    if !luck.rows(core) || core !in shelf.files then shelf
    else
      var row := shelf.files[core];
      Shelf(FreedObjects(shelf.objects, row.key, row.thumb, luck), shelf.files - {core},
            FreedBytes(shelf.objects, shelf.bytes, row.key, row.thumb, luck))
  }

  /** A removal that goes through is the change of a removal. */
  lemma TakenIsRemoved(shelf: Shelf, core: Core, luck: Luck)
    requires core in shelf.files && Removable(shelf, core, luck)
    ensures Taken(shelf, core, luck) == Changed(shelf, Remove(core))
  {
  }

  /** The shelf after removals in this order, each of which may fail. */
  function Swept(shelf: Shelf, cores: seq<Core>, luck: Luck): Shelf {
    if cores == [] then shelf
    else Taken(Swept(shelf, cores[..|cores| - 1], luck), cores[|cores| - 1], luck)
  }

  /** How many of them went through. */
  function SweptCount(shelf: Shelf, cores: seq<Core>, luck: Luck): nat {
    if cores == [] then 0
    else
      var before, core := Swept(shelf, cores[..|cores| - 1], luck), cores[|cores| - 1];
      SweptCount(shelf, cores[..|cores| - 1], luck)
      + if core in before.files && Removable(before, core, luck) then 1 else 0
  }

  /** The batch without the cores whose DELETE fails. */
  function Gone(cores: seq<Core>, luck: Luck): set<Core> {
    set c | c in cores && luck.rows(c)
  }

  lemma GoneNext(cores: seq<Core>, core: Core, luck: Luck)
    ensures Gone(cores + [core], luck) == Gone(cores, luck) + if luck.rows(core) then {core} else {}
  {
  }

  lemma TakenFiles(shelf: Shelf, core: Core, luck: Luck)
    ensures Taken(shelf, core, luck).files == shelf.files - if luck.rows(core) then {core} else {}
  {
    if luck.rows(core) && core !in shelf.files {
      assert shelf.files - {core} == shelf.files;
    }
  }

  lemma {:induction false} SweptFiles(shelf: Shelf, cores: seq<Core>, luck: Luck)
    ensures Swept(shelf, cores, luck).files == shelf.files - Gone(cores, luck)
    ensures SweptCount(shelf, cores, luck) <= |cores|
  {
    if cores != [] {
      var init, core := cores[..|cores| - 1], cores[|cores| - 1];
      SweptFiles(shelf, init, luck);
      TakenFiles(Swept(shelf, init, luck), core, luck);
      GoneNext(init, core, luck);
      assert cores == init + [core];
    }
  }

  /** One more removal of a live file, with nothing failing. */
  lemma CleanNext(shelf: Shelf, init: seq<Core>, core: Core, luck: Luck)
    requires luck.Cleans() && luck.rows(core) && core in Swept(shelf, init, luck).files
    requires Becomes(shelf, Removals(init), Swept(shelf, init, luck))
    ensures Becomes(shelf, Removals(init + [core]), Swept(shelf, init + [core], luck))
    ensures SweptCount(shelf, init + [core], luck) == SweptCount(shelf, init, luck) + 1
  {
    assert (init + [core])[..|init|] == init;
    TakenIsRemoved(Swept(shelf, init, luck), core, luck);
    RemovalsThen(init, core);
    BecomesThen(shelf, Removals(init), Swept(shelf, init, luck), Remove(core));
  }

  /** When nothing fails, a sweep of live files is their removals, and counts them all. */
  lemma {:induction false} CleanSweep(shelf: Shelf, cores: seq<Core>, luck: Luck)
    requires luck.Cleans() && forall c :: luck.rows(c)
    requires forall i, j | 0 <= i < j < |cores| :: cores[i] != cores[j]
    requires forall c | c in cores :: c in shelf.files
    ensures Becomes(shelf, Removals(cores), Swept(shelf, cores, luck)) && SweptCount(shelf, cores, luck) == |cores|
  {
    if cores != [] {
      var init, core := cores[..|cores| - 1], cores[|cores| - 1];
      assert core in cores && cores == init + [core];
      CleanSweep(shelf, init, luck);
      SweptFiles(shelf, init, luck);
      CleanNext(shelf, init, core, luck);
    }
  }

  // ---- Burn reads ----

  /** The reader has the whole body in hand, with the length that the row announces. */
  predicate InHand(shelf: Shelf, now: nat, core: Core, luck: Luck) {
    && core in shelf.files && shelf.files[core].item.burn
    && (shelf.files[core].item.expires.None? || now <= shelf.files[core].item.expires.value)
    && luck.read && shelf.files[core].key in shelf.bytes
    && luck.sized && shelf.bytes[shelf.files[core].key].length == shelf.files[core].item.content.length
  }

  // ---- The instance ----

  class Instance {
    var objects: Objects
    var files: map<Core, FileRow>
    var pastes: map<Core, Item>
    var claims: map<Core, Item>
    var bytes: map<Key, Digest>
    var now: nat

    constructor ()
      ensures OnShelf() == Shelf(map[], map[], map[]) && pastes == map[] && claims == map[]
    {
      objects, files, pastes, claims, bytes, now := map[], map[], map[], map[], map[], 0;
    }

    ghost function OnShelf(): Shelf
      reads this`objects, this`files, this`bytes
    {
      Shelf(objects, files, bytes)
    }

    // ---- db.rs ----

    /** `None` when the candidate key is taken by another content. */
    method AcquireObject(content: Digest, candidate: Key) returns (r: Option<(Key, bool)>)
      modifies this`objects
      ensures r.Some? ==>
        && Chosen(old(objects), content, candidate, r.value.0)
        && r.value.1 == (r.value.0 !in old(objects))
        && objects == Acquired(old(objects), r.value.0, content)
      ensures r.None? ==> objects == old(objects) && candidate in objects && Absent(objects, content)
    {
      if key :| key in objects && objects[key].content == content {
        objects := Share(objects, key);
        return Some((key, false));
      }
      if candidate in objects {
        return None;
      }
      objects := Create(objects, candidate, content);
      return Some((candidate, true));
    }

    /** True when the caller must delete the bytes. */
    method ReleaseObject(key: Key) returns (last: bool)
      modifies this`objects
      ensures last == LastRelease(old(objects), key)
      ensures objects == Release(old(objects), key)
    {
      if key !in objects {
        return false;
      }
      var left := objects[key].refcount - 1;
      if left <= 0 {
        objects := objects - {key};
        return true;
      }
      objects := objects[key := objects[key].(refcount := left)];
      return false;
    }

    method TryClaimCore(core: Core, item: Item) returns (won: bool)
      modifies this`claims
      ensures won <==> core !in old(claims)
      ensures claims == if won then old(claims)[core := item] else old(claims)
    {
      won := core !in claims;
      if won {
        claims := claims[core := item];
      }
    }

    // ---- The byte store ----

    method PutBytes(key: Key, content: Digest, ok: bool, published: bool)
      modifies this`bytes
      ensures bytes == if ok || published then Stocked(old(bytes), key, content) else old(bytes)
    {
      if ok || published {
        bytes := bytes[key := content];
      }
    }

    /** `rollback_object`, `rollback_thumbnail`: one reference back, and the bytes with the last; errors are logged. */
    method Rollback(key: Key, luck: Luck)
      modifies this`objects, this`bytes
      ensures objects == RolledBackObjects(old(objects), key, luck)
      ensures bytes == RolledBackBytes(old(objects), old(bytes), key, luck)
    {
      if luck.releases(key) {
        var last := ReleaseObject(key);
        if last && luck.deletes(key) {
          bytes := bytes - {key};
        }
      }
    }

    // ---- files.rs ----

    /** Acquire an object and store its bytes if it is new; a failed PUT leaves what its rollback leaves. */
    method StoreObject(content: Digest, candidate: Key, ok: bool, luck: Luck) returns (r: Result<Key, UploadError>)
      modifies this`objects, this`bytes
      ensures r.Success? ==>
        && Chosen(old(objects), content, candidate, r.value)
        && objects == Acquired(old(objects), r.value, content)
        && bytes == Brought(old(objects), old(bytes), r.value, content)
      ensures r.Success? <==> Obtains(old(objects), content, candidate, ok)
      ensures r.Failure? ==> r.error == if candidate in old(objects) then AcquireFailed else PutFailed
      ensures r == Failure(AcquireFailed) ==> objects == old(objects) && bytes == old(bytes)
      ensures r == Failure(PutFailed) ==> LeftOver(old(objects), old(bytes), candidate, content, luck, objects, bytes)
    {
      var acquired := AcquireObject(content, candidate);
      if acquired.None? {
        return Failure(AcquireFailed);
      }
      var (key, isNew) := acquired.value;
      if isNew {
        PutBytes(key, content, ok, luck.published);
        if !ok {
          Rollback(key, luck);
          return Failure(PutFailed);
        }
      }
      return Success(key);
    }

    /** Thumbnails are best effort: `None` on any failure, and then nothing is left but what a failed PUT leaves. */
    method StoreThumbnail(core: Core, jpeg: Digest, luck: Luck) returns (key: Option<Key>)
      modifies this`objects, this`bytes
      ensures key.Some? ==>
        && Chosen(old(objects), jpeg, ThumbKey(core), key.value)
        && objects == Acquired(old(objects), key.value, jpeg)
        && bytes == Brought(old(objects), old(bytes), key.value, jpeg)
      ensures key.Some? <==> Obtains(old(objects), jpeg, ThumbKey(core), luck.thumbPut)
      ensures key.None? ==>
        if ThumbKey(core) in old(objects) then objects == old(objects) && bytes == old(bytes)
        else LeftOver(old(objects), old(bytes), ThumbKey(core), jpeg, luck, objects, bytes)
    {
      var r := StoreObject(jpeg, ThumbKey(core), luck.thumbPut, luck);
      key := if r.Success? then Some(r.value) else None;
    }

    /**
     * Backfill the thumbnail of the file a handler loaded as `row`, which may be gone by now. If the linking UPDATE
     * fails the acquired reference stays counted; if it finds no row to link, the reference is rolled back.
     */
    method EnsureThumbnail(core: Core, row: FileRow, jpeg: Option<Digest>, luck: Luck)
      returns (key: Option<Key>, ghost stored: Option<Key>)
      modifies this`objects, this`files, this`bytes
      ensures row.thumb.Some? ==> key == row.thumb && stored.None?
      ensures stored.Some? <==>
        && row.thumb.None? && !row.item.burn && row.key in old(bytes)
        && jpeg.Some? && Obtains(old(objects), jpeg.value, ThumbKey(core), luck.thumbPut)
      ensures row.thumb.None? ==>
        key == if stored.Some? && luck.link && core in files then files[core].thumb else None
      ensures stored.None? ==>
        && files == old(files)
        && ((objects == old(objects) && bytes == old(bytes)) || (jpeg.Some?
              && LeftOver(old(objects), old(bytes), ThumbKey(core), jpeg.value, luck, objects, bytes)))
      ensures stored.Some? ==> jpeg.Some? && Chosen(old(objects), jpeg.value, ThumbKey(core), stored.value)
      ensures stored.Some? ==>
        var acquired := Acquired(old(objects), stored.value, jpeg.value);
        var brought := Brought(old(objects), old(bytes), stored.value, jpeg.value);
        if !luck.link then files == old(files) && objects == acquired && bytes == brought && key.None?
        else if Links(old(files), core) then
          && objects == acquired && bytes == brought && key == stored
          && files == old(files)[core := old(files)[core].(thumb := stored)]
        else
          && files == old(files)
          && objects == RolledBackObjects(acquired, stored.value, luck)
          && bytes == RolledBackBytes(acquired, brought, stored.value, luck)
      ensures old(Neat(objects, bytes)) && luck.Cleans() && luck.link ==>
        if stored.Some? && files != old(files) then
          && Allowed(old(OnShelf()), Picture(core, jpeg.value, stored.value))
          && OnShelf() == Changed(old(OnShelf()), Picture(core, jpeg.value, stored.value))
        else OnShelf() == old(OnShelf())
    {
      stored := None;
      if row.thumb.Some? {
        return row.thumb, None;
      }
      if row.item.burn || row.key !in bytes || jpeg.None? {
        return None, None;
      }
      key := StoreThumbnail(core, jpeg.value, luck);
      stored := key;
      if key.None? {
        return;
      }
      if old(Neat(objects, bytes)) {
        BroughtIsStocked(old(objects), old(bytes), key.value, jpeg.value);
      }
      if !luck.link {
        key := None;
        return;
      }
      if core in files && files[core].thumb.None? {
        files := files[core := files[core].(thumb := key)];
      } else {
        if old(Neat(objects, bytes)) {
          ReleaseUndoesAcquire(old(objects), old(bytes), key.value, jpeg.value);
        }
        Rollback(key.value, luck);
        key := if core in files then files[core].thumb else None;
      }
    }

    /** The release of one reference of a removed row, and the deletion of the bytes if it was the last. */
    method FreeObject(key: Key, luck: Luck) returns (ok: bool)
      modifies this`objects, this`bytes
      ensures ok <==> luck.Frees(old(objects), key)
      ensures objects == RolledBackObjects(old(objects), key, luck)
      ensures bytes == RolledBackBytes(old(objects), old(bytes), key, luck)
    {
      if !luck.releases(key) {
        return false;
      }
      var last := ReleaseObject(key);
      if last {
        if !luck.deletes(key) {
          return false;
        }
        bytes := bytes - {key};
      }
      return true;
    }

    /**
     * False when the row was gone already. Otherwise the row goes, and the bytes nobody else uses, unless a later
     * statement fails: then the row is gone all the same, and what was not released yet stays counted.
     */
    method RemoveFile(core: Core, luck: Luck) returns (r: Result<bool, ReadError>)
      modifies this`objects, this`files, this`bytes
      ensures r.Success? <==> Removable(old(OnShelf()), core, luck)
      ensures r.Failure? ==> r.error == RemovalFailed
      ensures r.Success? ==> (r.value <==> core in old(files))
      ensures OnShelf() == Taken(old(OnShelf()), core, luck)
      ensures r.Success? && r.value ==> OnShelf() == Changed(old(OnShelf()), Remove(core))
    {
      if !luck.rows(core) {
        return Failure(RemovalFailed);
      }
      if core !in files {
        return Success(false);
      }
      if Removable(OnShelf(), core, luck) {
        TakenIsRemoved(OnShelf(), core, luck);
      }
      var row := files[core];
      files := files - {core};
      var ok := FreeObject(row.key, luck);
      if !ok {
        return Failure(RemovalFailed);
      }
      if row.thumb.Some? {
        ok := FreeObject(row.thumb.value, luck);
        if !ok {
          return Failure(RemovalFailed);
        }
      }
      return Success(true);
    }

    /**
     * The burn branch of `raw`: the whole body is collected and measured before the row is consumed. A read that fails
     * has consumed the file exactly when it had the body in hand and its DELETE went through.
     */
    method ReadBurned(core: Core, luck: Luck) returns (r: Result<Digest, ReadError>)
      modifies this`objects, this`files, this`bytes
      ensures r.Success? <==> InHand(old(OnShelf()), now, core, luck) && Removable(old(OnShelf()), core, luck)
      ensures r.Success? ==>
        r.value == old(bytes)[old(files)[core].key] && OnShelf() == Changed(old(OnShelf()), Remove(core))
      ensures r.Failure? ==>
        OnShelf() == if InHand(old(OnShelf()), now, core, luck) then Taken(old(OnShelf()), core, luck)
                     else old(OnShelf())
      ensures r.Failure? ==>
        (files != old(files) <==> InHand(old(OnShelf()), now, core, luck) && luck.rows(core))
      ensures files != old(files) ==>
        && core in old(files) && files == old(files) - {core} && luck.rows(core) && luck.read && luck.sized
        && var row := old(files)[core];
        && row.item.burn && (row.item.expires.None? || now <= row.item.expires.value)
        && row.key in old(bytes) && old(bytes)[row.key].length == row.item.content.length
    {
      if core !in files || !files[core].item.burn || IsExpired(files[core].item, now) {
        return Failure(NotFound);
      }
      var row := files[core];
      if !luck.read || row.key !in bytes {
        return Failure(StorageFailed);
      }
      var body := bytes[row.key];
      if !luck.sized || body.length != row.item.content.length {
        return Failure(SizeMismatch);
      }
      var removed := RemoveFile(core, luck);
      if removed.Failure? {
        return Failure(removed.error);
      }
      return if removed.value then Success(body) else Failure(NotFound);
    }

    // ---- upload.rs ----

    /** The first of the candidate cores that was never issued before. */
    method ClaimCore(cores: seq<Core>, item: Item) returns (core: Option<Core>)
      modifies this`claims
      ensures core.None? ==> claims == old(claims) && forall c | c in cores :: c in old(claims)
      ensures core.Some? ==>
        FirstFree(cores, old(claims), core.value) && claims == old(claims)[core.value := item]
    {
      for i := 0 to |cores|
        invariant claims == old(claims) && forall j | 0 <= j < i :: cores[j] in claims
      {
        var won := TryClaimCore(cores[i], item);
        if won {
          return Some(cores[i]);
        }
      }
      return None;
    }

    /** Both rollbacks of an upload whose row was not inserted. */
    method RollbackBoth(key: Key, thumb: Option<Key>, luck: Luck)
      modifies this`objects, this`bytes
      ensures objects == RolledBackBoth(old(objects), key, thumb, luck)
      ensures bytes == RolledBackBothBytes(old(objects), old(bytes), key, thumb, luck)
      ensures luck.Cleans() ==>
        objects == ReleasedBoth(old(objects), key, thumb) && bytes == DroppedBoth(old(objects), old(bytes), key, thumb)
    {
      Rollback(key, luck);
      if thumb.Some? {
        Rollback(thumb.value, luck);
      }
    }

    /** The objects of an upload: its file's, and its thumbnail's if it gets one. */
    method UploadObjects(core: Core, item: Item, jpeg: Option<Digest>, luck: Luck)
      returns (r: Result<(Key, Option<Key>), UploadError>)
      modifies this`objects, this`bytes
      ensures r.Success? <==> Obtains(old(objects), item.content, FileKey(core), luck.put)
      ensures r.Failure? ==>
        if FileKey(core) in old(objects) then
          r.error == AcquireFailed && objects == old(objects) && bytes == old(bytes)
        else
          && r.error == PutFailed
          && LeftOver(old(objects), old(bytes), FileKey(core), item.content, luck, objects, bytes)
      ensures r.Success? ==> Chosen(old(objects), item.content, FileKey(core), r.value.0)
      ensures r.Success? ==> (r.value.1.Some? <==> Pictured(old(objects), core, item, jpeg, luck))
      ensures r.Success? ==>
        Made(old(objects), old(bytes), core, item, r.value.0, jpeg, r.value.1, luck, objects, bytes)
      ensures old(Positive(objects)) ==>
        && Kept(old(objects), old(bytes), objects, bytes)
        && (r.Success? ==>
              Kept(old(objects), old(bytes), RolledBackBoth(objects, r.value.0, r.value.1, luck),
                   RolledBackBothBytes(objects, bytes, r.value.0, r.value.1, luck)))
    {
      var stored := StoreObject(item.content, FileKey(core), luck.put, luck);
      if stored.Failure? {
        return Failure(stored.error);
      }
      var thumb := None;
      if jpeg.Some? && !item.burn {
        PicturedAfterwards(old(objects), core, item, stored.value, jpeg.value, luck.thumbPut);
        thumb := StoreThumbnail(core, jpeg.value, luck);
      }
      if old(Positive(objects)) {
        MadeKeeps(old(objects), old(bytes), core, item, stored.value, jpeg, thumb, luck, objects, bytes);
      }
      return Success((stored.value, thumb));
    }

    /**
     * From the claimed core on. It succeeds exactly when an object for the content can be had and the INSERT goes
     * through, into no row of that core. With a row there is an object of its content, with the bytes it had or got,
     * whatever became of the thumbnail. From a neat shelf, and when rollbacks go through, it is all of the upload or
     * nothing.
     */
    method UploadClaimed(core: Core, item: Item, jpeg: Option<Digest>, luck: Luck) returns (r: Result<Key, UploadError>)
      modifies this`objects, this`files, this`bytes
      ensures r.Success? <==>
        luck.insert && core !in old(files) && Obtains(old(objects), item.content, FileKey(core), luck.put)
      ensures r.Failure? ==> files == old(files)
      ensures r.Failure? ==>
        r.error == if Obtains(old(objects), item.content, FileKey(core), luck.put) then InsertFailed
                   else if FileKey(core) in old(objects) then AcquireFailed
                   else PutFailed
      ensures r.Success? ==>
        && core in files
        && files == old(files)[core := FileRow(item, r.value, files[core].thumb)]
        && (files[core].thumb.Some? <==> Pictured(old(objects), core, item, jpeg, luck))
        && (files[core].thumb.Some? ==> Holds(objects, files[core].thumb.value, jpeg.value))
        && Holds(objects, r.value, item.content)
        && Same(bytes, Brought(old(objects), old(bytes), r.value, item.content), r.value)
      ensures old(Positive(objects)) ==> Kept(old(objects), old(bytes), objects, bytes)
      ensures old(Neat(objects, bytes)) && luck.Cleans() ==>
        if r.Failure? then OnShelf() == old(OnShelf())
        else Becomes(old(OnShelf()), UploadChanges(core, item, r.value, jpeg, files[core].thumb), OnShelf())
    {
      var stored := UploadObjects(core, item, jpeg, luck);
      if stored.Failure? {
        return Failure(stored.error);
      }
      var (key, thumb) := stored.value;
      if old(Neat(objects, bytes)) {
        NeatUpload(old(objects), old(bytes), core, item, key, jpeg, thumb, luck, objects, bytes);
      }
      if !luck.insert || core in files {
        RollbackBoth(key, thumb, luck);
        return Failure(InsertFailed);
      }
      if old(Neat(objects, bytes)) && luck.Cleans() {
        UploadBecomes(old(OnShelf()), core, item, key, jpeg, thumb, objects, bytes);
      }
      files := files[core := FileRow(item, key, thumb)];
      return Success(key);
    }

    /**
     * An upload ends with its row inserted, and its thumbnail when there is one, or without a row. A failed one burns
     * the core it claimed; from a neat shelf it leaves nothing else but what failing rollbacks leave.
     */
    method Upload(cores: seq<Core>, item: Item, jpeg: Option<Digest>, luck: Luck) returns (r: Result<Core, UploadError>)
      requires |cores| == 5
      modifies this`objects, this`files, this`bytes, this`claims
      ensures forall c: Core | FirstFree(cores, old(claims), c) ::
        && claims == old(claims)[c := item]
        && (r.Success? <==>
              luck.insert && c !in old(files) && Obtains(old(objects), item.content, FileKey(c), luck.put))
      ensures r == Failure(NoCoreLeft) <==> forall c | c in cores :: c in old(claims)
      ensures r == Failure(NoCoreLeft) ==> claims == old(claims)
      ensures r.Failure? ==> files == old(files)
      ensures r.Success? ==>
        && FirstFree(cores, old(claims), r.value)
        && r.value in files && files[r.value].item == item
        && files == old(files)[r.value := files[r.value]]
        && Holds(objects, files[r.value].key, item.content)
        && Same(bytes, Brought(old(objects), old(bytes), files[r.value].key, item.content), files[r.value].key)
        && (files[r.value].thumb.Some? <==> Pictured(old(objects), r.value, item, jpeg, luck))
      ensures old(Neat(objects, bytes)) && luck.Cleans() ==>
        if r.Failure? then OnShelf() == old(OnShelf())
        else
          Becomes(old(OnShelf()), UploadChanges(r.value, item, files[r.value].key, jpeg, files[r.value].thumb),
                  OnShelf())
    {
      var claimed := ClaimCore(cores, item);
      if claimed.None? {
        return Failure(NoCoreLeft);
      }
      var core := claimed.value;
      forall c | FirstFree(cores, old(claims), c) {
        FirstFreeIsOne(cores, old(claims), c, core);
      }
      var stored := UploadClaimed(core, item, jpeg, luck);
      r := if stored.Success? then Success(core) else Failure(stored.error);
    }

    // ---- pastes.rs ----

    method CreatePaste(cores: seq<Core>, item: Item, luck: Luck) returns (r: Result<Core, UploadError>)
      requires |cores| == 5
      modifies this`pastes, this`claims
      ensures forall c: Core | FirstFree(cores, old(claims), c) ::
        && claims == old(claims)[c := item]
        && r == if luck.insert && c !in old(pastes) then Success(c) else Failure(InsertFailed)
      ensures r == Failure(NoCoreLeft) <==> forall c | c in cores :: c in old(claims)
      ensures r == Failure(NoCoreLeft) ==> claims == old(claims)
      ensures r.Success? ==> FirstFree(cores, old(claims), r.value)
      ensures pastes == if r.Success? then old(pastes)[r.value := item] else old(pastes)
    {
      var claimed := ClaimCore(cores, item);
      if claimed.None? {
        return Failure(NoCoreLeft);
      }
      forall c | FirstFree(cores, old(claims), c) {
        FirstFreeIsOne(cores, old(claims), c, claimed.value);
      }
      if !luck.insert || claimed.value in pastes {
        return Failure(InsertFailed);
      }
      pastes := pastes[claimed.value := item];
      return Success(claimed.value);
    }

    /**
     * A live paste is served: one without a deadline, or whose deadline is not past. The body is in the row, so the
     * DELETE alone decides who gets that of a burn paste.
     */
    method ReadPaste(core: Core, luck: Luck) returns (r: Result<Digest, ReadError>)
      modifies this`pastes
      ensures r.Success? <==>
        && core in old(pastes)
        && (old(pastes)[core].expires.None? || now <= old(pastes)[core].expires.value)
        && (old(pastes)[core].burn ==> luck.rows(core))
      ensures r.Success? ==> r.value == old(pastes)[core].content
      ensures pastes == if r.Success? && old(pastes)[core].burn then old(pastes) - {core} else old(pastes)
    {
      if core !in pastes || IsExpired(pastes[core], now) {
        return Failure(NotFound);
      }
      var all := pastes[core].content;
      if pastes[core].burn {
        if !luck.rows(core) {
          return Failure(RemovalFailed);
        }
        pastes := pastes - {core};
      }
      return Success(all);
    }

    // ---- expiry.rs ----

    /** The expired files, oldest first, `limit` of them at most. */
    method ExpiredFiles(limit: nat) returns (batch: seq<Core>)
      ensures Batch(files, now, limit, batch)
    {
      batch := [];
      var rest := set c | c in files && IsExpired(files[c].item, now);
      while |batch| < limit && rest != {}
        invariant |batch| <= limit
        invariant forall i, j | 0 <= i < j < |batch| :: batch[i] != batch[j]
        invariant forall c :: c in batch || c in rest <==> Overdue(files, now, c)
        invariant forall c | c in batch :: c !in rest
        invariant forall c, d | c in batch && d in rest :: NoLater(files, c, d)
        invariant forall i, j | 0 <= i < j < |batch| :: NoLater(files, batch[i], batch[j])
        decreases rest
      {
        OldestExists(files, rest);
        var c :| c in rest && Oldest(files, c, rest);
        batch := batch + [c];
        rest := rest - {c};
      }
    }

    /** Remove the fetched files one by one; a removal that fails is logged, and the next one goes on. */
    method SweepBatch(batch: seq<Core>, luck: Luck) returns (count: nat)
      modifies this`objects, this`files, this`bytes
      ensures OnShelf() == Swept(old(OnShelf()), batch, luck)
      ensures count == SweptCount(old(OnShelf()), batch, luck)
    {
      count := 0;
      for i := 0 to |batch|
        invariant OnShelf() == Swept(old(OnShelf()), batch[..i], luck)
        invariant count == SweptCount(old(OnShelf()), batch[..i], luck)
      {
        assert batch[..i + 1][..i] == batch[..i];
        var removed := RemoveFile(batch[i], luck);
        if removed == Success(true) {
          count := count + 1;
        }
      }
      assert batch[..|batch|] == batch;
    }

    /**
     * One sweep: of the overdue files, the oldest first and 500 at most, those go whose DELETE goes through, and
     * nothing else does; those are counted whose removal went through to its end. If fewer were fetched, no other
     * overdue file is left.
     */
    method SweepFiles(luck: Luck) returns (count: nat, ghost batch: seq<Core>)
      modifies this`objects, this`files, this`bytes
      ensures Batch(old(files), now, 500, batch)
      ensures OnShelf() == Swept(old(OnShelf()), batch, luck) && count == SweptCount(old(OnShelf()), batch, luck)
      ensures forall c | c in files :: c in old(files) && files[c] == old(files)[c]
      ensures forall c | c in old(files) && c !in files ::
        old(files)[c].item.expires.Some? && old(files)[c].item.expires.value < now && c in batch && luck.rows(c)
      ensures forall c | c in batch && luck.rows(c) :: c !in files
      ensures |batch| < 500 ==>
        forall c | c in files && files[c].item.expires.Some? && files[c].item.expires.value < now :: !luck.rows(c)
      ensures luck.Cleans() && (forall c :: luck.rows(c)) ==>
        count == |batch| && Becomes(old(OnShelf()), Removals(batch), OnShelf())
    {
      var fetched := ExpiredFiles(500);
      batch := fetched;
      SweptFiles(OnShelf(), batch, luck);
      if luck.Cleans() && forall c :: luck.rows(c) {
        CleanSweep(OnShelf(), batch, luck);
      }
      count := SweepBatch(fetched, luck);
      assert files == old(files) - Gone(batch, luck);
    }
  }
}
