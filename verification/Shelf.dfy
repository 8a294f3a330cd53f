/**
 * The tables and the byte store between requests, when requests run one at a time: what keeps them tidy, and what
 * each request does to them.
 */
module Shelf {
  import opened Ledger
  import opened Lifecycle
  import opened LifecycleInvariant
  import opened Wrappers

  /** The store holds the bytes of each object and nothing else. */
  predicate Backed(objects: Objects, bytes: map<Key, Digest>) {
    bytes == map k | k in objects :: objects[k].content
  }

  /** Each row's file object has the content of the row. */
  predicate RowsHold(objects: Objects, files: map<Core, FileRow>) {
    forall c | c in files :: Holds(objects, files[c].key, files[c].item.content)
  }

  predicate Positive(objects: Objects) {
    forall k | k in objects :: objects[k].refcount >= 1
  }

  /** A content has one object. */
  predicate Unique(objects: Objects) {
    forall k, l | k in objects && l in objects && objects[k].content == objects[l].content :: k == l
  }

  /** Each object counts exactly the rows that use it. */
  ghost predicate Counts(objects: Objects, files: map<Core, FileRow>, refs: map<Ref, Key>) {
    Accounts(files, map[], refs) && Balanced(objects, refs)
  }

  /** The key `acquire_object` answers with for this content and candidate. */
  predicate Chosen(objects: Objects, content: Digest, candidate: Key, key: Key) {
    Holds(objects, key, content) || (key == candidate && key !in objects && Absent(objects, content))
  }

  /** Whichever way `acquire_object` went, the object has one reference more ... */
  function Acquired(objects: Objects, key: Key, content: Digest): Objects {
    if key in objects then Share(objects, key) else Create(objects, key, content)
  }

  /** ... and its bytes are in place. */
  function Stocked(bytes: map<Key, Digest>, key: Key, content: Digest): map<Key, Digest> {
    bytes[key := content]
  }

  /** The bytes go with the last reference. */
  function Dropped(objects: Objects, bytes: map<Key, Digest>, key: Key): map<Key, Digest> {
    if LastRelease(objects, key) then bytes - {key} else bytes
  }

  /** Both references of a row, its file's first. */
  function ReleasedBoth(objects: Objects, key: Key, thumb: Option<Key>): Objects {
    if thumb.Some? then Release(Release(objects, key), thumb.value) else Release(objects, key)
  }

  function DroppedBoth(objects: Objects, bytes: map<Key, Digest>, key: Key, thumb: Option<Key>): map<Key, Digest> {
    var bytes' := Dropped(objects, bytes, key);
    if thumb.Some? then Dropped(Release(objects, key), bytes', thumb.value) else bytes'
  }

  lemma AcquiredKeeps(objects: Objects, bytes: map<Key, Digest>, files: map<Core, FileRow>, key: Key, content: Digest,
                      candidate: Key)
    requires Backed(objects, bytes) && RowsHold(objects, files) && Unique(objects)
    requires Chosen(objects, content, candidate, key)
    ensures var objects' := Acquired(objects, key, content);
      && Backed(objects', Stocked(bytes, key, content)) && RowsHold(objects', files) && Unique(objects')
      && Holds(objects', key, content)
  {
  }

  lemma AcquiredStaysBacked(objects: Objects, bytes: map<Key, Digest>, key: Key, content: Digest)
    requires Backed(objects, bytes) && Positive(objects)
    requires key in objects ==> objects[key].content == content
    ensures Backed(Acquired(objects, key, content), Stocked(bytes, key, content))
    ensures Positive(Acquired(objects, key, content))
  {
  }

  lemma ReleaseKeeps(objects: Objects, bytes: map<Key, Digest>, key: Key)
    requires Backed(objects, bytes) && Unique(objects)
    ensures Backed(Release(objects, key), Dropped(objects, bytes, key)) && Unique(Release(objects, key))
  {
  }

  /** A rollback gives back exactly what its upload or thumbnail acquired and stored. */
  lemma ReleaseUndoesAcquire(objects: Objects, bytes: map<Key, Digest>, key: Key, content: Digest)
    requires Backed(objects, bytes) && Positive(objects)
    requires key in objects ==> objects[key].content == content
    ensures var objects' := Acquired(objects, key, content);
      Release(objects', key) == objects && Dropped(objects', Stocked(bytes, key, content), key) == bytes
  {
  }

  lemma AcquiredBalances(objects: Objects, refs: map<Ref, Key>, key: Key, content: Digest, r: Ref)
    requires Balanced(objects, refs) && r !in refs
    ensures Balanced(Acquired(objects, key, content), refs[r := key])
  {
    if key in objects {
      ShareBalances(objects, refs, r, key);
    } else {
      CreateBalances(objects, refs, r, key, content);
    }
  }

  /** A new row takes the reference its upload acquired. */
  lemma InsertCounts(objects: Objects, files: map<Core, FileRow>, refs: map<Ref, Key>, core: Core, item: Item, key: Key)
    requires Counts(objects, files, refs) && core !in files
    ensures Counts(Acquired(objects, key, item.content), files[core := FileRow(item, key, None)],
                   refs[RowMain(core) := key])
  {
    assert Lookup(refs, RowMain(core)) == None;
    AcquiredBalances(objects, refs, key, item.content, RowMain(core));
    var files', refs' := files[core := FileRow(item, key, None)], refs[RowMain(core) := key];
    forall r
      ensures Lookup(refs', r) == KeyOf(files', map[], r)
    {
      assert Lookup(refs, r) == KeyOf(files, map[], r);
    }
  }

  /** A row takes the reference its thumbnail acquired. */
  lemma LinkCounts(objects: Objects, files: map<Core, FileRow>, refs: map<Ref, Key>, core: Core, jpeg: Digest, key: Key)
    requires Counts(objects, files, refs) && core in files && files[core].thumb.None?
    ensures Counts(Acquired(objects, key, jpeg), files[core := files[core].(thumb := Some(key))],
                   refs[RowThumb(core) := key])
  {
    assert Lookup(refs, RowThumb(core)) == None;
    AcquiredBalances(objects, refs, key, jpeg, RowThumb(core));
    var files', refs' := files[core := files[core].(thumb := Some(key))], refs[RowThumb(core) := key];
    forall r
      ensures Lookup(refs', r) == KeyOf(files', map[], r)
    {
      assert Lookup(refs, r) == KeyOf(files, map[], r);
    }
  }

  /** The references of a deleted row, the first and then the second, are given back. */
  lemma RemoveCounts(objects: Objects, files: map<Core, FileRow>, refs: map<Ref, Key>, core: Core)
    requires Counts(objects, files, refs) && core in files
    ensures var row := files[core];
      var objects' := Release(objects, row.key);
      if row.thumb.Some? then
        Counts(Release(objects', row.thumb.value), files - {core}, refs - {RowMain(core)} - {RowThumb(core)})
      else Counts(objects', files - {core}, refs - {RowMain(core)})
  {
    var row := files[core];
    assert Lookup(refs, RowMain(core)) == Some(row.key) && Lookup(refs, RowThumb(core)) == row.thumb;
    ReleaseBalances(objects, refs, RowMain(core));
    var refs' := refs - {RowMain(core)};
    if row.thumb.Some? {
      ReleaseBalances(Release(objects, row.key), refs', RowThumb(core));
      refs' := refs' - {RowThumb(core)};
    }
    forall r
      ensures Lookup(refs', r) == KeyOf(files - {core}, map[], r)
    {
      assert Lookup(refs, r) == KeyOf(files, map[], r);
    }
  }

  /** Rows that stay keep their objects. */
  lemma RowsStillHold(objects: Objects, files: map<Core, FileRow>, objects': Objects, files': map<Core, FileRow>,
                      refs': map<Ref, Key>)
    requires RowsHold(objects, files) && Counts(objects', files', refs')
    requires forall c | c in files' :: c in files && files'[c] == files[c]
    requires forall k | k in objects' :: k in objects && objects'[k].content == objects[k].content
    ensures RowsHold(objects', files')
  {
    forall c | c in files'
      ensures Holds(objects', files'[c].key, files'[c].item.content)
    {
      assert Lookup(refs', RowMain(c)) == Some(files'[c].key);
    }
  }

  /** With different keys the two rollbacks do not meet. */
  lemma RollbacksCommute(objects: Objects, bytes: map<Key, Digest>, key: Key, content: Digest, thumb: Key, jpeg: Digest)
    requires Positive(objects)
    requires key != thumb && (key in objects ==> objects[key].content == content)
    ensures var both := Acquired(Acquired(objects, key, content), thumb, jpeg);
      && Release(both, key) == Acquired(objects, thumb, jpeg)
      && (LastRelease(both, key) <==> key !in objects)
  {
  }

  lemma SharedRollbacks(objects: Objects, key: Key, content: Digest)
    requires Positive(objects)
    requires key in objects ==> objects[key].content == content
    ensures var both := Acquired(Acquired(objects, key, content), key, content);
      && Release(both, key) == Acquired(objects, key, content)
      && !LastRelease(both, key)
  {
  }

  /** Two rollbacks, in the order the upload makes them, give back both of its acquisitions. */
  lemma RollbackUndoesUpload(objects: Objects, bytes: map<Key, Digest>, key: Key, content: Digest, thumb: Key,
                             jpeg: Digest)
    requires Backed(objects, bytes) && Positive(objects)
    requires key in objects ==> objects[key].content == content
    requires thumb in Acquired(objects, key, content) ==> Acquired(objects, key, content)[thumb].content == jpeg
    ensures var both := Acquired(Acquired(objects, key, content), thumb, jpeg);
      var stocked := Stocked(Stocked(bytes, key, content), thumb, jpeg);
      && Release(Release(both, key), thumb) == objects
      && Dropped(Release(both, key), Dropped(both, stocked, key), thumb) == bytes
  {
    ReleaseUndoesAcquire(objects, bytes, thumb, jpeg);
    if key == thumb {
      SharedRollbacks(objects, key, content);
    } else {
      RollbacksCommute(objects, bytes, key, content, thumb, jpeg);
      var stocked := Stocked(Stocked(bytes, key, content), thumb, jpeg);
      assert key in objects ==> bytes[key] == content;
      assert (if key in objects then stocked else stocked - {key}) == Stocked(bytes, thumb, jpeg);
    }
  }

  // ---- Requests, one at a time ----

  datatype Shelf = Shelf(objects: Objects, files: map<Core, FileRow>, bytes: map<Key, Digest>)

  /** What requests do in the end: an upload inserts its row, a thumbnail is linked, a row goes. */
  datatype Change =
    | Insert(core: Core, item: Item, key: Key)
    | Picture(core: Core, jpeg: Digest, key: Key)
    | Remove(core: Core)

  predicate Allowed(shelf: Shelf, change: Change) {
    match change
    case Insert(core, item, key) => core !in shelf.files && Chosen(shelf.objects, item.content, FileKey(core), key)
    case Picture(core, jpeg, key) => Links(shelf.files, core) && Chosen(shelf.objects, jpeg, ThumbKey(core), key)
    case Remove(core) => core in shelf.files
  }

  function ChangedObjects(shelf: Shelf, change: Change): Objects
    requires Allowed(shelf, change)
  {
    match change
    case Insert(_, item, key) => Acquired(shelf.objects, key, item.content)
    case Picture(_, jpeg, key) => Acquired(shelf.objects, key, jpeg)
    case Remove(core) =>
      ReleasedBoth(shelf.objects, shelf.files[core].key, shelf.files[core].thumb)
  }

  function ChangedFiles(shelf: Shelf, change: Change): map<Core, FileRow>
    requires Allowed(shelf, change)
  {
    match change
    case Insert(core, item, key) => shelf.files[core := FileRow(item, key, None)]
    case Picture(core, _, key) => shelf.files[core := shelf.files[core].(thumb := Some(key))]
    case Remove(core) => shelf.files - {core}
  }

  function ChangedBytes(shelf: Shelf, change: Change): map<Key, Digest>
    requires Allowed(shelf, change)
  {
    match change
    case Insert(_, item, key) => Stocked(shelf.bytes, key, item.content)
    case Picture(_, jpeg, key) => Stocked(shelf.bytes, key, jpeg)
    case Remove(core) =>
      DroppedBoth(shelf.objects, shelf.bytes, shelf.files[core].key, shelf.files[core].thumb)
  }

  function Changed(shelf: Shelf, change: Change): Shelf
    requires Allowed(shelf, change)
  {
    Shelf(ChangedObjects(shelf, change), ChangedFiles(shelf, change), ChangedBytes(shelf, change))
  }

  /** The changes, one after the other, lead from one shelf to the other. */
  ghost predicate Becomes(shelf: Shelf, changes: seq<Change>, shelf': Shelf)
    decreases |changes|
  {
    if changes == [] then shelf' == shelf
    else Allowed(shelf, changes[0]) && Becomes(Changed(shelf, changes[0]), changes[1..], shelf')
  }

  lemma BecomesOne(shelf: Shelf, change: Change)
    requires Allowed(shelf, change)
    ensures Becomes(shelf, [change], Changed(shelf, change))
  {
    assert [change][1..] == [];
  }

  lemma {:induction false} BecomesThen(shelf: Shelf, changes: seq<Change>, shelf': Shelf, change: Change)
    requires Becomes(shelf, changes, shelf') && Allowed(shelf', change)
    ensures Becomes(shelf, changes + [change], Changed(shelf', change))
    decreases |changes|
  {
    if changes == [] {
      BecomesOne(shelf, change);
      assert changes + [change] == [change];
    } else {
      BecomesThen(Changed(shelf, changes[0]), changes[1..], shelf', change);
      assert (changes + [change])[1..] == changes[1..] + [change];
    }
  }

  /** What an upload amounts to: its row, and then its thumbnail. */
  function UploadChanges(core: Core, item: Item, key: Key, jpeg: Option<Digest>, thumb: Option<Key>): seq<Change>
    requires thumb.Some? ==> jpeg.Some?
  {
    match thumb
    case None => [Insert(core, item, key)]
    case Some(t) => [Insert(core, item, key), Picture(core, jpeg.value, t)]
  }

  /** Inserting the row with its thumbnail in one statement is inserting it and then linking the thumbnail. */
  lemma UploadBecomes(shelf: Shelf, core: Core, item: Item, key: Key, jpeg: Option<Digest>, thumb: Option<Key>,
                      objects': Objects, bytes': map<Key, Digest>)
    requires thumb.Some? ==> jpeg.Some?
    requires core !in shelf.files && Chosen(shelf.objects, item.content, FileKey(core), key)
    requires var acquired := Acquired(shelf.objects, key, item.content);
      var stocked := Stocked(shelf.bytes, key, item.content);
      if thumb.None? then objects' == acquired && bytes' == stocked
      else
        && Chosen(acquired, jpeg.value, ThumbKey(core), thumb.value)
        && objects' == Acquired(acquired, thumb.value, jpeg.value)
        && bytes' == Stocked(stocked, thumb.value, jpeg.value)
    ensures Becomes(shelf, UploadChanges(core, item, key, jpeg, thumb),
                    Shelf(objects', shelf.files[core := FileRow(item, key, thumb)], bytes'))
  {
    var insert := Insert(core, item, key);
    BecomesOne(shelf, insert);
    if thumb.Some? {
      var inserted, picture := Changed(shelf, insert), Picture(core, jpeg.value, thumb.value);
      assert inserted.files[core := inserted.files[core].(thumb := thumb)]
          == shelf.files[core := FileRow(item, key, thumb)];
      BecomesThen(shelf, [insert], inserted, picture);
      assert [insert] + [picture] == [insert, picture];
    }
  }

  /**
   * Each object counts exactly the rows that use it; the store holds its bytes and nothing else; each row's file
   * object has the content of the row; a content has one object.
   */
  ghost predicate Tidy(shelf: Shelf, refs: map<Ref, Key>) {
    && Counts(shelf.objects, shelf.files, refs)
    && Backed(shelf.objects, shelf.bytes)
    && RowsHold(shelf.objects, shelf.files)
    && Unique(shelf.objects)
  }

  lemma RemoveKeepsRows(shelf: Shelf, refs': map<Ref, Key>, core: Core)
    requires RowsHold(shelf.objects, shelf.files) && core in shelf.files
    requires Counts(ChangedObjects(shelf, Remove(core)), shelf.files - {core}, refs')
    ensures RowsHold(ChangedObjects(shelf, Remove(core)), shelf.files - {core})
  {
    RowsStillHold(shelf.objects, shelf.files, ChangedObjects(shelf, Remove(core)), shelf.files - {core}, refs');
  }

  lemma RemoveKeepsBytes(shelf: Shelf, core: Core)
    requires Backed(shelf.objects, shelf.bytes) && Unique(shelf.objects) && core in shelf.files
    ensures Backed(ChangedObjects(shelf, Remove(core)), ChangedBytes(shelf, Remove(core)))
    ensures Unique(ChangedObjects(shelf, Remove(core)))
  {
    var row := shelf.files[core];
    ReleaseKeeps(shelf.objects, shelf.bytes, row.key);
    if row.thumb.Some? {
      ReleaseKeeps(Release(shelf.objects, row.key), Dropped(shelf.objects, shelf.bytes, row.key), row.thumb.value);
    }
  }

  lemma ChangeCounts(shelf: Shelf, refs: map<Ref, Key>, change: Change) returns (refs': map<Ref, Key>)
    requires Counts(shelf.objects, shelf.files, refs) && Allowed(shelf, change)
    ensures Counts(ChangedObjects(shelf, change), ChangedFiles(shelf, change), refs')
  {
    match change
    case Insert(core, item, key) =>
      InsertCounts(shelf.objects, shelf.files, refs, core, item, key);
      refs' := refs[RowMain(core) := key];
    case Picture(core, jpeg, key) =>
      LinkCounts(shelf.objects, shelf.files, refs, core, jpeg, key);
      refs' := refs[RowThumb(core) := key];
    case Remove(core) =>
      RemoveCounts(shelf.objects, shelf.files, refs, core);
      refs' := refs - {RowMain(core)};
      if shelf.files[core].thumb.Some? {
        refs' := refs' - {RowThumb(core)};
      }
  }

  /** Every request leaves the shelf tidy. */
  lemma ChangeIsTidy(shelf: Shelf, refs: map<Ref, Key>, change: Change) returns (refs': map<Ref, Key>)
    requires Tidy(shelf, refs) && Allowed(shelf, change)
    ensures Tidy(Changed(shelf, change), refs')
  {
    refs' := ChangeCounts(shelf, refs, change);
    match change
    case Insert(core, item, key) =>
      AcquiredKeeps(shelf.objects, shelf.bytes, shelf.files, key, item.content, FileKey(core));
    case Picture(core, jpeg, key) =>
      AcquiredKeeps(shelf.objects, shelf.bytes, shelf.files, key, jpeg, ThumbKey(core));
    case Remove(core) =>
      RemoveKeepsRows(shelf, refs', core);
      RemoveKeepsBytes(shelf, core);
  }

  /** A serial run from the empty shelf. */
  ghost predicate SerialRun(shelves: seq<Shelf>, changes: seq<Change>) {
    && |shelves| == |changes| + 1
    && shelves[0] == Shelf(map[], map[], map[])
    && forall i {:trigger changes[i]} | 0 <= i < |changes| ::
         Allowed(shelves[i], changes[i]) && shelves[i + 1] == Changed(shelves[i], changes[i])
  }

  lemma {:induction false} SerialRunIsTidy(shelves: seq<Shelf>, changes: seq<Change>, i: nat)
    returns (refs: map<Ref, Key>)
    requires SerialRun(shelves, changes) && i <= |changes|
    ensures Tidy(shelves[i], refs)
  {
    if i == 0 {
      refs := map[];
    } else {
      refs := SerialRunIsTidy(shelves, changes, i - 1);
      refs := ChangeIsTidy(shelves[i - 1], refs, changes[i - 1]);
    }
  }

  /**
   * In every serial run every live file reads back as the content its own upload supplied, whatever became of the
   * other files and thumbnails that share its object, and the store holds bytes for live rows only.
   */
  lemma SerialReadsOwnContent(shelves: seq<Shelf>, changes: seq<Change>, i: nat)
    requires SerialRun(shelves, changes) && i <= |changes|
    ensures var shelf := shelves[i];
      && (forall c | c in shelf.files ::
            shelf.files[c].key in shelf.bytes && shelf.bytes[shelf.files[c].key] == shelf.files[c].item.content)
      && (forall k | k in shelf.bytes ::
            exists c | c in shelf.files :: shelf.files[c].key == k || shelf.files[c].thumb == Some(k))
  {
    var refs := SerialRunIsTidy(shelves, changes, i);
    var shelf := shelves[i];
    forall k | k in shelf.bytes
      ensures exists c | c in shelf.files :: shelf.files[c].key == k || shelf.files[c].thumb == Some(k)
    {
      assert Count(refs, k) >= 1;
      var r :| r in Users(refs, k);
      assert Lookup(refs, r) == KeyOf(shelf.files, map[], r) == Some(k);
      assert r.RowMain? || r.RowThumb?;
    }
  }
}
