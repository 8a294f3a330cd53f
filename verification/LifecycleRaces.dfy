/** Runs that show where the promises about reads end. */
module LifecycleRaces {
  import opened Ledger
  import opened Lifecycle
  import opened LifecycleInvariant
  import opened LifecycleKeys
  import opened LifecycleLaws
  import opened LifecycleReads
  import opened Wrappers

  // ---- Reachable states ----

  /** The step is not a failing PUT, and no handler stops in the middle of one. */
  predicate Calm(s: State, step: Step) {
    step.Moves? && step.pid in s.actors
      && (s.actors[step.pid].task.Putting? || s.actors[step.pid].task.ThumbPutting?) ==>
      step.move in {Uploads(PutMain), Thumbs(PutThumb)}
  }

  ghost predicate CalmRun(states: seq<State>, steps: seq<Step>) {
    Run(states, steps) && forall i {:trigger steps[i]} | 0 <= i < |steps| :: Calm(states[i], steps[i])
  }

  /** Some run leads here; if `calm`, one without a failed PUT. */
  ghost predicate Reachable(s: State, calm: bool) {
    exists states, steps :: Run(states, steps) && (calm ==> CalmRun(states, steps)) && states[|steps|] == s
  }

  lemma Start(calm: bool) returns (s: State)
    ensures s == State(map[], map[], map[], map[], map[], map[], [], 0)
    ensures Reachable(s, calm)
  {
    s := State(map[], map[], map[], map[], map[], map[], [], 0);
    assert CalmRun([s], []);
  }

  lemma Go(s: State, calm: bool, step: Step) returns (s': State)
    requires Reachable(s, calm) && Enabled(s, step) && (calm ==> Calm(s, step))
    ensures Reachable(s', calm) && s' == Do(s, step)
  {
    s' := Do(s, step);
    var states, steps :| Run(states, steps) && (calm ==> CalmRun(states, steps)) && states[|steps|] == s;
    var states', steps' := states + [s'], steps + [step];
    forall i {:trigger steps'[i]} | 0 <= i < |steps'|
      ensures Enabled(states'[i], steps'[i]) && states'[i + 1] == Do(states'[i], steps'[i])
      ensures calm ==> Calm(states'[i], steps'[i])
    {
      if i < |steps| {
        assert steps'[i] == steps[i];
      }
    }
    assert Run(states', steps') && (calm ==> CalmRun(states', steps'));
  }

  lemma CalmIsReachable(s: State, calm: bool)
    requires Reachable(s, true)
    ensures Reachable(s, calm)
  {
  }

  // ---- A thumbnail key that is issued again ----

  const FILM := Digest(10, 9)
  const FRAME := Digest(20, 3)
  const OTHER_FRAME := Digest(21, 3)

  const VIDEO := Item(File, FILM, false, None, {1})
  const PICTURE := Item(File, FRAME, false, None, {})
  const OTHER := Item(File, OTHER_FRAME, true, None, {})

  /** Handler 1 begins to upload a file under core `c`. */
  lemma Created(c: Core, item: Item, calm: bool) returns (s: State)
    requires item.kind == File
    ensures Reachable(s, calm)
    ensures s.objects == map[FileKey(c) := Object(item.content, 1)] && s.bytes == map[] && s.files == map[]
    ensures s.claims == map[c := item] && s.served == []
    ensures s.actors == map[1 := Actor(Putting(c, item), Some(FileKey(c)), None, None)]
  {
    s := Start(calm);
    s := Go(s, calm, Opens(1, ClaimFile(c, item)));
    s := Go(s, calm, Moves(1, Uploads(AcquireMain)));
  }

  /** It ends its upload. */
  lemma Uploaded(c: Core, item: Item) returns (s: State)
    requires item.kind == File
    ensures Reachable(s, true)
    ensures s.objects == map[FileKey(c) := Object(item.content, 1)] && s.bytes == map[FileKey(c) := item.content]
    ensures s.files == map[c := FileRow(item, FileKey(c), None)] && s.claims == map[c := item]
    ensures s.actors.Keys == {1} && s.served == []
  {
    s := Created(c, item, true);
    s := Go(s, true, Moves(1, Uploads(PutMain)));
    s := Go(s, true, Moves(1, Uploads(SkipThumb)));
    s := Go(s, true, Moves(1, Uploads(InsertFile)));
  }

  /** Handlers 2 and 3 set out to backfill its thumbnail; handler 4 deletes the row. */
  lemma VideoDeleted(c: Core) returns (s: State)
    ensures Reachable(s, true)
    ensures s.objects == map[FileKey(c) := Object(FILM, 1)] && s.bytes == map[FileKey(c) := FILM]
    ensures s.files == map[] && s.claims == map[c := VIDEO] && s.served == []
    ensures s.actors.Keys == {1, 2, 3, 4} && s.actors[2] == s.actors[3] == Fresh(Backfilling(c))
  {
    s := Uploaded(c, VIDEO);
    s := Go(s, true, Opens(2, StartBackfill(c)));
    s := Go(s, true, Opens(3, StartBackfill(c)));
    s := Go(s, true, Opens(4, StartDelete(c, File, 1)));
    s := Go(s, true, Moves(4, Removes(RemoveFile)));
  }

  /** Handler 2 stores the thumbnail. */
  lemma ThumbnailStored(c: Core) returns (s: State)
    ensures Reachable(s, true)
    ensures s.objects == map[FileKey(c) := Object(FILM, 1), ThumbKey(c) := Object(FRAME, 1)]
    ensures s.bytes == map[FileKey(c) := FILM, ThumbKey(c) := FRAME]
    ensures s.files == map[] && s.claims == map[c := VIDEO] && s.served == []
    ensures s.actors.Keys == {1, 2, 3, 4} && s.actors[3] == Fresh(Backfilling(c))
    ensures s.actors[2] == Actor(Linking(c), None, Some(ThumbKey(c)), None)
  {
    s := VideoDeleted(c);
    s := Go(s, true, Moves(2, Thumbs(AcquireThumb(FRAME))));
    s := Go(s, true, Moves(2, Thumbs(PutThumb)));
  }

  /** It finds no row to link and gives the thumbnail back: its bytes are doomed. */
  lemma ThumbnailDoomed(c: Core) returns (s: State)
    ensures Reachable(s, true)
    ensures s.objects == map[FileKey(c) := Object(FILM, 1)]
    ensures s.bytes == map[FileKey(c) := FILM, ThumbKey(c) := FRAME]
    ensures s.files == map[] && s.claims == map[c := VIDEO] && s.served == []
    ensures s.actors.Keys == {1, 2, 3, 4} && s.actors[3] == Fresh(Backfilling(c))
    ensures s.actors[2] == Actor(Unwinding(Rollback), None, None, Some(ThumbKey(c)))
  {
    s := ThumbnailStored(c);
    s := Go(s, true, Moves(2, Thumbs(Link)));
    s := Go(s, true, Moves(2, Removes(ReleaseThumb)));
  }

  // ---- Lost bytes ----

  /** Nobody stores what is no object. */
  lemma ThumbnailsAreNotPut(s: State, key: Key)
    requires Reachable(s, true) && key !in s.objects
    ensures forall p | p in s.actors :: !Puts(s.actors[p], key)
  {
    var states, steps :| Run(states, steps) && states[|steps|] == s;
    var refs := RunKeeps(states, steps, |steps|);
    RunHolds(states, steps, |steps|);
    forall p | p in s.actors
      ensures !Puts(s.actors[p], key)
    {
      if Puts(s.actors[p], key) {
        PutsIntoObject(s, refs, p, key);
      }
    }
  }

  /** Handler 3 stores the same thumbnail again, under the same key. */
  lemma ThumbnailStoredAgain(c: Core) returns (s: State)
    ensures Reachable(s, true)
    ensures s.objects == map[FileKey(c) := Object(FILM, 1), ThumbKey(c) := Object(FRAME, 1)]
    ensures s.files == map[] && s.claims == map[c := VIDEO] && s.actors.Keys == {1, 2, 3, 4}
    ensures s.actors[2] == Actor(Unwinding(Rollback), None, None, Some(ThumbKey(c)))
    ensures forall p | p in s.actors :: !Puts(s.actors[p], ThumbKey(c))
  {
    s := ThumbnailDoomed(c);
    ThumbnailsAreNotPut(s, ThumbKey(c));
    s := Go(s, true, Moves(3, Thumbs(AcquireThumb(FRAME))));
    s := Go(s, true, Moves(3, Thumbs(PutThumb)));
  }

  /** Handler 5 uploads a picture with the bytes of the thumbnail, and shares its object. */
  lemma PictureShares(c: Core, d: Core) returns (s: State)
    requires c != d
    ensures Reachable(s, true)
    ensures s.objects == map[FileKey(c) := Object(FILM, 1), ThumbKey(c) := Object(FRAME, 2)]
    ensures s.files == map[] && s.actors.Keys == {1, 2, 3, 4, 5} && d in s.claims
    ensures s.actors[2] == Actor(Unwinding(Rollback), None, None, Some(ThumbKey(c)))
    ensures s.actors[5] == Actor(Stored(d, PICTURE), Some(ThumbKey(c)), None, None)
    ensures forall p | p in s.actors :: !Puts(s.actors[p], ThumbKey(c))
  {
    s := ThumbnailStoredAgain(c);
    s := Go(s, true, Opens(5, ClaimFile(d, PICTURE)));
    s := Go(s, true, Moves(5, Uploads(ShareMain(ThumbKey(c)))));
  }

  /**
   * Thumbnail keys can be issued again, and then a late delete hits the live bytes: without a single failed PUT, a
   * live file that shares its bytes with a thumbnail has lost them.
   */
  lemma ThumbnailKeysAreReissued(c: Core, d: Core) returns (s: State)
    requires c != d
    ensures Reachable(s, true)
    ensures d in s.files && s.files[d].key == ThumbKey(c)
    ensures ThumbKey(c) in s.objects && s.objects[ThumbKey(c)].refcount == 2
    ensures ThumbKey(c) !in s.bytes && !PutPending(s, ThumbKey(c))
  {
    s := PictureShares(c, d);
    s := Go(s, true, Moves(5, Uploads(SkipThumb)));
    s := Go(s, true, Moves(5, Uploads(InsertFile)));
    s := Go(s, true, Moves(2, Removes(DeleteBytes(true))));
  }

  /** A live file of this key has no bytes, and nobody is about to store any. */
  ghost predicate Lost(s: State, key: Key) {
    (exists core :: core in s.files && s.files[core].key == key) && key !in s.bytes && !PutPending(s, key)
  }

  lemma CalmKeepsBytes(s: State, key: Key)
    requires Reachable(s, true) && key.FileKey?
    ensures !Lost(s, key)
  {
    var states, steps :| Run(states, steps) && CalmRun(states, steps) && states[|steps|] == s;
    forall core | core in s.files && s.files[core].key == key
      ensures key in s.bytes || PutPending(s, key)
    {
      CalmReadsOwnContent(states, steps, |steps|, core);
    }
  }

  /** The keys under which no live file ever loses its bytes, as long as no PUT fails, are the files/ keys. */
  lemma OnlyFileKeysKeepBytes(key: Key)
    ensures (forall s | Reachable(s, true) :: !Lost(s, key)) <==> key.FileKey?
  {
    if key.FileKey? {
      forall s | Reachable(s, true)
        ensures !Lost(s, key)
      {
        CalmKeepsBytes(s, key);
      }
    } else {
      var s := ThumbnailKeysAreReissued(key.core, key.core + 1);
      assert Lost(s, key);
    }
  }

  // ---- Wrong bytes ----

  /** Handler 3 takes the key for another frame, which it has not stored yet. */
  lemma ThumbnailRetaken(c: Core) returns (s: State)
    ensures Reachable(s, true)
    ensures s.objects == map[FileKey(c) := Object(FILM, 1), ThumbKey(c) := Object(OTHER_FRAME, 1)]
    ensures s.bytes == map[FileKey(c) := FILM, ThumbKey(c) := FRAME]
    ensures s.files == map[] && s.claims == map[c := VIDEO] && s.actors.Keys == {1, 2, 3, 4} && s.served == []
  {
    s := ThumbnailDoomed(c);
    s := Go(s, true, Moves(3, Thumbs(AcquireThumb(OTHER_FRAME))));
  }

  /** Handler 5 uploads that very picture, and shares the object. */
  lemma OtherShares(c: Core, d: Core) returns (s: State)
    requires c != d
    ensures Reachable(s, true)
    ensures s.objects == map[FileKey(c) := Object(FILM, 1), ThumbKey(c) := Object(OTHER_FRAME, 2)]
    ensures s.bytes == map[FileKey(c) := FILM, ThumbKey(c) := FRAME]
    ensures s.files == map[] && s.actors.Keys == {1, 2, 3, 4, 5} && d in s.claims && s.claims[d] == OTHER
    ensures s.actors[5] == Actor(Stored(d, OTHER), Some(ThumbKey(c)), None, None) && s.served == []
  {
    s := ThumbnailRetaken(c);
    s := Go(s, true, Opens(5, ClaimFile(d, OTHER)));
    s := Go(s, true, Moves(5, Uploads(ShareMain(ThumbKey(c)))));
  }

  /**
   * A key that is issued again may also still have the bytes of its former object: without a single failed PUT, the
   * wrong bytes lie under the key of a live file.
   */
  lemma ReissuedKeyServesWrongBytes(c: Core, d: Core) returns (s: State)
    requires c != d
    ensures Reachable(s, true)
    ensures s.files == map[d := FileRow(OTHER, ThumbKey(c), None)] && d in s.claims && s.claims[d] == OTHER
    ensures ThumbKey(c) in s.bytes && s.bytes[ThumbKey(c)] == FRAME != s.claims[d].content
    ensures s.objects == map[FileKey(c) := Object(FILM, 1), ThumbKey(c) := Object(OTHER_FRAME, 2)]
    ensures s.actors.Keys == {1, 2, 3, 4, 5} && s.served == []
  {
    s := OtherShares(c, d);
    s := Go(s, true, Moves(5, Uploads(SkipThumb)));
    s := Go(s, true, Moves(5, Uploads(InsertFile)));
  }

  /** A live file of this key has other bytes than its upload supplied. */
  ghost predicate Wrong(s: State, key: Key) {
    exists core :: core in s.files && s.files[core].key == key && key in s.bytes
                   && !(core in s.claims && s.bytes[key] == s.claims[core].content)
  }

  /** The keys under which there is never anything wrong, whether or not PUTs fail, are the files/ keys. */
  lemma OnlyFileKeysAreNeverWrong(key: Key, calm: bool)
    ensures (forall s | Reachable(s, calm) :: !Wrong(s, key)) <==> key.FileKey?
  {
    if key.FileKey? {
      forall s | Reachable(s, calm)
        ensures !Wrong(s, key)
      {
        var states, steps :| Run(states, steps) && states[|steps|] == s;
        forall core | core in s.files && s.files[core].key == key
          ensures key in s.bytes ==> core in s.claims && s.bytes[key] == s.claims[core].content
        {
          NeverTheWrongBytes(states, steps, |steps|, core);
        }
      }
    } else {
      var s := ReissuedKeyServesWrongBytes(key.core, key.core + 1);
      CalmIsReachable(s, calm);
      assert Wrong(s, key);
    }
  }

  // ---- Wrong bodies ----

  /** A burn reader collects them, their length being the one announced ... */
  lemma WrongBytesCollected(c: Core, d: Core) returns (s: State)
    requires c != d
    ensures Reachable(s, true)
    ensures d in s.claims && s.claims[d] == OTHER && s.objects.Keys == {FileKey(c), ThumbKey(c)}
    ensures s.objects[ThumbKey(c)] == Object(OTHER_FRAME, 2) && s.served == [] && 6 in s.actors
    ensures s.actors[6]
            == Actor(Unwinding(Burn(Delivery(d, FRAME, Some(ThumbKey(c))))), Some(ThumbKey(c)), None, None)
  {
    s := ReissuedKeyServesWrongBytes(c, d);
    s := Go(s, true, Opens(6, LoadFile(d)));
    s := Go(s, true, Moves(6, Removes(Collect)));
    s := Go(s, true, Moves(6, Removes(RemoveFile)));
  }

  /** ... and serves them. */
  lemma BurnReadServesWrongBytes(c: Core, d: Core) returns (s: State)
    requires c != d
    ensures Reachable(s, true)
    ensures s.served == [Delivery(d, FRAME, Some(ThumbKey(c)))] && d in s.claims && s.claims[d].content == OTHER_FRAME
  {
    s := WrongBytesCollected(c, d);
    s := Go(s, true, Moves(6, Removes(ReleaseMain)));
    s := Go(s, true, Moves(6, Removes(Finish)));
  }

  /** A body read from this key was served that is not what its core was claimed for. */
  ghost predicate Misserved(s: State, key: Key) {
    exists n :: 0 <= n < |s.served| && s.served[n].key == Some(key)
                && !(s.served[n].core in s.claims && s.served[n].body == s.claims[s.served[n].core].content)
  }

  /** The keys from which burn reads never serve anything wrong are the files/ keys. */
  lemma OnlyFileKeysServeBurnsRightly(key: Key, calm: bool)
    ensures (forall s | Reachable(s, calm) :: !Misserved(s, key)) <==> key.FileKey?
  {
    if key.FileKey? {
      forall s | Reachable(s, calm)
        ensures !Misserved(s, key)
      {
        var states, steps :| Run(states, steps) && states[|steps|] == s;
        forall n | 0 <= n < |s.served| && s.served[n].key == Some(key)
          ensures s.served[n].core in s.claims && s.served[n].body == s.claims[s.served[n].core].content
        {
          BurnServesOwnContent(states, steps, |steps|, n);
        }
      }
    } else {
      var s := BurnReadServesWrongBytes(key.core, key.core + 1);
      CalmIsReachable(s, calm);
      assert s.served[0].key == Some(key);
    }
  }

  // ---- A failed PUT ----

  /** Handler 2 shares the object of handler 1, whose bytes are not stored yet. */
  lemma SharedBeforeStored() returns (s: State)
    ensures Reachable(s, false)
    ensures s.objects == map[FileKey(7) := Object(FILM, 2)] && s.bytes == map[] && s.files == map[]
    ensures s.actors == map[1 := Actor(Putting(7, VIDEO), Some(FileKey(7)), None, None),
                            2 := Actor(Stored(8, VIDEO), Some(FileKey(7)), None, None)]
  {
    s := Created(7, VIDEO, false);
    s := Go(s, false, Opens(2, ClaimFile(8, VIDEO)));
    s := Go(s, false, Moves(2, Uploads(ShareMain(FileKey(7)))));
  }

  /**
   * The object row comes before its bytes. So when the creating PUT fails after another upload took a reference, that
   * upload's live file is left without bytes: the promise needs that PUT to succeed.
   */
  lemma FailedPutStrandsASharer() returns (s: State)
    ensures Reachable(s, false)
    ensures 8 in s.files && s.files[8].key == FileKey(7) && FileKey(7) in s.objects
    ensures s.bytes == map[] && !PutPending(s, FileKey(7))
  {
    s := SharedBeforeStored();
    s := Go(s, false, Moves(2, Uploads(SkipThumb)));
    s := Go(s, false, Moves(2, Uploads(InsertFile)));
    s := Go(s, false, Moves(1, Uploads(PutMainFails(false))));
  }

  // ---- A burn read that is consumed and not served ----

  /**
   * A reader that has the whole body in hand takes the row, and then its release fails: the file is gone, its one read
   * with it, and nothing was served.
   */
  lemma FailedRemovalConsumesABurn() returns (s: State)
    ensures Reachable(s, true)
    ensures s.files == map[] && s.served == [] && FileKey(7) in s.bytes && FileKey(7) in s.objects
    ensures 2 in s.actors && s.actors[2].task == Finished
  {
    s := Uploaded(7, OTHER);
    s := Go(s, true, Opens(2, LoadFile(7)));
    s := Go(s, true, Moves(2, Removes(Collect)));
    s := Go(s, true, Moves(2, Removes(RemoveFile)));
    s := Go(s, true, Moves(2, Removes(Abandon)));
  }
}
