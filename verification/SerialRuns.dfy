/** Each request served alone is an uninterrupted run of one handler of the transition system. */
module SerialRuns {
  import opened Ledger
  import opened Lifecycle
  import opened Shelf
  import opened Wrappers

  /** Consecutive steps, all of handler `pid`. */
  ghost predicate Uninterrupted(states: seq<State>, steps: seq<Step>, pid: Pid) {
    && |states| == |steps| + 1
    && forall i {:trigger steps[i]} | 0 <= i < |steps| ::
         && Enabled(states[i], steps[i]) && !steps[i].Tick? && steps[i].pid == pid
         && states[i + 1] == Do(states[i], steps[i])
  }

  /** Handler `pid`, running alone, leads from one state to the other. */
  ghost predicate Leads(s: State, pid: Pid, s': State) {
    exists states, steps :: Uninterrupted(states, steps, pid) && states[0] == s && states[|steps|] == s'
  }

  function OnShelf(s: State): Shelf {
    Shelf(s.objects, s.files, s.bytes)
  }

  lemma Begin(s: State, pid: Pid)
    ensures Leads(s, pid, s)
  {
    assert Uninterrupted([s], [], pid);
  }

  lemma Take(s: State, pid: Pid, t: State, step: Step) returns (t': State)
    requires Leads(s, pid, t) && !step.Tick? && step.pid == pid && Enabled(t, step)
    ensures Leads(s, pid, t') && t' == Do(t, step)
  {
    t' := Do(t, step);
    var states, steps :| Uninterrupted(states, steps, pid) && states[0] == s && states[|steps|] == t;
    var states', steps' := states + [t'], steps + [step];
    forall i {:trigger steps'[i]} | 0 <= i < |steps'|
      ensures Enabled(states'[i], steps'[i]) && !steps'[i].Tick? && steps'[i].pid == pid
      ensures states'[i + 1] == Do(states'[i], steps'[i])
    {
      if i < |steps| {
        assert steps'[i] == steps[i];
      }
    }
    assert Uninterrupted(states', steps', pid);
  }

  lemma Open(s: State, pid: Pid, o: Opening) returns (s': State)
    requires pid !in s.actors && CanOpen(s, o)
    ensures Leads(s, pid, s') && s' == Do(s, Opens(pid, o))
  {
    Begin(s, pid);
    s' := Take(s, pid, s, Opens(pid, o));
  }

  // ---- Giving references back ----

  /** Deleting the bytes the handler doomed, if it doomed any. */
  lemma TakeDelete(s: State, pid: Pid, t: State) returns (t': State)
    requires Leads(s, pid, t) && pid in t.actors
    ensures Leads(s, pid, t')
    ensures var a := t.actors[pid];
      t' == t.(actors := t.actors[pid := a.(doomed := None)],
               bytes := if a.doomed.Some? then t.bytes - {a.doomed.value} else t.bytes)
  {
    if t.actors[pid].doomed.Some? {
      t' := Take(s, pid, t, Moves(pid, Removes(DeleteBytes(true))));
    } else {
      t' := t;
    }
  }

  lemma MainReleased(s: State, pid: Pid, t: State, goal: Goal, key: Key, thumb: Option<Key>) returns (t': State)
    requires Leads(s, pid, t) && pid in t.actors && t.actors[pid] == Actor(Unwinding(goal), Some(key), thumb, None)
    ensures Leads(s, pid, t')
    ensures t' == t.(objects := Release(t.objects, key), bytes := Dropped(t.objects, t.bytes, key),
                     actors := t.actors[pid := Actor(Unwinding(goal), None, thumb, None)])
  {
    t' := Take(s, pid, t, Moves(pid, Removes(ReleaseMain)));
    t' := TakeDelete(s, pid, t');
  }

  lemma ThumbReleased(s: State, pid: Pid, t: State, key: Key) returns (t': State)
    requires Leads(s, pid, t) && pid in t.actors && t.actors[pid].doomed.None? && t.actors[pid].thumb == Some(key)
    requires t.actors[pid].task.ThumbUndoing? || (t.actors[pid].task.Unwinding? && t.actors[pid].main.None?)
    ensures Leads(s, pid, t')
    ensures t' == t.(objects := Release(t.objects, key), bytes := Dropped(t.objects, t.bytes, key),
                     actors := t.actors[pid := t.actors[pid].(thumb := None)])
  {
    t' := Take(s, pid, t, Moves(pid, Removes(ReleaseThumb)));
    t' := TakeDelete(s, pid, t');
  }

  /** Both references, in the order of the source. */
  lemma BothReleased(s: State, pid: Pid, t: State, goal: Goal, key: Key, thumb: Option<Key>) returns (t': State)
    requires Leads(s, pid, t) && pid in t.actors && t.actors[pid] == Actor(Unwinding(goal), Some(key), thumb, None)
    ensures Leads(s, pid, t')
    ensures t' == t.(objects := ReleasedBoth(t.objects, key, thumb),
                     bytes := DroppedBoth(t.objects, t.bytes, key, thumb),
                     actors := t.actors[pid := Fresh(Unwinding(goal))])
  {
    t' := MainReleased(s, pid, t, goal, key, thumb);
    if thumb.Some? {
      t' := ThumbReleased(s, pid, t', thumb.value);
    }
  }

  /** A whole rollback, to the end of the request. */
  lemma RolledBack(s: State, pid: Pid, t: State, key: Key, thumb: Option<Key>) returns (t': State)
    requires Leads(s, pid, t) && pid in t.actors && t.actors[pid] == Actor(Unwinding(Rollback), Some(key), thumb, None)
    ensures Leads(s, pid, t')
    ensures t' == t.(objects := ReleasedBoth(t.objects, key, thumb),
                     bytes := DroppedBoth(t.objects, t.bytes, key, thumb),
                     actors := t.actors[pid := Fresh(Finished)])
  {
    t' := BothReleased(s, pid, t, Rollback, key, thumb);
    t' := Take(s, pid, t', Moves(pid, Removes(Finish)));
  }

  // ---- Removals: deletes, sweeps and burn reads ----

  /** `remove_file` on behalf of any of the three. */
  lemma RowReleased(s: State, pid: Pid, t: State, core: Core, goal: Goal) returns (t': State)
    requires Leads(s, pid, t) && core in t.files
    requires pid in t.actors && t.actors[pid] == Fresh(Deleting(core, File, goal))
    ensures Leads(s, pid, t')
    ensures t' == t.(objects := ChangedObjects(OnShelf(t), Remove(core)),
                     bytes := ChangedBytes(OnShelf(t), Remove(core)),
                     files := t.files - {core}, actors := t.actors[pid := Fresh(Unwinding(goal))])
  {
    t' := Take(s, pid, t, Moves(pid, Removes(RemoveFile)));
    t' := BothReleased(s, pid, t', goal, t.files[core].key, t.files[core].thumb);
  }

  /** The rest of the request: a burn reader serves the body it has in hand. */
  lemma RowRemoved(s: State, pid: Pid, t: State, core: Core, goal: Goal) returns (t': State)
    requires Leads(s, pid, t) && core in t.files
    requires pid in t.actors && t.actors[pid] == Fresh(Deleting(core, File, goal))
    ensures Leads(s, pid, t')
    ensures t' == t.(objects := ChangedObjects(OnShelf(t), Remove(core)),
                     bytes := ChangedBytes(OnShelf(t), Remove(core)),
                     files := t.files - {core}, actors := t.actors[pid := Fresh(Finished)],
                     served := t.served + if goal.Burn? then [goal.delivery] else [])
  {
    t' := RowReleased(s, pid, t, core, goal);
    t' := Take(s, pid, t', Moves(pid, Removes(Finish)));
  }

  /** A delete by someone the file lets delete it, or the sweep of an expired file. */
  lemma RemoveIsARun(s: State, pid: Pid, core: Core, o: Opening) returns (s': State)
    requires pid !in s.actors && CanOpen(s, o)
    requires (o.StartDelete? || o.StartSweep?) && o.kind == File && o.core == core
    ensures Leads(s, pid, s')
    ensures OnShelf(s') == Changed(OnShelf(s), Remove(core))
    ensures s' == s.(objects := s'.objects, files := s'.files, bytes := s'.bytes,
                     actors := s.actors[pid := Fresh(Finished)])
  {
    s' := Open(s, pid, o);
    s' := RowRemoved(s, pid, s', core, OpenTask(s, o).goal);
  }

  /** A live burn file whose body has the length that its row announces. */
  predicate CanCollect(s: State, core: Core) {
    && CanOpen(s, LoadFile(core)) && s.files[core].key in s.bytes
    && s.bytes[s.files[core].key].length == s.files[core].item.content.length
  }

  lemma BodyCollected(s: State, pid: Pid, core: Core) returns (s': State)
    requires pid !in s.actors && CanCollect(s, core)
    ensures Leads(s, pid, s')
    ensures var body := Delivery(core, s.bytes[s.files[core].key], Some(s.files[core].key));
      s' == s.(actors := s.actors[pid := Fresh(Deleting(core, File, Burn(body)))])
  {
    s' := Open(s, pid, LoadFile(core));
    s' := Take(s, pid, s', Moves(pid, Removes(Collect)));
  }

  /** A burn read: the body is served once the row, its references and its bytes are gone. */
  lemma BurnReadIsARun(s: State, pid: Pid, core: Core) returns (s': State)
    requires pid !in s.actors && CanCollect(s, core)
    ensures Leads(s, pid, s')
    ensures OnShelf(s') == Changed(OnShelf(s), Remove(core))
    ensures s'.served == s.served + [Delivery(core, s.bytes[s.files[core].key], Some(s.files[core].key))]
    ensures s' == s.(objects := s'.objects, files := s'.files, bytes := s'.bytes, served := s'.served,
                     actors := s.actors[pid := Fresh(Finished)])
  {
    s' := BodyCollected(s, pid, core);
    s' := RowRemoved(s, pid, s', core, s'.actors[pid].task.goal);
  }

  /** A burn read that cannot collect the body ends there, and the file stays. */
  lemma FailedBurnReadIsARun(s: State, pid: Pid, core: Core) returns (s': State)
    requires pid !in s.actors && CanOpen(s, LoadFile(core))
    ensures Leads(s, pid, s') && s' == s.(actors := s.actors[pid := Fresh(Finished)])
  {
    s' := Open(s, pid, LoadFile(core));
    s' := Take(s, pid, s', Moves(pid, Removes(Abandon)));
  }

  // ---- Pastes ----

  /** A paste is its row. */
  lemma PasteIsARun(s: State, pid: Pid, core: Core, item: Item) returns (s': State)
    requires pid !in s.actors && CanOpen(s, ClaimPaste(core, item))
    ensures Leads(s, pid, s')
    ensures s' == s.(pastes := s.pastes[core := item], claims := s.claims[core := item],
                     actors := s.actors[pid := Fresh(Finished)])
  {
    s' := Open(s, pid, ClaimPaste(core, item));
    s' := Take(s, pid, s', Moves(pid, Uploads(InsertPaste)));
  }

  /** Deleting or sweeping a paste takes its row, and reading a burn paste serves its text with the row gone. */
  lemma PasteEndIsARun(s: State, pid: Pid, core: Core, o: Opening) returns (s': State)
    requires pid !in s.actors && CanOpen(s, o)
    requires ((o.StartDelete? || o.StartSweep?) && o.kind == Paste && o.core == core) || o == LoadPaste(core)
    ensures Leads(s, pid, s')
    ensures s' == s.(pastes := s.pastes - {core}, actors := s.actors[pid := Fresh(Finished)],
                     served := s.served + if o.LoadPaste? then [Delivery(core, s.pastes[core].content, None)] else [])
  {
    s' := Open(s, pid, o);
    s' := Take(s, pid, s', Moves(pid, Removes(RemovePaste)));
    s' := Take(s, pid, s', Moves(pid, Removes(Finish)));
  }

  // ---- An upload ----

  /** Acquire the object, and store its bytes if it is new. */
  lemma ObjectStored(s: State, pid: Pid, t: State, core: Core, item: Item, key: Key) returns (t': State)
    requires Leads(s, pid, t) && pid in t.actors && t.actors[pid] == Fresh(Claimed(core, item))
    requires Chosen(t.objects, item.content, FileKey(core), key)
    requires key in t.objects ==> key in t.bytes && t.bytes[key] == item.content
    ensures Leads(s, pid, t')
    ensures t' == t.(objects := Acquired(t.objects, key, item.content), bytes := Stocked(t.bytes, key, item.content),
                     actors := t.actors[pid := Actor(Stored(core, item), Some(key), None, None)])
  {
    if key in t.objects {
      t' := Take(s, pid, t, Moves(pid, Uploads(ShareMain(key))));
      assert t.bytes[key := item.content] == t.bytes;
    } else {
      t' := Take(s, pid, t, Moves(pid, Uploads(AcquireMain)));
      t' := Take(s, pid, t', Moves(pid, Uploads(PutMain)));
    }
  }

  predicate CanStore(s: State, pid: Pid, core: Core, item: Item, key: Key) {
    && pid !in s.actors && CanOpen(s, ClaimFile(core, item))
    && Backed(s.objects, s.bytes) && Chosen(s.objects, item.content, FileKey(core), key)
  }

  lemma UploadStored(s: State, pid: Pid, core: Core, item: Item, key: Key) returns (s': State)
    requires CanStore(s, pid, core, item, key)
    ensures Leads(s, pid, s')
    ensures s' == s.(objects := Acquired(s.objects, key, item.content), bytes := Stocked(s.bytes, key, item.content),
                     claims := s.claims[core := item],
                     actors := s.actors[pid := Actor(Stored(core, item), Some(key), None, None)])
  {
    s' := Open(s, pid, ClaimFile(core, item));
    s' := ObjectStored(s, pid, s', core, item, key);
  }

  lemma UploadReady(s: State, pid: Pid, core: Core, item: Item, key: Key) returns (s': State)
    requires CanStore(s, pid, core, item, key)
    ensures Leads(s, pid, s')
    ensures s' == s.(objects := Acquired(s.objects, key, item.content), bytes := Stocked(s.bytes, key, item.content),
                     claims := s.claims[core := item],
                     actors := s.actors[pid := Actor(Ready(core, item), Some(key), None, None)])
  {
    s' := UploadStored(s, pid, core, item, key);
    s' := Take(s, pid, s', Moves(pid, Uploads(SkipThumb)));
  }

  /** `store_thumbnail`: acquire the object, and store its bytes if it is new. */
  lemma ThumbStored(s: State, pid: Pid, t: State, core: Core, jpeg: Digest, key: Key) returns (t': State)
    requires Leads(s, pid, t) && pid in t.actors && WantsThumb(t.actors[pid].task) && t.actors[pid].task.core == core
    requires Chosen(t.objects, jpeg, ThumbKey(core), key)
    requires key in t.objects ==> key in t.bytes && t.bytes[key] == jpeg
    ensures Leads(s, pid, t')
    ensures var task := Thumbed(core, UploadOf(t.actors[pid].task));
      t' == t.(objects := Acquired(t.objects, key, jpeg), bytes := Stocked(t.bytes, key, jpeg),
               actors := t.actors[pid := t.actors[pid].(task := task, thumb := Some(key))])
  {
    if key in t.objects {
      t' := Take(s, pid, t, Moves(pid, Thumbs(ShareThumb(jpeg, key))));
      assert t.bytes[key := jpeg] == t.bytes;
    } else {
      t' := Take(s, pid, t, Moves(pid, Thumbs(AcquireThumb(jpeg))));
      t' := Take(s, pid, t', Moves(pid, Thumbs(PutThumb)));
    }
  }

  /** The handler wants a thumbnail, and has nothing of one yet. */
  predicate WantsFirstThumb(t: State, pid: Pid, core: Core) {
    && pid in t.actors && WantsThumb(t.actors[pid].task) && t.actors[pid].task.core == core
    && t.actors[pid].thumb.None? && t.actors[pid].doomed.None?
  }

  /** Nothing stands for the frame or its key yet, so the object will be a new one. */
  predicate NewThumb(s: State, core: Core, jpeg: Digest) {
    Absent(s.objects, jpeg) && ThumbKey(core) !in s.objects && Backed(s.objects, s.bytes)
  }

  lemma ThumbUndone(s: State, pid: Pid, t: State, core: Core, jpeg: Digest, published: bool) returns (t': State)
    requires Leads(s, pid, t) && WantsFirstThumb(t, pid, core) && NewThumb(t, core, jpeg)
    ensures Leads(s, pid, t')
    ensures var undoing := t.actors[pid].(task := ThumbUndoing(core, UploadOf(t.actors[pid].task)));
      t' == t.(actors := t.actors[pid := undoing])
  {
    t' := Take(s, pid, t, Moves(pid, Thumbs(AcquireThumb(jpeg))));
    t' := Take(s, pid, t', Moves(pid, Thumbs(PutThumbFails(published))));
    t' := ThumbReleased(s, pid, t', ThumbKey(core));
    assert t'.objects == t.objects && t'.bytes == t.bytes;
  }

  /** `store_thumbnail` when the PUT fails: the new object goes again. */
  lemma ThumbRefused(s: State, pid: Pid, t: State, core: Core, jpeg: Digest, published: bool) returns (t': State)
    requires Leads(s, pid, t) && WantsFirstThumb(t, pid, core) && NewThumb(t, core, jpeg)
    ensures Leads(s, pid, t')
    ensures var upload := UploadOf(t.actors[pid].task);
      var task := if upload.Some? then Ready(core, upload.value) else Finished;
      t' == t.(actors := t.actors[pid := t.actors[pid].(task := task)])
  {
    t' := ThumbUndone(s, pid, t, core, jpeg, published);
    t' := Take(s, pid, t', Moves(pid, Removes(Finish)));
  }

  lemma RowInserted(s: State, pid: Pid, t: State, core: Core, item: Item, key: Key, thumb: Option<Key>)
    returns (t': State)
    requires Leads(s, pid, t) && pid in t.actors && t.actors[pid] == Actor(Ready(core, item), Some(key), thumb, None)
    ensures Leads(s, pid, t')
    ensures t' == t.(files := t.files[core := FileRow(item, key, thumb)], actors := t.actors[pid := Fresh(Finished)])
  {
    t' := Take(s, pid, t, Moves(pid, Uploads(InsertFile)));
  }

  /** The upload is done: its row, its claim, and what its changes did to the shelf. */
  predicate Uploaded(s: State, pid: Pid, core: Core, item: Item, row: FileRow, s': State) {
    && s'.files == s.files[core := row] && row.item == item
    && s' == s.(objects := s'.objects, files := s'.files, bytes := s'.bytes, claims := s.claims[core := item],
                actors := s.actors[pid := Fresh(Finished)])
  }

  /** `upload_inner` without a thumbnail, from the claim to the inserted row. */
  lemma UploadIsARun(s: State, pid: Pid, core: Core, item: Item, key: Key) returns (s': State)
    requires CanStore(s, pid, core, item, key) && core !in s.files
    ensures Leads(s, pid, s') && Uploaded(s, pid, core, item, FileRow(item, key, None), s')
    ensures OnShelf(s') == Changed(OnShelf(s), Insert(core, item, key))
  {
    s' := UploadReady(s, pid, core, item, key);
    s' := RowInserted(s, pid, s', core, item, key, None);
  }

  predicate CanPicture(s: State, core: Core, item: Item, key: Key, jpeg: Digest, thumb: Key) {
    !item.burn && Chosen(Acquired(s.objects, key, item.content), jpeg, ThumbKey(core), thumb)
  }

  lemma UploadPictured(s: State, pid: Pid, core: Core, item: Item, key: Key, jpeg: Digest, thumb: Key)
    returns (s': State)
    requires CanStore(s, pid, core, item, key) && CanPicture(s, core, item, key, jpeg, thumb)
    ensures Leads(s, pid, s')
    ensures s' == s.(objects := Acquired(Acquired(s.objects, key, item.content), thumb, jpeg),
                     bytes := Stocked(Stocked(s.bytes, key, item.content), thumb, jpeg),
                     claims := s.claims[core := item],
                     actors := s.actors[pid := Actor(Ready(core, item), Some(key), Some(thumb), None)])
  {
    s' := UploadStored(s, pid, core, item, key);
    s' := ThumbStored(s, pid, s', core, jpeg, thumb);
  }

  lemma PicturedBecomes(s: State, s': State, core: Core, item: Item, key: Key, jpeg: Digest, thumb: Key)
    requires core !in s.files && Chosen(s.objects, item.content, FileKey(core), key)
    requires CanPicture(s, core, item, key, jpeg, thumb)
    requires s'.objects == Acquired(Acquired(s.objects, key, item.content), thumb, jpeg)
    requires s'.bytes == Stocked(Stocked(s.bytes, key, item.content), thumb, jpeg)
    requires s'.files == s.files[core := FileRow(item, key, Some(thumb))]
    ensures Becomes(OnShelf(s), UploadChanges(core, item, key, Some(jpeg), Some(thumb)), OnShelf(s'))
  {
    UploadBecomes(OnShelf(s), core, item, key, Some(jpeg), Some(thumb), s'.objects, s'.bytes);
  }

  lemma PicturedRow(s: State, pid: Pid, core: Core, item: Item, key: Key, jpeg: Digest, thumb: Key)
    returns (s': State)
    requires CanStore(s, pid, core, item, key) && CanPicture(s, core, item, key, jpeg, thumb)
    ensures Leads(s, pid, s')
    ensures s' == s.(objects := Acquired(Acquired(s.objects, key, item.content), thumb, jpeg),
                     bytes := Stocked(Stocked(s.bytes, key, item.content), thumb, jpeg),
                     files := s.files[core := FileRow(item, key, Some(thumb))],
                     claims := s.claims[core := item], actors := s.actors[pid := Fresh(Finished)])
  {
    s' := UploadPictured(s, pid, core, item, key, jpeg, thumb);
    s' := RowInserted(s, pid, s', core, item, key, Some(thumb));
  }

  /** With a thumbnail, the row is inserted with both of its objects. */
  lemma PicturedUploadIsARun(s: State, pid: Pid, core: Core, item: Item, key: Key, jpeg: Digest, thumb: Key)
    returns (s': State)
    requires CanStore(s, pid, core, item, key) && core !in s.files && CanPicture(s, core, item, key, jpeg, thumb)
    ensures Leads(s, pid, s') && Uploaded(s, pid, core, item, FileRow(item, key, Some(thumb)), s')
    ensures Becomes(OnShelf(s), UploadChanges(core, item, key, Some(jpeg), Some(thumb)), OnShelf(s'))
  {
    s' := PicturedRow(s, pid, core, item, key, jpeg, thumb);
    PicturedBecomes(s, s', core, item, key, jpeg, thumb);
  }

  lemma UploadUnpictured(s: State, pid: Pid, core: Core, item: Item, key: Key, jpeg: Digest, published: bool)
    returns (s': State)
    requires CanStore(s, pid, core, item, key) && !item.burn
    requires NewThumb(s, core, jpeg) && jpeg != item.content && Positive(s.objects)
    ensures Leads(s, pid, s')
    ensures s' == s.(objects := Acquired(s.objects, key, item.content), bytes := Stocked(s.bytes, key, item.content),
                     claims := s.claims[core := item],
                     actors := s.actors[pid := Actor(Ready(core, item), Some(key), None, None)])
  {
    s' := UploadStored(s, pid, core, item, key);
    AcquiredStaysBacked(s.objects, s.bytes, key, item.content);
    s' := ThumbRefused(s, pid, s', core, jpeg, published);
  }

  /** A thumbnail that cannot be stored does not stop the upload, and leaves no trace in it. */
  lemma UnpicturedUploadIsARun(s: State, pid: Pid, core: Core, item: Item, key: Key, jpeg: Digest, published: bool)
    returns (s': State)
    requires CanStore(s, pid, core, item, key) && core !in s.files && !item.burn
    requires NewThumb(s, core, jpeg) && jpeg != item.content && Positive(s.objects)
    ensures Leads(s, pid, s') && Uploaded(s, pid, core, item, FileRow(item, key, None), s')
    ensures OnShelf(s') == Changed(OnShelf(s), Insert(core, item, key))
  {
    s' := UploadUnpictured(s, pid, core, item, key, jpeg, published);
    s' := RowInserted(s, pid, s', core, item, key, None);
  }

  // ---- An upload that fails ----

  /** All that is left of a failed upload: its core is burned. */
  predicate OnlyClaimed(s: State, pid: Pid, core: Core, item: Item, s': State) {
    s' == s.(claims := s.claims[core := item], actors := s.actors[pid := Fresh(Finished)])
  }

  lemma PutRefused(s: State, pid: Pid, core: Core, item: Item, published: bool) returns (s': State)
    requires CanStore(s, pid, core, item, FileKey(core)) && FileKey(core) !in s.objects
    ensures Leads(s, pid, s')
    ensures s' == s.(objects := Create(s.objects, FileKey(core), item.content),
                     bytes := if published then s.bytes[FileKey(core) := item.content] else s.bytes,
                     claims := s.claims[core := item],
                     actors := s.actors[pid := Actor(Unwinding(Rollback), Some(FileKey(core)), None, None)])
  {
    s' := Open(s, pid, ClaimFile(core, item));
    s' := Take(s, pid, s', Moves(pid, Uploads(AcquireMain)));
    s' := Take(s, pid, s', Moves(pid, Uploads(PutMainFails(published))));
  }

  /** The PUT fails, whether or not it stored its bytes. */
  lemma FailedPutIsARun(s: State, pid: Pid, core: Core, item: Item, published: bool) returns (s': State)
    requires CanStore(s, pid, core, item, FileKey(core)) && FileKey(core) !in s.objects
    ensures Leads(s, pid, s') && OnlyClaimed(s, pid, core, item, s')
  {
    s' := PutRefused(s, pid, core, item, published);
    s' := RolledBack(s, pid, s', FileKey(core), None);
    assert s'.objects == s.objects && s'.bytes == s.bytes;
  }

  /** The PUT fails after it stored its bytes, and the rollback cannot delete them: it goes on, and they stay. */
  lemma StrayBytesAreARun(s: State, pid: Pid, core: Core, item: Item) returns (s': State)
    requires CanStore(s, pid, core, item, FileKey(core)) && FileKey(core) !in s.objects
    ensures Leads(s, pid, s')
    ensures s' == s.(claims := s.claims[core := item], bytes := s.bytes[FileKey(core) := item.content],
                     actors := s.actors[pid := Fresh(Finished)])
  {
    s' := PutRefused(s, pid, core, item, true);
    s' := Take(s, pid, s', Moves(pid, Removes(ReleaseMain)));
    s' := Take(s, pid, s', Moves(pid, Removes(DeleteBytes(false))));
    s' := Take(s, pid, s', Moves(pid, Removes(Finish)));
    assert s'.objects == s.objects;
  }

  lemma BytesFound(s: State, pid: Pid, core: Core) returns (s': State)
    requires pid !in s.actors && FileKey(core) in s.bytes
    requires FileKey(core) in s.objects ==> s.objects[FileKey(core)].refcount <= 0
    ensures Leads(s, pid, s') && s' == s.(actors := s.actors[pid := Fresh(Reclaiming({FileKey(core)}))])
  {
    s' := Open(s, pid, StartGc);
    s' := Take(s, pid, s', Moves(pid, Collects(See(FileKey(core)))));
    assert s'.actors[pid].task.found == {FileKey(core)};
    s' := Take(s, pid, s', Moves(pid, Collects(ReadRows)));
    assert s'.actors[pid].task.found == {FileKey(core)};
  }

  /** A collection finds such bytes, and takes them. */
  lemma CollectionIsARun(s: State, pid: Pid, core: Core) returns (s': State)
    requires pid !in s.actors && FileKey(core) in s.bytes
    requires FileKey(core) in s.objects ==> s.objects[FileKey(core)].refcount <= 0
    requires forall c | c in s.files :: s.files[c].key != FileKey(core)
    ensures Leads(s, pid, s')
    ensures s' == s.(objects := s.objects - {FileKey(core)}, bytes := s.bytes - {FileKey(core)},
                     actors := s.actors[pid := Fresh(Finished)])
  {
    s' := BytesFound(s, pid, core);
    s' := Take(s, pid, s', Moves(pid, Collects(Reclaim(FileKey(core)))));
    s' := TakeDelete(s, pid, s');
    s' := Take(s, pid, s', Moves(pid, Removes(Abandon)));
  }

  /**
   * Another object stands under the candidate key, and none has this content: the object row is refused, which leaves
   * the request nothing to do but to end.
   */
  lemma RefusedKeyIsARun(s: State, pid: Pid, core: Core, item: Item) returns (s': State)
    requires pid !in s.actors && CanOpen(s, ClaimFile(core, item))
    requires FileKey(core) in s.objects && Absent(s.objects, item.content)
    ensures Leads(s, pid, s') && OnlyClaimed(s, pid, core, item, s')
    ensures forall m :: Can(Do(s, Opens(pid, ClaimFile(core, item))), Fresh(Claimed(core, item)), m)
                        ==> m == Removes(Abandon)
  {
    s' := Open(s, pid, ClaimFile(core, item));
    s' := Take(s, pid, s', Moves(pid, Removes(Abandon)));
  }

  lemma InsertRefused(s: State, pid: Pid, t: State, core: Core, item: Item, key: Key, thumb: Option<Key>)
    returns (t': State)
    requires Leads(s, pid, t) && pid in t.actors && t.actors[pid] == Actor(Ready(core, item), Some(key), thumb, None)
    ensures Leads(s, pid, t')
    ensures t' == t.(objects := ReleasedBoth(t.objects, key, thumb),
                     bytes := DroppedBoth(t.objects, t.bytes, key, thumb),
                     actors := t.actors[pid := Fresh(Finished)])
  {
    t' := Take(s, pid, t, Moves(pid, Uploads(InsertFails)));
    t' := RolledBack(s, pid, t', key, thumb);
  }

  /** The INSERT of the row fails: both references and the bytes they brought are given back. */
  lemma FailedInsertIsARun(s: State, pid: Pid, core: Core, item: Item, key: Key) returns (s': State)
    requires CanStore(s, pid, core, item, key) && Positive(s.objects)
    ensures Leads(s, pid, s') && OnlyClaimed(s, pid, core, item, s')
  {
    s' := UploadReady(s, pid, core, item, key);
    s' := InsertRefused(s, pid, s', core, item, key, None);
    ReleaseUndoesAcquire(s.objects, s.bytes, key, item.content);
  }

  lemma FailedPicturedInsertIsARun(s: State, pid: Pid, core: Core, item: Item, key: Key, jpeg: Digest, thumb: Key)
    returns (s': State)
    requires CanStore(s, pid, core, item, key) && CanPicture(s, core, item, key, jpeg, thumb) && Positive(s.objects)
    ensures Leads(s, pid, s') && OnlyClaimed(s, pid, core, item, s')
  {
    s' := UploadPictured(s, pid, core, item, key, jpeg, thumb);
    s' := InsertRefused(s, pid, s', core, item, key, Some(thumb));
    RollbackUndoesUpload(s.objects, s.bytes, key, item.content, thumb, jpeg);
  }

  // ---- A rollback that fails ----

  /** All that is left of an upload that failed and whose reference to `key` could not be released. */
  predicate LeftCounted(s: State, pid: Pid, heir: Pid, core: Core, item: Item, key: Key, s': State) {
    s' == s.(objects := Acquired(s.objects, key, item.content), bytes := Stocked(s.bytes, key, item.content),
             claims := s.claims[core := item],
             actors := s.actors[pid := Fresh(Finished)][heir := Actor(Finished, Some(key), None, None)])
  }

  lemma MainKept(s: State, pid: Pid, heir: Pid, t: State, core: Core, item: Item, key: Key, thumb: Key)
    returns (t': State)
    requires Leads(s, pid, t) && pid in t.actors && heir !in t.actors
    requires t.actors[pid] == Actor(Ready(core, item), Some(key), Some(thumb), None)
    ensures Leads(s, pid, t')
    ensures t' == t.(actors := t.actors[pid := Actor(Unwinding(Rollback), None, Some(thumb), None)]
                                       [heir := Actor(Finished, Some(key), None, None)])
  {
    t' := Take(s, pid, t, Moves(pid, Uploads(InsertFails)));
    t' := Take(s, pid, t', Drops(pid, heir));
  }

  lemma PicturedMainKept(s: State, pid: Pid, heir: Pid, core: Core, item: Item, key: Key, jpeg: Digest, thumb: Key)
    returns (s': State)
    requires CanStore(s, pid, core, item, key) && CanPicture(s, core, item, key, jpeg, thumb)
    requires heir !in s.actors && heir != pid
    ensures Leads(s, pid, s')
    ensures s' == s.(objects := Acquired(Acquired(s.objects, key, item.content), thumb, jpeg),
                     bytes := Stocked(Stocked(s.bytes, key, item.content), thumb, jpeg),
                     claims := s.claims[core := item],
                     actors := s.actors[pid := Actor(Unwinding(Rollback), None, Some(thumb), None)]
                                       [heir := Actor(Finished, Some(key), None, None)])
  {
    s' := UploadPictured(s, pid, core, item, key, jpeg, thumb);
    s' := MainKept(s, pid, heir, s', core, item, key, thumb);
  }

  lemma ThumbGivenBack(s: State, pid: Pid, heir: Pid, t: State, key: Key, thumb: Key) returns (t': State)
    requires Leads(s, pid, t) && pid in t.actors && pid != heir
    requires t.actors[pid] == Actor(Unwinding(Rollback), None, Some(thumb), None)
    ensures Leads(s, pid, t')
    ensures t' == t.(objects := Release(t.objects, thumb), bytes := Dropped(t.objects, t.bytes, thumb),
                     actors := t.actors[pid := Fresh(Finished)])
  {
    t' := ThumbReleased(s, pid, t, thumb);
    t' := Take(s, pid, t', Moves(pid, Removes(Finish)));
  }

  /** The row cannot be inserted and the file's release fails: the thumbnail is given back all the same. */
  lemma KeptMainIsARun(s: State, pid: Pid, heir: Pid, core: Core, item: Item, key: Key, jpeg: Digest, thumb: Key)
    returns (s': State)
    requires CanStore(s, pid, core, item, key) && CanPicture(s, core, item, key, jpeg, thumb) && Positive(s.objects)
    requires heir !in s.actors && heir != pid
    ensures Leads(s, pid, s') && LeftCounted(s, pid, heir, core, item, key, s')
  {
    s' := PicturedMainKept(s, pid, heir, core, item, key, jpeg, thumb);
    s' := ThumbGivenBack(s, pid, heir, s', key, thumb);
    AcquiredStaysBacked(s.objects, s.bytes, key, item.content);
    ReleaseUndoesAcquire(Acquired(s.objects, key, item.content), Stocked(s.bytes, key, item.content), thumb, jpeg);
  }

  lemma ThumbKept(s: State, pid: Pid, heir: Pid, t: State, core: Core, jpeg: Digest) returns (t': State)
    requires Leads(s, pid, t) && WantsFirstThumb(t, pid, core) && NewThumb(t, core, jpeg) && t.actors[pid].task.Stored?
    requires heir !in t.actors
    ensures Leads(s, pid, t')
    ensures t' == t.(objects := Create(t.objects, ThumbKey(core), jpeg),
                     actors := t.actors[pid := t.actors[pid].(task := ThumbUndoing(core, UploadOf(t.actors[pid].task)))]
                                       [heir := Actor(Finished, None, Some(ThumbKey(core)), None)])
  {
    t' := Take(s, pid, t, Moves(pid, Thumbs(AcquireThumb(jpeg))));
    t' := Take(s, pid, t', Moves(pid, Thumbs(PutThumbFails(false))));
    t' := Take(s, pid, t', Drops(pid, heir));
  }

  lemma InsertedAfterUndoing(s: State, pid: Pid, t: State, core: Core, item: Item, key: Key) returns (t': State)
    requires Leads(s, pid, t) && pid in t.actors
    requires t.actors[pid] == Actor(ThumbUndoing(core, Some(item)), Some(key), None, None)
    ensures Leads(s, pid, t')
    ensures t' == t.(files := t.files[core := FileRow(item, key, None)], actors := t.actors[pid := Fresh(Finished)])
  {
    t' := Take(s, pid, t, Moves(pid, Removes(Finish)));
    t' := Take(s, pid, t', Moves(pid, Uploads(InsertFile)));
  }

  lemma UploadThumbKept(s: State, pid: Pid, heir: Pid, core: Core, item: Item, key: Key, jpeg: Digest)
    returns (s': State)
    requires CanStore(s, pid, core, item, key) && !item.burn
    requires NewThumb(s, core, jpeg) && jpeg != item.content && Positive(s.objects)
    requires heir !in s.actors && heir != pid
    ensures Leads(s, pid, s')
    ensures s' == s.(objects := Create(Acquired(s.objects, key, item.content), ThumbKey(core), jpeg),
                     bytes := Stocked(s.bytes, key, item.content), claims := s.claims[core := item],
                     actors := s.actors[pid := Actor(ThumbUndoing(core, Some(item)), Some(key), None, None)]
                                       [heir := Actor(Finished, None, Some(ThumbKey(core)), None)])
  {
    s' := UploadStored(s, pid, core, item, key);
    AcquiredStaysBacked(s.objects, s.bytes, key, item.content);
    s' := ThumbKept(s, pid, heir, s', core, jpeg);
  }

  /** The thumbnail cannot be stored and its release fails: the upload still inserts its row, without it. */
  lemma KeptThumbIsARun(s: State, pid: Pid, heir: Pid, core: Core, item: Item, key: Key, jpeg: Digest)
    returns (s': State)
    requires CanStore(s, pid, core, item, key) && core !in s.files && !item.burn
    requires NewThumb(s, core, jpeg) && jpeg != item.content && Positive(s.objects)
    requires heir !in s.actors && heir != pid
    ensures Leads(s, pid, s')
    ensures s' == s.(objects := Create(Acquired(s.objects, key, item.content), ThumbKey(core), jpeg),
                     files := s.files[core := FileRow(item, key, None)],
                     bytes := Stocked(s.bytes, key, item.content), claims := s.claims[core := item],
                     actors := s.actors[pid := Fresh(Finished)]
                                       [heir := Actor(Finished, None, Some(ThumbKey(core)), None)])
  {
    s' := UploadThumbKept(s, pid, heir, core, item, key, jpeg);
    s' := InsertedAfterUndoing(s, pid, s', core, item, key);
  }

  // ---- A backfilled thumbnail ----

  lemma BackfillStored(s: State, pid: Pid, core: Core, jpeg: Digest, key: Key) returns (s': State)
    requires pid !in s.actors && CanOpen(s, StartBackfill(core))
    requires Backed(s.objects, s.bytes) && Chosen(s.objects, jpeg, ThumbKey(core), key)
    ensures Leads(s, pid, s')
    ensures s' == s.(objects := Acquired(s.objects, key, jpeg), bytes := Stocked(s.bytes, key, jpeg),
                     actors := s.actors[pid := Actor(Linking(core), None, Some(key), None)])
  {
    s' := Open(s, pid, StartBackfill(core));
    s' := ThumbStored(s, pid, s', core, jpeg, key);
  }

  /** `ensure_thumbnail`, from the loaded row to the link. */
  lemma BackfillIsARun(s: State, pid: Pid, core: Core, jpeg: Digest, key: Key) returns (s': State)
    requires pid !in s.actors && CanOpen(s, StartBackfill(core))
    requires Backed(s.objects, s.bytes) && Chosen(s.objects, jpeg, ThumbKey(core), key)
    ensures Leads(s, pid, s')
    ensures OnShelf(s') == Changed(OnShelf(s), Picture(core, jpeg, key))
    ensures s' == s.(objects := s'.objects, files := s'.files, bytes := s'.bytes,
                     actors := s.actors[pid := Fresh(Finished)])
  {
    s' := BackfillStored(s, pid, core, jpeg, key);
    s' := Take(s, pid, s', Moves(pid, Thumbs(Link)));
  }

  /** A backfill whose PUT fails leaves everything as it was. */
  lemma FailedBackfillIsARun(s: State, pid: Pid, core: Core, jpeg: Digest, published: bool) returns (s': State)
    requires pid !in s.actors && CanOpen(s, StartBackfill(core))
    requires NewThumb(s, core, jpeg)
    ensures Leads(s, pid, s') && s' == s.(actors := s.actors[pid := Fresh(Finished)])
  {
    s' := Open(s, pid, StartBackfill(core));
    s' := ThumbRefused(s, pid, s', core, jpeg, published);
  }
}
