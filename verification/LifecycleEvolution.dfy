/** What one statement may do to the shared state, and what no statement undoes. */
module LifecycleEvolution {
  import opened Ledger
  import opened Lifecycle
  import opened LifecycleInvariant
  import opened Wrappers

  /** Objects keep their content; new ones are thumbnails, or the upload a claimant brings. */
  predicate ObjectsEffect(objects: Objects, objects': Objects, task: Task) {
    forall k: Key | k in objects' ::
      && (k in objects ==> objects'[k].content == objects[k].content)
      && (k !in objects ==>
            k.ThumbKey? || (task.Claimed? && k.core == task.core && objects'[k].content == task.item.content))
  }

  lemma MoveObjects(s: State, a: Actor, m: Move)
    requires Can(s, a, m)
    ensures ObjectsEffect(s.objects, NextObjects(s, a, m), a.task)
  {
  }

  /** Bytes are stored under a thumbnail key, or under the key of the object an upload created. */
  predicate BytesEffect(bytes: map<Key, Digest>, bytes': map<Key, Digest>, a: Actor) {
    forall k: Key | k in bytes' ::
      || (k in bytes && bytes'[k] == bytes[k])
      || k.ThumbKey?
      || (a.task.Putting? && a.main == Some(k) && bytes'[k] == a.task.item.content)
  }

  lemma MoveBytes(s: State, a: Actor, m: Move)
    requires Can(s, a, m) && SlotsFit(a)
    ensures BytesEffect(s.bytes, NextBytes(s, a, m), a)
  {
  }

  /** A row appears only for the core its handler owns; a row that is there keeps its item and its key. */
  predicate FilesEffect(files: map<Core, FileRow>, files': map<Core, FileRow>, a: Actor, a': Actor) {
    forall c | c in files' ::
      && (c in files ==> files'[c].item == files[c].item && files'[c].key == files[c].key)
      && (c !in files ==>
            && Owned(a.task) == Some(c) && !a.task.Typed? && Owned(a'.task).None?
            && a.main == Some(files'[c].key) && files'[c].item == OwnedItem(a.task))
  }

  predicate OwnsNoRow(s: State, task: Task) {
    Owned(task).Some? ==> Owned(task).value !in s.files && Owned(task).value !in s.pastes
  }

  lemma MoveFiles(s: State, a: Actor, m: Move)
    requires Can(s, a, m) && OwnsNoRow(s, a.task)
    ensures FilesEffect(s.files, NextFiles(s, a, m), a, Next(s, a, m))
  {
  }

  predicate PastesEffect(pastes: map<Core, Item>, pastes': map<Core, Item>, a: Actor, a': Actor) {
    forall c | c in pastes' ::
      && (c in pastes ==> pastes'[c] == pastes[c])
      && (c !in pastes ==>
            Owned(a.task) == Some(c) && a.task.Typed? && Owned(a'.task).None? && pastes'[c] == OwnedItem(a.task))
  }

  lemma MovePastes(s: State, a: Actor, m: Move)
    requires Can(s, a, m) && OwnsNoRow(s, a.task)
    ensures PastesEffect(s.pastes, NextPastes(s, a, m), a, Next(s, a, m))
  {
  }

  /** A handler keeps or gives up the core it owns. */
  predicate OwnerEffect(a: Actor, a': Actor) {
    && !a'.task.Claimed?
    && (Owned(a'.task).Some? ==>
          && Owned(a'.task) == Owned(a.task) && OwnedItem(a'.task) == OwnedItem(a.task)
          && (a'.task.Typed? <==> a.task.Typed?))
  }

  lemma MoveOwner(s: State, a: Actor, m: Move)
    requires Can(s, a, m) && SlotsFit(a)
    ensures OwnerEffect(a, Next(s, a, m))
  {
  }

  /** A body is promised to a client only along with the row that goes, and it is sent once. */
  predicate ServedEffect(s: State, s': State, a: Actor, a': Actor) {
    && (s'.served == s.served
        || (a.task.Unwinding? && a.task.goal.Burn?
            && s'.served == s.served + [a.task.goal.delivery] && !a'.task.Unwinding?))
    && (a'.task.Unwinding? && a'.task.goal.Burn? && a'.task != a.task ==>
          && a.task.Deleting? && a'.task.goal == a.task.goal
          && (a.task.kind == File ==> a.task.core in s.files && a.task.core !in s'.files)
          && (a.task.kind == Paste ==> a.task.core in s.pastes && a.task.core !in s'.pastes))
  }

  lemma MoveServed(s: State, pid: Pid, m: Move)
    requires pid in s.actors && Can(s, s.actors[pid], m)
    ensures ServedEffect(s, Do(s, Moves(pid, m)), s.actors[pid], Next(s, s.actors[pid], m))
  {
  }

  /** A key is doomed when its object row goes, or when a collection finds it without one. */
  predicate DoomEffect(objects: Objects, objects': Objects, a: Actor, a': Actor) {
    a'.doomed.Some? ==>
      || a'.doomed == a.doomed
      || (a'.doomed.value in objects && a'.doomed.value !in objects')
      || (a.task.Reclaiming? && a'.doomed.value in a.task.found)
  }

  lemma MoveDoom(s: State, a: Actor, m: Move)
    requires Can(s, a, m)
    ensures DoomEffect(s.objects, NextObjects(s, a, m), a, Next(s, a, m))
  {
  }

  ghost predicate Effect(s: State, s': State, pid: Pid, a': Actor) {
    && pid in s.actors && s'.actors == s.actors[pid := a'] && s'.claims == s.claims && s'.now == s.now
    && var a := s.actors[pid];
    && OwnerEffect(a, a')
    && ObjectsEffect(s.objects, s'.objects, a.task)
    && BytesEffect(s.bytes, s'.bytes, a)
    && FilesEffect(s.files, s'.files, a, a')
    && PastesEffect(s.pastes, s'.pastes, a, a')
    && ServedEffect(s, s', a, a')
    && DoomEffect(s.objects, s'.objects, a, a')
  }

  lemma MoveEffect(s: State, pid: Pid, m: Move)
    requires pid in s.actors && Can(s, s.actors[pid], m)
    requires SlotsFit(s.actors[pid]) && OwnsNoRow(s, s.actors[pid].task)
    ensures Effect(s, Do(s, Moves(pid, m)), pid, Next(s, s.actors[pid], m))
  {
    var a := s.actors[pid];
    MoveOwner(s, a, m);
    MoveObjects(s, a, m);
    MoveBytes(s, a, m);
    MoveFiles(s, a, m);
    MovePastes(s, a, m);
    MoveServed(s, pid, m);
    MoveDoom(s, a, m);
  }

  lemma EffectEvolves(s: State, s': State, pid: Pid, a': Actor)
    requires Effect(s, s', pid, a')
    ensures Evolves(s, s')
  {
  }

  lemma OpenEvolves(s: State, pid: Pid, o: Opening)
    requires pid !in s.actors && CanOpen(s, o)
    ensures Evolves(s, Do(s, Opens(pid, o)))
  {
  }
}
