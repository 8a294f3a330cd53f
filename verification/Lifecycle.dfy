/**
 * The deduplicated object lifecycle as a transition system: uploads, thumbnail backfills, deletes, burn
 * readers, the expiry sweeper and garbage collection, interleaved statement by statement over the shared
 * tables and the byte store. Any handler may stop at any statement and leave its references behind.
 */
module Lifecycle {
  import opened Ledger
  import opened Wrappers

  datatype Kind = File | Paste

  /** A signed-in user or a delete token, by number. */
  type Credential = nat

  /**
   * What a core was issued for: the columns of its row that no statement ever updates. `access` holds the
   * credentials that `check_delete_access` accepts, the owner and the delete token.
   */
  datatype Item = Item(kind: Kind, content: Digest, burn: bool, expires: Option<nat>, access: set<Credential>)

  datatype FileRow = FileRow(item: Item, key: Key, thumb: Option<Key>)

  /** A one-read body on its way to a client, and the key it was read from (pastes live in their row). */
  datatype Delivery = Delivery(core: Core, body: Digest, key: Option<Key>)

  /** Why a handler is removing a row or giving references back. */
  datatype Goal = Rollback | Owner(credential: Credential) | Expiry | Burn(delivery: Delivery)

  /** Where a handler stands. */
  datatype Task =
    // upload_inner: core claimed; object acquired as new; bytes in place; thumbnail settled
    | Claimed(core: Core, item: Item)
    | Putting(core: Core, item: Item)
    | Stored(core: Core, item: Item)
    | Ready(core: Core, item: Item)
    // ensure_thumbnail, and store_thumbnail on behalf of an upload (Some) or a backfill (None)
    | Backfilling(core: Core)
    | ThumbPutting(core: Core, jpeg: Digest, upload: Option<Item>)
    | ThumbUndoing(core: Core, upload: Option<Item>)
    | Linking(core: Core)
    // create_paste_inner
    | Typed(core: Core, item: Item)
    // the burn branches of raw and raw_paste; remove_file
    | Loaded(core: Core, item: Item, key: Key)
    | Deleting(core: Core, kind: Kind, goal: Goal)
    | Unwinding(goal: Goal)
    // gc: listing the inventory, then reclaiming what no row accounts for
    | Listing(found: set<Key>)
    | Reclaiming(found: set<Key>)
    | Finished

  /** A handler: its references to a file object and to a thumbnail object, and the key whose bytes it must delete. */
  datatype Actor = Actor(task: Task, main: Option<Key>, thumb: Option<Key>, doomed: Option<Key>)

  datatype State = State(
    objects: Objects,
    files: map<Core, FileRow>,
    pastes: map<Core, Item>,
    claims: map<Core, Item>,
    bytes: map<Key, Digest>,
    actors: map<Pid, Actor>,
    served: seq<Delivery>,
    now: nat
  )

  ghost predicate Init(s: State) {
    && s.objects == map[] && s.files == map[] && s.pastes == map[] && s.claims == map[]
    && s.bytes == map[] && s.actors == map[] && s.served == []
  }

  predicate IsExpired(item: Item, now: nat) {
    item.expires.Some? && item.expires.value < now
  }

  /** Some `files` row names this key as its object. */
  predicate Referenced(files: map<Core, FileRow>, key: Key) {
    exists c | c in files :: files[c].key == key
  }

  function Fresh(task: Task): Actor {
    Actor(task, None, None, None)
  }

  // ---- Where a handler begins ----

  datatype Opening =
    | ClaimFile(core: Core, item: Item)
    | ClaimPaste(core: Core, item: Item)
    | StartBackfill(core: Core)
    | LoadFile(core: Core)
    | LoadPaste(core: Core)
    | StartDelete(core: Core, kind: Kind, credential: Credential)
    | StartSweep(core: Core, kind: Kind)
    | StartGc

  predicate CanOpen(s: State, o: Opening) {
    match o
    case ClaimFile(core, item) => core !in s.claims && item.kind == File
    case ClaimPaste(core, item) => core !in s.claims && item.kind == Paste
    case StartBackfill(core) => core in s.files && s.files[core].thumb.None? && !s.files[core].item.burn
    case LoadFile(core) => core in s.files && s.files[core].item.burn && !IsExpired(s.files[core].item, s.now)
    case LoadPaste(core) => core in s.pastes && s.pastes[core].burn && !IsExpired(s.pastes[core], s.now)
    case StartDelete(core, kind, credential) =>
      if kind == File then core in s.files && credential in s.files[core].item.access
      else core in s.pastes && credential in s.pastes[core].access
    case StartSweep(core, kind) =>
      if kind == File then core in s.files && IsExpired(s.files[core].item, s.now)
      else core in s.pastes && IsExpired(s.pastes[core], s.now)
    case StartGc => true
  }

  function OpenTask(s: State, o: Opening): Task
    requires CanOpen(s, o)
  {
    match o
    case ClaimFile(core, item) => Claimed(core, item)
    case ClaimPaste(core, item) => Typed(core, item)
    case StartBackfill(core) => Backfilling(core)
    case LoadFile(core) => Loaded(core, s.files[core].item, s.files[core].key)
    case LoadPaste(core) => Deleting(core, Paste, Burn(Delivery(core, s.pastes[core].content, None)))
    case StartDelete(core, kind, credential) => Deleting(core, kind, Owner(credential))
    case StartSweep(core, kind) => Deleting(core, kind, Expiry)
    case StartGc => Listing({})
  }

  // ---- upload_inner and create_paste_inner ----

  datatype UploadMove =
    | AcquireMain
    | ShareMain(key: Key)
    | PutMain
    | PutMainFails(published: bool)
    | SkipThumb
    | InsertFile
    | InsertFails
    | InsertPaste

  predicate CanUpload(s: State, a: Actor, m: UploadMove) {
    match m
    case AcquireMain => a.task.Claimed? && Absent(s.objects, a.task.item.content) && FileKey(a.task.core) !in s.objects
    case ShareMain(key) => a.task.Claimed? && Holds(s.objects, key, a.task.item.content)
    case PutMain => a.task.Putting? && a.main.Some?
    case PutMainFails(_) => a.task.Putting? && a.main.Some?
    case SkipThumb => a.task.Stored?
    case InsertFile => a.task.Ready? && a.main.Some?
    case InsertFails => a.task.Ready?
    case InsertPaste => a.task.Typed?
  }

  function AfterUpload(a: Actor, m: UploadMove): Actor
    requires a.task.Claimed? || a.task.Putting? || a.task.Stored? || a.task.Ready? || a.task.Typed?
  {
    var core, item := a.task.core, a.task.item;
    match m
    case AcquireMain => a.(task := Putting(core, item), main := Some(FileKey(core)))
    case ShareMain(key) => a.(task := Stored(core, item), main := Some(key))
    case PutMain => a.(task := Stored(core, item))
    case PutMainFails(_) => a.(task := Unwinding(Rollback))
    case SkipThumb => a.(task := Ready(core, item))
    case InsertFile => Fresh(Finished)
    case InsertFails => a.(task := Unwinding(Rollback))
    case InsertPaste => Fresh(Finished)
  }

  // ---- store_thumbnail and ensure_thumbnail ----

  datatype ThumbMove =
    | AcquireThumb(jpeg: Digest)
    | ShareThumb(jpeg: Digest, key: Key)
    | PutThumb
    | PutThumbFails(published: bool)
    | Link

  /** Burn items get no thumbnail. */
  predicate WantsThumb(task: Task) {
    (task.Stored? && !task.item.burn) || task.Backfilling?
  }

  predicate CanThumb(s: State, a: Actor, m: ThumbMove) {
    match m
    case AcquireThumb(jpeg) => WantsThumb(a.task) && Absent(s.objects, jpeg) && ThumbKey(a.task.core) !in s.objects
    case ShareThumb(jpeg, key) => WantsThumb(a.task) && Holds(s.objects, key, jpeg)
    case PutThumb => a.task.ThumbPutting? && a.thumb.Some?
    case PutThumbFails(_) => a.task.ThumbPutting? && a.thumb.Some?
    case Link => a.task.Linking? && a.thumb.Some?
  }

  /** The upload a thumbnail is made for; a backfill has none. */
  function UploadOf(task: Task): Option<Item>
    requires WantsThumb(task) || task.ThumbPutting? || task.ThumbUndoing?
  {
    if task.Stored? then Some(task.item) else if task.Backfilling? then None else task.upload
  }

  /** With its thumbnail in place an upload inserts its row, and a backfill links it. */
  function Thumbed(core: Core, upload: Option<Item>): Task {
    match upload
    case Some(item) => Ready(core, item)
    case None => Linking(core)
  }

  /** The row still wants the thumbnail of this backfill. */
  predicate Links(files: map<Core, FileRow>, core: Core) {
    core in files && files[core].thumb.None?
  }

  function AfterThumb(files: map<Core, FileRow>, a: Actor, m: ThumbMove): Actor
    requires WantsThumb(a.task) || a.task.ThumbPutting? || a.task.Linking?
    requires !m.Link? ==> !a.task.Linking?
  {
    var core := a.task.core;
    match m
    case AcquireThumb(jpeg) =>
      a.(task := ThumbPutting(core, jpeg, UploadOf(a.task)), thumb := Some(ThumbKey(core)))
    case ShareThumb(jpeg, key) => a.(task := Thumbed(core, UploadOf(a.task)), thumb := Some(key))
    case PutThumb => a.(task := Thumbed(core, UploadOf(a.task)))
    case PutThumbFails(_) => a.(task := ThumbUndoing(core, UploadOf(a.task)))
    case Link => if Links(files, core) then Fresh(Finished) else a.(task := Unwinding(Rollback))
  }

  // ---- remove_file, rollback_object, rollback_thumbnail, and the burn readers ----

  datatype RemovalMove =
    | Collect
    | RemoveFile
    | RemovePaste
    | ReleaseMain
    | ReleaseThumb
    | DeleteBytes(ok: bool)
    | Finish
    | Abandon

  predicate CanRemove(s: State, a: Actor, m: RemovalMove) {
    match m
    // The body must have the length that the row announces.
    case Collect =>
      && a.task.Loaded? && a.task.key in s.bytes
      && s.bytes[a.task.key].length == a.task.item.content.length
    case RemoveFile => a.task.Deleting? && a.task.kind == File
    case RemovePaste => a.task.Deleting? && a.task.kind == Paste
    case ReleaseMain => a.task.Unwinding? && a.main.Some?
    case ReleaseThumb =>
      a.thumb.Some? && a.doomed.None? && (a.task.ThumbUndoing? || (a.task.Unwinding? && a.main.None?))
    // A rollback goes on when the store cannot delete; a removal or a collection ends there, as `Abandon`.
    case DeleteBytes(ok) => a.doomed.Some? && (ok || a.task.ThumbUndoing? || a.task == Unwinding(Rollback))
    case Finish =>
      a.thumb.None? && a.doomed.None? && (a.task.ThumbUndoing? || (a.task.Unwinding? && a.main.None?))
    case Abandon => true
  }

  function DoomedBy(objects: Objects, key: Option<Key>): Option<Key> {
    if key.Some? && LastRelease(objects, key.value) then key else None
  }

  function AfterRemoval(s: State, a: Actor, m: RemovalMove): Actor
    requires CanRemove(s, a, m)
  {
    match m
    case Collect =>
      a.(task := Deleting(a.task.core, File, Burn(Delivery(a.task.core, s.bytes[a.task.key], Some(a.task.key)))))
    case RemoveFile =>
      if a.task.core in s.files then
        Actor(Unwinding(a.task.goal), Some(s.files[a.task.core].key), s.files[a.task.core].thumb, None)
      else
        Fresh(Finished)
    case RemovePaste => Fresh(if a.task.core in s.pastes then Unwinding(a.task.goal) else Finished)
    case ReleaseMain => a.(main := None, doomed := DoomedBy(s.objects, a.main))
    case ReleaseThumb => a.(thumb := None, doomed := DoomedBy(s.objects, a.thumb))
    case DeleteBytes(_) => a.(doomed := None)
    case Finish =>
      if a.task.ThumbUndoing? && a.task.upload.Some? then a.(task := Ready(a.task.core, a.task.upload.value))
      else a.(task := Finished)
    case Abandon => a.(task := Finished, doomed := None)
  }

  // ---- gc: inspect, then reclaim ----

  datatype GcMove = See(key: Key) | ReadRows | Reclaim(key: Key)

  predicate Counted(objects: Objects, key: Key) {
    key in objects && objects[key].refcount > 0
  }

  /** Neither a counting object row nor a `files` row keeps the key. */
  predicate Unclaimed(s: State, key: Key) {
    !Counted(s.objects, key) && !Referenced(s.files, key)
  }

  predicate CanCollect(s: State, a: Actor, m: GcMove) {
    match m
    // Of the keys in the machine the inventory lists the files/ prefix only.
    case See(key) => a.task.Listing? && key in s.bytes && key.FileKey?
    case ReadRows => a.task.Listing?
    case Reclaim(key) => a.task.Reclaiming? && key in a.task.found && a.doomed.None?
  }

  function AfterCollection(s: State, a: Actor, m: GcMove): Actor
    requires CanCollect(s, a, m)
  {
    match m
    case See(key) => a.(task := Listing(a.task.found + {key}))
    case ReadRows => a.(task := Reclaiming(set k | k in a.task.found && !Counted(s.objects, k)))
    case Reclaim(key) =>
      a.(task := Reclaiming(a.task.found - {key}), doomed := if Unclaimed(s, key) then Some(key) else None)
  }

  // ---- One statement ----

  datatype Move =
    | Uploads(upload: UploadMove)
    | Thumbs(thumb: ThumbMove)
    | Removes(removal: RemovalMove)
    | Collects(gc: GcMove)

  predicate Can(s: State, a: Actor, m: Move) {
    match m
    case Uploads(u) => CanUpload(s, a, u)
    case Thumbs(t) => CanThumb(s, a, t)
    case Removes(r) => CanRemove(s, a, r)
    case Collects(g) => CanCollect(s, a, g)
  }

  /** The handler after the statement. */
  function Next(s: State, a: Actor, m: Move): Actor
    requires Can(s, a, m)
  {
    match m
    case Uploads(u) => AfterUpload(a, u)
    case Thumbs(t) => AfterThumb(s.files, a, t)
    case Removes(r) => AfterRemoval(s, a, r)
    case Collects(g) => AfterCollection(s, a, g)
  }

  /** `objects` after the statement. */
  function NextObjects(s: State, a: Actor, m: Move): Objects
    requires Can(s, a, m)
  {
    match m
    case Uploads(AcquireMain) => Create(s.objects, FileKey(a.task.core), a.task.item.content)
    case Uploads(ShareMain(key)) => Share(s.objects, key)
    case Thumbs(AcquireThumb(jpeg)) => Create(s.objects, ThumbKey(a.task.core), jpeg)
    case Thumbs(ShareThumb(_, key)) => Share(s.objects, key)
    case Removes(ReleaseMain) => Release(s.objects, a.main.value)
    case Removes(ReleaseThumb) => Release(s.objects, a.thumb.value)
    case Collects(Reclaim(key)) => if Unclaimed(s, key) then s.objects - {key} else s.objects
    case _ => s.objects
  }

  /** The byte store after the statement. */
  function NextBytes(s: State, a: Actor, m: Move): map<Key, Digest>
    requires Can(s, a, m)
  {
    match m
    case Uploads(PutMain) => s.bytes[a.main.value := a.task.item.content]
    case Uploads(PutMainFails(published)) => if published then s.bytes[a.main.value := a.task.item.content] else s.bytes
    case Thumbs(PutThumb) => s.bytes[a.thumb.value := a.task.jpeg]
    case Thumbs(PutThumbFails(published)) => if published then s.bytes[a.thumb.value := a.task.jpeg] else s.bytes
    case Removes(DeleteBytes(ok)) => if ok then s.bytes - {a.doomed.value} else s.bytes
    case _ => s.bytes
  }

  /** `files` after the statement. */
  function NextFiles(s: State, a: Actor, m: Move): map<Core, FileRow>
    requires Can(s, a, m)
  {
    match m
    case Uploads(InsertFile) => s.files[a.task.core := FileRow(a.task.item, a.main.value, a.thumb)]
    case Thumbs(Link) =>
      if Links(s.files, a.task.core) then s.files[a.task.core := s.files[a.task.core].(thumb := a.thumb)] else s.files
    case Removes(RemoveFile) => s.files - {a.task.core}
    case _ => s.files
  }

  /** `pastes` after the statement. */
  function NextPastes(s: State, a: Actor, m: Move): map<Core, Item>
    requires Can(s, a, m)
  {
    match m
    case Uploads(InsertPaste) => s.pastes[a.task.core := a.task.item]
    case Removes(RemovePaste) => s.pastes - {a.task.core}
    case _ => s.pastes
  }

  /** The one-read bodies sent so far: a burn reader sends its body once everything is released. */
  function NextServed(s: State, a: Actor, m: Move): seq<Delivery>
    requires Can(s, a, m)
  {
    match m
    case Removes(Finish) =>
      if a.task.Unwinding? && a.task.goal.Burn? then s.served + [a.task.goal.delivery] else s.served
    case _ => s.served
  }

  // ---- Steps and runs ----

  datatype Step = Opens(pid: Pid, opening: Opening) | Moves(pid: Pid, move: Move) | Drops(pid: Pid, heir: Pid) | Tick

  /**
   * A rollback whose release fails logs the error and goes on, and the reference stays counted. It is booked on a
   * handler of its own, which has finished.
   */
  predicate CanDrop(a: Actor) {
    || (a.task == Unwinding(Rollback) && a.main.Some?)
    || (a.thumb.Some? && a.doomed.None? && (a.task.ThumbUndoing? || (a.task == Unwinding(Rollback) && a.main.None?)))
  }

  function AfterDrop(a: Actor): Actor {
    if a.task.Unwinding? && a.main.Some? then a.(main := None) else a.(thumb := None)
  }

  function Heir(a: Actor): Actor {
    if a.task.Unwinding? && a.main.Some? then Actor(Finished, a.main, None, None)
    else Actor(Finished, None, a.thumb, None)
  }

  predicate Enabled(s: State, step: Step) {
    match step
    case Opens(pid, o) => pid !in s.actors && CanOpen(s, o)
    case Moves(pid, m) => pid in s.actors && Can(s, s.actors[pid], m)
    case Drops(pid, heir) => pid in s.actors && CanDrop(s.actors[pid]) && heir !in s.actors
    case Tick => true
  }

  function Do(s: State, step: Step): State
    requires Enabled(s, step)
  {
    match step
    case Opens(pid, o) =>
      s.(actors := s.actors[pid := Fresh(OpenTask(s, o))],
         claims := if o.ClaimFile? || o.ClaimPaste? then s.claims[o.core := o.item] else s.claims)
    case Moves(pid, m) =>
      var a := s.actors[pid];
      State(NextObjects(s, a, m), NextFiles(s, a, m), NextPastes(s, a, m), s.claims, NextBytes(s, a, m),
            s.actors[pid := Next(s, a, m)], NextServed(s, a, m), s.now)
    case Drops(pid, heir) => s.(actors := s.actors[pid := AfterDrop(s.actors[pid])][heir := Heir(s.actors[pid])])
    case Tick => s.(now := s.now + 1)
  }

  /** A run: from the empty instance, each state follows from the one before by the step between them. */
  ghost predicate Run(states: seq<State>, steps: seq<Step>) {
    && |states| == |steps| + 1
    && Init(states[0])
    && forall i {:trigger steps[i]} | 0 <= i < |steps| ::
         Enabled(states[i], steps[i]) && states[i + 1] == Do(states[i], steps[i])
  }
}
