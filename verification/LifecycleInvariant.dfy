/** What every step of every handler keeps. */
module LifecycleInvariant {
  import opened Ledger
  import opened Lifecycle
  import opened Wrappers

  // ---- References ----

  /** What a column or a hold refers to at the moment. */
  function KeyOf(files: map<Core, FileRow>, actors: map<Pid, Actor>, r: Ref): Option<Key> {
    match r
    case RowMain(c) => if c in files then Some(files[c].key) else None
    case RowThumb(c) => if c in files then files[c].thumb else None
    case MainHold(p) => if p in actors then actors[p].main else None
    case ThumbHold(p) => if p in actors then actors[p].thumb else None
  }

  function Lookup(refs: map<Ref, Key>, r: Ref): Option<Key> {
    if r in refs then Some(refs[r]) else None
  }

  /** `refs` is all the references there are: rows by file key, rows by thumbnail key, and outstanding holds. */
  ghost predicate Accounts(files: map<Core, FileRow>, actors: map<Pid, Actor>, refs: map<Ref, Key>) {
    forall r :: Lookup(refs, r) == KeyOf(files, actors, r)
  }

  ghost predicate Conserved(s: State, refs: map<Ref, Key>) {
    Accounts(s.files, s.actors, refs) && Balanced(s.objects, refs)
  }

  // ---- Handlers ----

  /** The core a handler claimed and has not published yet. */
  function Owned(task: Task): Option<Core> {
    match task
    case Claimed(core, _) => Some(core)
    case Putting(core, _) => Some(core)
    case Stored(core, _) => Some(core)
    case Ready(core, _) => Some(core)
    case ThumbPutting(core, _, upload) => if upload.Some? then Some(core) else None
    case ThumbUndoing(core, upload) => if upload.Some? then Some(core) else None
    case Typed(core, _) => Some(core)
    case _ => None
  }

  /** What that core was claimed for. */
  function OwnedItem(task: Task): Item
    requires Owned(task).Some?
  {
    match task
    case ThumbPutting(_, _, upload) => upload.value
    case ThumbUndoing(_, upload) => upload.value
    case _ => task.item
  }

  /** Which slots a handler has filled at each task. */
  predicate SlotsFit(a: Actor) {
    && (a.doomed.Some? ==> a.task.Unwinding? || a.task.ThumbUndoing? || a.task.Reclaiming?)
    && (a.doomed.Some? && a.task.Unwinding? ==> a.main.None?)
    && (a.doomed.Some? && a.task.ThumbUndoing? ==> a.thumb.None?)
    && match a.task
       case Putting(core, _) => a.main == Some(FileKey(core)) && a.thumb.None?
       case Stored(_, _) => a.main.Some? && a.thumb.None?
       case Ready(_, _) => a.main.Some?
       case ThumbPutting(core, _, upload) => a.thumb == Some(ThumbKey(core)) && (a.main.Some? <==> upload.Some?)
       case ThumbUndoing(_, upload) => a.main.Some? <==> upload.Some?
       case Linking(_) => a.main.None? && a.thumb.Some?
       case Unwinding(_) => true
       case Finished => true
       case _ => a.main.None? && a.thumb.None?
  }

  // ---- Facts that last ----

  /** The core is claimed, and its claimant past creating an object under it: its files/ keys never come anew. */
  ghost predicate Issued(s: State, core: Core) {
    core in s.claims && forall p | p in s.actors && s.actors[p].task.Claimed? :: s.actors[p].task.core != core
  }

  /** A files/ key that nothing refers to and that can never come back. */
  ghost predicate Dead(s: State, key: Key) {
    key.FileKey? && Issued(s, key.core) && key !in s.objects
  }

  /** A core that names nothing, now or later. */
  ghost predicate Spent(s: State, core: Core) {
    && core in s.claims && core !in s.files && core !in s.pastes
    && forall p | p in s.actors :: Owned(s.actors[p].task) != Some(core)
  }

  /** Bytes read from a files/ key, or from a paste's row, are those the core was claimed for. */
  predicate Genuine(s: State, d: Delivery) {
    && d.core in s.claims && s.claims[d.core].burn
    && (d.key.None? || d.key.value.FileKey? ==> d.body == s.claims[d.core].content)
  }

  ghost predicate GoalFits(s: State, goal: Goal) {
    goal.Burn? ==> Genuine(s, goal.delivery)
  }

  /** Its claim, still without a row, and the content of the object it holds. */
  predicate KnowsOwned(s: State, a: Actor) {
    Owned(a.task).Some? ==>
      var core, item := Owned(a.task).value, OwnedItem(a.task);
      && core in s.claims && s.claims[core] == item
      && core !in s.files && core !in s.pastes
      && (item.kind == Paste <==> a.task.Typed?)
      && (a.main.Some? ==> Holds(s.objects, a.main.value, item.content))
  }

  /** The row it loaded or deletes, the body it promised, the keys it collects. */
  ghost predicate KnowsTask(s: State, task: Task) {
    match task
    case Loaded(core, item, key) =>
      && core in s.claims && s.claims[core] == item && item.burn && item.kind == File
      && (key.FileKey? ==> key.core in s.claims && s.claims[key.core].content == item.content)
    case Deleting(core, kind, goal) =>
      && GoalFits(s, goal) && !goal.Rollback?
      && (goal.Owner? ==> core in s.claims && goal.credential in s.claims[core].access)
      && (goal.Expiry? ==> core in s.claims && IsExpired(s.claims[core], s.now))
      && (goal.Burn? ==> goal.delivery.core == core)
    case Unwinding(goal) => GoalFits(s, goal) && (goal.Burn? ==> Spent(s, goal.delivery.core))
    case Listing(found) => forall k | k in found :: k.FileKey? && Issued(s, k.core)
    case Reclaiming(found) => forall k | k in found :: Dead(s, k)
    case _ => true
  }

  /** What a handler remembers is true of the state. */
  ghost predicate Remembers(s: State, a: Actor) {
    && KnowsOwned(s, a)
    && (a.doomed.Some? && a.doomed.value.FileKey? ==> Dead(s, a.doomed.value))
    && KnowsTask(s, a.task)
  }

  // ---- The invariant ----

  ghost predicate SoleOwners(s: State) {
    forall p, q | p in s.actors && q in s.actors && Owned(s.actors[p].task).Some?
      && Owned(s.actors[p].task) == Owned(s.actors[q].task) :: p == q
  }

  ghost predicate Handlers(s: State) {
    && (forall p | p in s.actors :: SlotsFit(s.actors[p]) && Remembers(s, s.actors[p]))
    && SoleOwners(s)
  }

  /** Live rows carry what their core was claimed for, and a file's object has its content. */
  ghost predicate Rows(s: State) {
    && (forall c | c in s.files :: c in s.claims && s.files[c].item == s.claims[c] && s.claims[c].kind == File)
    && (forall c | c in s.pastes :: c in s.claims && s.pastes[c] == s.claims[c] && s.claims[c].kind == Paste)
    && (forall c | c in s.files :: Holds(s.objects, s.files[c].key, s.files[c].item.content))
  }

  /** A files/ key only ever stands for the content its core was claimed for, in the table and in the store. */
  ghost predicate Contents(s: State) {
    && (forall k: Key | k in s.objects && k.FileKey? ::
          Issued(s, k.core) && s.objects[k].content == s.claims[k.core].content)
    && (forall k: Key | k in s.bytes && k.FileKey? ::
          Issued(s, k.core) && s.bytes[k] == s.claims[k.core].content)
  }

  /** The handler is about to hand this core's one read to its client. */
  predicate Serving(a: Actor, core: Core) {
    a.task.Unwinding? && a.task.goal.Burn? && a.task.goal.delivery.core == core
  }

  ghost predicate SoleServers(s: State) {
    forall p, q, c | p in s.actors && q in s.actors && Serving(s.actors[p], c) && Serving(s.actors[q], c) :: p == q
  }

  /** A delivery that was made is genuine, and of a core that is spent and that nobody is about to serve. */
  ghost predicate Settled(s: State, d: Delivery) {
    && Genuine(s, d) && Spent(s, d.core)
    && forall p | p in s.actors :: !Serving(s.actors[p], d.core)
  }

  /** A core is served by one handler at most, once, and then it is spent. */
  ghost predicate Burns(s: State) {
    && SoleServers(s)
    && (forall i | 0 <= i < |s.served| :: Settled(s, s.served[i]))
    && (forall i, j | 0 <= i < j < |s.served| :: s.served[i].core != s.served[j].core)
  }

  ghost predicate Inv(s: State, refs: map<Ref, Key>) {
    && Conserved(s, refs)
    && Handlers(s)
    && Rows(s)
    && Contents(s)
    && Burns(s)
  }

  /** What one step changes for good, and what it cannot touch. */
  ghost predicate Evolves(s: State, s': State) {
    && (forall c | c in s.claims :: c in s'.claims && s'.claims[c] == s.claims[c])
    && (forall c | Issued(s, c) :: Issued(s', c))
    && (forall c | Spent(s, c) :: Spent(s', c))
    && (forall k | Dead(s, k) :: Dead(s', k))
    && (forall k | k in s.objects && k in s'.objects :: s'.objects[k].content == s.objects[k].content)
    && s.now <= s'.now
  }
}
