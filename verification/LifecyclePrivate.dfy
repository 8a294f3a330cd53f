/** The deduplicated instance against the simple store it stands for, with one private copy for each link. */
module LifecyclePrivate {
  import opened Ledger
  import opened Lifecycle
  import opened LifecycleInvariant
  import opened LifecycleKeys
  import opened LifecycleLaws
  import opened LifecycleReads
  import opened Wrappers

  // ---- The links ----

  /** The simple store: each published core has its own copy of its item. */
  type Published = map<Core, Item>

  datatype PrivateStep = Stutter | Publish(core: Core, item: Item) | Withdraw(core: Core)

  predicate PrivateEnabled(p: Published, step: PrivateStep) {
    match step
    case Stutter => true
    case Publish(core, _) => core !in p
    case Withdraw(core) => core in p
  }

  function PrivateDo(p: Published, step: PrivateStep): Published {
    match step
    case Stutter => p
    case Publish(core, item) => p[core := item]
    case Withdraw(core) => p - {core}
  }

  function Live(files: map<Core, FileRow>, pastes: map<Core, Item>): Published {
    map c | c in files.Keys + pastes.Keys :: if c in files then files[c].item else pastes[c]
  }

  function PublishedBy(s: State): Published {
    Live(s.files, s.pastes)
  }

  /** What a step does to the simple store. */
  function PrivateView(s: State, step: Step): PrivateStep
    requires Enabled(s, step)
  {
    match step
    case Moves(pid, Uploads(InsertFile)) => Publish(s.actors[pid].task.core, s.actors[pid].task.item)
    case Moves(pid, Uploads(InsertPaste)) => Publish(s.actors[pid].task.core, s.actors[pid].task.item)
    case Moves(pid, Removes(RemoveFile)) =>
      if s.actors[pid].task.core in s.files then Withdraw(s.actors[pid].task.core) else Stutter
    case Moves(pid, Removes(RemovePaste)) =>
      if s.actors[pid].task.core in s.pastes then Withdraw(s.actors[pid].task.core) else Stutter
    case _ => Stutter
  }

  /** How each change of a table shows in the links. */
  lemma LiveInsertedFile(files: map<Core, FileRow>, pastes: map<Core, Item>, core: Core, row: FileRow)
    requires core !in pastes
    ensures Live(files[core := row], pastes) == Live(files, pastes)[core := row.item]
  {
  }

  lemma LiveInsertedPaste(files: map<Core, FileRow>, pastes: map<Core, Item>, core: Core, item: Item)
    requires core !in files
    ensures Live(files, pastes[core := item]) == Live(files, pastes)[core := item]
  {
  }

  lemma LiveRemoved(files: map<Core, FileRow>, pastes: map<Core, Item>, core: Core)
    ensures core !in pastes ==> Live(files - {core}, pastes) == Live(files, pastes) - {core}
    ensures core !in files ==> Live(files, pastes - {core}) == Live(files, pastes) - {core}
  {
  }

  lemma MoveRefines(s: State, a: Actor, m: Move)
    requires Can(s, a, m) && KnowsOwned(s, a) && forall c | c in s.files :: c !in s.pastes
    ensures var live, live' := PublishedBy(s), Live(NextFiles(s, a, m), NextPastes(s, a, m));
      match m
      case Uploads(InsertFile) => a.task.core !in live && live' == live[a.task.core := a.task.item]
      case Uploads(InsertPaste) => a.task.core !in live && live' == live[a.task.core := a.task.item]
      case Removes(RemoveFile) => live' == if a.task.core in s.files then live - {a.task.core} else live
      case Removes(RemovePaste) => live' == if a.task.core in s.pastes then live - {a.task.core} else live
      case _ => live' == live
  {
    match m
    case Uploads(InsertFile) =>
      LiveInsertedFile(s.files, s.pastes, a.task.core, FileRow(a.task.item, a.main.value, a.thumb));
    case Uploads(InsertPaste) => LiveInsertedPaste(s.files, s.pastes, a.task.core, a.task.item);
    case Removes(RemoveFile) =>
      LiveRemoved(s.files, s.pastes, a.task.core);
      assert a.task.core in s.files || s.files - {a.task.core} == s.files;
    case Removes(RemovePaste) =>
      LiveRemoved(s.files, s.pastes, a.task.core);
      assert a.task.core in s.pastes || s.pastes - {a.task.core} == s.pastes;
    case _ =>
  }

  lemma StepRefines(s: State, step: Step)
    requires Enabled(s, step) && forall c | c in s.files :: c !in s.pastes
    requires step.Moves? ==> KnowsOwned(s, s.actors[step.pid])
    ensures PrivateEnabled(PublishedBy(s), PrivateView(s, step))
    ensures PublishedBy(Do(s, step)) == PrivateDo(PublishedBy(s), PrivateView(s, step))
  {
    if step.Moves? {
      MoveRefines(s, s.actors[step.pid], step.move);
    }
  }

  /** The links refine the simple store: every step publishes one fresh core, withdraws one, or changes no link. */
  lemma LinksRefinePrivateCopies(states: seq<State>, steps: seq<Step>, i: nat)
    requires Run(states, steps) && i < |steps|
    ensures PublishedBy(states[0]) == map[]
    ensures PrivateEnabled(PublishedBy(states[i]), PrivateView(states[i], steps[i]))
    ensures PublishedBy(states[i + 1]) == PrivateDo(PublishedBy(states[i]), PrivateView(states[i], steps[i]))
  {
    var refs := RunKeeps(states, steps, i);
    if steps[i].Moves? {
      assert Remembers(states[i], states[i].actors[steps[i].pid]);
    }
    StepRefines(states[i], steps[i]);
  }

  // ---- What a reader gets ----

  /** What the instance serves under a core: a file's bytes from under its row's key, a paste from its row. */
  function Readback(s: State, core: Core): Option<Digest> {
    if core in s.files then
      if s.files[core].key in s.bytes then Some(s.bytes[s.files[core].key]) else None
    else if core in s.pastes then Some(s.pastes[core].content)
    else None
  }

  /** What the simple store serves. */
  function PrivateRead(p: Published, core: Core): Option<Digest> {
    if core in p then Some(p[core].content) else None
  }

  /**
   * The deduplicated instance refines one private copy for each link. Its steps do to the links what the simple store
   * does. A read of any core, through row, shared object and byte store, gives what the private copy gives, or nothing;
   * and nothing only for a published file whose object's bytes were never stored.
   */
  lemma RunRefinesPrivateCopies(states: seq<State>, steps: seq<Step>, i: nat, core: Core)
    requires Run(states, steps) && i <= |steps|
    requires core in states[i].files ==> Sound(states, i, states[i].files[core].key)
    ensures i < |steps| ==>
      && PrivateEnabled(PublishedBy(states[i]), PrivateView(states[i], steps[i]))
      && PublishedBy(states[i + 1]) == PrivateDo(PublishedBy(states[i]), PrivateView(states[i], steps[i]))
    ensures Readback(states[i], core) in {PrivateRead(PublishedBy(states[i]), core), None}
    ensures Readback(states[i], core) == PrivateRead(PublishedBy(states[i]), core)
            <==> core !in states[i].files || WasStored(states, steps, i, states[i].files[core].key)
  {
    if i < |steps| {
      LinksRefinePrivateCopies(states, steps, i);
    }
    if core in states[i].files {
      NeverTheWrongBytes(states, steps, i, core);
      ReadsOwnContentIffStored(states, steps, i, core);
    }
  }
}
