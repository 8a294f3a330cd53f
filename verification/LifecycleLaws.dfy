/** What holds over every run. */
module LifecycleLaws {
  import opened Ledger
  import opened Lifecycle
  import opened LifecycleEvolution
  import opened LifecycleInvariant
  import opened LifecycleSteps
  import opened Wrappers

  // ---- Runs ----

  lemma InitHolds(s: State)
    requires Init(s)
    ensures Inv(s, map[])
  {
  }

  lemma {:induction false} RunKeeps(states: seq<State>, steps: seq<Step>, i: nat) returns (refs: map<Ref, Key>)
    requires Run(states, steps) && i <= |steps|
    ensures Inv(states[i], refs)
  {
    if i == 0 {
      InitHolds(states[0]);
      refs := map[];
    } else {
      refs := RunKeeps(states, steps, i - 1);
      refs := StepKeeps(states[i - 1], refs, steps[i - 1]);
    }
  }

  /** What a later state of a run owes an earlier one. */
  ghost predicate Succeeds(s: State, s': State) {
    && (forall c | c in s.claims :: c in s'.claims && s'.claims[c] == s.claims[c])
    && (forall c | Spent(s, c) :: Spent(s', c))
    && (forall k | Dead(s, k) :: Dead(s', k))
  }

  lemma SucceedsTransitive(s: State, s': State, s'': State)
    requires Succeeds(s, s') && Succeeds(s', s'')
    ensures Succeeds(s, s'')
  {
  }

  lemma {:induction false} RunSucceeds(states: seq<State>, steps: seq<Step>, i: nat, j: nat)
    requires Run(states, steps) && i <= j <= |steps|
    ensures Succeeds(states[i], states[j])
    decreases j
  {
    if i < j {
      RunSucceeds(states, steps, i, j - 1);
      var refs := RunKeeps(states, steps, j - 1);
      refs := StepKeeps(states[j - 1], refs, steps[j - 1]);
      SucceedsTransitive(states[i], states[j - 1], states[j]);
    }
  }

  // ---- Conservation ----

  function RowsStoring(s: State, key: Key): set<Core> {
    set c | c in s.files && s.files[c].key == key
  }

  function RowsPicturing(s: State, key: Key): set<Core> {
    set c | c in s.files && s.files[c].thumb == Some(key)
  }

  function HandlersHolding(s: State, key: Key): set<Pid> {
    set p | p in s.actors && s.actors[p].main == Some(key)
  }

  function HandlersPicturing(s: State, key: Key): set<Pid> {
    set p | p in s.actors && s.actors[p].thumb == Some(key)
  }

  /** Wrapping the members of a set in one constructor keeps their number. */
  lemma {:induction false} WrapSize(xs: set<nat>, wrap: nat -> Ref, wrapped: set<Ref>)
    requires forall x, y :: wrap(x) == wrap(y) ==> x == y
    requires forall r :: r in wrapped <==> exists x | x in xs :: wrap(x) == r
    ensures |wrapped| == |xs|
  {
    if xs == {} {
      assert wrapped == {};
    } else {
      var x :| x in xs;
      assert wrap(x) in wrapped;
      WrapSize(xs - {x}, wrap, wrapped - {wrap(x)});
    }
  }

  function AsRowMain(cores: set<Core>): set<Ref> { set c | c in cores :: RowMain(c) }
  function AsRowThumb(cores: set<Core>): set<Ref> { set c | c in cores :: RowThumb(c) }
  function AsMainHold(pids: set<Pid>): set<Ref> { set p | p in pids :: MainHold(p) }
  function AsThumbHold(pids: set<Pid>): set<Ref> { set p | p in pids :: ThumbHold(p) }

  lemma WrapSizes(xs: set<nat>)
    ensures |AsRowMain(xs)| == |AsRowThumb(xs)| == |AsMainHold(xs)| == |AsThumbHold(xs)| == |xs|
  {
    WrapSize(xs, (c: Core) => RowMain(c), AsRowMain(xs));
    WrapSize(xs, (c: Core) => RowThumb(c), AsRowThumb(xs));
    WrapSize(xs, (p: Pid) => MainHold(p), AsMainHold(xs));
    WrapSize(xs, (p: Pid) => ThumbHold(p), AsThumbHold(xs));
  }

  lemma UnionSize(a: set<Core>, b: set<Core>, c: set<Pid>, d: set<Pid>)
    ensures |AsRowMain(a) + AsRowThumb(b) + AsMainHold(c) + AsThumbHold(d)| == |a| + |b| + |c| + |d|
  {
    WrapSizes(a);
    WrapSizes(b);
    WrapSizes(c);
    WrapSizes(d);
    assert AsRowMain(a) !! AsRowThumb(b);
    assert (AsRowMain(a) + AsRowThumb(b)) !! AsMainHold(c);
    assert (AsRowMain(a) + AsRowThumb(b) + AsMainHold(c)) !! AsThumbHold(d);
  }

  /** The references to a key, by who holds them. */
  lemma CountSplit(s: State, refs: map<Ref, Key>, key: Key)
    requires Accounts(s.files, s.actors, refs)
    ensures Count(refs, key) == |RowsStoring(s, key)| + |RowsPicturing(s, key)|
                                + |HandlersHolding(s, key)| + |HandlersPicturing(s, key)|
  {
    var split := AsRowMain(RowsStoring(s, key)) + AsRowThumb(RowsPicturing(s, key))
      + AsMainHold(HandlersHolding(s, key)) + AsThumbHold(HandlersPicturing(s, key));
    forall r
      ensures r in Users(refs, key) <==> r in split
    {
      assert Lookup(refs, r) == KeyOf(s.files, s.actors, r);
    }
    assert Users(refs, key) == split;
    UnionSize(RowsStoring(s, key), RowsPicturing(s, key), HandlersHolding(s, key), HandlersPicturing(s, key));
  }

  /**
   * In every state of every run an object's count is the number of rows that store their file in it, plus the
   * rows that use it as a thumbnail, plus the references handlers hold; it is never zero; and a key without an
   * object has no such row and no such handler.
   */
  lemma RefcountsConserved(states: seq<State>, steps: seq<Step>, i: nat, key: Key)
    requires Run(states, steps) && i <= |steps|
    ensures var s := states[i];
      var uses := |RowsStoring(s, key)| + |RowsPicturing(s, key)|
        + |HandlersHolding(s, key)| + |HandlersPicturing(s, key)|;
      if key in s.objects then s.objects[key].refcount == uses >= 1 else uses == 0
  {
    var refs := RunKeeps(states, steps, i);
    CountSplit(states[i], refs, key);
    if key !in states[i].objects {
      assert Users(refs, key) == {};
    }
  }

  // ---- Bytes of files/ keys ----

  /** Nothing refers to the key: no object, no row, no hold. */
  ghost predicate Unused(s: State, key: Key) {
    && key !in s.objects
    && (forall c | c in s.files :: s.files[c].key != key && s.files[c].thumb != Some(key))
    && (forall p | p in s.actors :: s.actors[p].main != Some(key) && s.actors[p].thumb != Some(key))
  }

  lemma DeadIsUnused(s: State, refs: map<Ref, Key>, key: Key)
    requires Inv(s, refs) && key !in s.objects
    ensures Unused(s, key)
  {
    forall r
      ensures KeyOf(s.files, s.actors, r) != Some(key)
    {
      assert Lookup(refs, r) == KeyOf(s.files, s.actors, r);
    }
    forall c | c in s.files
      ensures s.files[c].key != key && s.files[c].thumb != Some(key)
    {
      assert KeyOf(s.files, s.actors, RowMain(c)) != Some(key) && KeyOf(s.files, s.actors, RowThumb(c)) != Some(key);
    }
    forall p | p in s.actors
      ensures s.actors[p].main != Some(key) && s.actors[p].thumb != Some(key)
    {
      assert KeyOf(s.files, s.actors, MainHold(p)) != Some(key) && KeyOf(s.files, s.actors, ThumbHold(p)) != Some(key);
    }
  }

  /** Only a handler that doomed the key deletes its bytes. */
  lemma DeletedIsDead(s: State, refs: map<Ref, Key>, step: Step, key: Key)
    requires Inv(s, refs) && Enabled(s, step)
    requires key.FileKey? && key in s.bytes && key !in Do(s, step).bytes
    ensures Dead(s, key)
  {
    assert step.Moves? && step.move.Removes? && step.move.removal.DeleteBytes?;
    assert Remembers(s, s.actors[step.pid]);
  }

  /**
   * Whoever deletes the bytes of a files/ key, however late, and whatever ran in between: nothing refers to
   * the key then, and nothing ever will again.
   */
  lemma BytesOutliveReferences(states: seq<State>, steps: seq<Step>, i: nat, key: Key, j: nat)
    requires Run(states, steps) && i < |steps|
    requires key.FileKey? && key in states[i].bytes && key !in states[i + 1].bytes
    requires i <= j <= |steps|
    ensures Unused(states[j], key)
  {
    var refs := RunKeeps(states, steps, i);
    DeletedIsDead(states[i], refs, steps[i], key);
    RunSucceeds(states, steps, i, j);
    refs := RunKeeps(states, steps, j);
    DeadIsUnused(states[j], refs, key);
  }

  // ---- What a core names ----

  /** What a link to this core leads to. */
  function Names(s: State, core: Core): Option<Item> {
    if core in s.files then Some(s.files[core].item)
    else if core in s.pastes then Some(s.pastes[core])
    else None
  }

  /** One step from a live core: it still names the same, or it is spent. */
  lemma NamedStep(s: State, refs: map<Ref, Key>, step: Step, core: Core)
    requires Inv(s, refs) && Enabled(s, step) && Names(s, core).Some?
    ensures Names(Do(s, step), core) == Names(s, core) || Spent(Do(s, step), core)
  {
    var refs' := StepKeeps(s, refs, step);
    var s' := Do(s, step);
    if step.Moves? && Names(s', core).None? {
      MoveEffect(s, step.pid, step.move);
      RemovedIsSpent(s, s', step.pid, s'.actors[step.pid], core);
    }
  }

  lemma RunNamedStep(states: seq<State>, steps: seq<Step>, i: nat, core: Core)
    requires Run(states, steps) && i < |steps| && Names(states[i], core).Some?
    ensures Names(states[i + 1], core) == Names(states[i], core) || Spent(states[i + 1], core)
  {
    var refs := RunKeeps(states, steps, i);
    NamedStep(states[i], refs, steps[i], core);
  }

  lemma {:induction false} NamedOrSpent(states: seq<State>, steps: seq<Step>, i: nat, core: Core, j: nat)
    requires Run(states, steps) && i <= j <= |steps| && Names(states[i], core).Some?
    ensures Names(states[j], core) == Names(states[i], core) || Spent(states[j], core)
    decreases j
  {
    if i < j {
      NamedOrSpent(states, steps, i, core, j - 1);
      if Spent(states[j - 1], core) {
        RunSucceeds(states, steps, j - 1, j);
      } else {
        RunNamedStep(states, steps, j - 1, core);
      }
    }
  }

  /**
   * Over a whole run of uploads, pastes, deletes, burns and sweeps a core names at most one content, in one of
   * the two tables and never in both; and once it names nothing again, it names nothing ever after.
   */
  lemma CoreNamesOneContent(states: seq<State>, steps: seq<Step>, core: Core, i: nat, j: nat, l: nat)
    requires Run(states, steps) && i <= j <= l <= |steps|
    requires Names(states[i], core).Some?
    ensures core !in states[i].files || core !in states[i].pastes
    ensures Names(states[j], core).Some? ==> Names(states[j], core) == Names(states[i], core)
    ensures Names(states[j], core).None? ==> Names(states[l], core).None?
  {
    var refs := RunKeeps(states, steps, i);
    NamedOrSpent(states, steps, i, core, j);
    if Names(states[j], core).None? {
      RunSucceeds(states, steps, j, l);
    }
  }

  // ---- Who may remove a row ----

  /** Why a step may take a live core away. */
  ghost predicate RemovesRightly(s: State, step: Step, core: Core)
    requires Names(s, core).Some?
  {
    && step.Moves? && step.pid in s.actors
    && s.actors[step.pid].task.Deleting? && s.actors[step.pid].task.core == core
    && var goal := s.actors[step.pid].task.goal;
    && !goal.Rollback?
    && (goal.Owner? ==> goal.credential in Names(s, core).value.access)
    && (goal.Expiry? ==> Names(s, core).value.expires.Some? && Names(s, core).value.expires.value < s.now)
    && (goal.Burn? ==>
          && goal.delivery.core == core && Names(s, core).value.burn
          && (goal.delivery.key.None? || goal.delivery.key.value.FileKey? ==>
                goal.delivery.body == Names(s, core).value.content))
  }

  /**
   * A live core goes only at the hand of a delete whose credential the item accepts, of a sweep (and then it has
   * expired, however long ago the sweep fetched it), or of a burn reader that has the whole body in hand: a read that
   * failed before that consumes nothing.
   */
  lemma OnlyRightfulRemovals(states: seq<State>, steps: seq<Step>, core: Core, i: nat)
    requires Run(states, steps) && i < |steps|
    requires Names(states[i], core).Some? && Names(states[i + 1], core).None?
    ensures RemovesRightly(states[i], steps[i], core)
  {
    var s, step := states[i], steps[i];
    var refs := RunKeeps(states, steps, i);
    assert step.Moves? && step.move.Removes? && (step.move.removal.RemoveFile? || step.move.removal.RemovePaste?);
    assert Remembers(s, s.actors[step.pid]);
  }

  /**
   * At most one reader of a burn item receives a body, whoever else reads, deletes or sweeps: no core is served
   * twice, what is served is the content the core was claimed for, and the core names nothing afterwards.
   */
  lemma BurnedAtMostOnce(states: seq<State>, steps: seq<Step>, i: nat, j: nat, n: nat)
    requires Run(states, steps) && n <= |steps| && i < |states[n].served|
    ensures j < |states[n].served| && j != i ==> states[n].served[j].core != states[n].served[i].core
    ensures Names(states[n], states[n].served[i].core).None?
    ensures var d := states[n].served[i];
      && d.core in states[n].claims && states[n].claims[d.core].burn
      && (d.key.None? || d.key.value.FileKey? ==> d.body == states[n].claims[d.core].content)
  {
    var refs := RunKeeps(states, steps, n);
    assert Settled(states[n], states[n].served[i]);
  }
}
