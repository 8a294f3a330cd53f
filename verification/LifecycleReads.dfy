/** When a live file reads back as its own upload, and what a burn read serves. */
module LifecycleReads {
  import opened Ledger
  import opened Lifecycle
  import opened LifecycleInvariant
  import opened LifecycleKeys
  import opened LifecycleLaws
  import opened Wrappers

  /** The key is a files/ key, or a thumbnail's that the run issued once at most. */
  ghost predicate Sound(states: seq<State>, i: nat, key: Key) {
    key.FileKey? || IssuedOnce(states, i, key)
  }

  lemma SoundIsIssuedOnce(states: seq<State>, steps: seq<Step>, i: nat, key: Key)
    requires Run(states, steps) && i <= |steps| && Sound(states, i, key)
    ensures IssuedOnce(states, i, key)
  {
    if key.FileKey? {
      FileKeysAreIssuedOnce(states, steps, i, key);
    }
  }

  lemma RowHasObject(states: seq<State>, steps: seq<Step>, i: nat, core: Core)
    requires Run(states, steps) && i <= |steps| && core in states[i].files
    ensures var row := states[i].files[core];
      && core in states[i].claims && row.item == states[i].claims[core]
      && Holds(states[i].objects, row.key, row.item.content)
  {
    var refs := RunKeeps(states, steps, i);
  }

  // ---- Never the wrong bytes ----

  /**
   * Whatever the handlers of other files sharing the hash do, and whatever fails, what lies under a live file's key is
   * the content its own upload supplied.
   */
  lemma NeverTheWrongBytes(states: seq<State>, steps: seq<Step>, i: nat, core: Core)
    requires Run(states, steps) && i <= |steps| && core in states[i].files
    requires Sound(states, i, states[i].files[core].key)
    ensures var s := states[i];
      && core in s.claims && s.files[core].item == s.claims[core]
      && (s.files[core].key in s.bytes ==> s.bytes[s.files[core].key] == s.claims[core].content)
  {
    var key := states[i].files[core].key;
    RowHasObject(states, steps, i, core);
    SoundIsIssuedOnce(states, steps, i, key);
    if key in states[i].bytes {
      OnceBytes(states, steps, i, i, i, key);
    }
  }

  // ---- Reading back ----

  /** The live file reads back as the content its own upload supplied. */
  predicate ReadsOwnContent(s: State, core: Core)
    requires core in s.files
  {
    s.files[core].key in s.bytes && core in s.claims && s.bytes[s.files[core].key] == s.claims[core].content
  }

  /**
   * In every interleaved run, whatever fails and whoever stops, a live file reads back as the content its own upload
   * supplied exactly when the handler that created its object has stored the bytes.
   */
  lemma ReadsOwnContentIffStored(states: seq<State>, steps: seq<Step>, i: nat, core: Core)
    requires Run(states, steps) && i <= |steps| && core in states[i].files
    requires Sound(states, i, states[i].files[core].key)
    ensures ReadsOwnContent(states[i], core) <==> WasStored(states, steps, i, states[i].files[core].key)
  {
    NeverTheWrongBytes(states, steps, i, core);
    RowHasObject(states, steps, i, core);
    SoundIsIssuedOnce(states, steps, i, states[i].files[core].key);
    BytesIffStored(states, steps, i, states[i].files[core].key);
  }

  // ---- While PUTs succeed ----

  /** The step is not a failing PUT of this key's bytes, and does not stop the handler in the middle of one. */
  predicate CalmAt(s: State, step: Step, key: Key) {
    step.Moves? && step.pid in s.actors && Puts(s.actors[step.pid], key) ==>
      step.move in {Uploads(PutMain), Thumbs(PutThumb)}
  }

  /** The handler that created the object is storing its bytes. */
  ghost predicate PutPending(s: State, key: Key) {
    exists p :: p in s.actors && Puts(s.actors[p], key)
  }

  lemma PendingStep(s: State, step: Step, key: Key)
    requires Enabled(s, step) && CalmAt(s, step, key) && PutPending(s, key)
    ensures Stores(s, step, key) || PutPending(Do(s, step), key)
  {
    var p :| p in s.actors && Puts(s.actors[p], key);
    if !(step.Moves? && step.pid == p) {
      assert Do(s, step).actors[p] == s.actors[p];
    }
  }

  /** While its own PUT does not fail, an object's bytes are being stored or were. */
  lemma {:induction false} CalmPutEnds(states: seq<State>, steps: seq<Step>, i: nat, key: Key)
    requires Run(states, steps) && i <= |steps| && key in states[i].objects
    requires forall j {:trigger steps[j]} | 0 <= j < i :: CalmAt(states[j], steps[j], key)
    ensures PutPending(states[i], key) || WasStored(states, steps, i, key)
  {
    if i > 0 {
      var s, step := states[i - 1], steps[i - 1];
      if key in s.objects {
        CalmPutEnds(states, steps, i - 1, key);
        if PutPending(s, key) {
          PendingStep(s, step, key);
        }
      } else {
        CreatesWithoutBytes(s, step, key);
      }
    }
  }

  /** So when that PUT does not fail, a live file reads back exactly when it is over. */
  lemma CalmReadsOwnContent(states: seq<State>, steps: seq<Step>, i: nat, core: Core)
    requires Run(states, steps) && i <= |steps| && core in states[i].files
    requires Sound(states, i, states[i].files[core].key)
    requires forall j {:trigger steps[j]} | 0 <= j < i :: CalmAt(states[j], steps[j], states[i].files[core].key)
    ensures ReadsOwnContent(states[i], core) <==> !PutPending(states[i], states[i].files[core].key)
  {
    var key := states[i].files[core].key;
    ReadsOwnContentIffStored(states, steps, i, core);
    RowHasObject(states, steps, i, core);
    CalmPutEnds(states, steps, i, key);
    if PutPending(states[i], key) {
      var p :| p in states[i].actors && Puts(states[i].actors[p], key);
      SoundIsIssuedOnce(states, steps, i, key);
      PutterIsFirst(states, steps, i, p, key);
    }
  }

  // ---- What a burn read serves ----

  /** Once the row had this key, and once these bytes lay under it. */
  ghost predicate Collected(states: seq<State>, i: nat, d: Delivery)
    requires i < |states|
  {
    d.key.Some? ==>
      && (exists l | 0 <= l <= i :: d.core in states[l].files && states[l].files[d.core].key == d.key.value)
      && (exists l | 0 <= l <= i :: d.key.value in states[l].bytes && states[l].bytes[d.key.value] == d.body)
  }

  ghost predicate Loads(states: seq<State>, i: nat, core: Core, key: Key)
    requires i < |states|
  {
    exists l | 0 <= l <= i :: core in states[l].files && states[l].files[core].key == key
  }

  /** The body a handler is to serve. */
  function Promised(task: Task): Option<Delivery> {
    match task
    case Deleting(_, _, Burn(d)) => Some(d)
    case Unwinding(Burn(d)) => Some(d)
    case _ => None
  }

  ghost predicate TracedTask(states: seq<State>, i: nat, task: Task)
    requires i < |states|
  {
    && (task.Loaded? ==> Loads(states, i, task.core, task.key))
    && (Promised(task).Some? ==> Collected(states, i, Promised(task).value))
  }

  /** The bodies on their way or sent, and the files loaded for one. */
  ghost predicate Traced(states: seq<State>, i: nat)
    requires i < |states|
  {
    && (forall n | 0 <= n < |states[i].served| :: Collected(states, i, states[i].served[n]))
    && (forall p | p in states[i].actors :: TracedTask(states, i, states[i].actors[p].task))
  }

  /** Where a loaded file comes from. */
  lemma LoadedStep(s: State, step: Step, p: Pid)
    requires Enabled(s, step) && p in Do(s, step).actors && Do(s, step).actors[p].task.Loaded?
    ensures var task := Do(s, step).actors[p].task;
      || (p in s.actors && s.actors[p].task == task)
      || (task.core in s.files && s.files[task.core].key == task.key)
  {
  }

  lemma PromisedMove(s: State, a: Actor, m: Move)
    requires Can(s, a, m) && Promised(Next(s, a, m).task).Some?
    ensures var d := Promised(Next(s, a, m).task).value;
      || Promised(a.task) == Some(d)
      || (a.task.Loaded? && a.task.key in s.bytes && d == Delivery(a.task.core, s.bytes[a.task.key], Some(a.task.key)))
  {
  }

  /** Where a body that was read from a key comes from. */
  lemma PromisedStep(s: State, step: Step, p: Pid)
    requires Enabled(s, step) && p in Do(s, step).actors
    requires Promised(Do(s, step).actors[p].task).Some? && Promised(Do(s, step).actors[p].task).value.key.Some?
    ensures p in s.actors
    ensures var before, d := s.actors[p].task, Promised(Do(s, step).actors[p].task).value;
      || Promised(before) == Some(d)
      || (before.Loaded? && d.core == before.core && d.key == Some(before.key)
          && before.key in s.bytes && d.body == s.bytes[before.key])
  {
    if step.Moves? && step.pid == p {
      PromisedMove(s, s.actors[p], step.move);
    }
  }

  lemma CollectedLater(states: seq<State>, i: nat, d: Delivery)
    requires i + 1 < |states| && Collected(states, i, d)
    ensures Collected(states, i + 1, d)
  {
  }

  lemma NewTaskIsTraced(states: seq<State>, steps: seq<Step>, i: nat, p: Pid)
    requires Run(states, steps) && i < |steps| && Traced(states, i) && p in states[i + 1].actors
    ensures TracedTask(states, i + 1, states[i + 1].actors[p].task)
  {
    var task := states[i + 1].actors[p].task;
    if task.Loaded? {
      LoadedStep(states[i], steps[i], p);
    } else if Promised(task).Some? && Promised(task).value.key.Some? {
      PromisedStep(states[i], steps[i], p);
    }
    if p in states[i].actors {
      assert TracedTask(states, i, states[i].actors[p].task);
      if Promised(task).Some? && Promised(task) == Promised(states[i].actors[p].task) {
        CollectedLater(states, i, Promised(task).value);
      }
    }
  }

  lemma ServedStep(s: State, step: Step)
    requires Enabled(s, step)
    ensures Do(s, step).served == s.served
      || (step.Moves? && s.actors[step.pid].task.Unwinding? && s.actors[step.pid].task.goal.Burn?
          && Do(s, step).served == s.served + [s.actors[step.pid].task.goal.delivery])
  {
  }

  lemma NewServedIsTraced(states: seq<State>, steps: seq<Step>, i: nat, n: nat)
    requires Run(states, steps) && i < |steps| && Traced(states, i) && n < |states[i + 1].served|
    ensures Collected(states, i + 1, states[i + 1].served[n])
  {
    var s := states[i];
    ServedStep(s, steps[i]);
    if n < |s.served| {
      CollectedLater(states, i, s.served[n]);
    } else {
      assert TracedTask(states, i, s.actors[steps[i].pid].task);
      CollectedLater(states, i, s.actors[steps[i].pid].task.goal.delivery);
    }
  }

  lemma {:induction false} RunIsTraced(states: seq<State>, steps: seq<Step>, i: nat)
    requires Run(states, steps) && i <= |steps|
    ensures Traced(states, i)
  {
    if i > 0 {
      RunIsTraced(states, steps, i - 1);
      forall p | p in states[i].actors
        ensures TracedTask(states, i, states[i].actors[p].task)
      {
        NewTaskIsTraced(states, steps, i - 1, p);
      }
      forall n | 0 <= n < |states[i].served|
        ensures Collected(states, i, states[i].served[n])
      {
        NewServedIsTraced(states, steps, i - 1, n);
      }
    }
  }

  /** What a burn read has served is the content its core was claimed for. */
  lemma BurnServesOwnContent(states: seq<State>, steps: seq<Step>, i: nat, n: nat)
    requires Run(states, steps) && i <= |steps| && n < |states[i].served|
    requires states[i].served[n].key.Some? ==> Sound(states, i, states[i].served[n].key.value)
    ensures var d := states[i].served[n]; d.core in states[i].claims && d.body == states[i].claims[d.core].content
  {
    var d := states[i].served[n];
    BurnedAtMostOnce(states, steps, n, n, i);
    if d.key.Some? {
      RunIsTraced(states, steps, i);
      SoundIsIssuedOnce(states, steps, i, d.key.value);
      var j :| 0 <= j <= i && d.core in states[j].files && states[j].files[d.core].key == d.key.value;
      var l :| 0 <= l <= i && d.key.value in states[l].bytes && states[l].bytes[d.key.value] == d.body;
      RowHasObject(states, steps, j, d.core);
      OnceBytes(states, steps, l, j, i, d.key.value);
      RunSucceeds(states, steps, j, i);
    }
  }
}
