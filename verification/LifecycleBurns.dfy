/**
 * What a burn item's one reader gets: a body of the length announced, on a read begun before the deadline, and only
 * once the file is gone, with its bytes if nothing else used them.
 */
module LifecycleBurns {
  import opened Ledger
  import opened Lifecycle
  import opened LifecycleEvolution
  import opened LifecycleInvariant
  import opened LifecycleKeys
  import opened LifecycleLaws
  import opened LifecycleReads
  import opened Wrappers

  // ---- In time ----

  /** The step opens a read of this burn item, whose deadline is not past. */
  predicate ReadsInTime(s: State, step: Step, core: Core) {
    && step.Opens? && (step.opening == LoadFile(core) || step.opening == LoadPaste(core))
    && Names(s, core).Some?
    && (Names(s, core).value.expires.None? || s.now <= Names(s, core).value.expires.value)
  }

  /** The cores of which a read was opened in time, up to here. */
  ghost predicate WasReadInTime(states: seq<State>, steps: seq<Step>, n: nat, core: Core)
    requires n <= |steps| <= |states|
  {
    exists k | 0 <= k < n :: ReadsInTime(states[k], steps[k], core)
  }

  /** A body in hand was read of one of these cores and has the length its core was claimed with. */
  predicate Announced(claims: map<Core, Item>, cores: iset<Core>, d: Delivery) {
    d.core in cores && d.core in claims && d.body.length == claims[d.core].content.length
  }

  predicate GoalAnnounced(claims: map<Core, Item>, cores: iset<Core>, goal: Goal) {
    goal.Burn? ==> Announced(claims, cores, goal.delivery)
  }

  predicate TaskInTime(claims: map<Core, Item>, cores: iset<Core>, task: Task) {
    match task
    case Loaded(core, item, _) => core in cores && core in claims && claims[core] == item
    case Deleting(_, _, goal) => GoalAnnounced(claims, cores, goal)
    case Unwinding(goal) => GoalAnnounced(claims, cores, goal)
    case _ => true
  }

  predicate InTime(s: State, cores: iset<Core>) {
    && (forall p | p in s.actors :: TaskInTime(s.claims, cores, s.actors[p].task))
    && (forall i | 0 <= i < |s.served| :: Announced(s.claims, cores, s.served[i]))
  }

  lemma MoveInTime(s: State, a: Actor, m: Move, cores: iset<Core>)
    requires TaskInTime(s.claims, cores, a.task) && Can(s, a, m)
    ensures TaskInTime(s.claims, cores, Next(s, a, m).task)
  {
  }

  lemma MoveServesInTime(s: State, a: Actor, m: Move, cores: iset<Core>)
    requires TaskInTime(s.claims, cores, a.task) && Can(s, a, m)
    requires forall i | 0 <= i < |s.served| :: Announced(s.claims, cores, s.served[i])
    ensures forall i | 0 <= i < |NextServed(s, a, m)| :: Announced(s.claims, cores, NextServed(s, a, m)[i])
  {
  }

  /** A read is opened of an item as it was claimed, before its deadline. */
  lemma OpenInTime(s: State, o: Opening, cores: iset<Core>)
    requires Rows(s) && CanOpen(s, o)
    requires forall core | ReadsInTime(s, Opens(0, o), core) :: core in cores
    ensures TaskInTime(s.claims, cores, OpenTask(s, o))
  {
    if o.LoadFile? || o.LoadPaste? {
      assert ReadsInTime(s, Opens(0, o), o.core);
    }
  }

  lemma TaskStaysInTime(claims: map<Core, Item>, claims': map<Core, Item>, cores: iset<Core>, cores': iset<Core>,
                        task: Task)
    requires TaskInTime(claims, cores, task)
    requires forall c | c in claims :: c in claims' && claims'[c] == claims[c]
    requires forall c | c in cores :: c in cores'
    ensures TaskInTime(claims', cores', task)
  {
  }

  lemma InTimeGrows(s: State, claims: map<Core, Item>, cores: iset<Core>, cores': iset<Core>)
    requires InTime(s, cores)
    requires forall c | c in s.claims :: c in claims && claims[c] == s.claims[c]
    requires forall c | c in cores :: c in cores'
    ensures forall p | p in s.actors :: TaskInTime(claims, cores', s.actors[p].task)
    ensures forall i | 0 <= i < |s.served| :: Announced(claims, cores', s.served[i])
  {
    forall p | p in s.actors
      ensures TaskInTime(claims, cores', s.actors[p].task)
    {
      TaskStaysInTime(s.claims, claims, cores, cores', s.actors[p].task);
    }
  }

  lemma StepInTime(s: State, step: Step, cores: iset<Core>, cores': iset<Core>)
    requires Rows(s) && InTime(s, cores) && Enabled(s, step)
    requires forall core :: core in cores || ReadsInTime(s, step, core) ==> core in cores'
    ensures InTime(Do(s, step), cores')
  {
    var s' := Do(s, step);
    InTimeGrows(s, s'.claims, cores, cores');
    match step
    case Opens(pid, o) =>
      OpenInTime(s, o, cores');
      TaskStaysInTime(s.claims, s'.claims, cores', cores', OpenTask(s, o));
    case Moves(pid, m) =>
      MoveInTime(s, s.actors[pid], m, cores');
      MoveServesInTime(s, s.actors[pid], m, cores');
    case Drops(pid, heir) =>
    case Tick =>
  }

  ghost function ReadInTime(states: seq<State>, steps: seq<Step>, n: nat): iset<Core>
    requires n <= |steps| <= |states|
  {
    iset core | WasReadInTime(states, steps, n, core)
  }

  lemma {:induction false} RunInTime(states: seq<State>, steps: seq<Step>, n: nat)
    requires Run(states, steps) && n <= |steps|
    ensures InTime(states[n], ReadInTime(states, steps, n))
  {
    if n > 0 {
      RunInTime(states, steps, n - 1);
      var refs := RunKeeps(states, steps, n - 1);
      StepInTime(states[n - 1], steps[n - 1], ReadInTime(states, steps, n - 1), ReadInTime(states, steps, n));
    }
  }

  /**
   * Whatever one-read body was ever served was read by a handler that came before the deadline of its item, however
   * late it finished; and it has the length that the item was announced with.
   */
  lemma BurnsAreServedInTime(states: seq<State>, steps: seq<Step>, n: nat, i: nat)
    requires Run(states, steps) && n <= |steps| && i < |states[n].served|
    ensures var d := states[n].served[i];
      && d.core in states[n].claims && d.body.length == states[n].claims[d.core].content.length
      && exists k | 0 <= k < n ::
           && steps[k].Opens? && (steps[k].opening == LoadFile(d.core) || steps[k].opening == LoadPaste(d.core))
           && Names(states[k], d.core) == Some(states[n].claims[d.core])
           && (states[n].claims[d.core].expires.None?
               || states[k].now <= states[n].claims[d.core].expires.value)
  {
    RunInTime(states, steps, n);
    var core := states[n].served[i].core;
    var k :| 0 <= k < n && ReadsInTime(states[k], steps[k], core);
    var refs := RunKeeps(states, steps, k);
    RunSucceeds(states, steps, k, n);
  }

  // ---- The file is gone ----

  lemma RowStaysARow(states: seq<State>, steps: seq<Step>, l: nat, i: nat, core: Core)
    requires Run(states, steps) && l <= |steps| && i <= |steps|
    requires core in states[l].files && Names(states[i], core) == Names(states[l], core)
    ensures core in states[i].files
  {
    var refs := RunKeeps(states, steps, l);
    refs := RunKeeps(states, steps, i);
  }

  lemma StepKeepsKey(s: State, refs: map<Ref, Key>, step: Step, core: Core)
    requires Inv(s, refs) && Enabled(s, step) && core in s.files && core in Do(s, step).files
    ensures Do(s, step).files[core].key == s.files[core].key
  {
    if step.Moves? {
      var a := s.actors[step.pid];
      assert Remembers(s, a);
      MoveFiles(s, a, step.move);
    }
  }

  /** A row keeps its key, and a core that lost its row gets no other. */
  lemma {:induction false} RowKeepsKey(states: seq<State>, steps: seq<Step>, l: nat, i: nat, core: Core)
    requires Run(states, steps) && l <= i <= |steps|
    requires core in states[l].files && core in states[i].files
    ensures states[i].files[core].key == states[l].files[core].key
    decreases i
  {
    if l < i {
      CoreNamesOneContent(states, steps, core, l, i - 1, i);
      RowStaysARow(states, steps, l, i - 1, core);
      RowKeepsKey(states, steps, l, i - 1, core);
      var refs := RunKeeps(states, steps, i - 1);
      StepKeepsKey(states[i - 1], refs, steps[i - 1], core);
    }
  }

  /** A body that a paste's reader has comes from its row, not from a key. */
  predicate PasteKeyless(task: Task) {
    task.Deleting? && task.kind == Paste && task.goal.Burn? ==> task.goal.delivery.key.None?
  }

  lemma MoveKeyless(s: State, a: Actor, m: Move)
    requires PasteKeyless(a.task) && Can(s, a, m)
    ensures PasteKeyless(Next(s, a, m).task)
  {
  }

  lemma StepKeyless(s: State, step: Step, pid: Pid)
    requires Enabled(s, step) && pid in Do(s, step).actors
    requires pid in s.actors ==> PasteKeyless(s.actors[pid].task)
    ensures PasteKeyless(Do(s, step).actors[pid].task)
  {
    if step.Moves? && step.pid == pid {
      MoveKeyless(s, s.actors[pid], step.move);
    }
  }

  lemma {:induction false} PastesAreKeyless(states: seq<State>, steps: seq<Step>, n: nat, pid: Pid)
    requires Run(states, steps) && n <= |steps| && pid in states[n].actors
    ensures PasteKeyless(states[n].actors[pid].task)
  {
    if n > 0 {
      if pid in states[n - 1].actors {
        PastesAreKeyless(states, steps, n - 1, pid);
      }
      StepKeyless(states[n - 1], steps[n - 1], pid);
    }
  }

  /** The reader has taken the row, and is giving back its references. */
  predicate GivesBack(s: State, pid: Pid, d: Delivery) {
    pid in s.actors && s.actors[pid].task == Unwinding(Burn(d)) && d.key.Some?
  }

  lemma GivesBackMove(s: State, a: Actor, m: Move, d: Delivery)
    requires Can(s, a, m) && PasteKeyless(a.task) && Next(s, a, m).task == Unwinding(Burn(d)) && d.key.Some?
    ensures var a' := Next(s, a, m);
      || (a.task == a'.task && (a'.main == a.main || m == Removes(ReleaseMain)))
      || (a.task.Deleting? && a.task.kind == File && a.task.goal == Burn(d)
          && a.task.core in s.files && a'.main == Some(s.files[a.task.core].key))
  {
  }

  /** How a reader comes to that, and how it goes on. */
  lemma GivesBackStep(s: State, step: Step, pid: Pid, d: Delivery)
    requires Enabled(s, step) && GivesBack(Do(s, step), pid, d)
    requires pid in s.actors ==> PasteKeyless(s.actors[pid].task)
    ensures pid in s.actors
    ensures var a, a' := s.actors[pid], Do(s, step).actors[pid];
      || (a.task == a'.task && (a'.main == a.main || step == Moves(pid, Removes(ReleaseMain))))
      || (a.task.Deleting? && a.task.kind == File && a.task.goal == Burn(d)
          && a.task.core in s.files && a'.main == Some(s.files[a.task.core].key))
  {
    if step.Moves? && step.pid == pid {
      GivesBackMove(s, s.actors[pid], step.move, d);
    }
  }

  /** The handler gave a reference to this key back, before step `n`. */
  ghost predicate GaveBack(states: seq<State>, steps: seq<Step>, n: nat, pid: Pid, key: Key)
    requires n <= |steps| <= |states|
  {
    exists i | 0 <= i < n ::
      steps[i] == Moves(pid, Removes(ReleaseMain)) && pid in states[i].actors && states[i].actors[pid].main == Some(key)
  }

  /** The row a reader takes still has the key that its body was read from. */
  lemma TakesWhatItRead(states: seq<State>, steps: seq<Step>, n: nat, pid: Pid, core: Core, d: Delivery)
    requires Run(states, steps) && n <= |steps| && pid in states[n].actors && core in states[n].files
    requires states[n].actors[pid].task == Deleting(core, File, Burn(d)) && d.key.Some?
    ensures d.key == Some(states[n].files[core].key)
  {
    RunIsTraced(states, steps, n);
    assert TracedTask(states, n, states[n].actors[pid].task);
    var refs := RunKeeps(states, steps, n);
    assert Remembers(states[n], states[n].actors[pid]);
    var l :| 0 <= l <= n && d.core in states[l].files && states[l].files[d.core].key == d.key.value;
    RowKeepsKey(states, steps, l, n, core);
  }

  lemma {:induction false} HoldsOrGaveBack(states: seq<State>, steps: seq<Step>, n: nat, pid: Pid, d: Delivery)
    requires Run(states, steps) && n <= |steps| && GivesBack(states[n], pid, d)
    ensures states[n].actors[pid].main == d.key || GaveBack(states, steps, n, pid, d.key.value)
  {
    if n > 0 {
      var s, step := states[n - 1], steps[n - 1];
      if pid in s.actors {
        PastesAreKeyless(states, steps, n - 1, pid);
      }
      GivesBackStep(s, step, pid, d);
      if s.actors[pid].task.Deleting? {
        TakesWhatItRead(states, steps, n - 1, pid, s.actors[pid].task.core, d);
      } else {
        HoldsOrGaveBack(states, steps, n - 1, pid, d);
        if step == Moves(pid, Removes(ReleaseMain)) && s.actors[pid].main == d.key {
          assert GaveBack(states, steps, n, pid, d.key.value);
        }
      }
    }
  }

  // ---- Its bytes are gone ----

  /** Nothing is stored anew under a dead key. */
  lemma DeadStaysEmpty(states: seq<State>, steps: seq<Step>, n: nat, key: Key)
    requires Run(states, steps) && n < |steps| && Dead(states[n], key) && key !in states[n].bytes
    ensures key !in states[n + 1].bytes
  {
    StepBytes(states[n], steps[n], key);
    var refs := RunKeeps(states, steps, n);
    RunHolds(states, steps, n);
    if Stores(states[n], steps[n], key) {
      PutsIntoObject(states[n], refs, steps[n].pid, key);
    }
  }

  lemma {:induction false} DeadStaysEmptyForever(states: seq<State>, steps: seq<Step>, n: nat, j: nat, key: Key)
    requires Run(states, steps) && n <= j <= |steps| && Dead(states[n], key) && key !in states[n].bytes
    ensures key !in states[j].bytes
    decreases j
  {
    if n < j {
      DeadStaysEmptyForever(states, steps, n, j - 1, key);
      RunSucceeds(states, steps, n, j - 1);
      DeadStaysEmpty(states, steps, j - 1, key);
    }
  }

  /** The reader who gave back the last reference deletes the bytes before it goes on to anything else. */
  lemma DoomedStep(s: State, step: Step, pid: Pid, d: Delivery, key: Key)
    requires Enabled(s, step) && pid in s.actors && s.actors[pid].task == Unwinding(Burn(d))
    requires s.actors[pid].doomed == Some(key) && GivesBack(Do(s, step), pid, d)
    requires s.actors[pid].main.None?
    ensures Do(s, step).actors[pid].main.None?
    ensures Do(s, step).actors[pid].doomed == Some(key) || key !in Do(s, step).bytes
  {
  }

  lemma UnwindingStep(s: State, step: Step, pid: Pid)
    requires Enabled(s, step) && pid in s.actors && (s.actors[pid].task.Unwinding? || s.actors[pid].task == Finished)
    ensures pid in Do(s, step).actors
    ensures Do(s, step).actors[pid].task == s.actors[pid].task || Do(s, step).actors[pid].task == Finished
  {
  }

  /** A handler that gives back keeps its goal. */
  lemma {:induction false} UnwindsOn(states: seq<State>, steps: seq<Step>, i: nat, n: nat, pid: Pid)
    requires Run(states, steps) && i <= n <= |steps| && pid in states[i].actors && states[i].actors[pid].task.Unwinding?
    ensures pid in states[n].actors
    ensures states[n].actors[pid].task == states[i].actors[pid].task || states[n].actors[pid].task == Finished
    decreases n
  {
    if i < n {
      UnwindsOn(states, steps, i, n - 1, pid);
      UnwindingStep(states[n - 1], steps[n - 1], pid);
    }
  }

  /** A last release dooms the bytes. */
  lemma LastReleaseDooms(states: seq<State>, steps: seq<Step>, i: nat, pid: Pid, key: Key)
    requires Run(states, steps) && i < |steps| && key.FileKey? && steps[i] == Moves(pid, Removes(ReleaseMain))
    requires states[i].actors[pid].main == Some(key) && LastRelease(states[i].objects, key)
    ensures pid in states[i + 1].actors && Dead(states[i + 1], key)
    ensures states[i + 1].actors[pid].doomed == Some(key) && states[i + 1].actors[pid].main.None?
  {
    var refs := RunKeeps(states, steps, i + 1);
    assert Remembers(states[i + 1], states[i + 1].actors[pid]);
  }

  /** From a last release on: the bytes are doomed, or gone. */
  lemma {:induction false} LastReleaseDeletes(states: seq<State>, steps: seq<Step>, i: nat, n: nat, pid: Pid,
                                              d: Delivery, key: Key)
    requires Run(states, steps) && i < n <= |steps| && key.FileKey?
    requires GivesBack(states[i], pid, d) && steps[i] == Moves(pid, Removes(ReleaseMain))
    requires states[i].actors[pid].main == Some(key) && LastRelease(states[i].objects, key)
    requires GivesBack(states[n], pid, d)
    ensures Dead(states[n], key)
    ensures key !in states[n].bytes || (states[n].actors[pid].doomed == Some(key) && states[n].actors[pid].main.None?)
    decreases n
  {
    if n == i + 1 {
      LastReleaseDooms(states, steps, i, pid, key);
    } else {
      UnwindsOn(states, steps, i, n - 1, pid);
      UnwindingStep(states[n - 1], steps[n - 1], pid);
      LastReleaseDeletes(states, steps, i, n - 1, pid, d, key);
      RunSucceeds(states, steps, n - 1, n);
      if key !in states[n - 1].bytes {
        DeadStaysEmpty(states, steps, n - 1, key);
      } else {
        DoomedStep(states[n - 1], steps[n - 1], pid, d, key);
      }
    }
  }

  /** It was this reader's task already when it gave the reference back. */
  lemma GaveBackAsReader(states: seq<State>, steps: seq<Step>, i: nat, j: nat, pid: Pid, d: Delivery)
    requires Run(states, steps) && i < j <= |steps| && steps[i] == Moves(pid, Removes(ReleaseMain))
    requires GivesBack(states[j], pid, d)
    ensures GivesBack(states[i], pid, d)
  {
    UnwindsOn(states, steps, i, j, pid);
  }

  /**
   * A reader who is about to be served a burn file has given back the reference to the object it read, and if that was
   * the last one, the bytes are gone from then on: whatever runs later, nothing is ever stored there again.
   */
  lemma BurnedFilesAreGone(states: seq<State>, steps: seq<Step>, j: nat, n: nat, pid: Pid, d: Delivery)
    requires Run(states, steps) && j < n <= |steps| && steps[j] == Moves(pid, Removes(Finish))
    requires GivesBack(states[j], pid, d)
    ensures states[j + 1].served == states[j].served + [d]
    ensures exists i | 0 <= i < j ::
      && steps[i] == Moves(pid, Removes(ReleaseMain)) && pid in states[i].actors && states[i].actors[pid].main == d.key
      && (d.key.value.FileKey? && LastRelease(states[i].objects, d.key.value) ==> d.key.value !in states[n].bytes)
  {
    var key := d.key.value;
    HoldsOrGaveBack(states, steps, j, pid, d);
    var i :| 0 <= i < j && steps[i] == Moves(pid, Removes(ReleaseMain)) && pid in states[i].actors
      && states[i].actors[pid].main == Some(key);
    if key.FileKey? && LastRelease(states[i].objects, key) {
      GaveBackAsReader(states, steps, i, j, pid, d);
      LastReleaseDeletes(states, steps, i, j, pid, d, key);
      DeadStaysEmptyForever(states, steps, j, n, key);
    }
  }
}
