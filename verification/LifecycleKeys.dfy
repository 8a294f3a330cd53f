/** How often a key is issued over a run, and what that says of the bytes under it. */
module LifecycleKeys {
  import opened Ledger
  import opened Lifecycle
  import opened LifecycleEvolution
  import opened LifecycleInvariant
  import opened LifecycleLaws
  import opened LifecycleSteps
  import opened Wrappers

  // ---- Issuing ----

  /** The step after the `i`-th state creates an object under the key. */
  predicate IssuedAt(states: seq<State>, i: nat, key: Key) {
    i + 1 < |states| && key !in states[i].objects && key in states[i + 1].objects
  }

  ghost predicate WasIssued(states: seq<State>, i: nat, key: Key) {
    exists j: nat | j < i :: IssuedAt(states, j, key)
  }

  /** Up to the `i`-th state the key was issued once at most. */
  ghost predicate IssuedOnce(states: seq<State>, i: nat, key: Key) {
    forall j: nat, l: nat | j < l < i :: !IssuedAt(states, j, key) || !IssuedAt(states, l, key)
  }

  lemma {:induction false} PresentWasIssued(states: seq<State>, steps: seq<Step>, i: nat, key: Key)
    requires Run(states, steps) && i <= |steps| && key in states[i].objects
    ensures WasIssued(states, i, key)
  {
    if i > 0 {
      if key in states[i - 1].objects {
        PresentWasIssued(states, steps, i - 1, key);
      } else {
        assert IssuedAt(states, i - 1, key);
      }
    }
  }

  /** A key issued once is not created over an object that was there before. */
  lemma IssuedFirst(states: seq<State>, steps: seq<Step>, i: nat, j: nat, key: Key)
    requires Run(states, steps) && i < |steps| && IssuedOnce(states, i + 1, key) && IssuedAt(states, i, key)
    requires j <= i
    ensures key !in states[j].objects
  {
    if key in states[j].objects {
      PresentWasIssued(states, steps, j, key);
    }
  }

  lemma ObjectStep(s: State, refs: map<Ref, Key>, step: Step, key: Key)
    requires Inv(s, refs) && Enabled(s, step) && key in s.objects
    ensures key.FileKey? ==> key in Do(s, step).objects || Dead(Do(s, step), key)
    ensures key in Do(s, step).objects ==> Do(s, step).objects[key].content == s.objects[key].content
  {
    var refs' := StepKeeps(s, refs, step);
  }

  lemma {:induction false} LivesOrDead(states: seq<State>, steps: seq<Step>, j: nat, i: nat, key: Key)
    requires Run(states, steps) && j <= i <= |steps| && key.FileKey? && key in states[j].objects
    ensures key in states[i].objects || Dead(states[i], key)
    decreases i
  {
    if j < i {
      LivesOrDead(states, steps, j, i - 1, key);
      if Dead(states[i - 1], key) {
        RunSucceeds(states, steps, i - 1, i);
      } else {
        var refs := RunKeeps(states, steps, i - 1);
        ObjectStep(states[i - 1], refs, steps[i - 1], key);
      }
    }
  }

  /** In every run every files/ key is issued once at most; thumbnail keys need not be. */
  lemma FileKeysAreIssuedOnce(states: seq<State>, steps: seq<Step>, i: nat, key: Key)
    requires Run(states, steps) && i <= |steps| && key.FileKey?
    ensures IssuedOnce(states, i, key)
  {
    forall j: nat, l: nat | j < l < i && IssuedAt(states, j, key)
      ensures !IssuedAt(states, l, key)
    {
      LivesOrDead(states, steps, j + 1, l, key);
      if Dead(states[l], key) {
        RunSucceeds(states, steps, l, l + 1);
      }
    }
  }

  /** All objects that ever stand under a key issued once are one object, with one content. */
  lemma {:induction false} OneContent(states: seq<State>, steps: seq<Step>, j: nat, i: nat, key: Key)
    requires Run(states, steps) && j <= i <= |steps| && IssuedOnce(states, i, key)
    requires key in states[j].objects && key in states[i].objects
    ensures states[i].objects[key].content == states[j].objects[key].content
    decreases i
  {
    if j < i {
      if key in states[i - 1].objects {
        OneContent(states, steps, j, i - 1, key);
        var refs := RunKeeps(states, steps, i - 1);
        ObjectStep(states[i - 1], refs, steps[i - 1], key);
      } else {
        assert IssuedAt(states, i - 1, key);
        IssuedFirst(states, steps, i - 1, j, key);
      }
    }
  }

  // ---- Storing ----

  /** The handler is storing the bytes of the object it created under the key. */
  predicate Puts(a: Actor, key: Key) {
    (a.task.Putting? && a.main == Some(key)) || (a.task.ThumbPutting? && a.thumb == Some(key))
  }

  function Payload(task: Task): Digest
    requires task.Putting? || task.ThumbPutting?
  {
    if task.Putting? then task.item.content else task.jpeg
  }

  /** Its PUT stores them; one that fails may still have. */
  predicate Stores(s: State, step: Step, key: Key) {
    && step.Moves? && step.pid in s.actors && Puts(s.actors[step.pid], key)
    && step.move in {Uploads(PutMain), Uploads(PutMainFails(true)), Thumbs(PutThumb), Thumbs(PutThumbFails(true))}
  }

  /** Some step before the `i`-th state stored the bytes. */
  ghost predicate WasStored(states: seq<State>, steps: seq<Step>, i: nat, key: Key)
    requires |states| == |steps| + 1 && i <= |steps|
  {
    exists j {:trigger steps[j]} | 0 <= j < i :: Stores(states[j], steps[j], key)
  }

  /** A handler that stores a thumbnail holds the object of these bytes. */
  ghost predicate ThumbsHeld(s: State) {
    forall p | p in s.actors && s.actors[p].task.ThumbPutting? ::
      Holds(s.objects, ThumbKey(s.actors[p].task.core), s.actors[p].task.jpeg)
  }

  lemma HeldStays(s: State, s': State, refs': map<Ref, Key>, p: Pid)
    requires Evolves(s, s') && Inv(s', refs') && ThumbsHeld(s)
    requires p in s.actors && p in s'.actors && s'.actors[p].task == s.actors[p].task && s.actors[p].task.ThumbPutting?
    ensures Holds(s'.objects, ThumbKey(s'.actors[p].task.core), s'.actors[p].task.jpeg)
  {
    assert SlotsFit(s'.actors[p]);
    assert Lookup(refs', ThumbHold(p)) == KeyOf(s'.files, s'.actors, ThumbHold(p));
    assert refs'[ThumbHold(p)] in s'.objects;
  }

  lemma HeldBegins(s: State, a: Actor, m: Move)
    requires Can(s, a, m) && Next(s, a, m).task.ThumbPutting? && Next(s, a, m).task != a.task
    ensures Holds(NextObjects(s, a, m), ThumbKey(Next(s, a, m).task.core), Next(s, a, m).task.jpeg)
  {
  }

  lemma HeldBegan(s: State, step: Step, p: Pid)
    requires Enabled(s, step) && p in Do(s, step).actors && Do(s, step).actors[p].task.ThumbPutting?
    requires !(p in s.actors && Do(s, step).actors[p].task == s.actors[p].task)
    ensures Holds(Do(s, step).objects, ThumbKey(Do(s, step).actors[p].task.core), Do(s, step).actors[p].task.jpeg)
  {
    if step.Moves? && step.pid == p {
      HeldBegins(s, s.actors[p], step.move);
    }
  }

  lemma StepKeepsHeld(s: State, refs: map<Ref, Key>, step: Step)
    requires Inv(s, refs) && ThumbsHeld(s) && Enabled(s, step)
    ensures ThumbsHeld(Do(s, step))
  {
    var s' := Do(s, step);
    var refs' := StepKeeps(s, refs, step);
    forall p | p in s'.actors && s'.actors[p].task.ThumbPutting?
      ensures Holds(s'.objects, ThumbKey(s'.actors[p].task.core), s'.actors[p].task.jpeg)
    {
      if p in s.actors && s'.actors[p].task == s.actors[p].task {
        HeldStays(s, s', refs', p);
      } else {
        HeldBegan(s, step, p);
      }
    }
  }

  lemma {:induction false} RunHolds(states: seq<State>, steps: seq<Step>, i: nat)
    requires Run(states, steps) && i <= |steps|
    ensures ThumbsHeld(states[i])
  {
    if i > 0 {
      RunHolds(states, steps, i - 1);
      var refs := RunKeeps(states, steps, i - 1);
      StepKeepsHeld(states[i - 1], refs, steps[i - 1]);
    }
  }

  /** What a handler is storing is the content of an object that is there. */
  lemma PutsIntoObject(s: State, refs: map<Ref, Key>, p: Pid, key: Key)
    requires Inv(s, refs) && ThumbsHeld(s) && p in s.actors && Puts(s.actors[p], key)
    ensures Holds(s.objects, key, Payload(s.actors[p].task))
  {
    assert SlotsFit(s.actors[p]) && Remembers(s, s.actors[p]);
  }

  /** How a step changes the bytes under a key. */
  lemma StepBytes(s: State, step: Step, key: Key)
    requires Enabled(s, step)
    ensures key in Do(s, step).bytes ==>
      || (key in s.bytes && Do(s, step).bytes[key] == s.bytes[key])
      || (Stores(s, step, key) && Do(s, step).bytes[key] == Payload(s.actors[step.pid].task))
    ensures Stores(s, step, key) ==> key in Do(s, step).bytes
    ensures key in s.bytes && key !in Do(s, step).bytes ==>
      step.Moves? && s.actors[step.pid].doomed == Some(key)
  {
  }

  /** Bytes were put there for an object. */
  lemma {:induction false} BytesHadObject(states: seq<State>, steps: seq<Step>, i: nat, key: Key) returns (j: nat)
    requires Run(states, steps) && i <= |steps| && key in states[i].bytes
    ensures j <= i && Holds(states[j].objects, key, states[i].bytes[key])
  {
    j := 0;
    if i > 0 {
      var s, step := states[i - 1], steps[i - 1];
      StepBytes(s, step, key);
      if key in s.bytes && s.bytes[key] == states[i].bytes[key] {
        j := BytesHadObject(states, steps, i - 1, key);
      } else {
        var refs := RunKeeps(states, steps, i - 1);
        RunHolds(states, steps, i - 1);
        PutsIntoObject(s, refs, step.pid, key);
        j := i - 1;
      }
    }
  }

  /** Under a key issued once there is never anything but the content of its object. */
  lemma OnceBytes(states: seq<State>, steps: seq<Step>, i: nat, j: nat, n: nat, key: Key)
    requires Run(states, steps) && i <= n && j <= n <= |steps| && IssuedOnce(states, n, key)
    requires key in states[i].bytes && key in states[j].objects
    ensures states[i].bytes[key] == states[j].objects[key].content
  {
    var l := BytesHadObject(states, steps, i, key);
    if l <= j {
      OneContent(states, steps, l, j, key);
    } else {
      OneContent(states, steps, j, l, key);
    }
  }

  // ---- When the bytes are there ----

  ghost predicate Undoomed(s: State, key: Key) {
    forall p | p in s.actors :: s.actors[p].doomed != Some(key)
  }

  /** An object that stays, or a key nobody used, dooms nothing. */
  lemma StepUndoomed(s: State, refs: map<Ref, Key>, step: Step, key: Key)
    requires Inv(s, refs) && Enabled(s, step) && Undoomed(s, key) && key.ThumbKey?
    requires key in s.objects ==> key in Do(s, step).objects
    ensures Undoomed(Do(s, step), key)
  {
    if step.Moves? {
      MoveDoom(s, s.actors[step.pid], step.move);
      assert Remembers(s, s.actors[step.pid]);
    }
  }

  lemma {:induction false} OnceUndoomed(states: seq<State>, steps: seq<Step>, i: nat, key: Key)
    requires Run(states, steps) && i <= |steps| && IssuedOnce(states, i, key) && key.ThumbKey?
    requires key in states[i].objects || !WasIssued(states, i, key)
    ensures Undoomed(states[i], key)
  {
    if i > 0 {
      var refs := RunKeeps(states, steps, i - 1);
      if key in states[i - 1].objects {
        PresentWasIssued(states, steps, i - 1, key);
      } else {
        assert key in states[i].objects ==> IssuedAt(states, i - 1, key);
      }
      OnceUndoomed(states, steps, i - 1, key);
      StepUndoomed(states[i - 1], refs, steps[i - 1], key);
    }
  }

  /** No handler is about to delete the bytes of an object whose key is issued once. */
  lemma ObjectUndoomed(states: seq<State>, steps: seq<Step>, i: nat, key: Key)
    requires Run(states, steps) && i <= |steps| && IssuedOnce(states, i, key) && key in states[i].objects
    ensures Undoomed(states[i], key)
  {
    if key.ThumbKey? {
      OnceUndoomed(states, steps, i, key);
    } else {
      var refs := RunKeeps(states, steps, i);
      forall p | p in states[i].actors
        ensures states[i].actors[p].doomed != Some(key)
      {
        assert Remembers(states[i], states[i].actors[p]);
      }
    }
  }

  /** A step that creates an object stores nothing. */
  lemma CreatesWithoutBytes(s: State, step: Step, key: Key)
    requires Enabled(s, step) && key !in s.objects && key in Do(s, step).objects
    ensures Do(s, step).bytes == s.bytes && step.Moves? && Puts(Do(s, step).actors[step.pid], key)
  {
  }

  /** A key issued once has no bytes before its object. */
  lemma NewHasNoBytes(states: seq<State>, steps: seq<Step>, i: nat, key: Key)
    requires Run(states, steps) && i < |steps| && IssuedOnce(states, i + 1, key) && IssuedAt(states, i, key)
    ensures key !in states[i + 1].bytes && !WasStored(states, steps, i + 1, key)
  {
    CreatesWithoutBytes(states[i], steps[i], key);
    if key in states[i].bytes {
      var j := BytesHadObject(states, steps, i, key);
      IssuedFirst(states, steps, i, j, key);
    }
    if WasStored(states, steps, i + 1, key) {
      var j :| 0 <= j < i + 1 && Stores(states[j], steps[j], key);
      var refs := RunKeeps(states, steps, j);
      RunHolds(states, steps, j);
      PutsIntoObject(states[j], refs, steps[j].pid, key);
      IssuedFirst(states, steps, i, j, key);
    }
  }

  /**
   * In every run, the object of a key issued once has its bytes exactly when the handler that created it has stored
   * them, whatever else fails or stops.
   */
  lemma {:induction false} BytesIffStored(states: seq<State>, steps: seq<Step>, i: nat, key: Key)
    requires Run(states, steps) && i <= |steps| && IssuedOnce(states, i, key) && key in states[i].objects
    ensures key in states[i].bytes <==> WasStored(states, steps, i, key)
  {
    if i > 0 {
      if key in states[i - 1].objects {
        BytesIffStored(states, steps, i - 1, key);
        ObjectUndoomed(states, steps, i - 1, key);
        StepBytes(states[i - 1], steps[i - 1], key);
      } else {
        assert IssuedAt(states, i - 1, key);
        NewHasNoBytes(states, steps, i - 1, key);
      }
    }
  }

  // ---- Who is storing ----

  lemma PutsMove(s: State, a: Actor, m: Move, key: Key)
    requires Can(s, a, m) && Puts(Next(s, a, m), key) && !Puts(a, key)
    ensures key !in s.objects && key in NextObjects(s, a, m)
  {
  }

  lemma PutsBegins(s: State, step: Step, p: Pid, key: Key)
    requires Enabled(s, step) && p in Do(s, step).actors && Puts(Do(s, step).actors[p], key)
    requires !(p in s.actors && Puts(s.actors[p], key))
    ensures step.Moves? && step.pid == p && key !in s.objects && key in Do(s, step).objects
  {
    if step.Moves? && step.pid == p {
      PutsMove(s, s.actors[p], step.move, key);
    }
  }

  /** A handler that is storing created the object, and has been storing since. */
  lemma {:induction false} PutterCreated(states: seq<State>, steps: seq<Step>, i: nat, p: Pid, key: Key)
    returns (c: nat)
    requires Run(states, steps) && i <= |steps| && p in states[i].actors && Puts(states[i].actors[p], key)
    ensures c < i && IssuedAt(states, c, key) && steps[c].Moves? && steps[c].pid == p
    ensures forall m | c < m <= i :: p in states[m].actors && Puts(states[m].actors[p], key)
  {
    c := 0;
    if i > 0 {
      var s := states[i - 1];
      if p in s.actors && Puts(s.actors[p], key) {
        c := PutterCreated(states, steps, i - 1, p, key);
      } else {
        PutsBegins(s, steps[i - 1], p, key);
        c := i - 1;
        assert IssuedAt(states, c, key);
      }
    }
  }

  /** A key issued once is stored by one handler. */
  lemma OnePutter(states: seq<State>, steps: seq<Step>, j: nat, i: nat, p: Pid, key: Key)
    requires Run(states, steps) && j < i <= |steps| && IssuedOnce(states, i, key)
    requires p in states[i].actors && Puts(states[i].actors[p], key)
    requires steps[j].Moves? && steps[j].pid in states[j].actors && Puts(states[j].actors[steps[j].pid], key)
    ensures p == steps[j].pid && p in states[j + 1].actors && Puts(states[j + 1].actors[p], key)
  {
    var c := PutterCreated(states, steps, i, p, key);
    var d := PutterCreated(states, steps, j, steps[j].pid, key);
    assert c == d by {
      assert d < c ==> !IssuedAt(states, d, key) || !IssuedAt(states, c, key);
      assert c < d ==> !IssuedAt(states, c, key) || !IssuedAt(states, d, key);
    }
  }

  lemma StoringEnds(s: State, step: Step, key: Key)
    requires Enabled(s, step) && Stores(s, step, key)
    ensures !Puts(Do(s, step).actors[step.pid], key)
  {
  }

  /** While a handler is still storing the object of a key issued once, nobody has stored it. */
  lemma PutterIsFirst(states: seq<State>, steps: seq<Step>, i: nat, p: Pid, key: Key)
    requires Run(states, steps) && i <= |steps| && IssuedOnce(states, i, key)
    requires p in states[i].actors && Puts(states[i].actors[p], key)
    ensures !WasStored(states, steps, i, key)
  {
    if WasStored(states, steps, i, key) {
      var j :| 0 <= j < i && Stores(states[j], steps[j], key);
      OnePutter(states, steps, j, i, p, key);
      StoringEnds(states[j], steps[j], key);
      assert false;
    }
  }
}
