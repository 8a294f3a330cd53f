/** What the tests give that handlers make before they act: a content is stored once, a burn file has no thumbnail. */
module LifecycleGuards {
  import opened Ledger
  import opened Lifecycle
  import opened LifecycleInvariant
  import opened LifecycleLaws
  import opened Wrappers

  // ---- Contents are stored once ----

  predicate OneEach(objects: Objects) {
    forall k, l | k in objects && l in objects && objects[k].content == objects[l].content :: k == l
  }

  lemma StepKeepsOneEach(s: State, step: Step)
    requires OneEach(s.objects) && Enabled(s, step)
    ensures OneEach(Do(s, step).objects)
  {
    if step.Moves? {
      assert Do(s, step).objects == NextObjects(s, s.actors[step.pid], step.move);
    }
  }

  lemma {:induction false} RunOneEach(states: seq<State>, steps: seq<Step>, i: nat)
    requires Run(states, steps) && i <= |steps|
    ensures OneEach(states[i].objects)
  {
    if i > 0 {
      RunOneEach(states, steps, i - 1);
      StepKeepsOneEach(states[i - 1], steps[i - 1]);
    }
  }

  /** In every state of every run a content has one object at most, however many uploads of it race. */
  lemma ContentStoredOnce(states: seq<State>, steps: seq<Step>, i: nat, k: Key, l: Key)
    requires Run(states, steps) && i <= |steps|
    requires k in states[i].objects && l in states[i].objects
    requires states[i].objects[k].content == states[i].objects[l].content
    ensures k == l
  {
    RunOneEach(states, steps, i);
  }

  // ---- Burn files have no thumbnail ----

  /** A handler that has a thumbnail in hand for a core, or makes one, does so for no burn file. */
  predicate PicturesNoBurn(claims: map<Core, Item>, a: Actor) {
    match a.task
    case Ready(_, item) => a.thumb.Some? ==> !item.burn
    case ThumbPutting(core, _, upload) =>
      if upload.Some? then !upload.value.burn else core in claims && !claims[core].burn
    case Backfilling(core) => core in claims && !claims[core].burn
    case Linking(core) => core in claims && !claims[core].burn
    case _ => true
  }

  predicate NoBurnPictured(s: State) {
    && (forall c | c in s.files && s.files[c].item.burn :: s.files[c].thumb.None?)
    && (forall p | p in s.actors :: PicturesNoBurn(s.claims, s.actors[p]))
  }

  lemma MovePicturesNoBurn(s: State, a: Actor, m: Move)
    requires SlotsFit(a) && PicturesNoBurn(s.claims, a) && Can(s, a, m)
    ensures PicturesNoBurn(s.claims, Next(s, a, m))
  {
  }

  lemma MoveLeavesBurnsUnpictured(s: State, a: Actor, m: Move)
    requires Rows(s) && PicturesNoBurn(s.claims, a) && Can(s, a, m)
    requires forall c | c in s.files && s.files[c].item.burn :: s.files[c].thumb.None?
    ensures forall c | c in NextFiles(s, a, m) && NextFiles(s, a, m)[c].item.burn :: NextFiles(s, a, m)[c].thumb.None?
  {
  }

  lemma OpenPicturesNoBurn(s: State, pid: Pid, o: Opening)
    requires Rows(s) && NoBurnPictured(s) && Enabled(s, Opens(pid, o))
    ensures NoBurnPictured(Do(s, Opens(pid, o)))
  {
  }

  lemma DropPicturesNoBurn(s: State, pid: Pid, heir: Pid)
    requires NoBurnPictured(s) && Enabled(s, Drops(pid, heir))
    ensures NoBurnPictured(Do(s, Drops(pid, heir)))
  {
  }

  lemma StepPicturesNoBurn(s: State, step: Step)
    requires Rows(s) && NoBurnPictured(s) && Enabled(s, step)
    requires forall p | p in s.actors :: SlotsFit(s.actors[p])
    ensures NoBurnPictured(Do(s, step))
  {
    match step
    case Opens(pid, o) => OpenPicturesNoBurn(s, pid, o);
    case Drops(pid, heir) => DropPicturesNoBurn(s, pid, heir);
    case Tick =>
    case Moves(pid, m) =>
      var a := s.actors[pid];
      MovePicturesNoBurn(s, a, m);
      MoveLeavesBurnsUnpictured(s, a, m);
  }

  lemma {:induction false} RunPicturesNoBurn(states: seq<State>, steps: seq<Step>, i: nat)
    requires Run(states, steps) && i <= |steps|
    ensures NoBurnPictured(states[i])
  {
    if i > 0 {
      RunPicturesNoBurn(states, steps, i - 1);
      var refs := RunKeeps(states, steps, i - 1);
      StepPicturesNoBurn(states[i - 1], steps[i - 1]);
    }
  }

  /** No run shows anyone a frame of a burn file, by its upload or by a backfill. */
  lemma BurnFilesHaveNoThumbnail(states: seq<State>, steps: seq<Step>, i: nat, core: Core)
    requires Run(states, steps) && i <= |steps|
    requires core in states[i].files && states[i].files[core].item.burn
    ensures states[i].files[core].thumb.None?
  {
    RunPicturesNoBurn(states, steps, i);
  }

  // ---- Deadlines pass ----

  /** The row is overdue, so a sweep may take it. */
  lemma {:induction false} DeadlinesPass(s: State, core: Core, deadline: nat) returns (states: seq<State>)
    requires core in s.files && s.files[core].item.expires == Some(deadline)
    ensures states != [] && states[0] == s && CanOpen(states[|states| - 1], StartSweep(core, File))
    ensures forall i | 0 <= i < |states| - 1 :: states[i + 1] == Do(states[i], Tick)
    decreases deadline + 1 - s.now
  {
    if deadline < s.now {
      states := [s];
    } else {
      var later := DeadlinesPass(Do(s, Tick), core, deadline);
      states := [s] + later;
    }
  }
}
