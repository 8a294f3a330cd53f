/** Every step keeps the invariant. */
module LifecycleSteps {
  import opened Ledger
  import opened Lifecycle
  import opened LifecycleConservation
  import opened LifecycleEvolution
  import opened LifecycleInvariant
  import opened Wrappers

  /** Facts about a moving handler that the effect of its move is judged by. */
  ghost predicate Mover(s: State, pid: Pid) {
    pid in s.actors && SlotsFit(s.actors[pid]) && Remembers(s, s.actors[pid])
  }

  lemma RowsStillHold(s: State, s': State, pid: Pid, a': Actor, refs': map<Ref, Key>)
    requires Rows(s) && Effect(s, s', pid, a') && Conserved(s', refs') && KnowsOwned(s, s.actors[pid])
    ensures forall c | c in s'.files :: Holds(s'.objects, s'.files[c].key, s'.files[c].item.content)
  {
    forall c | c in s'.files
      ensures Holds(s'.objects, s'.files[c].key, s'.files[c].item.content)
    {
      assert Lookup(refs', RowMain(c)) == KeyOf(s'.files, s'.actors, RowMain(c));
      assert refs'[RowMain(c)] in s'.objects;
      if c in s.files {
        assert Holds(s.objects, s.files[c].key, s.files[c].item.content);
      }
    }
  }

  lemma RowsKept(s: State, s': State, pid: Pid, a': Actor, refs': map<Ref, Key>)
    requires Rows(s) && Effect(s, s', pid, a') && Conserved(s', refs') && KnowsOwned(s, s.actors[pid])
    ensures Rows(s')
  {
    RowsStillHold(s, s', pid, a', refs');
  }

  lemma ContentsKept(s: State, s': State, pid: Pid, a': Actor)
    requires Contents(s) && Effect(s, s', pid, a') && Evolves(s, s') && Mover(s, pid)
    requires forall p | p in s.actors && Owned(s.actors[p].task).Some?
               && Owned(s.actors[p].task) == Owned(s.actors[pid].task) :: p == pid
    ensures Contents(s')
  {
  }

  /** What a handler remembers survives the steps of the others. */
  lemma OthersRemember(s: State, s': State, pid: Pid, a': Actor, refs': map<Ref, Key>, q: Pid)
    requires Effect(s, s', pid, a') && Evolves(s, s') && Conserved(s', refs') && SoleOwners(s)
    requires q in s.actors && q != pid && Remembers(s, s.actors[q])
    ensures Remembers(s', s.actors[q])
  {
    assert Lookup(refs', MainHold(q)) == KeyOf(s'.files, s'.actors, MainHold(q));
    assert s.actors[q].main.Some? ==> refs'[MainHold(q)] in s'.objects;
  }

  // ---- What the moving handler remembers ----

  lemma MoverKnowsOwned(s: State, pid: Pid, m: Move, refs': map<Ref, Key>)
    requires Mover(s, pid) && Can(s, s.actors[pid], m)
    requires Effect(s, Do(s, Moves(pid, m)), pid, Next(s, s.actors[pid], m)) && Conserved(Do(s, Moves(pid, m)), refs')
    ensures KnowsOwned(Do(s, Moves(pid, m)), Next(s, s.actors[pid], m))
  {
    var a, a', s' := s.actors[pid], Next(s, s.actors[pid], m), Do(s, Moves(pid, m));
    assert Lookup(refs', MainHold(pid)) == KeyOf(s'.files, s'.actors, MainHold(pid));
    assert a'.main.Some? ==> refs'[MainHold(pid)] in s'.objects;
  }

  lemma MoverKnowsDoom(s: State, s': State, pid: Pid, a': Actor)
    requires Contents(s) && Mover(s, pid) && Effect(s, s', pid, a') && Evolves(s, s')
    ensures a'.doomed.Some? && a'.doomed.value.FileKey? ==> Dead(s', a'.doomed.value)
  {
  }

  /** A core whose row just went is spent: nobody owns it, and it has no row in the other table. */
  lemma RemovedIsSpent(s: State, s': State, pid: Pid, a': Actor, core: Core)
    requires Rows(s) && Effect(s, s', pid, a')
    requires forall p | p in s.actors :: KnowsOwned(s, s.actors[p])
    requires (core in s.files && core !in s'.files) || (core in s.pastes && core !in s'.pastes)
    ensures Spent(s', core)
  {
    assert Owned(a'.task) != Some(core) by {
      assert KnowsOwned(s, s.actors[pid]);
    }
  }

  lemma TaskStays(s: State, s': State, task: Task)
    requires KnowsTask(s, task) && Evolves(s, s')
    ensures KnowsTask(s', task)
  {
  }

  lemma CollectKnowsTask(s: State, s': State, a: Actor)
    requires Contents(s) && KnowsTask(s, a.task) && CanRemove(s, a, Collect) && s'.claims == s.claims
    ensures KnowsTask(s', AfterRemoval(s, a, Collect).task)
  {
  }

  lemma RemovalKnowsTask(s: State, s': State, pid: Pid, m: RemovalMove)
    requires Rows(s) && Contents(s) && Mover(s, pid) && Can(s, s.actors[pid], Removes(m))
    requires s' == Do(s, Moves(pid, Removes(m))) && Effect(s, s', pid, s'.actors[pid]) && Evolves(s, s')
    requires forall p | p in s.actors :: KnowsOwned(s, s.actors[p])
    ensures KnowsTask(s', AfterRemoval(s, s.actors[pid], m).task)
  {
    var a := s.actors[pid];
    if m.Collect? {
      CollectKnowsTask(s, s', a);
    } else if (m.RemoveFile? && a.task.core in s.files) || (m.RemovePaste? && a.task.core in s.pastes) {
      RemovedIsSpent(s, s', pid, s'.actors[pid], a.task.core);
    } else if AfterRemoval(s, a, m).task == a.task {
      TaskStays(s, s', a.task);
    }
  }

  lemma CollectionKnowsTask(s: State, s': State, a: Actor, m: GcMove, refs: map<Ref, Key>)
    requires Contents(s) && KnowsTask(s, a.task) && Balanced(s.objects, refs) && CanCollect(s, a, m)
    requires Evolves(s, s')
    ensures KnowsTask(s', AfterCollection(s, a, m).task)
  {
  }

  lemma SlotsKept(s: State, a: Actor, m: Move)
    requires Can(s, a, m) && SlotsFit(a)
    ensures SlotsFit(Next(s, a, m))
  {
  }

  // ---- One read ----

  /** A handler begins to serve a core only by removing its row, so nobody begins to serve a spent one. */
  lemma SpentStaysUnserved(s: State, s': State, pid: Pid, a': Actor, core: Core)
    requires pid in s.actors && ServedEffect(s, s', s.actors[pid], a') && KnowsTask(s, s.actors[pid].task)
    requires Spent(s, core) && !Serving(s.actors[pid], core)
    ensures !Serving(a', core)
  {
  }

  lemma SoleServersKept(s: State, s': State, pid: Pid, a': Actor)
    requires SoleServers(s) && Effect(s, s', pid, a')
    requires forall p | p in s.actors :: KnowsTask(s, s.actors[p].task)
    ensures SoleServers(s')
  {
    forall q, c | q in s.actors && q != pid && Serving(s.actors[q], c)
      ensures !Serving(a', c)
    {
      assert KnowsTask(s, s.actors[q].task);
      SpentStaysUnserved(s, s', pid, a', c);
    }
  }

  lemma StaysSettled(s: State, s': State, pid: Pid, a': Actor, d: Delivery)
    requires Settled(s, d) && Effect(s, s', pid, a') && Evolves(s, s') && KnowsTask(s, s.actors[pid].task)
    ensures Settled(s', d)
  {
    SpentStaysUnserved(s, s', pid, a', d.core);
  }

  lemma BecomesSettled(s: State, s': State, pid: Pid, a': Actor)
    requires SoleServers(s) && Effect(s, s', pid, a') && Evolves(s, s') && KnowsTask(s, s.actors[pid].task)
    requires s'.served != s.served
    ensures s.actors[pid].task.Unwinding? && s.actors[pid].task.goal.Burn?
    ensures var d := s.actors[pid].task.goal.delivery;
      Serving(s.actors[pid], d.core) && s'.served == s.served + [d] && Settled(s', d)
  {
  }

  lemma BurnsKept(s: State, s': State, pid: Pid, a': Actor)
    requires Burns(s) && Effect(s, s', pid, a') && Evolves(s, s')
    requires forall p | p in s.actors :: KnowsTask(s, s.actors[p].task)
    ensures Burns(s')
  {
    SoleServersKept(s, s', pid, a');
    forall i | 0 <= i < |s.served|
      ensures Settled(s', s.served[i])
    {
      StaysSettled(s, s', pid, a', s.served[i]);
    }
    if s'.served != s.served {
      BecomesSettled(s, s', pid, a');
    }
  }

  // ---- All of it ----

  lemma SoleOwnersKept(s: State, s': State, pid: Pid, a': Actor)
    requires SoleOwners(s) && Effect(s, s', pid, a')
    ensures SoleOwners(s')
  {
  }

  lemma UploaderKnowsTask(s: State, s': State, a: Actor, m: Move)
    requires Can(s, a, m) && (m.Uploads? || m.Thumbs?)
    ensures KnowsTask(s', Next(s, a, m).task)
  {
  }

  lemma MoverKnowsTask(s: State, s': State, pid: Pid, m: Move, refs: map<Ref, Key>)
    requires Rows(s) && Contents(s) && Mover(s, pid) && Balanced(s.objects, refs) && Can(s, s.actors[pid], m)
    requires s' == Do(s, Moves(pid, m)) && Effect(s, s', pid, s'.actors[pid]) && Evolves(s, s')
    requires forall p | p in s.actors :: KnowsOwned(s, s.actors[p])
    ensures KnowsTask(s', Next(s, s.actors[pid], m).task)
  {
    match m
    case Removes(r) => RemovalKnowsTask(s, s', pid, r);
    case Collects(g) => CollectionKnowsTask(s, s', s.actors[pid], g, refs);
    case _ => UploaderKnowsTask(s, s', s.actors[pid], m);
  }

  lemma HandlersKept(s: State, refs: map<Ref, Key>, s': State, refs': map<Ref, Key>, pid: Pid, m: Move)
    requires Inv(s, refs) && Enabled(s, Moves(pid, m)) && s' == Do(s, Moves(pid, m)) && Conserved(s', refs')
    requires Effect(s, s', pid, s'.actors[pid]) && Evolves(s, s')
    ensures Handlers(s')
  {
    SoleOwnersKept(s, s', pid, s'.actors[pid]);
    SlotsKept(s, s.actors[pid], m);
    MoverKnowsOwned(s, pid, m, refs');
    MoverKnowsDoom(s, s', pid, s'.actors[pid]);
    MoverKnowsTask(s, s', pid, m, refs);
    forall q | q in s.actors && q != pid
      ensures Remembers(s', s.actors[q])
    {
      OthersRemember(s, s', pid, s'.actors[pid], refs', q);
    }
  }

  lemma MoveKeeps(s: State, refs: map<Ref, Key>, pid: Pid, m: Move)
    requires Inv(s, refs) && Enabled(s, Moves(pid, m))
    ensures Evolves(s, Do(s, Moves(pid, m)))
    ensures Inv(Do(s, Moves(pid, m)), RefsAfter(s, refs, pid, s.actors[pid], m))
  {
    var s', refs' := Do(s, Moves(pid, m)), RefsAfter(s, refs, pid, s.actors[pid], m);
    MoveEffect(s, pid, m);
    EffectEvolves(s, s', pid, s'.actors[pid]);
    MoveConserves(s, refs, pid, m);
    HandlersKept(s, refs, s', refs', pid, m);
    RowsKept(s, s', pid, s'.actors[pid], refs');
    ContentsKept(s, s', pid, s'.actors[pid]);
    BurnsKept(s, s', pid, s'.actors[pid]);
  }

  lemma OpenerKnowsTask(s: State, s': State, o: Opening)
    requires Rows(s) && Contents(s) && CanOpen(s, o)
    requires forall c | c in s.claims :: c in s'.claims && s'.claims[c] == s.claims[c]
    requires s'.now == s.now
    ensures KnowsTask(s', OpenTask(s, o))
  {
  }

  /** While the tables rest, what a handler remembers stays true. */
  lemma RemembersAtRest(s: State, s': State, a: Actor)
    requires Remembers(s, a) && Evolves(s, s')
    requires s'.objects == s.objects && s'.files == s.files && s'.pastes == s.pastes
    ensures Remembers(s', a)
  {
    TaskStays(s, s', a.task);
  }

  /** A core just claimed had no owner and no row. */
  lemma ClaimsFresh(s: State, o: Opening)
    requires Rows(s) && CanOpen(s, o) && forall p | p in s.actors :: KnowsOwned(s, s.actors[p])
    ensures Owned(OpenTask(s, o)).Some? ==>
      && o.core !in s.files && o.core !in s.pastes
      && forall p | p in s.actors :: Owned(s.actors[p].task) != Owned(OpenTask(s, o))
  {
  }

  lemma OpenKeepsHandlers(s: State, s': State, pid: Pid, o: Opening)
    requires Handlers(s) && pid !in s.actors && CanOpen(s, o)
    requires s' == Do(s, Opens(pid, o)) && Evolves(s, s')
    requires Owned(OpenTask(s, o)).Some? ==>
      && o.core !in s.files && o.core !in s.pastes
      && forall p | p in s.actors :: Owned(s.actors[p].task) != Owned(OpenTask(s, o))
    requires KnowsTask(s', OpenTask(s, o))
    ensures Handlers(s')
  {
    forall q | q in s.actors
      ensures Remembers(s', s.actors[q])
    {
      RemembersAtRest(s, s', s.actors[q]);
    }
    assert Remembers(s', Fresh(OpenTask(s, o)));
  }

  lemma OpenKeepsStore(s: State, s': State, pid: Pid, o: Opening)
    requires Rows(s) && Contents(s) && pid !in s.actors && CanOpen(s, o)
    requires s' == Do(s, Opens(pid, o)) && Evolves(s, s')
    ensures Rows(s') && Contents(s')
  {
  }

  lemma OpenKeepsBurns(s: State, s': State, pid: Pid, o: Opening)
    requires Burns(s) && pid !in s.actors && CanOpen(s, o)
    requires s' == Do(s, Opens(pid, o)) && Evolves(s, s')
    ensures Burns(s')
  {
  }

  lemma OpenKeeps(s: State, refs: map<Ref, Key>, pid: Pid, o: Opening)
    requires Inv(s, refs) && Enabled(s, Opens(pid, o))
    ensures Evolves(s, Do(s, Opens(pid, o)))
    ensures Inv(Do(s, Opens(pid, o)), refs)
  {
    var s' := Do(s, Opens(pid, o));
    OpenEvolves(s, pid, o);
    OpenConserves(s, refs, pid, o);
    OpenerKnowsTask(s, s', o);
    ClaimsFresh(s, o);
    OpenKeepsHandlers(s, s', pid, o);
    OpenKeepsStore(s, s', pid, o);
    OpenKeepsBurns(s, s', pid, o);
  }

  /** A failed release leaves the tables at rest, and every handler at its task. */
  lemma DropKeepsTables(s: State, pid: Pid, heir: Pid)
    requires Rows(s) && Contents(s) && Burns(s) && Enabled(s, Drops(pid, heir))
    ensures var s' := Do(s, Drops(pid, heir)); Evolves(s, s') && Rows(s') && Contents(s') && Burns(s')
  {
  }

  lemma DropperRemembers(s: State, a: Actor)
    requires SlotsFit(a) && Remembers(s, a) && CanDrop(a)
    ensures SlotsFit(AfterDrop(a)) && Remembers(s, AfterDrop(a))
    ensures SlotsFit(Heir(a)) && Remembers(s, Heir(a))
    ensures AfterDrop(a).task == a.task && Owned(Heir(a).task).None?
  {
  }

  /** A dropping handler keeps what it owns, and its heir owns nothing. */
  lemma DropKeepsOwners(s: State, pid: Pid, heir: Pid)
    requires SoleOwners(s) && Enabled(s, Drops(pid, heir))
    ensures SoleOwners(Do(s, Drops(pid, heir)))
  {
    var s' := Do(s, Drops(pid, heir));
    forall q | q in s'.actors && Owned(s'.actors[q].task).Some?
      ensures q in s.actors && s'.actors[q].task == s.actors[q].task
    {
    }
  }

  lemma DropKeepsMemories(s: State, s': State, pid: Pid, heir: Pid, q: Pid)
    requires Handlers(s) && Enabled(s, Drops(pid, heir)) && Evolves(s, s') && s' == Do(s, Drops(pid, heir))
    requires q in s'.actors
    ensures SlotsFit(s'.actors[q]) && Remembers(s', s'.actors[q])
  {
    var p := if q in s.actors then q else pid;
    RemembersAtRest(s, s', s.actors[p]);
    if q == pid || q == heir {
      DropperRemembers(s', s.actors[pid]);
    }
  }

  lemma DropKeeps(s: State, refs: map<Ref, Key>, pid: Pid, heir: Pid)
    requires Inv(s, refs) && Enabled(s, Drops(pid, heir))
    ensures Evolves(s, Do(s, Drops(pid, heir)))
    ensures Inv(Do(s, Drops(pid, heir)), RefsDropped(refs, pid, heir, s.actors[pid]))
  {
    var s' := Do(s, Drops(pid, heir));
    DropConserves(s, refs, pid, heir);
    DropKeepsTables(s, pid, heir);
    DropKeepsOwners(s, pid, heir);
    forall q | q in s'.actors
      ensures SlotsFit(s'.actors[q]) && Remembers(s', s'.actors[q])
    {
      DropKeepsMemories(s, s', pid, heir, q);
    }
  }

  lemma TickKeepsTables(s: State)
    requires Rows(s) && Contents(s) && Burns(s)
    ensures Evolves(s, Do(s, Tick)) && Rows(Do(s, Tick)) && Contents(Do(s, Tick)) && Burns(Do(s, Tick))
  {
  }

  lemma TickKeeps(s: State, refs: map<Ref, Key>)
    requires Inv(s, refs)
    ensures Evolves(s, Do(s, Tick)) && Inv(Do(s, Tick), refs)
  {
    var s' := Do(s, Tick);
    TickKeepsTables(s);
    forall q | q in s.actors
      ensures Remembers(s', s.actors[q])
    {
      RemembersAtRest(s, s', s.actors[q]);
    }
  }

  /** Every step of every handler keeps the invariant, and undoes nothing that lasts. */
  lemma StepKeeps(s: State, refs: map<Ref, Key>, step: Step) returns (refs': map<Ref, Key>)
    requires Inv(s, refs) && Enabled(s, step)
    ensures Evolves(s, Do(s, step)) && Inv(Do(s, step), refs')
  {
    refs' := refs;
    match step
    case Opens(pid, o) => OpenKeeps(s, refs, pid, o);
    case Moves(pid, m) =>
      MoveKeeps(s, refs, pid, m);
      refs' := RefsAfter(s, refs, pid, s.actors[pid], m);
    case Drops(pid, heir) =>
      DropKeeps(s, refs, pid, heir);
      refs' := RefsDropped(refs, pid, heir, s.actors[pid]);
    case Tick => TickKeeps(s, refs);
  }
}
