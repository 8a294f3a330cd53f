/** Reference counts are conserved: every statement keeps each object's count equal to the references to it. */
module LifecycleConservation {
  import opened Ledger
  import opened Lifecycle
  import opened LifecycleEvolution
  import opened LifecycleInvariant
  import opened Wrappers

  /** A handler whose holds changed as `refs` did. */
  lemma HoldsAccount(files: map<Core, FileRow>, actors: map<Pid, Actor>, refs: map<Ref, Key>, pid: Pid, a: Actor,
                     refs': map<Ref, Key>)
    requires Accounts(files, actors, refs)
    requires Lookup(refs', MainHold(pid)) == a.main && Lookup(refs', ThumbHold(pid)) == a.thumb
    requires forall r | r != MainHold(pid) && r != ThumbHold(pid) :: Lookup(refs', r) == Lookup(refs, r)
    ensures Accounts(files, actors[pid := a], refs')
  {
    forall r
      ensures Lookup(refs', r) == KeyOf(files, actors[pid := a], r)
    {
      assert Lookup(refs, r) == KeyOf(files, actors, r);
    }
  }

  /** An upload's holds become its row. */
  lemma InsertAccounts(files: map<Core, FileRow>, actors: map<Pid, Actor>, refs: map<Ref, Key>, pid: Pid, core: Core,
                       item: Item)
    requires Accounts(files, actors, refs) && pid in actors && actors[pid].main.Some? && core !in files
    ensures var a := actors[pid];
      Accounts(files[core := FileRow(item, a.main.value, a.thumb)], actors[pid := Fresh(Finished)],
               Moved(Moved(refs, MainHold(pid), RowMain(core)), ThumbHold(pid), RowThumb(core)))
    ensures RowMain(core) !in refs && RowThumb(core) !in Moved(refs, MainHold(pid), RowMain(core))
  {
    var a := actors[pid];
    var files', actors' := files[core := FileRow(item, a.main.value, a.thumb)], actors[pid := Fresh(Finished)];
    var refs' := Moved(Moved(refs, MainHold(pid), RowMain(core)), ThumbHold(pid), RowThumb(core));
    assert Lookup(refs, MainHold(pid)) == a.main && Lookup(refs, ThumbHold(pid)) == a.thumb;
    assert Lookup(refs, RowMain(core)) == None && Lookup(refs, RowThumb(core)) == None;
    forall r
      ensures Lookup(refs', r) == KeyOf(files', actors', r)
    {
      assert Lookup(refs, r) == KeyOf(files, actors, r);
    }
  }

  /** A row's references become the holds of the handler that deleted it. */
  lemma DeleteAccounts(files: map<Core, FileRow>, actors: map<Pid, Actor>, refs: map<Ref, Key>, pid: Pid, core: Core,
                       a: Actor)
    requires Accounts(files, actors, refs) && pid in actors && actors[pid].main.None? && actors[pid].thumb.None?
    requires core in files && a.main == Some(files[core].key) && a.thumb == files[core].thumb
    ensures Accounts(files - {core}, actors[pid := a],
                     Moved(Moved(refs, RowMain(core), MainHold(pid)), RowThumb(core), ThumbHold(pid)))
    ensures MainHold(pid) !in refs && ThumbHold(pid) !in Moved(refs, RowMain(core), MainHold(pid))
  {
    var files', actors' := files - {core}, actors[pid := a];
    var refs' := Moved(Moved(refs, RowMain(core), MainHold(pid)), RowThumb(core), ThumbHold(pid));
    assert Lookup(refs, MainHold(pid)) == None && Lookup(refs, ThumbHold(pid)) == None;
    assert Lookup(refs, RowMain(core)) == a.main && Lookup(refs, RowThumb(core)) == a.thumb;
    forall r
      ensures Lookup(refs', r) == KeyOf(files', actors', r)
    {
      assert Lookup(refs, r) == KeyOf(files, actors, r);
    }
  }

  /** A backfill's hold becomes the row's thumbnail. */
  lemma LinkAccounts(files: map<Core, FileRow>, actors: map<Pid, Actor>, refs: map<Ref, Key>, pid: Pid, core: Core)
    requires Accounts(files, actors, refs) && pid in actors && actors[pid].main.None? && actors[pid].thumb.Some?
    requires core in files && files[core].thumb.None?
    ensures Accounts(files[core := files[core].(thumb := actors[pid].thumb)], actors[pid := Fresh(Finished)],
                     Moved(refs, ThumbHold(pid), RowThumb(core)))
    ensures RowThumb(core) !in refs
  {
    var files', actors' := files[core := files[core].(thumb := actors[pid].thumb)], actors[pid := Fresh(Finished)];
    var refs' := Moved(refs, ThumbHold(pid), RowThumb(core));
    assert Lookup(refs, MainHold(pid)) == None && Lookup(refs, ThumbHold(pid)) == actors[pid].thumb;
    assert Lookup(refs, RowThumb(core)) == None;
    forall r
      ensures Lookup(refs', r) == KeyOf(files', actors', r)
    {
      assert Lookup(refs, r) == KeyOf(files, actors, r);
    }
  }

  lemma OpenConserves(s: State, refs: map<Ref, Key>, pid: Pid, o: Opening)
    requires Conserved(s, refs) && pid !in s.actors && CanOpen(s, o)
    ensures Conserved(Do(s, Opens(pid, o)), refs)
  {
    assert Lookup(refs, MainHold(pid)) == None && Lookup(refs, ThumbHold(pid)) == None;
    HoldsAccount(s.files, s.actors, refs, pid, Fresh(OpenTask(s, o)), refs);
  }

  /** The references after a release that failed. */
  function RefsDropped(refs: map<Ref, Key>, pid: Pid, heir: Pid, a: Actor): map<Ref, Key> {
    if a.task.Unwinding? && a.main.Some? then Moved(refs, MainHold(pid), MainHold(heir))
    else Moved(refs, ThumbHold(pid), ThumbHold(heir))
  }

  lemma DropAccounts(files: map<Core, FileRow>, actors: map<Pid, Actor>, refs: map<Ref, Key>, pid: Pid, heir: Pid)
    requires Accounts(files, actors, refs) && pid in actors && CanDrop(actors[pid]) && heir !in actors
    ensures Accounts(files, actors[pid := AfterDrop(actors[pid])][heir := Heir(actors[pid])],
                     RefsDropped(refs, pid, heir, actors[pid]))
    ensures MainHold(heir) !in refs && ThumbHold(heir) !in refs
  {
    var a, kept, refs' := actors[pid], AfterDrop(actors[pid]), RefsDropped(refs, pid, heir, actors[pid]);
    assert Lookup(refs, MainHold(pid)) == a.main && Lookup(refs, ThumbHold(pid)) == a.thumb;
    assert Lookup(refs, MainHold(heir)) == None && Lookup(refs, ThumbHold(heir)) == None;
    var without := refs - {if a.task.Unwinding? && a.main.Some? then MainHold(pid) else ThumbHold(pid)};
    HoldsAccount(files, actors, refs, pid, kept, without);
    HoldsAccount(files, actors[pid := kept], without, heir, Heir(a), refs');
  }

  lemma DropConserves(s: State, refs: map<Ref, Key>, pid: Pid, heir: Pid)
    requires Conserved(s, refs) && Enabled(s, Drops(pid, heir))
    ensures Conserved(Do(s, Drops(pid, heir)), RefsDropped(refs, pid, heir, s.actors[pid]))
  {
    DropAccounts(s.files, s.actors, refs, pid, heir);
    if s.actors[pid].task.Unwinding? && s.actors[pid].main.Some? {
      MoveBalances(s.objects, refs, MainHold(pid), MainHold(heir));
    } else {
      MoveBalances(s.objects, refs, ThumbHold(pid), ThumbHold(heir));
    }
  }

  /** The references after a statement. */
  function RefsAfter(s: State, refs: map<Ref, Key>, pid: Pid, a: Actor, m: Move): map<Ref, Key>
    requires Can(s, a, m)
  {
    match m
    case Uploads(AcquireMain) => refs[MainHold(pid) := FileKey(a.task.core)]
    case Uploads(ShareMain(key)) => refs[MainHold(pid) := key]
    case Uploads(InsertFile) =>
      Moved(Moved(refs, MainHold(pid), RowMain(a.task.core)), ThumbHold(pid), RowThumb(a.task.core))
    case Thumbs(AcquireThumb(_)) => refs[ThumbHold(pid) := ThumbKey(a.task.core)]
    case Thumbs(ShareThumb(_, key)) => refs[ThumbHold(pid) := key]
    case Thumbs(Link) =>
      if Links(s.files, a.task.core) then Moved(refs, ThumbHold(pid), RowThumb(a.task.core)) else refs
    case Removes(RemoveFile) =>
      if a.task.core in s.files then
        Moved(Moved(refs, RowMain(a.task.core), MainHold(pid)), RowThumb(a.task.core), ThumbHold(pid))
      else refs
    case Removes(ReleaseMain) => refs - {MainHold(pid)}
    case Removes(ReleaseThumb) => refs - {ThumbHold(pid)}
    case _ => refs
  }

  lemma MoveAccounts(s: State, refs: map<Ref, Key>, pid: Pid, m: Move)
    requires Accounts(s.files, s.actors, refs) && pid in s.actors && Can(s, s.actors[pid], m)
    requires SlotsFit(s.actors[pid]) && OwnsNoRow(s, s.actors[pid].task)
    ensures Accounts(NextFiles(s, s.actors[pid], m), s.actors[pid := Next(s, s.actors[pid], m)],
                     RefsAfter(s, refs, pid, s.actors[pid], m))
  {
    var a := s.actors[pid];
    assert Lookup(refs, MainHold(pid)) == a.main && Lookup(refs, ThumbHold(pid)) == a.thumb;
    if m == Uploads(InsertFile) {
      InsertAccounts(s.files, s.actors, refs, pid, a.task.core, a.task.item);
    } else if m == Thumbs(Link) && Links(s.files, a.task.core) {
      LinkAccounts(s.files, s.actors, refs, pid, a.task.core);
    } else if m == Removes(RemoveFile) && a.task.core in s.files {
      DeleteAccounts(s.files, s.actors, refs, pid, a.task.core, Next(s, a, m));
    } else {
      HoldsAccount(s.files, s.actors, refs, pid, Next(s, a, m), RefsAfter(s, refs, pid, a, m));
    }
  }

  /** The statements that hand references between a handler and a row. */
  lemma RowBalance(s: State, refs: map<Ref, Key>, pid: Pid, m: Move)
    requires Conserved(s, refs) && pid in s.actors && Can(s, s.actors[pid], m)
    requires SlotsFit(s.actors[pid]) && OwnsNoRow(s, s.actors[pid].task)
    requires NextObjects(s, s.actors[pid], m) == s.objects
    requires m.Uploads? ==> !m.upload.AcquireMain? && !m.upload.ShareMain?
    requires m.Thumbs? ==> !m.thumb.AcquireThumb? && !m.thumb.ShareThumb?
    requires m.Removes? ==> !m.removal.ReleaseMain? && !m.removal.ReleaseThumb?
    ensures Balanced(s.objects, RefsAfter(s, refs, pid, s.actors[pid], m))
  {
    var a := s.actors[pid];
    if m == Uploads(InsertFile) {
      InsertAccounts(s.files, s.actors, refs, pid, a.task.core, a.task.item);
      MoveBalances(s.objects, refs, MainHold(pid), RowMain(a.task.core));
      MoveBalances(s.objects, Moved(refs, MainHold(pid), RowMain(a.task.core)), ThumbHold(pid), RowThumb(a.task.core));
    } else if m == Thumbs(Link) && Links(s.files, a.task.core) {
      LinkAccounts(s.files, s.actors, refs, pid, a.task.core);
      MoveBalances(s.objects, refs, ThumbHold(pid), RowThumb(a.task.core));
    } else if m == Removes(RemoveFile) && a.task.core in s.files {
      DeleteAccounts(s.files, s.actors, refs, pid, a.task.core, Next(s, a, m));
      MoveBalances(s.objects, refs, RowMain(a.task.core), MainHold(pid));
      MoveBalances(s.objects, Moved(refs, RowMain(a.task.core), MainHold(pid)), RowThumb(a.task.core), ThumbHold(pid));
    }
  }

  lemma MoveBalance(s: State, refs: map<Ref, Key>, pid: Pid, m: Move)
    requires Conserved(s, refs) && pid in s.actors && Can(s, s.actors[pid], m)
    requires SlotsFit(s.actors[pid]) && OwnsNoRow(s, s.actors[pid].task)
    requires m.Collects? && m.gc.Reclaim? ==> m.gc.key !in s.objects
    ensures Balanced(NextObjects(s, s.actors[pid], m), RefsAfter(s, refs, pid, s.actors[pid], m))
  {
    var a := s.actors[pid];
    assert Lookup(refs, MainHold(pid)) == a.main && Lookup(refs, ThumbHold(pid)) == a.thumb;
    match m
    case Uploads(AcquireMain) =>
      CreateBalances(s.objects, refs, MainHold(pid), FileKey(a.task.core), a.task.item.content);
    case Uploads(ShareMain(key)) => ShareBalances(s.objects, refs, MainHold(pid), key);
    case Thumbs(AcquireThumb(jpeg)) => CreateBalances(s.objects, refs, ThumbHold(pid), ThumbKey(a.task.core), jpeg);
    case Thumbs(ShareThumb(_, key)) => ShareBalances(s.objects, refs, ThumbHold(pid), key);
    case Removes(ReleaseMain) => ReleaseBalances(s.objects, refs, MainHold(pid));
    case Removes(ReleaseThumb) => ReleaseBalances(s.objects, refs, ThumbHold(pid));
    case Collects(Reclaim(key)) => assert s.objects - {key} == s.objects;
    case _ => RowBalance(s, refs, pid, m);
  }

  lemma MoveConserves(s: State, refs: map<Ref, Key>, pid: Pid, m: Move)
    requires Conserved(s, refs) && pid in s.actors && Can(s, s.actors[pid], m)
    requires SlotsFit(s.actors[pid]) && OwnsNoRow(s, s.actors[pid].task)
    requires m.Collects? && m.gc.Reclaim? ==> m.gc.key !in s.objects
    ensures Conserved(Do(s, Moves(pid, m)), RefsAfter(s, refs, pid, s.actors[pid], m))
  {
    MoveAccounts(s, refs, pid, m);
    MoveBalance(s, refs, pid, m);
  }
}
