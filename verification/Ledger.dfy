/** The reference counts of the `objects` table, and who they count. */
module Ledger {
  /** A content core, the eight characters of a link, by number. */
  type Core = nat

  /**
   * Some content, by number, and its length. Collisions of SHA-256 are assumed away, so a digest stands for the bytes
   * themselves.
   */
  datatype Digest = Digest(id: nat, length: nat)

  /**
   * A storage key: `files/<core><ext>`, where the extension is fixed by whoever claimed the core, or
   * `thumbs/<core>.jpg`.
   */
  datatype Key = FileKey(core: Core) | ThumbKey(core: Core)

  /** A handler, by number. */
  type Pid = nat

  /**
   * Whatever may refer to an object: a column of a `files` row, or a reference a handler acquired and has not
   * passed on.
   */
  datatype Ref = RowMain(core: Core) | RowThumb(core: Core) | MainHold(pid: Pid) | ThumbHold(pid: Pid)

  /** A row of `objects`, by storage key. */
  datatype Object = Object(content: Digest, refcount: int)

  type Objects = map<Key, Object>

  function Users(refs: map<Ref, Key>, key: Key): set<Ref> {
    set r | r in refs && refs[r] == key
  }

  function Count(refs: map<Ref, Key>, key: Key): nat {
    |Users(refs, key)|
  }

  /** Every reference is to an object, and every object counts its references, of which it has one at least. */
  ghost predicate Balanced(objects: Objects, refs: map<Ref, Key>) {
    && (forall r | r in refs :: refs[r] in objects)
    && (forall k | k in objects :: objects[k].refcount == Count(refs, k) >= 1)
  }

  // ---- acquire_object and release_object ----

  /** The primary key finds the object of this content, if there is one. */
  predicate Holds(objects: Objects, key: Key, content: Digest) {
    key in objects && objects[key].content == content
  }

  predicate Absent(objects: Objects, content: Digest) {
    forall k | k in objects :: objects[k].content != content
  }

  /** `INSERT ... ON CONFLICT DO NOTHING` when no object has this content. */
  function Create(objects: Objects, key: Key, content: Digest): Objects {
    objects[key := Object(content, 1)]
  }

  /** `UPDATE ... SET refcount = refcount + 1` otherwise. */
  function Share(objects: Objects, key: Key): Objects
    requires key in objects
  {
    objects[key := objects[key].(refcount := objects[key].refcount + 1)]
  }

  /** `release_object` as one atomic step; a missing row is left alone. */
  function Release(objects: Objects, key: Key): Objects {
    if key !in objects then objects
    else if objects[key].refcount - 1 <= 0 then objects - {key}
    else objects[key := objects[key].(refcount := objects[key].refcount - 1)]
  }

  /** Whether the caller of `release_object` must now delete the bytes. */
  predicate LastRelease(objects: Objects, key: Key) {
    key in objects && objects[key].refcount - 1 <= 0
  }

  // ---- Conservation ----

  lemma CountWith(refs: map<Ref, Key>, r: Ref, key: Key, k: Key)
    requires r !in refs
    ensures Count(refs[r := key], k) == Count(refs, k) + if k == key then 1 else 0
  {
    assert Users(refs[r := key], k) == if k == key then Users(refs, k) + {r} else Users(refs, k);
  }

  lemma CountWithout(refs: map<Ref, Key>, r: Ref, k: Key)
    requires r in refs
    ensures Count(refs, k) == Count(refs - {r}, k) + if k == refs[r] then 1 else 0
  {
    CountWith(refs - {r}, r, refs[r], k);
    assert (refs - {r})[r := refs[r]] == refs;
  }

  lemma CreateBalances(objects: Objects, refs: map<Ref, Key>, r: Ref, key: Key, content: Digest)
    requires Balanced(objects, refs) && r !in refs && key !in objects
    ensures Balanced(Create(objects, key, content), refs[r := key])
  {
    assert Users(refs, key) == {} && Count(refs, key) == 0;
    var after, refs' := Create(objects, key, content), refs[r := key];
    forall k
      ensures k in after ==> after[k].refcount == Count(refs', k) >= 1
    {
      CountWith(refs, r, key, k);
    }
  }

  lemma ShareBalances(objects: Objects, refs: map<Ref, Key>, r: Ref, key: Key)
    requires Balanced(objects, refs) && r !in refs && key in objects
    ensures Balanced(Share(objects, key), refs[r := key])
  {
    forall k {
      CountWith(refs, r, key, k);
    }
  }

  /** The row goes, and the caller is told to delete the bytes, exactly when the reference was the last. */
  lemma ReleaseBalances(objects: Objects, refs: map<Ref, Key>, r: Ref)
    requires Balanced(objects, refs) && r in refs
    ensures Balanced(Release(objects, refs[r]), refs - {r})
    ensures LastRelease(objects, refs[r]) <==> forall x | x in refs && refs[x] == refs[r] :: x == r
  {
    forall k {
      CountWithout(refs, r, k);
    }
    var key, left := refs[r], refs - {r};
    var users := Users(left, key);
    if users == {} {
      assert forall x | x in refs && refs[x] == key :: x == r || x in users;
    } else {
      var x :| x in users;
      assert x in refs && refs[x] == key && x != r;
    }
  }

  /** `refs` after `from`, if it referred to anything, handed its reference over to `to`. */
  function Moved(refs: map<Ref, Key>, from: Ref, to: Ref): map<Ref, Key> {
    if from in refs then (refs - {from})[to := refs[from]] else refs
  }

  /** Handing a reference over leaves every count as it was. */
  lemma MoveBalances(objects: Objects, refs: map<Ref, Key>, from: Ref, to: Ref)
    requires Balanced(objects, refs) && to !in refs
    ensures Balanced(objects, Moved(refs, from, to))
  {
    if from in refs {
      forall k
        ensures Count(Moved(refs, from, to), k) == Count(refs, k)
      {
        CountWithout(refs, from, k);
        CountWith(refs - {from}, to, refs[from], k);
      }
    }
  }

  // ---- The two statements of release_object ----

  /** The first statement, `UPDATE ... SET refcount = refcount - 1`; the column may not fall below zero. */
  function Decrement(objects: Objects, key: Key): Objects
    requires key in objects ==> objects[key].refcount >= 1
  {
    if key in objects then objects[key := objects[key].(refcount := objects[key].refcount - 1)] else objects
  }

  /** The second one, sent when the first read zero: `DELETE FROM objects` whatever the row says by now. */
  function Erase(objects: Objects, key: Key): Objects {
    objects - {key}
  }

  /** What other handlers do to the row of one key: they acquire it, and release it, each in its own statements. */
  datatype Rival = Acquire(ref: Ref, content: Digest) | Update(ref: Ref) | Delete

  /** The table, and the references there are. */
  datatype Books = Books(objects: Objects, refs: map<Ref, Key>)

  predicate CanRival(b: Books, key: Key, op: Rival) {
    match op
    case Acquire(ref, _) => ref !in b.refs
    case Update(ref) => ref in b.refs && b.refs[ref] == key && (key in b.objects ==> b.objects[key].refcount >= 1)
    case Delete => true
  }

  /** An acquire creates the row if it is gone; an update that finds no row gives its reference up all the same. */
  function Rivals(b: Books, key: Key, op: Rival): Books
    requires CanRival(b, key, op)
  {
    match op
    case Acquire(ref, content) =>
      Books(if key in b.objects then Share(b.objects, key) else Create(b.objects, key, content), b.refs[ref := key])
    case Update(ref) => Books(Decrement(b.objects, key), b.refs - {ref})
    case Delete => Books(Erase(b.objects, key), b.refs)
  }

  predicate CanInterleave(b: Books, key: Key, ops: seq<Rival>)
    decreases |ops|
  {
    ops == [] || (CanRival(b, key, ops[0]) && CanInterleave(Rivals(b, key, ops[0]), key, ops[1..]))
  }

  function Interleave(b: Books, key: Key, ops: seq<Rival>): Books
    requires CanInterleave(b, key, ops)
    decreases |ops|
  {
    if ops == [] then b else Interleave(Rivals(b, key, ops[0]), key, ops[1..])
  }

  /** References acquired and not given back. */
  function Gained(ops: seq<Rival>): int {
    if ops == [] then 0
    else Gained(ops[1..]) + (match ops[0] case Acquire(_, _) => 1 case Update(_) => -1 case Delete => 0)
  }

  /** All is in order but for one key. */
  ghost predicate BalancedBut(b: Books, key: Key) {
    && (forall r | r in b.refs :: b.refs[r] in b.objects || b.refs[r] == key)
    && (forall k | k in b.objects && k != key :: b.objects[k].refcount == Count(b.refs, k) >= 1)
  }

  lemma RivalKeeps(b: Books, key: Key, op: Rival)
    requires BalancedBut(b, key) && CanRival(b, key, op)
    ensures BalancedBut(Rivals(b, key, op), key)
    ensures Count(Rivals(b, key, op).refs, key) == Count(b.refs, key) + Gained([op])
  {
    assert [op][1..] == [];
    forall k
      ensures Count(Rivals(b, key, op).refs, k) == Count(b.refs, k) + if k == key then Gained([op]) else 0
    {
      match op
      case Acquire(ref, _) => CountWith(b.refs, ref, key, k);
      case Update(ref) => CountWithout(b.refs, ref, k);
      case Delete =>
    }
  }

  lemma {:induction false} InterleaveKeeps(b: Books, key: Key, ops: seq<Rival>)
    requires BalancedBut(b, key) && CanInterleave(b, key, ops)
    ensures BalancedBut(Interleave(b, key, ops), key)
    ensures Count(Interleave(b, key, ops).refs, key) == Count(b.refs, key) + Gained(ops)
    decreases |ops|
  {
    if ops != [] {
      RivalKeeps(b, key, ops[0]);
      InterleaveKeeps(Rivals(b, key, ops[0]), key, ops[1..]);
      assert [ops[0]][1..] == [];
    }
  }

  /** Erasing the row of a key puts the books in order exactly when nothing refers to it. */
  lemma EraseBalances(b: Books, key: Key)
    requires BalancedBut(b, key)
    ensures Balanced(Erase(b.objects, key), b.refs) <==> Count(b.refs, key) == 0
  {
    if Count(b.refs, key) == 0 {
      assert Users(b.refs, key) == {};
      forall r | r in b.refs
        ensures b.refs[r] != key
      {
        assert b.refs[r] == key ==> r in Users(b.refs, key);
      }
    } else {
      var r :| r in Users(b.refs, key);
      assert b.refs[r] !in Erase(b.objects, key);
    }
  }

  /** The books after the UPDATE of a handler that gives its reference back. */
  function Updated(b: Books, r: Ref): Books
    requires r in b.refs && (b.refs[r] in b.objects ==> b.objects[b.refs[r]].refcount >= 1)
  {
    Books(Decrement(b.objects, b.refs[r]), b.refs - {r})
  }

  lemma UpdatedCounts(b: Books, r: Ref)
    requires Balanced(b.objects, b.refs) && r in b.refs && b.objects[b.refs[r]].refcount == 1
    ensures BalancedBut(Updated(b, r), b.refs[r]) && Count(Updated(b, r).refs, b.refs[r]) == 0
  {
    forall k
      ensures Count(Updated(b, r).refs, k) == Count(b.refs, k) - if k == b.refs[r] then 1 else 0
    {
      CountWithout(b.refs, r, k);
    }
  }

  /** What the handler sends after the UPDATE when nothing came in between: the DELETE if it read zero. */
  function Completed(objects: Objects, key: Key): Objects {
    if key in objects && objects[key].refcount <= 0 then Erase(objects, key) else objects
  }

  /** Undisturbed, the two statements are a release, of the handler in question and of any other. */
  lemma UndisturbedIsRelease(b: Books, r: Ref)
    requires Balanced(b.objects, b.refs) && r in b.refs
    ensures Completed(Updated(b, r).objects, b.refs[r]) == Release(b.objects, b.refs[r])
    ensures CanRival(b, b.refs[r], Update(r)) && Rivals(b, b.refs[r], Update(r)) == Updated(b, r)
    ensures Rivals(Updated(b, r), b.refs[r], Delete).objects == Updated(b, r).objects - {b.refs[r]}
  {
  }

  /**
   * A handler gives back the last reference, so its UPDATE reads zero and it will send the DELETE. Whatever other
   * handlers send in between, acquires that bring the row back to life, releases of their own, and DELETEs too: the
   * DELETE leaves the books in order exactly when they gave back as many references as they acquired.
   */
  lemma SplitReleaseConserves(b: Books, r: Ref, ops: seq<Rival>)
    requires Balanced(b.objects, b.refs) && r in b.refs && b.objects[b.refs[r]].refcount == 1
    requires CanInterleave(Updated(b, r), b.refs[r], ops)
    ensures var end := Interleave(Updated(b, r), b.refs[r], ops);
      Balanced(Erase(end.objects, b.refs[r]), end.refs) <==> Gained(ops) == 0
    ensures Erase(Updated(b, r).objects, b.refs[r]) == Release(b.objects, b.refs[r])
  {
    UpdatedCounts(b, r);
    InterleaveKeeps(Updated(b, r), b.refs[r], ops);
    EraseBalances(Interleave(Updated(b, r), b.refs[r], ops), b.refs[r]);
  }

  /** An upload that acquires the object between the two statements is left with a key that has no row. */
  lemma AcquiredBetweenIsLost()
    ensures var b := Books(map[FileKey(7) := Object(Digest(10, 1), 1)], map[RowMain(7) := FileKey(7)]);
      var ops := [Acquire(MainHold(2), Digest(10, 1))];
      && Balanced(b.objects, b.refs) && CanInterleave(Updated(b, RowMain(7)), FileKey(7), ops)
      && var end := Interleave(Updated(b, RowMain(7)), FileKey(7), ops);
      MainHold(2) in end.refs && end.refs[MainHold(2)] == FileKey(7) && FileKey(7) !in Erase(end.objects, FileKey(7))
  {
    assert Users(map[RowMain(7) := FileKey(7)], FileKey(7)) == {RowMain(7)};
  }

  /** One that also gives it back before the DELETE does no harm, although its own UPDATE reads zero again. */
  lemma ReleasedBetweenIsHarmless()
    ensures var b := Books(map[FileKey(7) := Object(Digest(10, 1), 1)], map[RowMain(7) := FileKey(7)]);
      var ops := [Acquire(MainHold(2), Digest(10, 1)), Update(MainHold(2))];
      && CanInterleave(Updated(b, RowMain(7)), FileKey(7), ops)
      && var end := Interleave(Updated(b, RowMain(7)), FileKey(7), ops);
      Balanced(Erase(end.objects, FileKey(7)), end.refs)
  {
    var b := Books(map[FileKey(7) := Object(Digest(10, 1), 1)], map[RowMain(7) := FileKey(7)]);
    assert Users(b.refs, FileKey(7)) == {RowMain(7)};
    var ops := [Acquire(MainHold(2), Digest(10, 1)), Update(MainHold(2))];
    assert ops[1..] == [Update(MainHold(2))] && ops[1..][1..] == [];
    SplitReleaseConserves(b, RowMain(7), ops);
  }
}
