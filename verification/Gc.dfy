/** Garbage collection over a quiescent instance: what `inspect` reports and what `reclaim` leaves. */
module Gc {
  import opened Arithmetic
  import opened Wrappers

  /** What a key starts with: `files/`, `avatars/`, or something else, as thumbnails do. */
  datatype Area = Files | Avatars | Elsewhere

  datatype Key = Key(area: Area, name: string)

  datatype ObjectRow = ObjectRow(size: int, refcount: int)

  datatype Reason = ZeroRef | MissingBytes | Unreferenced

  datatype Orphan = Orphan(key: Key, bytes: nat, reason: Reason)

  const U64_MAX := 0xFFFF_FFFF_FFFF_FFFF

  function SaturatingAdd(a: nat, b: nat): nat {
    Min(a + b, U64_MAX)
  }

  /** The tables and the store: what is stored, the object rows, the keys of file rows and of avatars. */
  datatype State = State(stored: map<Key, nat>, objects: map<Key, ObjectRow>, fileKeys: set<Key>, avatarKeys: set<Key>)

  /** The inventory lists two areas of the store. */
  function Inventory(s: State): map<Key, nat> {
    map k | k in s.stored && k.area != Elsewhere :: s.stored[k]
  }

  function Checked(s: State): set<Key> {
    Inventory(s).Keys + s.objects.Keys + s.avatarKeys + s.fileKeys
  }

  function Magnitude(size: int): nat {
    if size < 0 then 0 else size
  }

  /** What `inspect` finds about one key. */
  function Finding(s: State, key: Key): Option<Orphan> {
    var inventory := Inventory(s);
    if key in s.objects then
      var row := s.objects[key];
      if row.refcount <= 0 then
        Some(Orphan(key, if key in inventory then inventory[key] else Magnitude(row.size), ZeroRef))
      else if key !in inventory then Some(Orphan(key, Magnitude(row.size), MissingBytes))
      else None
    else
      match key.area
      case Files =>
        if key in inventory then Some(Orphan(key, inventory[key], Unreferenced))
        else if key in s.fileKeys then Some(Orphan(key, 0, MissingBytes))
        else None
      case Avatars =>
        if key !in s.avatarKeys && key in inventory then Some(Orphan(key, inventory[key], Unreferenced))
        else if key in s.avatarKeys && key !in inventory then Some(Orphan(key, 0, MissingBytes))
        else None
      case Elsewhere => None
  }

  /** Stored where the inventory looks. */
  predicate Listed(s: State, key: Key) {
    key in s.stored && (key.area == Files || key.area == Avatars)
  }

  /**
   * What a report is meant to say: an object counts no references; bytes lie where no object and no avatar accounts for
   * them; or an object in use, a file row without an object, or an avatar has no bytes. The size is that of the bytes,
   * else the one of the row if it is not negative, else nothing.
   */
  predicate Rightly(s: State, o: Orphan) {
    var counted := o.key in s.objects;
    match o.reason
    case ZeroRef =>
      && counted && s.objects[o.key].refcount <= 0
      && o.bytes == if Listed(s, o.key) then s.stored[o.key]
                    else if s.objects[o.key].size >= 0 then s.objects[o.key].size else 0
    case Unreferenced =>
      && !counted && Listed(s, o.key) && o.bytes == s.stored[o.key]
      && (o.key.area == Avatars ==> o.key !in s.avatarKeys)
    case MissingBytes =>
      && !Listed(s, o.key)
      && if counted then
           && s.objects[o.key].refcount > 0
           && o.bytes == if s.objects[o.key].size >= 0 then s.objects[o.key].size else 0
         else
           && o.bytes == 0
           && ((o.key.area == Files && o.key in s.fileKeys) || (o.key.area == Avatars && o.key in s.avatarKeys))
  }

  /** What is found about a key is what is meant to be said of it. */
  lemma FindingIsRight(s: State, o: Orphan)
    ensures Finding(s, o.key) == Some(o) <==> Rightly(s, o)
  {
  }

  predicate Referenced(s: State, key: Key) {
    key in s.fileKeys || key in s.avatarKeys
  }

  /** The report names each key with a finding once, with that finding. */
  predicate Reports(s: State, orphans: seq<Orphan>) {
    && (forall i | 0 <= i < |orphans| :: Finding(s, orphans[i].key) == Some(orphans[i]))
    && (forall i, j | 0 <= i < j < |orphans| :: orphans[i].key != orphans[j].key)
    && (forall k | k in Checked(s) && Finding(s, k).Some? :: Finding(s, k).value in orphans)
  }

  /** The bytes a reclaim would free: those behind findings that are not missing and that nothing references. */
  function Estimate(s: State, orphans: seq<Orphan>): nat {
    if orphans == [] then 0
    else
      var last := orphans[|orphans| - 1];
      var before := Estimate(s, orphans[..|orphans| - 1]);
      if last.reason != MissingBytes && !Referenced(s, last.key) && last.key in Inventory(s) then
        SaturatingAdd(before, Inventory(s)[last.key])
      else before
  }

  /** A reclaim may take this key: it is a finding, not a missing one, and nothing references it. */
  predicate Reclaimable(s: State, key: Key) {
    Finding(s, key).Some? && Finding(s, key).value.reason != MissingBytes && !Referenced(s, key)
  }

  ghost predicate AllReclaimable(s: State, taken: set<Key>) {
    forall k :: k in taken <==> Reclaimable(s, k)
  }

  /** The state after a reclaim took the keys in `taken`. */
  function Without(s: State, taken: set<Key>): State {
    s.(stored := map k | k in s.stored && !(k in taken && k.area != Elsewhere) :: s.stored[k],
       objects := s.objects - taken)
  }

  lemma FindingIsChecked(s: State, key: Key)
    requires Finding(s, key).Some?
    ensures key in Checked(s) && Finding(s, key).value.key == key
  {
  }

  /** A report lists what is meant to be said, and nothing else. */
  lemma ReportIsRight(s: State, orphans: seq<Orphan>)
    requires Reports(s, orphans)
    ensures forall o :: o in orphans <==> Rightly(s, o)
  {
    forall o
      ensures o in orphans <==> Rightly(s, o)
    {
      FindingIsRight(s, o);
      if Finding(s, o.key) == Some(o) {
        FindingIsChecked(s, o.key);
      }
    }
  }

  /** Once everything reclaimable is gone, a finding that is not missing bytes is of a key still referenced. */
  lemma ReclaimedIsClean(s: State, taken: set<Key>, key: Key)
    requires AllReclaimable(s, taken)
    requires Finding(Without(s, taken), key).Some? && Finding(Without(s, taken), key).value.reason != MissingBytes
    ensures Referenced(s, key)
  {
  }

  /** So an inspection right after a reclaim has nothing left to estimate. */
  lemma {:induction false} SecondEstimateIsZero(s: State, taken: set<Key>, orphans: seq<Orphan>)
    requires AllReclaimable(s, taken)
    requires forall i | 0 <= i < |orphans| :: Finding(Without(s, taken), orphans[i].key) == Some(orphans[i])
    ensures Estimate(Without(s, taken), orphans) == 0
  {
    if orphans != [] {
      var last := orphans[|orphans| - 1];
      SecondEstimateIsZero(s, taken, orphans[..|orphans| - 1]);
      if last.reason != MissingBytes {
        ReclaimedIsClean(s, taken, last.key);
      }
    }
  }

  /**
   * The inventory never lists thumbnails. So an object in use whose bytes are in the store is reported as missing
   * them exactly when its key lies outside both listed areas; a reclaim leaves such a finding alone.
   */
  lemma FalseAlarms(s: State, key: Key)
    requires key in s.objects && s.objects[key].refcount > 0 && key in s.stored
    ensures (Finding(s, key).Some? && Finding(s, key).value.reason == MissingBytes) <==> key.area == Elsewhere
    ensures !Reclaimable(s, key)
  {
  }

  // ---- Bytes ----

  /** All the bytes in a store. */
  ghost function Volume(stored: map<Key, nat>): nat {
    if stored == map[] then 0
    else
      var key :| key in stored;
      stored[key] + Volume(stored - {key})
  }

  lemma {:induction false} VolumeWithout(stored: map<Key, nat>, key: Key)
    requires key in stored
    ensures Volume(stored) == stored[key] + Volume(stored - {key})
    decreases |stored|
  {
    var first :| first in stored && Volume(stored) == stored[first] + Volume(stored - {first});
    if first != key {
      VolumeWithout(stored - {first}, key);
      VolumeWithout(stored - {key}, first);
      assert stored - {first} - {key} == stored - {key} - {first};
    }
  }

  // ---- What a reclaim takes ----

  /** The keys a reclaim takes. */
  function Takes(s: State, orphans: seq<Orphan>): set<Key> {
    if orphans == [] then {}
    else
      var last := orphans[|orphans| - 1];
      var before := Takes(s, orphans[..|orphans| - 1]);
      if last.reason != MissingBytes && !Referenced(s, last.key) then before + {last.key} else before
  }

  lemma NothingTaken(s: State)
    ensures Without(s, {}) == s
  {
  }

  lemma {:induction false} TakesListed(s: State, orphans: seq<Orphan>)
    ensures forall k :: k in Takes(s, orphans) <==>
      exists i :: 0 <= i < |orphans| && orphans[i].key == k && orphans[i].reason != MissingBytes && !Referenced(s, k)
  {
    if orphans != [] {
      TakesListed(s, orphans[..|orphans| - 1]);
    }
  }

  /** A report makes a reclaim take exactly what is reclaimable. */
  lemma TakesAll(s: State, orphans: seq<Orphan>)
    requires Reports(s, orphans)
    ensures AllReclaimable(s, Takes(s, orphans))
  {
    TakesListed(s, orphans);
    forall k | Reclaimable(s, k)
      ensures exists i :: 0 <= i < |orphans| && orphans[i].key == k && orphans[i].reason != MissingBytes
    {
      FindingIsChecked(s, k);
      assert Finding(s, k).value in orphans;
    }
  }

  /** The orphan that comes next was not taken before, so its object row is as it was at the inspection. */
  lemma TakesNext(s: State, orphans: seq<Orphan>, i: nat)
    requires Reports(s, orphans) && i < |orphans|
    ensures var orphan, taken := orphans[i], Takes(s, orphans[..i]);
      var takes := orphan.reason != MissingBytes && !Referenced(s, orphan.key);
      && Takes(s, orphans[..i + 1]) == (if takes then taken + {orphan.key} else taken)
      && orphan.key !in taken
      && (orphan.reason != MissingBytes && orphan.key in s.objects ==> s.objects[orphan.key].refcount <= 0)
      && Estimate(s, orphans[..i + 1]) ==
           if takes && orphan.key in Inventory(s) then
             SaturatingAdd(Estimate(s, orphans[..i]), Inventory(s)[orphan.key])
           else Estimate(s, orphans[..i])
  {
    assert orphans[..i + 1][..i] == orphans[..i];
    TakesListed(s, orphans[..i]);
    assert Finding(s, orphans[i].key) == Some(orphans[i]);
  }

  /** Taking one key more. */
  lemma WithoutMore(s: State, taken: set<Key>, key: Key)
    requires key !in taken
    ensures var before, after := Without(s, taken), Without(s, taken + {key});
      && after.objects == before.objects - {key}
      && after.stored == (if key in Inventory(s) then before.stored - {key} else before.stored)
      && (key in before.objects <==> key in s.objects)
      && (key in before.objects ==> before.objects[key] == s.objects[key])
  {
  }

  lemma VolumeMore(s: State, taken: set<Key>, key: Key)
    requires key !in taken
    ensures Volume(Without(s, taken).stored)
         == Volume(Without(s, taken + {key}).stored) + if key in Inventory(s) then Inventory(s)[key] else 0
  {
    WithoutMore(s, taken, key);
    if key in Inventory(s) {
      assert key in Without(s, taken).stored;
      VolumeWithout(Without(s, taken).stored, key);
    }
  }

  /** What the store still holds when a reclaim comes to an orphan. */
  ghost function VolumeAt(s: State, orphans: seq<Orphan>, i: nat): nat
    requires i <= |orphans|
  {
    Volume(Without(s, Takes(s, orphans[..i])).stored)
  }

  /** What an orphan adds to the estimate the store loses with it. */
  ghost predicate LosesItsGain(s: State, orphans: seq<Orphan>, i: nat)
    requires i < |orphans|
  {
    var orphan := orphans[i];
    var gains := orphan.reason != MissingBytes && !Referenced(s, orphan.key) && orphan.key in Inventory(s);
    var gain := if gains then Inventory(s)[orphan.key] else 0;
    && VolumeAt(s, orphans, i) == VolumeAt(s, orphans, i + 1) + gain
    && Estimate(s, orphans[..i + 1]) == Min(Estimate(s, orphans[..i]) + gain, 0xFFFF_FFFF_FFFF_FFFF)
  }

  lemma EstimateFits(s: State, orphans: seq<Orphan>)
    ensures Estimate(s, orphans) <= 0xFFFF_FFFF_FFFF_FFFF
  {
  }

  lemma GainIsLost(s: State, orphans: seq<Orphan>, i: nat)
    requires Reports(s, orphans) && i < |orphans|
    ensures LosesItsGain(s, orphans, i)
  {
    TakesNext(s, orphans, i);
    EstimateFits(s, orphans[..i]);
    VolumeMore(s, Takes(s, orphans[..i]), orphans[i].key);
  }

  lemma {:induction false} GainsAddUp(s: State, orphans: seq<Orphan>, n: nat)
    requires n <= |orphans| && forall i | 0 <= i < |orphans| :: LosesItsGain(s, orphans, i)
    ensures VolumeAt(s, orphans, n) <= Volume(s.stored)
    ensures Estimate(s, orphans[..n]) == Min(Volume(s.stored) - VolumeAt(s, orphans, n), 0xFFFF_FFFF_FFFF_FFFF)
  {
    if n == 0 {
      NothingTaken(s);
    } else {
      GainsAddUp(s, orphans, n - 1);
      assert LosesItsGain(s, orphans, n - 1);
    }
  }

  /** The estimate up to an orphan is what the store has lost when the reclaim comes to it, as far as 64 bits go. */
  lemma EstimateIsFreed(s: State, orphans: seq<Orphan>, n: nat)
    requires Reports(s, orphans) && n <= |orphans|
    ensures VolumeAt(s, orphans, n) <= Volume(s.stored)
    ensures Estimate(s, orphans[..n]) == Min(Volume(s.stored) - VolumeAt(s, orphans, n), 0xFFFF_FFFF_FFFF_FFFF)
  {
    forall i | 0 <= i < |orphans| {
      GainIsLost(s, orphans, i);
    }
    GainsAddUp(s, orphans, n);
  }

  /** What is left and what is gone, key by key, when everything reclaimable was taken. */
  lemma WhatIsLeft(s: State, taken: set<Key>, key: Key)
    requires AllReclaimable(s, taken)
    ensures Listed(Without(s, taken), key) ==>
      (key in s.objects && s.objects[key].refcount > 0) || key in s.fileKeys || key in s.avatarKeys
    ensures key in s.objects && s.objects[key].refcount <= 0 && key in Without(s, taken).objects ==>
      key in s.fileKeys || key in s.avatarKeys
  {
  }

  /** Nothing is taken that is in use, whatever the report says. */
  lemma TakenIsUnused(s: State, orphans: seq<Orphan>, n: nat, key: Key)
    requires Reports(s, orphans) && n <= |orphans|
    requires
      var left := Without(s, Takes(s, orphans[..n]));
      (key in s.stored && key !in left.stored) || (key in s.objects && key !in left.objects)
    ensures key !in s.fileKeys && key !in s.avatarKeys && (key in s.objects ==> s.objects[key].refcount <= 0)
  {
    TakesListed(s, orphans[..n]);
    var i :| 0 <= i < n && orphans[..n][i].key == key && orphans[..n][i].reason != MissingBytes && !Referenced(s, key);
    assert Finding(s, orphans[i].key) == Some(orphans[i]);
  }

  /** From `s` to `s'` the store has shrunk by this much, as far as 64 bits go. */
  ghost predicate Freed(s: State, s': State, amount: nat) {
    && Volume(s'.stored) <= Volume(s.stored)
    && amount == Min(Volume(s.stored) - Volume(s'.stored), 0xFFFF_FFFF_FFFF_FFFF)
  }

  /** From `s` to `s'` nothing is gone that is in use. */
  ghost predicate NothingLost(s: State, s': State) {
    forall k | (k in s.stored && k !in s'.stored) || (k in s.objects && k !in s'.objects) ::
      k !in s.fileKeys && k !in s.avatarKeys && (k in s.objects ==> s.objects[k].refcount <= 0)
  }

  /** Whatever is listed is counted or referenced, and whatever counts nothing is referenced. */
  ghost predicate Cleaned(s: State) {
    && (forall k | k in s.stored && k.area != Elsewhere ::
          (k in s.objects && s.objects[k].refcount > 0) || k in s.fileKeys || k in s.avatarKeys)
    && (forall k | k in s.objects && s.objects[k].refcount <= 0 :: k in s.fileKeys || k in s.avatarKeys)
  }

  /** Neither a row nor an avatar uses the key, and no object row counts references to it. */
  predicate CanTake(s: State, key: Key) {
    !Referenced(s, key) && !(key in s.objects && s.objects[key].refcount > 0)
  }

  /** Where it goes on: an orphan that may be taken is taken, and any other is passed over. */
  lemma ReclaimNext(s: State, orphans: seq<Orphan>, i: nat)
    requires Reports(s, orphans) && i < |orphans|
    ensures var key, before := orphans[i].key, Without(s, Takes(s, orphans[..i]));
      var after := Without(s, Takes(s, orphans[..i + 1]));
      var estimate := Estimate(s, orphans[..i]);
      if orphans[i].reason == MissingBytes || Referenced(s, key) then
        after == before && Estimate(s, orphans[..i + 1]) == estimate
      else
        && CanTake(before, key)
        && after.objects == before.objects - {key}
        && after.stored == (if key in Inventory(s) then before.stored - {key} else before.stored)
        && Estimate(s, orphans[..i + 1]) ==
             if key in Inventory(s) then SaturatingAdd(estimate, Inventory(s)[key]) else estimate
  {
    TakesNext(s, orphans, i);
    WithoutMore(s, Takes(s, orphans[..i]), orphans[i].key);
  }

  /** Where a reclaim stops nothing in use is gone. */
  lemma Afterwards(s: State, orphans: seq<Orphan>, n: nat)
    requires Reports(s, orphans) && n <= |orphans|
    ensures NothingLost(s, Without(s, Takes(s, orphans[..n])))
  {
    var left := Without(s, Takes(s, orphans[..n]));
    forall k | (k in s.stored && k !in left.stored) || (k in s.objects && k !in left.objects) {
      TakenIsUnused(s, orphans, n, k);
    }
  }

  /** Where it went through, only what is accounted for is left. */
  lemma InTheEnd(s: State, orphans: seq<Orphan>)
    requires Reports(s, orphans)
    ensures Cleaned(Without(s, Takes(s, orphans)))
    ensures AllReclaimable(s, Takes(s, orphans))
  {
    TakesAll(s, orphans);
    forall k {
      WhatIsLeft(s, Takes(s, orphans), k);
    }
  }

  lemma ReclaimEnds(s: State, orphans: seq<Orphan>, done: nat)
    requires Reports(s, orphans) && done <= |orphans|
    ensures var left := Without(s, Takes(s, orphans[..done]));
      && NothingLost(s, left) && Freed(s, left, Estimate(s, orphans[..done]))
      && (done == |orphans| ==> Cleaned(left) && Estimate(s, orphans[..done]) == Estimate(s, orphans))
    ensures done == |orphans| ==> AllReclaimable(s, Takes(s, orphans[..done]))
  {
    EstimateIsFreed(s, orphans, done);
    Afterwards(s, orphans, done);
    if done == |orphans| {
      assert orphans[..done] == orphans;
      InTheEnd(s, orphans);
    }
  }

  /** Where a reclaim of this report stands before an orphan, and what it has counted. */
  ghost predicate Reached(s: State, orphans: seq<Orphan>, i: nat, now: State, reclaimed: nat)
    requires i <= |orphans|
  {
    now == Without(s, Takes(s, orphans[..i])) && reclaimed == Estimate(s, orphans[..i])
  }

  /** A reclaim would delete the bytes of this orphan, and the store cannot. */
  predicate Sticks(s: State, orphan: Orphan, deletes: Key -> bool) {
    orphan.reason != MissingBytes && !Referenced(s, orphan.key) && orphan.key in Inventory(s) && !deletes(orphan.key)
  }

  // ---- The report ----

  /** `order` is how a sorted set of these keys is walked: each of them once. */
  ghost predicate Walks(order: seq<Key>, keys: set<Key>) {
    && (forall i, j | 0 <= i < j < |order| :: order[i] != order[j])
    && (forall k :: k in order <==> k in keys)
  }

  lemma {:induction false} WalkLength(order: seq<Key>, keys: set<Key>)
    requires Walks(order, keys)
    ensures |order| == |keys|
  {
    if order == [] {
      assert keys == {};
    } else {
      var last := |order| - 1;
      assert order[last] in keys;
      WalkLength(order[..last], keys - {order[last]});
    }
  }

  /** The findings along a walk, in its order. */
  function Findings(s: State, order: seq<Key>): seq<Orphan> {
    if order == [] then []
    else
      var last := Finding(s, order[|order| - 1]);
      Findings(s, order[..|order| - 1]) + if last.Some? then [last.value] else []
  }

  lemma {:induction false} FindingsFound(s: State, order: seq<Key>)
    ensures forall o :: o in Findings(s, order) <==> exists k :: k in order && Finding(s, k) == Some(o)
  {
    if order != [] {
      var init, last := order[..|order| - 1], order[|order| - 1];
      FindingsFound(s, init);
      assert order == init + [last];
      assert forall k :: k in order <==> k in init || k == last;
    }
  }

  lemma {:induction false} FindingsDiffer(s: State, order: seq<Key>)
    requires forall i, j | 0 <= i < j < |order| :: order[i] != order[j]
    ensures forall i, j | 0 <= i < j < |Findings(s, order)| :: Findings(s, order)[i].key != Findings(s, order)[j].key
  {
    if order != [] {
      var init, last := order[..|order| - 1], order[|order| - 1];
      FindingsDiffer(s, init);
      FindingsFound(s, init);
      forall o | o in Findings(s, init)
        ensures o.key != last
      {
        var k :| k in init && Finding(s, k) == Some(o);
        FindingIsChecked(s, k);
      }
      if Finding(s, last).Some? {
        FindingIsChecked(s, last);
      }
    }
  }

  lemma FindingsReport(s: State, order: seq<Key>)
    requires Walks(order, Checked(s))
    ensures Reports(s, Findings(s, order))
  {
    FindingsFound(s, order);
    FindingsDiffer(s, order);
    forall o | o in Findings(s, order)
      ensures Finding(s, o.key) == Some(o)
    {
      var k :| k in order && Finding(s, k) == Some(o);
      FindingIsChecked(s, k);
    }
    forall k | k in Checked(s) && Finding(s, k).Some?
      ensures Finding(s, k).value in Findings(s, order)
    {
      assert k in order;
    }
  }

  class Collector {
    var stored: map<Key, nat>
    var objects: map<Key, ObjectRow>
    const fileKeys: set<Key>
    const avatarKeys: set<Key>

    ghost function Now(): State
      reads this
    {
      State(stored, objects, fileKeys, avatarKeys)
    }

    constructor (s: State)
      ensures Now() == s
    {
      stored, objects, fileKeys, avatarKeys := s.stored, s.objects, s.fileKeys, s.avatarKeys;
    }

    /** The filter and the saturating fold at the end of an inspection. */
    method Estimated(s: State, orphans: seq<Orphan>) returns (reclaimed: nat)
      ensures reclaimed == Estimate(s, orphans)
    {
      reclaimed := 0;
      for i := 0 to |orphans|
        invariant reclaimed == Estimate(s, orphans[..i])
      {
        assert orphans[..i + 1][..i] == orphans[..i];
        var orphan := orphans[i];
        if orphan.reason != MissingBytes && !Referenced(s, orphan.key) && orphan.key in Inventory(s) {
          reclaimed := SaturatingAdd(reclaimed, Inventory(s)[orphan.key]);
        }
      }
      assert orphans[..|orphans|] == orphans;
    }

    /** Walks all the keys that are stored, counted or referenced, in the given order, and reports what it finds. */
    method Inspect(order: seq<Key>) returns (checked: nat, orphans: seq<Orphan>, reclaimed: nat)
      requires Walks(order, Checked(Now()))
      ensures checked == |Checked(Now())|
      ensures forall o :: o in orphans <==> Rightly(Now(), o)
      ensures orphans == Findings(Now(), order) && Reports(Now(), orphans)
      ensures reclaimed == Estimate(Now(), orphans)
    {
      var s := State(stored, objects, fileKeys, avatarKeys);
      checked, orphans := |order|, [];
      WalkLength(order, Checked(s));
      for i := 0 to |order|
        invariant orphans == Findings(s, order[..i])
      {
        assert order[..i + 1][..i] == order[..i];
        var finding := Finding(s, order[i]);
        if finding.Some? {
          orphans := orphans + [finding.value];
        }
      }
      assert order[..|order|] == order;
      FindingsReport(s, order);
      ReportIsRight(s, orphans);
      reclaimed := Estimated(s, orphans);
    }

    /**
     * One orphan, in its own transaction. Nothing happens when the key is in use after all, and when its bytes cannot
     * be deleted the transaction is given up.
     */
    method ReclaimOne(key: Key, inventory: map<Key, nat>, deletes: Key -> bool) returns (took: bool, ok: bool)
      modifies this`stored, this`objects
      ensures ok <==> (CanTake(old(Now()), key) && key in inventory ==> deletes(key))
      ensures took <==>
        && ok && key !in fileKeys && key !in avatarKeys
        && (key in old(objects) ==> old(objects)[key].refcount <= 0)
      ensures stored == if took && key in inventory then old(stored) - {key} else old(stored)
      ensures objects == if took then old(objects) - {key} else old(objects)
    {
      if key in fileKeys || key in avatarKeys || (key in objects && objects[key].refcount > 0) {
        return false, true;
      }
      if key in inventory {
        if !deletes(key) {
          return false, false;
        }
        stored := stored - {key};
      }
      objects := objects - {key};
      return true, true;
    }

    /** One turn of the loop over a report. */
    method ReclaimAt(orphans: seq<Orphan>, i: nat, reclaimed: nat, inventory: map<Key, nat>, deletes: Key -> bool,
                     ghost s: State)
      returns (reclaimed': nat, ok: bool)
      requires Reports(s, orphans) && i < |orphans| && inventory == Inventory(s)
      requires Reached(s, orphans, i, Now(), reclaimed)
      modifies this`stored, this`objects
      ensures ok <==> !Sticks(s, orphans[i], deletes)
      ensures Reached(s, orphans, if ok then i + 1 else i, Now(), reclaimed')
    {
      var orphan := orphans[i];
      ReclaimNext(s, orphans, i);
      reclaimed' := reclaimed;
      if orphan.reason == MissingBytes {
        return reclaimed, true;
      }
      var took: bool;
      took, ok := ReclaimOne(orphan.key, inventory, deletes);
      if took && orphan.key in inventory {
        reclaimed' := SaturatingAdd(reclaimed, inventory[orphan.key]);
      }
    }

    /** The loop over a report: where the bytes of an orphan cannot be deleted, it ends. */
    method ReclaimEach(orphans: seq<Orphan>, deletes: Key -> bool) returns (reclaimed: nat, done: nat)
      requires Reports(Now(), orphans)
      modifies this`stored, this`objects
      ensures done <= |orphans|
      ensures forall i | 0 <= i < done :: !Sticks(old(Now()), orphans[i], deletes)
      ensures done < |orphans| ==> Sticks(old(Now()), orphans[done], deletes)
      ensures Reached(old(Now()), orphans, done, Now(), reclaimed)
    {
      ghost var s := Now();
      var inventory := Inventory(State(stored, objects, fileKeys, avatarKeys));
      reclaimed, done := 0, 0;
      NothingTaken(s);
      while done < |orphans|
        invariant done <= |orphans|
        invariant Reached(s, orphans, done, Now(), reclaimed)
        invariant forall i | 0 <= i < done :: !Sticks(s, orphans[i], deletes)
      {
        var ok: bool;
        reclaimed, ok := ReclaimAt(orphans, done, reclaimed, inventory, deletes, s);
        if !ok {
          return;
        }
        done := done + 1;
      }
    }

    /**
     * With nothing else going on, a reclaim frees what the inspection estimated, which is what the store then holds
     * less as far as 64 bits can say; it takes every reclaimable key and nothing in use, and leaves listed bytes only
     * where something accounts for them. Where the bytes of an orphan cannot be deleted it ends, with all before it
     * done and nothing from it on.
     */
    method Reclaim(orphans: seq<Orphan>, deletes: Key -> bool)
      returns (ok: bool, reclaimed: nat, done: nat, ghost taken: set<Key>)
      requires Reports(Now(), orphans)
      modifies this`stored, this`objects
      ensures ok <==> forall i | 0 <= i < |orphans| :: !Sticks(old(Now()), orphans[i], deletes)
      ensures done <= |orphans| && (ok <==> done == |orphans|)
      ensures forall i | 0 <= i < done :: !Sticks(old(Now()), orphans[i], deletes)
      ensures !ok ==> Sticks(old(Now()), orphans[done], deletes)
      ensures taken == Takes(old(Now()), orphans[..done]) && Now() == Without(old(Now()), taken)
      ensures reclaimed == Estimate(old(Now()), orphans[..done])
      ensures Freed(old(Now()), Now(), reclaimed) && NothingLost(old(Now()), Now())
      ensures ok ==>
        && reclaimed == Estimate(old(Now()), orphans)
        && AllReclaimable(old(Now()), taken) && Cleaned(Now())
    {
      ghost var s := Now();
      reclaimed, done := ReclaimEach(orphans, deletes);
      ReclaimEnds(s, orphans, done);
      ok, taken := done == |orphans|, Takes(s, orphans[..done]);
    }
  }
}
