/** The items of one collection and their order. */
module Collections {
  import opened Text
  import opened Wrappers

  datatype ItemKey = ItemKey(kind: string, core: string)

  /** An item of a reorder request, as the client spells it. */
  datatype Placement = Placement(kind: string, core: string, position: int)

  datatype CollectionError = NotFound | BadRequest | OutOfRange

  /** Positions are INTEGER columns. */
  const MAX_POSITION := 0x7FFF_FFFF

  datatype Entry = Entry(key: ItemKey, position: int)

  /** What the request means: kinds trimmed, links cut down to their cores. */
  function Resolved(input: seq<Placement>): (r: seq<Entry>)
    ensures |r| == |input|
  {
    seq(|input|, i requires 0 <= i < |input| =>
      Entry(ItemKey(Trim(input[i].kind), Before(input[i].core, '.')), input[i].position))
  }

  function Keys(entries: seq<Entry>): set<ItemKey> {
    set i | 0 <= i < |entries| :: entries[i].key
  }

  /** No two items share a position, and none is negative. */
  predicate WellPlaced(items: map<ItemKey, int>) {
    && (forall k | k in items :: 0 <= items[k] <= MAX_POSITION)
    && (forall k, l | k in items && l in items && items[k] == items[l] :: k == l)
  }

  predicate DistinctKeys(entries: seq<Entry>) {
    forall i, j | 0 <= i < j < |entries| :: entries[i].key != entries[j].key
  }

  predicate DistinctPositions(entries: seq<Entry>) {
    forall i, j | 0 <= i < j < |entries| :: entries[i].position != entries[j].position
  }

  /** Each member exactly once, at distinct positions that are not negative. */
  predicate NamesEachOnce(items: map<ItemKey, int>, entries: seq<Entry>) {
    && Keys(entries) == items.Keys && DistinctKeys(entries) && DistinctPositions(entries)
    && forall i | 0 <= i < |entries| :: 0 <= entries[i].position
  }

  predicate FitColumn(entries: seq<Entry>) {
    forall i | 0 <= i < |entries| :: entries[i].position <= MAX_POSITION
  }

  lemma KeysSplit(entries: seq<Entry>)
    requires entries != []
    ensures Keys(entries) == Keys(entries[..|entries| - 1]) + {entries[|entries| - 1].key}
  {
    var init := entries[..|entries| - 1];
    forall k | k in Keys(entries)
      ensures k in Keys(init) || k == entries[|entries| - 1].key
    {
      var i :| 0 <= i < |entries| && entries[i].key == k;
      if i < |init| {
        assert init[i].key == k;
      }
    }
    forall k | k in Keys(init)
      ensures k in Keys(entries)
    {
      var i :| 0 <= i < |init| && init[i].key == k;
      assert entries[i].key == k;
    }
  }

  lemma {:induction false} DistinctCount(entries: seq<Entry>)
    requires DistinctKeys(entries)
    ensures |Keys(entries)| == |entries|
  {
    if entries != [] {
      DistinctCount(entries[..|entries| - 1]);
      KeysSplit(entries);
      assert entries[|entries| - 1].key !in Keys(entries[..|entries| - 1]);
    }
  }

  lemma {:induction false} SubsetOfEqualSize<T>(a: set<T>, b: set<T>)
    requires a <= b && |a| >= |b|
    ensures a == b
  {
    if a == {} {
      assert |b| == 0;
    } else {
      var x :| x in a;
      SubsetOfEqualSize(a - {x}, b - {x});
    }
  }

  /** As many distinct keys as there are members, all of them members, are the members. */
  lemma Pigeonhole(items: map<ItemKey, int>, entries: seq<Entry>)
    requires |entries| == |items| && DistinctKeys(entries)
    requires forall i | 0 <= i < |entries| :: entries[i].key in items
    ensures Keys(entries) == items.Keys
  {
    DistinctCount(entries);
    SubsetOfEqualSize(Keys(entries), items.Keys);
  }

  /** Naming each member once is naming members only, none twice, and as many as there are. */
  lemma AcceptedOnce(items: map<ItemKey, int>, entries: seq<Entry>)
    ensures NamesEachOnce(items, entries) <==>
      && |entries| == |items| && DistinctKeys(entries) && DistinctPositions(entries)
      && (forall i | 0 <= i < |entries| :: entries[i].key in items)
      && (forall i | 0 <= i < |entries| :: 0 <= entries[i].position)
  {
    if DistinctKeys(entries) {
      DistinctCount(entries);
      if |entries| == |items| && forall i | 0 <= i < |entries| :: entries[i].key in items {
        Pigeonhole(items, entries);
      }
      forall i | 0 <= i < |entries|
        ensures entries[i].key in Keys(entries)
      {
      }
    }
  }

  /** The UPDATEs of the request, one by one. */
  function Placed(items: map<ItemKey, int>, entries: seq<Entry>): map<ItemKey, int> {
    if entries == [] then items
    else
      var last := entries[|entries| - 1];
      Placed(items, entries[..|entries| - 1])[last.key := last.position]
  }

  lemma {:induction false} PlacedKeys(items: map<ItemKey, int>, entries: seq<Entry>)
    ensures Placed(items, entries).Keys == items.Keys + Keys(entries)
  {
    if entries != [] {
      PlacedKeys(items, entries[..|entries| - 1]);
      KeysSplit(entries);
    }
  }

  /** With distinct keys each item gets the one position the request gives it. */
  lemma {:induction false} PlacedGives(items: map<ItemKey, int>, entries: seq<Entry>, i: nat)
    requires DistinctKeys(entries) && i < |entries|
    ensures entries[i].key in Placed(items, entries) && Placed(items, entries)[entries[i].key] == entries[i].position
  {
    if i < |entries| - 1 {
      PlacedGives(items, entries[..|entries| - 1], i);
    }
  }

  /** An accepted request leaves the same items, each at the position it asks for, well placed whatever came before. */
  lemma AcceptedIsWellPlaced(items: map<ItemKey, int>, entries: seq<Entry>)
    requires NamesEachOnce(items, entries) && FitColumn(entries)
    ensures WellPlaced(Placed(items, entries)) && Placed(items, entries).Keys == items.Keys
    ensures forall i | 0 <= i < |entries| ::
      entries[i].key in items && Placed(items, entries)[entries[i].key] == entries[i].position
  {
    PlacedKeys(items, entries);
    forall i | 0 <= i < |entries| {
      PlacedGives(items, entries, i);
    }
    var placed := Placed(items, entries);
    forall k | k in placed
      ensures exists i :: 0 <= i < |entries| && entries[i].key == k && placed[k] == entries[i].position
    {
      assert k in Keys(entries);
    }
  }

  /** The item a placement means: its kind without the space around it, its core up to the first dot. */
  predicate Means(p: Placement, key: ItemKey) {
    key.kind == Trim(p.kind) && key.core == Before(p.core, '.')
  }

  /** A request names each member once, at positions that differ and fit a column that is not negative. */
  predicate AsksRightly(items: map<ItemKey, int>, input: seq<Placement>) {
    && |input| == |items|
    && (forall i | 0 <= i < |input| :: exists key | key in items :: Means(input[i], key))
    && (forall i, j, key | 0 <= i < j < |input| && key in items :: !(Means(input[i], key) && Means(input[j], key)))
    && (forall i, j | 0 <= i < j < |input| :: input[i].position != input[j].position)
    && (forall i | 0 <= i < |input| :: 0 <= input[i].position <= 0x7FFF_FFFF)
  }

  /** The item that a placement names stands where the placement says. */
  predicate StandsAsAsked(items: map<ItemKey, int>, input: seq<Placement>) {
    forall i, key | 0 <= i < |input| && key in items && Means(input[i], key) :: items[key] == input[i].position
  }

  lemma ResolvedAt(input: seq<Placement>, i: nat, key: ItemKey)
    requires i < |input|
    ensures Means(input[i], key) <==> Resolved(input)[i].key == key
    ensures Resolved(input)[i].position == input[i].position
  {
  }

  lemma SameKeys(items: map<ItemKey, int>, input: seq<Placement>, entries: seq<Entry>)
    requires |entries| == |input| && forall i | 0 <= i < |input| :: entries[i].position == input[i].position
    requires forall i, key | 0 <= i < |input| :: Means(input[i], key) <==> entries[i].key == key
    ensures AsksRightly(items, input) <==>
      && |entries| == |items| && DistinctKeys(entries) && DistinctPositions(entries) && FitColumn(entries)
      && (forall i | 0 <= i < |entries| :: entries[i].key in items)
      && (forall i | 0 <= i < |entries| :: 0 <= entries[i].position)
  {
    if AsksRightly(items, input) {
      forall i | 0 <= i < |entries|
        ensures entries[i].key in items
      {
        var key :| key in items && Means(input[i], key);
      }
      forall i, j | 0 <= i < j < |entries|
        ensures entries[i].key != entries[j].key
      {
        assert Means(input[i], entries[i].key) && Means(input[j], entries[j].key);
      }
    } else if forall i | 0 <= i < |entries| :: entries[i].key in items {
      forall i | 0 <= i < |input|
        ensures exists key | key in items :: Means(input[i], key)
      {
        assert Means(input[i], entries[i].key);
      }
    }
  }

  lemma AskedIsAccepted(items: map<ItemKey, int>, input: seq<Placement>)
    ensures AsksRightly(items, input) <==> NamesEachOnce(items, Resolved(input)) && FitColumn(Resolved(input))
  {
    var entries := Resolved(input);
    AcceptedOnce(items, entries);
    forall i, key | 0 <= i < |input|
      ensures Means(input[i], key) <==> entries[i].key == key
      ensures entries[i].position == input[i].position
    {
      ResolvedAt(input, i, key);
    }
    SameKeys(items, input, entries);
  }

  lemma AcceptedStands(items: map<ItemKey, int>, input: seq<Placement>)
    requires NamesEachOnce(items, Resolved(input)) && FitColumn(Resolved(input))
    ensures var placed := Placed(items, Resolved(input));
      WellPlaced(placed) && placed.Keys == items.Keys && StandsAsAsked(placed, input)
  {
    AcceptedIsWellPlaced(items, Resolved(input));
    forall i, key | 0 <= i < |input| && Means(input[i], key)
      ensures Resolved(input)[i].key == key && Resolved(input)[i].position == input[i].position
    {
      ResolvedAt(input, i, key);
    }
  }

  predicate Follows(items: map<ItemKey, int>, position: int) {
    && 0 <= position
    && (forall k | k in items :: items[k] < position)
    && (items == map[] ==> position == 0)
    && (items != map[] ==> exists k | k in items :: items[k] + 1 == position)
  }

  class Collection {
    var items: map<ItemKey, int>

    constructor ()
      ensures items == map[] && WellPlaced(items)
    {
      items := map[];
    }

    /** `COALESCE(MAX(position), -1) + 1`. */
    method NextPosition() returns (position: int)
      requires WellPlaced(items)
      ensures Follows(items, position)
    {
      var max := -1;
      var rest := items.Keys;
      while rest != {}
        invariant rest <= items.Keys && max >= -1
        invariant forall k | k in items && k !in rest :: items[k] <= max
        invariant max >= 0 ==> exists k | k in items :: items[k] == max
        invariant max == -1 ==> rest == items.Keys
        decreases rest
      {
        var k :| k in rest;
        if items[k] > max {
          max := items[k];
        }
        rest := rest - {k};
      }
      position := max + 1;
      assert items != map[] ==> items.Keys != {};
    }

    /** A live item goes to the end; one that is a member stays where it is, whatever position the answer reports. */
    method AddItem(live: Option<ItemKey>) returns (r: Result<int, CollectionError>)
      requires WellPlaced(items)
      modifies this`items
      ensures WellPlaced(items)
      ensures r.Success? ==>
        && live.Some? && Follows(old(items), r.value)
        && items == (if live.value in old(items) then old(items) else old(items)[live.value := r.value])
        && (items[live.value] == r.value <==> live.value !in old(items))
      ensures r.Success? <==> live.Some? && forall k | k in old(items) :: old(items)[k] < 0x7FFF_FFFF
      ensures r.Failure? ==> items == old(items)
    {
      if live.None? {
        return Failure(NotFound);
      }
      var position := NextPosition();
      if position > MAX_POSITION {
        return Failure(OutOfRange);
      }
      if live.value !in items {
        items := items[live.value := position];
      }
      return Success(position);
    }

    method RemoveItem(kind: string, core: string) returns (r: Result<(), CollectionError>)
      requires WellPlaced(items)
      modifies this`items
      ensures WellPlaced(items)
      ensures var key := ItemKey(Trim(kind), Before(core, '.'));
        && (r.Success? <==> key in old(items) && (key.kind == "file" || key.kind == "paste"))
        && items == (if r.Success? then old(items) - {key} else old(items))
    {
      var key := ItemKey(Trim(kind), Before(core, '.'));
      if key.kind != "file" && key.kind != "paste" {
        return Failure(BadRequest);
      }
      if key !in items {
        return Failure(NotFound);
      }
      items := items - {key};
      return Success(());
    }

    /** The checks of `reorder` before it updates anything. */
    method Check(entries: seq<Entry>) returns (ok: bool)
      ensures ok <==> NamesEachOnce(items, entries)
    {
      if |entries| != |items| {
        if DistinctKeys(entries) { DistinctCount(entries); }
        return false;
      }
      var suppliedKeys: set<ItemKey>, suppliedPositions: set<int> := {}, {};
      for i := 0 to |entries|
        invariant suppliedKeys == Keys(entries[..i])
        invariant forall p :: p in suppliedPositions <==> exists j :: 0 <= j < i && entries[j].position == p
        invariant DistinctKeys(entries[..i]) && DistinctPositions(entries[..i])
        invariant forall j | 0 <= j < i :: 0 <= entries[j].position && entries[j].key in items
      {
        var entry := entries[i];
        assert entry.key in Keys(entries);
        if entry.position < 0 || entry.key !in items
          || entry.key in suppliedKeys || entry.position in suppliedPositions
        {
          assert entry.key in suppliedKeys ==> exists j :: 0 <= j < i && entries[..i][j].key == entry.key;
          return false;
        }
        KeysSplit(entries[..i + 1]);
        assert entries[..i + 1][..i] == entries[..i];
        suppliedKeys, suppliedPositions := suppliedKeys + {entry.key}, suppliedPositions + {entry.position};
      }
      assert entries[..|entries|] == entries;
      Pigeonhole(items, entries);
      return true;
    }

    /** The UPDATEs, inside the transaction: one that does not fit its column undoes them all. */
    method PlaceAll(entries: seq<Entry>) returns (fits: bool)
      modifies this`items
      ensures fits <==> FitColumn(entries)
      ensures items == if fits then Placed(old(items), entries) else old(items)
    {
      var updated := items;
      for i := 0 to |entries|
        invariant updated == Placed(items, entries[..i]) && items == old(items)
        invariant FitColumn(entries[..i])
      {
        if entries[i].position > MAX_POSITION {
          return false;
        }
        assert entries[..i + 1][..i] == entries[..i];
        updated := updated[entries[i].key := entries[i].position];
      }
      assert entries[..|entries|] == entries;
      items := updated;
      return true;
    }

    /**
     * Accepted exactly when each member is named once, with positions that differ, fit their column and are not
     * negative; then the same items are there, and the one that a placement names stands where the placement says.
     */
    method Reorder(input: seq<Placement>) returns (r: Result<(), CollectionError>)
      requires WellPlaced(items)
      modifies this`items
      ensures WellPlaced(items)
      ensures r.Success? <==> AsksRightly(old(items), input)
      ensures r.Success? ==> items.Keys == old(items).Keys && StandsAsAsked(items, input)
      ensures r.Failure? ==> items == old(items)
    {
      var entries := Resolved(input);
      AskedIsAccepted(items, input);
      var ok := Check(entries);
      if !ok {
        return Failure(BadRequest);
      }
      ok := PlaceAll(entries);
      if !ok {
        return Failure(OutOfRange);
      }
      AcceptedStands(old(items), input);
      return Success(());
    }
  }
}
