/** Ordering the parts of a multipart upload, and what the completed object is. */
module Multipart {
  import opened ByteStrings

  function Insert(x: nat, s: seq<nat>): seq<nat> {
    if s == [] || x <= s[0] then [x] + s else [s[0]] + Insert(x, s[1..])
  }

  /** The completed parts ordered by part number (`sort_by_key`). */
  function SortParts(s: seq<nat>): seq<nat> {
    if s == [] then [] else Insert(s[0], SortParts(s[1..]))
  }

  predicate Increasing(s: seq<nat>) {
    forall i, j | 0 <= i < j < |s| :: s[i] < s[j]
  }

  predicate Distinct(s: seq<nat>) {
    forall i, j | 0 <= i < j < |s| :: s[i] != s[j]
  }

  function Numbers(n: nat): (r: seq<nat>)
    ensures |r| == n
  {
    seq(n, i => i + 1)
  }

  lemma {:induction false} InsertKeeps(x: nat, s: seq<nat>)
    requires Increasing(s) && x !in s
    ensures Increasing(Insert(x, s))
    ensures forall y :: y in Insert(x, s) <==> y == x || y in s
  {
    if s != [] && x > s[0] {
      assert s == [s[0]] + s[1..];
      InsertKeeps(x, s[1..]);
      var rest := Insert(x, s[1..]);
      forall j | 0 <= j < |rest|
        ensures s[0] < rest[j]
      {
        assert rest[j] in rest;
      }
    }
  }

  lemma {:induction false} SortOrders(s: seq<nat>)
    requires Distinct(s)
    ensures Increasing(SortParts(s))
    ensures forall y :: y in SortParts(s) <==> y in s
  {
    if s != [] {
      assert s == [s[0]] + s[1..];
      SortOrders(s[1..]);
      InsertKeeps(s[0], SortParts(s[1..]));
    }
  }

  lemma HeadIsMember(s: seq<nat>)
    requires s != []
    ensures s[0] in s
  {
  }

  /** The largest of `n` is the last, and the rest are the others. */
  lemma LastIsLargest(init: seq<nat>, last: nat, n: nat)
    requires Increasing(init + [last]) && n > 0 && forall x :: x in init + [last] <==> 1 <= x <= n
    ensures last == n && forall x :: x in init <==> 1 <= x <= n - 1
  {
    var s := init + [last];
    assert n in s;
    var j :| 0 <= j < |s| && s[j] == n;
    assert s[|init|] in s;
    forall x
      ensures x in init <==> 1 <= x <= n - 1
    {
      assert x in s <==> x in init || x == n;
      if x in init {
        var i :| 0 <= i < |init| && init[i] == x;
        assert s[i] in s && s[i] < s[|init|];
      }
    }
  }

  lemma {:induction false} IncreasingIsNumbers(s: seq<nat>, n: nat)
    requires Increasing(s) && forall x :: x in s <==> 1 <= x <= n
    ensures s == Numbers(n)
  {
    if n == 0 {
      if s != [] {
        HeadIsMember(s);
        assert false;
      }
    } else {
      assert n in s;
      var init, last := s[..|s| - 1], s[|s| - 1];
      assert s == init + [last];
      LastIsLargest(init, last, n);
      IncreasingIsNumbers(init, n - 1);
    }
  }

  /** In whatever order the parts completed, sorting lists them 1 to `n`, once each. */
  lemma SortedCompletions(etags: seq<nat>, n: nat)
    requires Distinct(etags) && forall x :: x in etags <==> 1 <= x <= n
    ensures SortParts(etags) == Numbers(n)
  {
    SortOrders(etags);
    IncreasingIsNumbers(SortParts(etags), n);
  }

  /**
   * Parts 1 to `partNo` have been started; each is in flight, or is listed and has uploaded its own piece.
   * `accepts` says which part uploads the backend lets through.
   */
  ghost predicate PartsInv(parts: seq<Bytes>, accepts: nat -> bool, partNo: nat, inFlight: set<nat>, etags: seq<nat>,
                           uploaded: map<nat, Bytes>)
  {
    && partNo <= |parts|
    && Distinct(etags)
    && (forall no :: no in etags || no in inFlight <==> 1 <= no <= partNo)
    && (forall no | no in etags :: no !in inFlight)
    && (forall no | no in etags :: accepts(no) && no in uploaded && uploaded[no] == parts[no - 1])
  }

  lemma PartStarts(parts: seq<Bytes>, accepts: nat -> bool, partNo: nat, inFlight: set<nat>, etags: seq<nat>,
                   uploaded: map<nat, Bytes>)
    requires PartsInv(parts, accepts, partNo, inFlight, etags, uploaded) && partNo < |parts|
    ensures PartsInv(parts, accepts, partNo + 1, inFlight + {partNo + 1}, etags, uploaded)
  {
    assert !(partNo + 1 in etags || partNo + 1 in inFlight);
  }

  lemma PartJoins(parts: seq<Bytes>, accepts: nat -> bool, partNo: nat, inFlight: set<nat>, etags: seq<nat>,
                  uploaded: map<nat, Bytes>, no: nat)
    requires PartsInv(parts, accepts, partNo, inFlight, etags, uploaded)
    requires no in inFlight && accepts(no)
    ensures 1 <= no <= |parts|
    ensures PartsInv(parts, accepts, partNo, inFlight - {no}, etags + [no], uploaded[no := parts[no - 1]])
  {
    forall n
      ensures n in etags + [no] <==> n in etags || n == no
    {
    }
  }

  /** The object S3 assembles from the uploaded parts, in the order listed. */
  function Assemble(uploaded: map<nat, Bytes>, listed: seq<nat>): Bytes
    requires forall no | no in listed :: no in uploaded
  {
    if listed == [] then [] else Assemble(uploaded, listed[..|listed| - 1]) + uploaded[listed[|listed| - 1]]
  }

  lemma {:induction false} AssembleNumbers(uploaded: map<nat, Bytes>, parts: seq<Bytes>, n: nat)
    requires n <= |parts|
    requires forall no | 1 <= no <= n :: no in uploaded && uploaded[no] == parts[no - 1]
    ensures Assemble(uploaded, Numbers(n)) == Flatten(parts[..n])
  {
    if n > 0 {
      AssembleNumbers(uploaded, parts, n - 1);
      assert Numbers(n)[..n - 1] == Numbers(n - 1);
      assert parts[..n] == parts[..n - 1] + [parts[n - 1]];
      FlattenAppend(parts[..n - 1], [parts[n - 1]]);
      assert Flatten([parts[n - 1]]) == parts[n - 1] + Flatten([]);
    }
  }
}
