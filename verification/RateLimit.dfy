/** The anonymous upload throttle: a sliding window of admitted hits for each address. */
module RateLimit {

  type Address = nat

  /** `now.duration_since(t)`, which is zero for a later `t`. */
  function Age(now: nat, t: nat): nat {
    if now >= t then now - t else 0
  }

  /** `retain`: the hits younger than the window, in order. */
  function Recent(hits: seq<nat>, now: nat, window: nat): (r: seq<nat>)
    ensures |r| <= |hits|
  {
    if hits == [] then []
    else
      var rest := Recent(hits[..|hits| - 1], now, window);
      if Age(now, hits[|hits| - 1]) < window then rest + [hits[|hits| - 1]] else rest
  }

  /** One check of one address: what its list becomes, and the answer. */
  function Checked(hits: seq<nat>, now: nat, max: nat, window: nat): (seq<nat>, bool) {
    var recent := Recent(hits, now, window);
    if |recent| >= max then (recent, false) else (recent + [now], true)
  }

  predicate Ordered(hits: seq<nat>) {
    forall i, j | 0 <= i <= j < |hits| :: hits[i] <= hits[j]
  }

  /** No `max` + 1 of the hits lie within less than one window. */
  predicate Spaced(hits: seq<nat>, max: nat, window: nat) {
    forall i, j | 0 <= i <= j < |hits| && j - i >= max :: hits[j] - hits[i] >= window
  }

  /** Pruning twice, the second time no earlier, is pruning once. */
  lemma {:induction false} RecentTwice(hits: seq<nat>, earlier: nat, now: nat, window: nat)
    requires earlier <= now && forall t | t in hits :: t <= earlier
    ensures Recent(Recent(hits, earlier, window), now, window) == Recent(hits, now, window)
  {
    if hits != [] {
      var init, last := hits[..|hits| - 1], hits[|hits| - 1];
      assert last in hits && forall t | t in init :: t in hits;
      RecentTwice(init, earlier, now, window);
      if Age(earlier, last) < window {
        var pruned := Recent(init, earlier, window);
        assert (pruned + [last])[..|pruned|] == pruned;
      }
    }
  }

  /** In an ordered history, a recent hit means that all after it are recent too. */
  lemma {:induction false} RecentSuffix(hits: seq<nat>, now: nat, window: nat, i: nat)
    requires Ordered(hits) && i < |hits| && forall t | t in hits :: t <= now
    requires Age(now, hits[i]) < window
    ensures |Recent(hits, now, window)| >= |hits| - i
  {
    var init, last := hits[..|hits| - 1], |hits| - 1;
    assert hits[last] in hits && hits[i] <= hits[last] <= now;
    if i < last {
      assert forall t | t in init :: t in hits;
      RecentSuffix(init, now, window, i);
    }
  }

  /** Admitting a hit while fewer than `max` are recent keeps the history spaced. */
  lemma AdmissionKeepsSpacing(hits: seq<nat>, now: nat, max: nat, window: nat)
    requires Ordered(hits) && Spaced(hits, max, window) && forall t | t in hits :: t <= now
    requires |Recent(hits, now, window)| < max
    ensures Spaced(hits + [now], max, window)
  {
    var after := hits + [now];
    forall i, j | 0 <= i <= j < |after| && j - i >= max
      ensures after[j] - after[i] >= window
    {
      if j == |hits| {
        assert i < |hits| && hits[i] in hits;
        if Age(now, hits[i]) < window {
          RecentSuffix(hits, now, window, i);
        }
      }
    }
  }

  lemma RecentAppend(hits: seq<nat>, hit: nat, now: nat, window: nat)
    ensures Recent(hits + [hit], now, window)
            == Recent(hits, now, window) + if Age(now, hit) < window then [hit] else []
  {
    assert (hits + [hit])[..|hits|] == hits;
  }

  lemma {:induction false} RecentIsOld(hits: seq<nat>, now: nat, window: nat)
    ensures forall t | t in Recent(hits, now, window) :: t in hits
  {
    if hits != [] {
      RecentIsOld(hits[..|hits| - 1], now, window);
    }
  }

  /** Both lists have the same recent hits at any time from `start` on. */
  ghost predicate Agree(hits: seq<nat>, admitted: seq<nat>, start: nat, window: nat) {
    forall now: nat | start <= now :: Recent(hits, now, window) == Recent(admitted, now, window)
  }

  predicate AllBefore(hits: seq<nat>, now: nat) {
    forall t | t in hits :: t <= now
  }

  lemma PrunedAgrees(hits: seq<nat>, admitted: seq<nat>, latest: nat, now: nat, window: nat)
    requires Agree(hits, admitted, latest, window) && latest <= now && AllBefore(hits, now)
    ensures Agree(Recent(hits, now, window), admitted, now, window)
  {
    forall later: nat | now <= later
      ensures Recent(Recent(hits, now, window), later, window) == Recent(admitted, later, window)
    {
      RecentTwice(hits, now, later, window);
    }
  }

  lemma ExtendedAgree(hits: seq<nat>, admitted: seq<nat>, now: nat, window: nat)
    requires Agree(hits, admitted, now, window)
    ensures Agree(hits + [now], admitted + [now], now, window)
  {
    forall later: nat | now <= later
      ensures Recent(hits + [now], later, window) == Recent(admitted + [now], later, window)
    {
      RecentAppend(hits, now, later, window);
      RecentAppend(admitted, now, later, window);
    }
  }

  /** `hits` is as good as the full history `admitted`, for every check from `latest` on. */
  ghost predicate Stands(hits: seq<nat>, admitted: seq<nat>, latest: nat, max: nat, window: nat) {
    && Ordered(admitted) && Spaced(admitted, max, window)
    && AllBefore(admitted, latest) && AllBefore(hits, latest)
    && Agree(hits, admitted, latest, window)
  }

  lemma StandsLater(hits: seq<nat>, admitted: seq<nat>, latest: nat, now: nat, max: nat, window: nat)
    requires Stands(hits, admitted, latest, max, window) && latest <= now
    ensures Stands(hits, admitted, now, max, window)
  {
  }

  lemma PrunedStands(hits: seq<nat>, admitted: seq<nat>, latest: nat, now: nat, max: nat, window: nat)
    requires Stands(hits, admitted, latest, max, window) && latest <= now
    ensures Stands(Recent(hits, now, window), admitted, now, max, window)
    ensures Recent(hits, now, window) == Recent(admitted, now, window)
  {
    RecentIsOld(hits, now, window);
    PrunedAgrees(hits, admitted, latest, now, window);
  }

  lemma AdmittedStands(recent: seq<nat>, admitted: seq<nat>, now: nat, max: nat, window: nat)
    requires Stands(recent, admitted, now, max, window) && |Recent(admitted, now, window)| < max
    ensures Stands(recent + [now], admitted + [now], now, max, window)
  {
    ExtendedAgree(recent, admitted, now, window);
    AdmissionKeepsSpacing(admitted, now, max, window);
    forall i | 0 <= i < |admitted|
      ensures admitted[i] <= now
    {
      assert admitted[i] in admitted;
    }
  }

  /** The refinement step: the pruned list answers as the full history would, and goes on doing so. */
  lemma CheckedStands(hits: seq<nat>, admitted: seq<nat>, latest: nat, now: nat, max: nat, window: nat)
    requires Stands(hits, admitted, latest, max, window) && latest <= now
    ensures var (hits', allowed) := Checked(hits, now, max, window);
      && (allowed <==> |Recent(admitted, now, window)| < max)
      && Stands(hits', if allowed then admitted + [now] else admitted, now, max, window)
  {
    PrunedStands(hits, admitted, latest, now, max, window);
    if |Recent(hits, now, window)| < max {
      AdmittedStands(Recent(hits, now, window), admitted, now, max, window);
    }
  }

  // ---- A whole history of checks ----

  /** The list of an address, and every hit ever admitted for it. */
  datatype Limiter = Limiter(hits: seq<nat>, admitted: seq<nat>)

  /** What checks at these times leave, in the order in which they reach the list. */
  function After(times: seq<nat>, max: nat, window: nat): Limiter {
    if times == [] then Limiter([], [])
    else
      var before, now := After(times[..|times| - 1], max, window), times[|times| - 1];
      var (hits, allowed) := Checked(before.hits, now, max, window);
      Limiter(hits, if allowed then before.admitted + [now] else before.admitted)
  }

  lemma AfterNext(times: seq<nat>, now: nat, max: nat, window: nat)
    ensures var before := After(times, max, window);
      var (hits, allowed) := Checked(before.hits, now, max, window);
      After(times + [now], max, window)
      == Limiter(hits, if allowed then before.admitted + [now] else before.admitted)
  {
    assert (times + [now])[..|times|] == times;
  }

  /** The hits in the window that begins at `from`, in whatever order they are listed. */
  function CountIn(hits: seq<nat>, from: nat, window: nat): nat {
    if hits == [] then 0
    else
      var last := hits[|hits| - 1];
      CountIn(hits[..|hits| - 1], from, window) + if from <= last < from + window then 1 else 0
  }

  /** The promise of the throttle: no window of time has more than `max` admitted hits. */
  ghost predicate Bounded(hits: seq<nat>, max: nat, window: nat) {
    forall from: nat :: CountIn(hits, from, window) <= max
  }

  /** No check reaches the list more than `skew` after a later one. */
  predicate Skewed(times: seq<nat>, skew: nat) {
    forall i, j | 0 <= i <= j < |times| :: times[i] <= times[j] + skew
  }

  // ---- Checks in order ----

  lemma {:induction false} OrderedStands(times: seq<nat>, latest: nat, max: nat, window: nat)
    requires Ordered(times) && AllBefore(times, latest)
    ensures var l := After(times, max, window); Stands(l.hits, l.admitted, latest, max, window)
  {
    if times != [] {
      var init, now := times[..|times| - 1], times[|times| - 1];
      assert now in times;
      forall t | t in init
        ensures t <= now
      {
        var i :| 0 <= i < |init| && init[i] == t;
        assert times[i] <= times[|times| - 1];
      }
      OrderedStands(init, now, max, window);
      var before := After(init, max, window);
      CheckedStands(before.hits, before.admitted, now, now, max, window);
      var l := After(times, max, window);
      StandsLater(l.hits, l.admitted, now, latest, max, window);
    }
  }

  lemma OrderedInit(times: seq<nat>, now: nat)
    requires Ordered(times + [now])
    ensures Ordered(times)
  {
    forall i, j | 0 <= i <= j < |times|
      ensures times[i] <= times[j]
    {
      assert (times + [now])[i] <= (times + [now])[j];
    }
  }

  /** A check that is not earlier than those before it is answered by the whole history. */
  lemma CheckOrdered(times: seq<nat>, now: nat, max: nat, window: nat)
    requires Ordered(times + [now])
    ensures var l := After(times, max, window);
      |Recent(l.hits, now, window)| < max <==> |Recent(l.admitted, now, window)| < max
  {
    forall i | 0 <= i < |times|
      ensures times[i] <= now
    {
      assert (times + [now])[i] <= (times + [now])[|times|];
    }
    OrderedInit(times, now);
    OrderedStands(times, now, max, window);
    var l := After(times, max, window);
    CheckedStands(l.hits, l.admitted, now, now, max, window);
  }

  /** Hits before the window are not in it. */
  lemma {:induction false} CountLater(hits: seq<nat>, from: nat, window: nat, i: nat)
    requires i <= |hits| && forall j | 0 <= j < i :: hits[j] < from
    ensures CountIn(hits, from, window) <= |hits| - i
  {
    if hits != [] {
      CountLater(hits[..|hits| - 1], from, window, if i == |hits| then i - 1 else i);
    }
  }

  lemma {:induction false} SpacedIsBounded(hits: seq<nat>, max: nat, window: nat, from: nat)
    requires Ordered(hits) && Spaced(hits, max, window)
    ensures CountIn(hits, from, window) <= max
  {
    if |hits| <= max {
      CountLater(hits, from, window, 0);
    } else if from <= hits[|hits| - 1] < from + window {
      CountLater(hits, from, window, |hits| - max);
    } else {
      SpacedIsBounded(hits[..|hits| - 1], max, window, from);
    }
  }

  lemma OrderedIsBounded(times: seq<nat>, max: nat, window: nat)
    requires Ordered(times)
    ensures Bounded(After(times, max, window).admitted, max, window)
  {
    var latest := if times == [] then 0 else times[|times| - 1];
    OrderedStands(times, latest, max, window);
    forall from: nat
      ensures CountIn(After(times, max, window).admitted, from, window) <= max
    {
      SpacedIsBounded(After(times, max, window).admitted, max, window, from);
    }
  }

  // ---- Checks in any order ----

  function LastOnly(hits: seq<nat>): seq<nat> {
    if hits == [] then [] else [hits[|hits| - 1]]
  }

  lemma LastRecent(hits: seq<nat>, now: nat, window: nat)
    ensures Recent(LastOnly(hits), now, window)
            == if hits != [] && Age(now, hits[|hits| - 1]) < window then LastOnly(hits) else []
  {
    if hits != [] {
      RecentAppend([], hits[|hits| - 1], now, window);
      assert [] + [hits[|hits| - 1]] == LastOnly(hits);
    }
  }

  /** A hit a window after the last one. */
  lemma SpacedNext(hits: seq<nat>, now: nat, window: nat)
    requires Ordered(hits) && Spaced(hits, 1, window) && (hits != [] ==> now - hits[|hits| - 1] >= window)
    ensures Ordered(hits + [now]) && Spaced(hits + [now], 1, window)
  {
    forall i, j | 0 <= i <= j < |hits + [now]|
      ensures (hits + [now])[i] <= (hits + [now])[j]
      ensures j - i >= 1 ==> (hits + [now])[j] - (hits + [now])[i] >= window
    {
      if i < j == |hits| {
        assert hits[i] <= hits[|hits| - 1];
      }
    }
  }

  lemma SingleStep(admitted: seq<nat>, now: nat, window: nat)
    requires window > 0 && Ordered(admitted) && Spaced(admitted, 1, window)
    ensures var (hits, allowed) := Checked(LastOnly(admitted), now, 1, window);
      var admitted' := if allowed then admitted + [now] else admitted;
      hits == LastOnly(admitted') && Ordered(admitted') && Spaced(admitted', 1, window)
  {
    LastRecent(admitted, now, window);
    if admitted == [] || Age(now, admitted[|admitted| - 1]) >= window {
      SpacedNext(admitted, now, window);
    }
  }

  /** With a limit of one the list is the last admitted hit alone, so the next is a window later in any order. */
  lemma {:induction false} SingleFile(times: seq<nat>, window: nat)
    requires window > 0
    ensures var l := After(times, 1, window);
      l.hits == LastOnly(l.admitted) && Ordered(l.admitted) && Spaced(l.admitted, 1, window)
  {
    if times != [] {
      SingleFile(times[..|times| - 1], window);
      SingleStep(After(times[..|times| - 1], 1, window).admitted, times[|times| - 1], window);
    }
  }

  lemma {:induction false} NoneAllowed(times: seq<nat>, window: nat)
    ensures After(times, 0, window).admitted == []
  {
    if times != [] {
      NoneAllowed(times[..|times| - 1], window);
    }
  }

  lemma {:induction false} NoWindow(hits: seq<nat>, from: nat)
    ensures CountIn(hits, from, 0) == 0
  {
    if hits != [] {
      NoWindow(hits[..|hits| - 1], from);
    }
  }

  lemma AnyOrderIsBounded(times: seq<nat>, max: nat, window: nat)
    requires max <= 1 || window == 0
    ensures Bounded(After(times, max, window).admitted, max, window)
  {
    var admitted := After(times, max, window).admitted;
    forall from: nat
      ensures CountIn(admitted, from, window) <= max
    {
      if window == 0 {
        NoWindow(admitted, from);
      } else if max == 0 {
        NoneAllowed(times, window);
      } else {
        SingleFile(times, window);
        SpacedIsBounded(admitted, max, window, from);
      }
    }
  }

  /** `n` checks at the same time, none of them refused. */
  lemma {:induction false} Burst(n: nat, max: nat, window: nat)
    requires n <= max && window > 0
    ensures After(seq(n, _ => 0), max, window) == Limiter(seq(n, _ => 0), seq(n, _ => 0))
    ensures Recent(seq(n, _ => 0), 0, window) == seq(n, _ => 0) && Recent(seq(n, _ => 0), window, window) == []
    ensures CountIn(seq(n, _ => 0), 0, window) == n
  {
    if n > 0 {
      Burst(n - 1, max, window);
      assert seq(n, _ => 0)[..n - 1] == seq(n - 1, _ => 0);
      assert seq(n, _ => 0) == seq(n - 1, _ => 0) + [0];
    }
  }

  /** A full burst, then a check a window later, and then one from the instant before it. */
  function StepBack(max: nat, window: nat): seq<nat>
    requires window > 0
  {
    seq(max, _ => 0) + [window] + [window - 1]
  }

  /** The check a window later forgets the burst. */
  lemma BurstForgotten(max: nat, window: nat)
    requires max >= 2 && window > 0
    ensures After(seq(max, _ => 0) + [window], max, window) == Limiter([window], seq(max, _ => 0) + [window])
  {
    Burst(max, max, window);
    AfterNext(seq(max, _ => 0), window, max, window);
    assert [] + [window] == [window];
  }

  /** One later hit is recent at the instant before it. */
  lemma LaterHitIsRecent(window: nat)
    requires window > 0
    ensures Recent([window], window - 1, window) == [window]
  {
    RecentAppend([], window, window - 1, window);
    assert [] + [window] == [window];
  }

  /** So the check from the instant before it is admitted beside the whole burst. */
  lemma StepBackIsAdmitted(max: nat, window: nat)
    requires max >= 2 && window > 0
    ensures After(StepBack(max, window), max, window).admitted == StepBack(max, window)
  {
    BurstForgotten(max, window);
    LaterHitIsRecent(window);
    AfterNext(seq(max, _ => 0) + [window], window - 1, max, window);
  }

  lemma StepBackOvershoots(max: nat, window: nat)
    requires max > 0 && window > 0
    ensures CountIn(StepBack(max, window), 0, window) == max + 1
  {
    var burst := seq(max, _ => 0);
    Burst(max, max, window);
    assert StepBack(max, window)[..max + 1] == burst + [window];
    assert (burst + [window])[..max] == burst;
  }

  lemma StepBackIsSkewed(max: nat, window: nat, skew: nat)
    requires skew > 0 && window > 0
    ensures Skewed(StepBack(max, window), skew)
  {
  }

  /**
   * The time is read before the lock is taken, so checks may reach the list out of order. The limit is kept for every
   * history of checks whose times step back by no more than `skew` exactly when there is no skew, or the limit is at
   * most one, or there is no window: any step back at all, with a limit of two or more, breaks it.
   */
  lemma BoundedUnderSkew(skew: nat, max: nat, window: nat)
    ensures (forall times | Skewed(times, skew) :: Bounded(After(times, max, window).admitted, max, window))
            <==> skew == 0 || max <= 1 || window == 0
  {
    if skew == 0 || max <= 1 || window == 0 {
      forall times | Skewed(times, skew)
        ensures Bounded(After(times, max, window).admitted, max, window)
      {
        if skew == 0 {
          OrderedIsBounded(times, max, window);
        } else {
          AnyOrderIsBounded(times, max, window);
        }
      }
    } else {
      StepBackIsAdmitted(max, window);
      StepBackOvershoots(max, window);
      StepBackIsSkewed(max, window, skew);
      assert !Bounded(After(StepBack(max, window), max, window).admitted, max, window);
    }
  }

  /** So in any order whatever the limit is kept exactly when it is at most one, or there is no window. */
  lemma BoundedInAnyOrder(max: nat, window: nat)
    ensures (forall times :: Bounded(After(times, max, window).admitted, max, window)) <==> max <= 1 || window == 0
  {
    BoundedUnderSkew(1, max, window);
    forall times | max <= 1 || window == 0
      ensures Bounded(After(times, max, window).admitted, max, window)
    {
      AnyOrderIsBounded(times, max, window);
    }
  }

  /** Two allowed in ten: hits at 5 and 6, then a check at 16 that arrives before one at 14. */
  lemma OutOfOrderChecksOvershoot()
    ensures After([5, 6, 16, 14], 2, 10).admitted == [5, 6, 16, 14]
    ensures !Bounded([5, 6, 16, 14], 2, 10)
  {
    AfterNext([], 5, 2, 10);
    RecentAppend([], 5, 6, 10);
    assert [] + [5] == [5] && [] + [6] == [6] && [] + [16] == [16];
    AfterNext([5], 6, 2, 10);
    assert [5] + [6] == [5, 6];
    RecentAppend([], 5, 16, 10);
    RecentAppend([5], 6, 16, 10);
    AfterNext([5, 6], 16, 2, 10);
    assert [5, 6] + [16] == [5, 6, 16];
    RecentAppend([], 16, 14, 10);
    AfterNext([5, 6, 16], 14, 2, 10);
    assert [5, 6, 16] + [14] == [5, 6, 16, 14];
    assert [5, 6, 16, 14][..3] == [5, 6, 16] && [5, 6, 16][..2] == [5, 6] && [5, 6][..1] == [5];
    assert CountIn([5, 6, 16, 14], 5, 10) == 3;
  }

  // ---- The limiter ----

  function HitsOf(lists: map<Address, seq<nat>>, ip: Address): seq<nat> {
    if ip in lists then lists[ip] else []
  }

  /** What the list of each address is worth: all of its history of checks. */
  ghost predicate Follows(inner: map<Address, seq<nat>>, checks: map<Address, seq<nat>>,
                          admitted: map<Address, seq<nat>>, max: nat, window: nat) {
    forall ip: Address ::
      After(HitsOf(checks, ip), max, window) == Limiter(HitsOf(inner, ip), HitsOf(admitted, ip))
  }

  /** What the history of one address says of its next check. */
  lemma NextCheck(times: seq<nat>, now: nat, max: nat, window: nat)
    ensures var l, l' := After(times, max, window), After(times + [now], max, window);
      && (Ordered(times + [now]) ==>
            (|Recent(l.hits, now, window)| < max <==> |Recent(l.admitted, now, window)| < max))
      && (Ordered(times + [now]) || max <= 1 || window == 0 ==> Bounded(l'.admitted, max, window))
  {
    if Ordered(times + [now]) {
      CheckOrdered(times, now, max, window);
      OrderedIsBounded(times + [now], max, window);
    } else if max <= 1 || window == 0 {
      AnyOrderIsBounded(times + [now], max, window);
    }
  }

  lemma HitsOfChanged(lists: map<Address, seq<nat>>, ip: Address, hits: seq<nat>, other: Address)
    ensures HitsOf(lists[ip := hits], other) == if other == ip then hits else HitsOf(lists, other)
  {
  }

  lemma FollowsOn(inner: map<Address, seq<nat>>, checks: map<Address, seq<nat>>, admitted: map<Address, seq<nat>>,
                  ip: Address, now: nat, max: nat, window: nat)
    requires Follows(inner, checks, admitted, max, window)
    ensures var (hits, allowed) := Checked(HitsOf(inner, ip), now, max, window);
      var admitted' := if allowed then admitted[ip := HitsOf(admitted, ip) + [now]] else admitted;
      Follows(inner[ip := hits], checks[ip := HitsOf(checks, ip) + [now]], admitted', max, window)
  {
    var (hits, allowed) := Checked(HitsOf(inner, ip), now, max, window);
    var times, history := HitsOf(checks, ip) + [now], HitsOf(admitted, ip) + [now];
    AfterNext(HitsOf(checks, ip), now, max, window);
    var admitted' := if allowed then admitted[ip := history] else admitted;
    forall other: Address
      ensures After(HitsOf(checks[ip := times], other), max, window)
              == Limiter(HitsOf(inner[ip := hits], other), HitsOf(admitted', other))
    {
      HitsOfChanged(inner, ip, hits, other);
      HitsOfChanged(checks, ip, times, other);
      HitsOfChanged(admitted, ip, history, other);
    }
  }

  /** How many of the hits, in whatever order, lie less than a window before `now`, or after it. */
  function Young(hits: seq<nat>, now: nat, window: nat): nat {
    if hits == [] then 0
    else
      var last := hits[|hits| - 1];
      Young(hits[..|hits| - 1], now, window) + if window > 0 && last + window > now then 1 else 0
  }

  lemma {:induction false} RecentAreYoung(hits: seq<nat>, now: nat, window: nat)
    ensures |Recent(hits, now, window)| == Young(hits, now, window)
  {
    if hits != [] {
      RecentAreYoung(hits[..|hits| - 1], now, window);
    }
  }

  /** What the answer of a check means, in terms of the histories it leaves. */
  ghost predicate Answers(times: seq<nat>, history: seq<nat>, history': seq<nat>, now: nat, allowed: bool,
                          max: nat, window: nat) {
    && (Ordered(times) ==> (allowed <==> Young(history, now, window) < max))
    && (Ordered(times) || max <= 1 || window == 0 ==> Bounded(history', max, window))
  }

  lemma CheckAnswers(inner: map<Address, seq<nat>>, checks: map<Address, seq<nat>>, admitted: map<Address, seq<nat>>,
                     ip: Address, now: nat, max: nat, window: nat)
    requires Follows(inner, checks, admitted, max, window)
    ensures var (_, allowed) := Checked(HitsOf(inner, ip), now, max, window);
      var history := HitsOf(admitted, ip);
      var history' := if allowed then history + [now] else history;
      Answers(HitsOf(checks, ip) + [now], history, history', now, allowed, max, window)
  {
    NextCheck(HitsOf(checks, ip), now, max, window);
    AfterNext(HitsOf(checks, ip), now, max, window);
    RecentAreYoung(HitsOf(admitted, ip), now, window);
  }

  class AnonLimiter {
    const max: nat
    const window: nat
    var inner: map<Address, seq<nat>>
    /** The times of all checks, and every hit ever admitted, by address. */
    ghost var checks: map<Address, seq<nat>>
    ghost var admitted: map<Address, seq<nat>>

    ghost predicate Valid()
      reads this
    {
      Follows(inner, checks, admitted, max, window)
    }

    constructor (max: nat, window: nat)
      ensures Valid() && this.max == max && this.window == window && checks == map[] && admitted == map[]
    {
      this.max, this.window := max, window;
      inner, checks, admitted := map[], map[], map[];
    }

    /** Keep the hits that are younger than the window. */
    method Retain(hits: seq<nat>, now: nat) returns (kept: seq<nat>)
      ensures kept == Recent(hits, now, window)
    {
      kept := [];
      for i := 0 to |hits|
        invariant kept == Recent(hits[..i], now, window)
      {
        assert hits[..i + 1][..i] == hits[..i];
        if Age(now, hits[i]) < window {
          kept := kept + [hits[i]];
        }
      }
      assert hits[..|hits|] == hits;
    }

    /**
     * A check joins the history of its own address only. While the times of that address do not go back, it is
     * admitted exactly when fewer than `max` of all its hits ever admitted are younger than the window; then, or when
     * no order can break it, the limit holds of the new history.
     */
    method Check(ip: Address, now: nat) returns (allowed: bool)
      requires Valid()
      modifies this
      ensures Valid()
      ensures checks == old(checks)[ip := HitsOf(old(checks), ip) + [now]]
      ensures admitted == if allowed then old(admitted)[ip := HitsOf(old(admitted), ip) + [now]] else old(admitted)
      ensures Answers(checks[ip], HitsOf(old(admitted), ip), HitsOf(admitted, ip), now, allowed, max, window)
    {
      CheckAnswers(inner, checks, admitted, ip, now, max, window);
      FollowsOn(inner, checks, admitted, ip, now, max, window);
      checks := checks[ip := HitsOf(checks, ip) + [now]];
      var hits := Retain(HitsOf(inner, ip), now);
      allowed := |hits| < max;
      if allowed {
        admitted := admitted[ip := HitsOf(admitted, ip) + [now]];
        hits := hits + [now];
      }
      inner := inner[ip := hits];
    }
  }
}
