/** The public feed: one page of files and pastes, newest first. */
module Explore {
  import opened Arithmetic
  import opened Wrappers

  datatype Item = Item(created: int, url: string)

  const PAGE_SIZE := 20
  const LAST_PAGE := 10_000

  predicate NewestFirst(items: seq<Item>) {
    forall i, j | 0 <= i < j < |items| :: items[i].created >= items[j].created
  }

  /** The reference order: both feeds merged, newest first. */
  function Merge(files: seq<Item>, pastes: seq<Item>): (r: seq<Item>)
    ensures |r| == |files| + |pastes|
  {
    if files == [] then pastes
    else if pastes == [] then files
    else if files[0].created >= pastes[0].created then [files[0]] + Merge(files[1..], pastes)
    else [pastes[0]] + Merge(files, pastes[1..])
  }

  /** `LIMIT n`, or as many as there are. */
  function First<T>(s: seq<T>, n: nat): seq<T> {
    s[..Min(n, |s|)]
  }

  lemma FirstCons(head: Item, a: seq<Item>, b: seq<Item>, n: nat)
    requires n > 0 && First(a, n - 1) == First(b, n - 1)
    ensures First([head] + a, n) == First([head] + b, n)
  {
    assert First([head] + a, n) == [head] + First(a, n - 1);
    assert First([head] + b, n) == [head] + First(b, n - 1);
  }

  lemma FirstTail(s: seq<Item>, n: nat)
    requires s != [] && n > 0
    ensures First(s, n) != [] && First(s, n)[0] == s[0] && First(s, n)[1..] == First(s[1..], n - 1)
  {
  }

  lemma FirstOfPrefix(s: seq<Item>, a: nat, n: nat)
    requires a >= n
    ensures First(First(s, a), n) == First(s, n)
  {
  }

  /** Fetching `n` or more of each kind is enough for the first `n` of the merge. */
  lemma {:induction false} FetchThrough(files: seq<Item>, pastes: seq<Item>, a: nat, b: nat, n: nat)
    requires a >= n && b >= n
    ensures First(Merge(First(files, a), First(pastes, b)), n) == First(Merge(files, pastes), n)
    decreases |files| + |pastes|
  {
    if n > 0 {
      if files == [] {
        FirstOfPrefix(pastes, b, n);
      } else if pastes == [] {
        FirstOfPrefix(files, a, n);
      } else if files[0].created >= pastes[0].created {
        FetchThrough(files[1..], pastes, a - 1, b, n - 1);
        FirstTail(files, a);
        FirstCons(files[0], Merge(First(files[1..], a - 1), First(pastes, b)), Merge(files[1..], pastes), n);
      } else {
        FetchThrough(files, pastes[1..], a, b - 1, n - 1);
        FirstTail(pastes, b);
        FirstCons(pastes[0], Merge(First(files, a), First(pastes[1..], b - 1)), Merge(files, pastes[1..]), n);
      }
    }
  }

  lemma TailMultiset(items: seq<Item>)
    requires items != []
    ensures multiset(items) == multiset{items[0]} + multiset(items[1..])
  {
    assert items == [items[0]] + items[1..];
  }

  lemma ConsMultiset(x: Item, items: seq<Item>)
    ensures multiset([x] + items) == multiset{x} + multiset(items)
  {
  }

  /** The merge keeps every item. */
  lemma {:induction false} MergeKeeps(files: seq<Item>, pastes: seq<Item>)
    ensures multiset(Merge(files, pastes)) == multiset(files) + multiset(pastes)
    decreases |files| + |pastes|
  {
    if files != [] && pastes != [] {
      if files[0].created >= pastes[0].created {
        MergeKeeps(files[1..], pastes);
        TailMultiset(files);
        ConsMultiset(files[0], Merge(files[1..], pastes));
      } else {
        MergeKeeps(files, pastes[1..]);
        TailMultiset(pastes);
        ConsMultiset(pastes[0], Merge(files, pastes[1..]));
      }
    }
  }

  /** Nothing in the merge is newer than `time` if nothing in the feeds is. */
  lemma {:induction false} MergeBound(files: seq<Item>, pastes: seq<Item>, time: int)
    requires forall i | 0 <= i < |files| :: files[i].created <= time
    requires forall i | 0 <= i < |pastes| :: pastes[i].created <= time
    ensures forall i | 0 <= i < |Merge(files, pastes)| :: Merge(files, pastes)[i].created <= time
    decreases |files| + |pastes|
  {
    if files != [] && pastes != [] {
      if files[0].created >= pastes[0].created {
        MergeBound(files[1..], pastes, time);
      } else {
        MergeBound(files, pastes[1..], time);
      }
    }
  }

  predicate StrictlyNewest(items: seq<Item>) {
    forall i, j | 0 <= i < j < |items| :: items[i].created > items[j].created
  }

  /** Each feed newest first, and no two items of the same instant. */
  predicate Timed(files: seq<Item>, pastes: seq<Item>) {
    && StrictlyNewest(files) && StrictlyNewest(pastes)
    && forall i, j | 0 <= i < |files| && 0 <= j < |pastes| :: files[i].created != pastes[j].created
  }

  /** The merge of such feeds is newest first. */
  lemma {:induction false} MergeOrders(files: seq<Item>, pastes: seq<Item>)
    requires Timed(files, pastes)
    ensures StrictlyNewest(Merge(files, pastes))
    decreases |files| + |pastes|
  {
    if files != [] && pastes != [] {
      if files[0].created >= pastes[0].created {
        MergeOrders(files[1..], pastes);
        MergeBound(files[1..], pastes, files[0].created - 1);
      } else {
        MergeOrders(files, pastes[1..]);
        MergeBound(files, pastes[1..], pastes[0].created - 1);
      }
    }
  }

  lemma {:induction false} MergeOrdersTies(files: seq<Item>, pastes: seq<Item>)
    requires NewestFirst(files) && NewestFirst(pastes)
    ensures NewestFirst(Merge(files, pastes))
    decreases |files| + |pastes|
  {
    if files != [] && pastes != [] {
      if files[0].created >= pastes[0].created {
        MergeOrdersTies(files[1..], pastes);
        MergeBound(files[1..], pastes, files[0].created);
      } else {
        MergeOrdersTies(files, pastes[1..]);
        MergeBound(files, pastes[1..], pastes[0].created);
      }
    }
  }

  // ---- Any sort by time ----

  function Times(items: seq<Item>): (r: seq<int>)
    ensures |r| == |items|
  {
    seq(|items|, i requires 0 <= i < |items| => items[i].created)
  }

  function Without(items: seq<Item>, j: nat): seq<Item>
    requires j < |items|
  {
    items[..j] + items[j + 1..]
  }

  lemma WithoutMultiset(items: seq<Item>, j: nat)
    requires j < |items|
    ensures multiset(items) == multiset(Without(items, j)) + multiset{items[j]}
  {
    assert items == items[..j] + ([items[j]] + items[j + 1..]);
  }

  lemma WithoutOrders(items: seq<Item>, j: nat)
    requires j < |items| && NewestFirst(items)
    ensures NewestFirst(Without(items, j))
  {
    forall x, y | 0 <= x < y < |Without(items, j)|
      ensures Without(items, j)[x].created >= Without(items, j)[y].created
    {
      assert items[if x < j then x else x + 1].created >= items[if y < j then y else y + 1].created;
    }
  }

  /** Dropping an item no newer one precedes drops its time from the front. */
  lemma TimesWithout(items: seq<Item>, j: nat)
    requires j < |items| && forall i | 0 <= i <= j :: items[i].created == items[j].created
    ensures Times(items) == [items[j].created] + Times(Without(items, j))
  {
  }

  lemma HeadIsNewest(items: seq<Item>, x: Item)
    requires NewestFirst(items) && x in items
    ensures x.created <= items[0].created
  {
  }

  lemma OneOfEachTime(items: seq<Item>, x: Item)
    requires StrictlyNewest(items) && x in items && x.created >= items[0].created
    ensures x == items[0]
  {
  }

  /** The newest item of one sort, found in another: nothing before it is of another time. */
  lemma HeadElsewhere(a: seq<Item>, b: seq<Item>) returns (j: nat)
    requires a != [] && NewestFirst(a) && NewestFirst(b) && multiset(a) == multiset(b)
    ensures j < |b| && b[j] == a[0]
    ensures forall i | 0 <= i <= j :: b[i].created == b[j].created
  {
    assert a[0] in multiset(b);
    j :| 0 <= j < |b| && b[j] == a[0];
    forall i | 0 <= i <= j
      ensures b[i].created == b[j].created
    {
      assert b[i] in multiset(a);
      HeadIsNewest(a, b[i]);
    }
  }

  lemma SameTimesTail(a: seq<Item>, b: seq<Item>, all: multiset<Item>, x: Item)
    requires all == multiset{x} + multiset(a) && all == multiset(b) + multiset{x}
    ensures multiset(a) == multiset(b)
  {
    assert multiset(a) == all - multiset{x};
  }

  /** Any two sorts of the same items have the same times, ties or not. */
  lemma {:induction false} SameTimes(a: seq<Item>, b: seq<Item>)
    requires NewestFirst(a) && NewestFirst(b) && multiset(a) == multiset(b)
    ensures Times(a) == Times(b)
    decreases |a|
  {
    if a == [] {
      assert |multiset(b)| == |multiset(a)|;
    } else {
      var j := HeadElsewhere(a, b);
      WithoutMultiset(b, j);
      WithoutOrders(b, j);
      TailMultiset(a);
      SameTimesTail(a[1..], Without(b, j), multiset(a), a[0]);
      SameTimes(a[1..], Without(b, j));
      TimesWithout(b, j);
      TimesWithout(a, 0);
      assert Without(a, 0) == a[1..];
    }
  }

  /** With distinct times there is one order, so an unstable sort is as good as any. */
  lemma {:induction false} OneOrder(a: seq<Item>, b: seq<Item>)
    requires StrictlyNewest(a) && NewestFirst(b) && multiset(a) == multiset(b)
    ensures a == b
    decreases |a|
  {
    if a == [] {
      assert multiset(b) == multiset{};
    } else {
      assert |multiset(a)| == |multiset(b)| && a[0] in multiset(b);
      assert b[0] in multiset(a);
      HeadIsNewest(b, a[0]);
      OneOfEachTime(a, b[0]);
      TailMultiset(a);
      TailMultiset(b);
      assert multiset(a[1..]) == multiset(a) - multiset{a[0]};
      assert multiset(b[1..]) == multiset(b) - multiset{b[0]};
      OneOrder(a[1..], b[1..]);
    }
  }

  /** Putting an item behind the last that is not older keeps the order. */
  lemma InsertOrders(sorted: seq<Item>, k: nat, x: Item)
    requires NewestFirst(sorted) && k <= |sorted|
    requires forall j | 0 <= j < k :: sorted[j].created >= x.created
    requires k < |sorted| ==> sorted[k].created < x.created
    ensures NewestFirst(sorted[..k] + [x] + sorted[k..])
  {
  }

  lemma InsertKeeps(sorted: seq<Item>, k: nat, x: Item)
    requires k <= |sorted|
    ensures multiset(sorted[..k] + [x] + sorted[k..]) == multiset(sorted) + multiset{x}
  {
    assert sorted == sorted[..k] + sorted[k..];
  }

  method InsertNewestFirst(sorted: seq<Item>, x: Item) returns (r: seq<Item>)
    requires NewestFirst(sorted)
    ensures NewestFirst(r) && multiset(r) == multiset(sorted) + multiset{x}
  {
    var k: nat := 0;
    while k < |sorted| && sorted[k].created >= x.created
      invariant k <= |sorted|
      invariant forall j | 0 <= j < k :: sorted[j].created >= x.created
    {
      k := k + 1;
    }
    InsertOrders(sorted, k, x);
    InsertKeeps(sorted, k, x);
    r := sorted[..k] + [x] + sorted[k..];
  }

  /** Any sort by time, stable or not. */
  method SortNewestFirst(items: seq<Item>) returns (sorted: seq<Item>)
    ensures NewestFirst(sorted) && multiset(sorted) == multiset(items)
  {
    sorted := [];
    for i := 0 to |items|
      invariant NewestFirst(sorted) && multiset(sorted) == multiset(items[..i])
    {
      assert items[..i + 1] == items[..i] + [items[i]];
      sorted := InsertNewestFirst(sorted, items[i]);
    }
    assert items[..|items|] == items;
  }

  // ---- The page ----

  function Clamp(page: int): (p: nat)
    ensures 1 <= p <= LAST_PAGE
  {
    if page < 1 then 1 else if page > LAST_PAGE then LAST_PAGE else page
  }

  /** Whatever sort is used on what was fetched, it starts as the full merge does. */
  lemma SortedFetchStartsTheMerge(files: seq<Item>, pastes: seq<Item>, n: nat, sorted: seq<Item>)
    requires Timed(files, pastes)
    requires NewestFirst(sorted) && multiset(sorted) == multiset(First(files, n)) + multiset(First(pastes, n))
    ensures First(sorted, n) == First(Merge(files, pastes), n)
  {
    MergeKeeps(First(files, n), First(pastes, n));
    MergeOrders(First(files, n), First(pastes, n));
    OneOrder(Merge(First(files, n), First(pastes, n)), sorted);
    FetchThrough(files, pastes, n, n, n);
  }

  /** What there is from position `from` to position `to`. */
  function Between(s: seq<Item>, from: nat, to: nat): seq<Item>
    requires from <= to
  {
    s[Min(from, |s|)..Min(to, |s|)]
  }

  lemma BetweenOfFirst(s: seq<Item>, n: nat, from: nat, to: nat)
    requires from <= to <= n
    ensures Between(First(s, n), from, to) == Between(s, from, to)
  {
    var a, b, k := Min(from, |s|), Min(to, |s|), Min(n, |s|);
    assert Min(from, k) == a && Min(to, k) == b;
    assert s[..k][a..b] == s[a..b];
  }

  /** The part of the merge that a page shows. */
  function PageOf(merged: seq<Item>, page: nat): seq<Item>
    requires page >= 1
  {
    Between(merged, (page - 1) * PAGE_SIZE, page * PAGE_SIZE)
  }

  lemma PageOfFirst(s: seq<Item>, page: nat)
    requires page >= 1
    ensures PageOf(First(s, page * PAGE_SIZE + 1), page) == PageOf(s, page)
  {
    BetweenOfFirst(s, page * PAGE_SIZE + 1, (page - 1) * PAGE_SIZE, page * PAGE_SIZE);
  }

  lemma PageOfPrefix(s: seq<Item>, t: seq<Item>, page: nat)
    requires page >= 1 && First(s, page * PAGE_SIZE + 1) == First(t, page * PAGE_SIZE + 1)
    ensures PageOf(s, page) == PageOf(t, page)
  {
    PageOfFirst(s, page);
    PageOfFirst(t, page);
  }

  /** The page depends on the times of the whole only through the times of the page. */
  lemma PageTimes(s: seq<Item>, t: seq<Item>, page: nat)
    requires page >= 1 && Times(s) == Times(t)
    ensures Times(PageOf(s, page)) == Times(PageOf(t, page))
  {
    assert |s| == |t|;
    forall i | 0 <= i < |PageOf(s, page)|
      ensures Times(PageOf(s, page))[i] == Times(PageOf(t, page))[i]
    {
      var k := Min((page - 1) * PAGE_SIZE, |s|) + i;
      assert Times(s)[k] == Times(t)[k];
    }
  }

  /** Skip the pages before, take one item more than fit, and drop it again. */
  lemma SkipTakeIsPage(s: seq<Item>, page: nat)
    requires page >= 1
    ensures var taken := First(s[Min((page - 1) * PAGE_SIZE, |s|)..], PAGE_SIZE + 1);
      && First(taken, PAGE_SIZE) == PageOf(s, page)
      && (|taken| > PAGE_SIZE <==> |s| > page * PAGE_SIZE)
  {
    var rest := s[Min((page - 1) * PAGE_SIZE, |s|)..];
    FirstOfPrefix(rest, PAGE_SIZE + 1, PAGE_SIZE);
    assert First(rest, PAGE_SIZE) == PageOf(s, page);
  }

  lemma SortedPageTimes(files: seq<Item>, pastes: seq<Item>, page: nat, sorted: seq<Item>)
    requires page >= 1 && NewestFirst(sorted) && NewestFirst(files) && NewestFirst(pastes)
    requires multiset(sorted)
             == multiset(First(files, page * PAGE_SIZE + 1)) + multiset(First(pastes, page * PAGE_SIZE + 1))
    ensures Times(PageOf(sorted, page)) == Times(PageOf(Merge(files, pastes), page))
  {
    var n := page * PAGE_SIZE + 1;
    var fetched := Merge(First(files, n), First(pastes, n));
    MergeKeeps(First(files, n), First(pastes, n));
    MergeOrdersTies(First(files, n), First(pastes, n));
    SameTimes(fetched, sorted);
    PageTimes(fetched, sorted, page);
    FetchThrough(files, pastes, n, n, n);
    PageOfPrefix(fetched, Merge(files, pastes), page);
  }

  lemma SortedPage(files: seq<Item>, pastes: seq<Item>, page: nat, sorted: seq<Item>)
    requires page >= 1 && NewestFirst(sorted) && NewestFirst(files) && NewestFirst(pastes)
    requires multiset(sorted) == multiset(First(files, page * PAGE_SIZE + 1) + First(pastes, page * PAGE_SIZE + 1))
    ensures Timed(files, pastes) ==> PageOf(sorted, page) == PageOf(Merge(files, pastes), page)
    ensures Times(PageOf(sorted, page)) == Times(PageOf(Merge(files, pastes), page))
    ensures |sorted| > page * PAGE_SIZE <==> |files| + |pastes| > page * PAGE_SIZE
  {
    var n := page * PAGE_SIZE + 1;
    var fetched: seq<Item> := First(files, n) + First(pastes, n);
    assert |multiset(sorted)| == |multiset(fetched)|;
    if Timed(files, pastes) {
      SortedFetchStartsTheMerge(files, pastes, n, sorted);
      PageOfPrefix(sorted, Merge(files, pastes), page);
    }
    SortedPageTimes(files, pastes, page, sorted);
  }

  /** The page's twenty positions of the full merge, up to ties, and whether the merge goes on behind them. */
  ghost predicate Shows(files: seq<Item>, pastes: seq<Item>, page: nat, items: seq<Item>, hasNext: bool)
    requires page >= 1
  {
    var merged := Merge(files, pastes);
    var shown := merged[Min(20 * (page - 1), |merged|)..Min(20 * page, |merged|)];
    && (Timed(files, pastes) ==> items == shown)
    && Times(items) == Times(shown)
    && (hasNext <==> |files| + |pastes| > 20 * page)
  }

  lemma SortedShows(files: seq<Item>, pastes: seq<Item>, page: nat, sorted: seq<Item>)
    requires page >= 1 && NewestFirst(sorted) && NewestFirst(files) && NewestFirst(pastes)
    requires multiset(sorted) == multiset(First(files, page * PAGE_SIZE + 1) + First(pastes, page * PAGE_SIZE + 1))
    ensures Shows(files, pastes, page, PageOf(sorted, page), |sorted| > page * PAGE_SIZE)
  {
    SortedPage(files, pastes, page, sorted);
  }

  /** Skip the pages before, and take one item more than fit to see whether there is one. */
  method Cut(sorted: seq<Item>, page: nat) returns (items: seq<Item>, hasNext: bool)
    requires page >= 1
    ensures items == PageOf(sorted, page) && (hasNext <==> |sorted| > page * PAGE_SIZE)
  {
    SkipTakeIsPage(sorted, page);
    var skip: nat := (page - 1) * PAGE_SIZE;
    items := First(sorted[Min(skip, |sorted|)..], PAGE_SIZE + 1);
    hasNext := |items| > PAGE_SIZE;
    items := First(items, PAGE_SIZE);
  }

  /**
   * On one snapshot of both feeds, a page shows its twenty positions of the full merge, though of each kind only the
   * items up to the end of the page and one more are fetched; items of the same instant may trade places. There is a
   * next page exactly when the merge goes on. Without a number it is the first page; numbers end at ten thousand.
   */
  method Page(files: seq<Item>, pastes: seq<Item>, requested: Option<int>) returns (items: seq<Item>, hasNext: bool)
    requires NewestFirst(files) && NewestFirst(pastes)
    ensures requested.None? ==> Shows(files, pastes, 1, items, hasNext)
    ensures requested.Some? && requested.value < 1 ==> Shows(files, pastes, 1, items, hasNext)
    ensures requested.Some? && 1 <= requested.value <= 10_000 ==> Shows(files, pastes, requested.value, items, hasNext)
    ensures requested.Some? && requested.value > 10_000 ==> Shows(files, pastes, 10_000, items, hasNext)
  {
    var page: nat := Clamp(if requested.Some? then requested.value else 1);
    var through: nat := page * PAGE_SIZE + 1;
    var sorted := SortNewestFirst(First(files, through) + First(pastes, through));
    SortedShows(files, pastes, page, sorted);
    items, hasNext := Cut(sorted, page);
  }

  function Pages(merged: seq<Item>, pages: nat): seq<Item> {
    if pages == 0 then [] else Pages(merged, pages - 1) + PageOf(merged, pages)
  }

  /** The pages follow each other without gap or overlap. */
  lemma {:induction false} PagesCover(merged: seq<Item>, pages: nat)
    ensures Pages(merged, pages) == First(merged, pages * PAGE_SIZE)
  {
    if pages > 0 {
      PagesCover(merged, pages - 1);
    }
  }
}
