/** What a scan returns, entry for entry: no post twice, the first entries in order, and all pages. */
module TimelineOrder {
  import opened Options
  import opened Timeline

  function Flat(pages: seq<seq<Item>>): seq<Item> {
    if pages == [] then [] else pages[0] + Flat(pages[1..])
  }

  /** No earlier entry shows the same post. */
  ghost predicate FirstEntry(items: seq<Item>, k: nat)
    requires k < |items|
  {
    items[k].id.Num? ==> !Has(items[..k], items[k].id)
  }

  // ---------- a full scan ----------

  /** The entries without the repeated ones. */
  ghost function Firsts(items: seq<Item>): seq<Item> {
    if items == [] then []
    else
      var n := |items| - 1;
      Firsts(items[..n]) + (if FirstEntry(items, n) then [items[n]] else [])
  }

  function WithMedia(items: seq<Item>): seq<Item> {
    if items == [] then []
    else
      var n := |items| - 1;
      WithMedia(items[..n]) + (if HasMedia(items[n].outcome) then [items[n]] else [])
  }

  function BrokenIds(items: seq<Item>): seq<Id> {
    if items == [] then []
    else
      var n := |items| - 1;
      BrokenIds(items[..n]) + (if items[n].outcome.Broken? then [items[n].id] else [])
  }

  ghost predicate Knows(st: Scan, done: seq<Item>) {
    forall id: Id {:trigger id in st.seen} :: id in st.seen <==> id.Num? && Has(done, id)
  }

  ghost predicate Tracks(st: Scan, done: seq<Item>) {
    && !st.reached && Knows(st, done)
    && st.tweets == WithMedia(Firsts(done)) && st.skipped == BrokenIds(Firsts(done))
  }

  lemma KnowsMore(st: Scan, done: seq<Item>, it: Item, page: nat, stop: Id)
    requires Knows(st, done)
    ensures Knows(Step(st, it, page, stop), done + [it])
  {
    hide Has;
    var next := Step(st, it, page, stop);
    forall id: Id ensures id in next.seen <==> id.Num? && Has(done + [it], id) {
      HasMore(done, it, id);
    }
  }

  lemma FirstsMore(done: seq<Item>, it: Item)
    ensures Firsts(done + [it]) == if it.id.Num? && Has(done, it.id) then Firsts(done) else Firsts(done) + [it]
  {
    hide Has;
    assert (done + [it])[..|done|] == done;
  }

  lemma MediaMore(items: seq<Item>, it: Item)
    ensures WithMedia(items + [it]) == WithMedia(items) + (if HasMedia(it.outcome) then [it] else [])
    ensures BrokenIds(items + [it]) == BrokenIds(items) + (if it.outcome.Broken? then [it.id] else [])
  {
    assert (items + [it])[..|items|] == items;
  }

  lemma TrackStep(st: Scan, done: seq<Item>, it: Item, page: nat)
    requires Tracks(st, done)
    ensures Tracks(Step(st, it, page, NoId), done + [it])
  {
    hide Firsts, WithMedia, BrokenIds;
    KnowsMore(st, done, it, page, NoId);
    FirstsMore(done, it);
    MediaMore(Firsts(done), it);
    assert it.id in st.seen <==> it.id.Num? && Has(done, it.id);
    hide Has, Knows;
  }

  lemma {:induction false} TrackSteps(st: Scan, done: seq<Item>, items: seq<Item>, page: nat)
    requires Tracks(st, done)
    ensures Tracks(Steps(st, items, page, NoId), done + items)
  {
    hide Tracks, Step;
    if items == [] {
      assert done + items == done;
    } else {
      var n := |items| - 1;
      TrackSteps(st, done, items[..n], page);
      TrackStep(Steps(st, items[..n], page, NoId), done + items[..n], items[n], page);
      assert done + items == done + items[..n] + [items[n]];
    }
  }

  lemma TrackPage(st: Scan, done: seq<Item>, items: seq<Item>, page: nat)
    requires Tracks(st, done)
    ensures Tracks(OnePage(st, items, page, NoId), done + items)
  {
    var start := st.(lastTweet := NoId);
    assert Tracks(start, done);
    TrackSteps(start, done, items, page);
    hide Steps;
  }

  lemma FlatStep(done: seq<Item>, pages: seq<seq<Item>>)
    requires pages != []
    ensures done + Flat(pages) == done + pages[0] + Flat(pages[1..])
  {
  }

  lemma {:induction false} TrackRun(st: Scan, done: seq<Item>, pages: seq<seq<Item>>, page: nat)
    requires Tracks(st, done)
    ensures Tracks(Run(pages, page, NoId, st).0, done + Flat(pages))
    decreases |pages|
  {
    if pages == [] {
      assert done + Flat(pages) == done;
    } else {
      TrackPage(st, done, pages[0], page);
      assert !st.reached;
      FlatStep(done, pages);
      hide Tracks, OnePage, Flat;
      TrackRun(OnePage(st, pages[0], page, NoId), done + pages[0], pages[1..], page + 1);
    }
  }

  /** A full scan returns exactly the posts with media, each at its first entry and in the order of the timeline, and
      reports exactly the posts that cannot be parsed. */
  lemma FullScanExact(pages: seq<seq<Item>>)
    ensures var scan := Run(pages, 0, NoId, FRESH).0;
      scan.tweets == WithMedia(Firsts(Flat(pages))) && scan.skipped == BrokenIds(Firsts(Flat(pages)))
  {
    assert Tracks(FRESH, []) by { assert Firsts([]) == []; }
    TrackRun(FRESH, [], pages, 0);
    assert [] + Flat(pages) == Flat(pages);
    hide Run, Firsts, Flat;
  }

  // ---------- any scan ----------

  /** `ts` are first entries of `items`, at the places `at`. */
  ghost predicate Picks(ts: seq<Item>, items: seq<Item>, at: seq<nat>) {
    && |at| == |ts|
    && (forall i {:trigger at[i]} :: 0 <= i < |at| ==> at[i] < |items| && items[at[i]] == ts[i] && FirstEntry(items, at[i]))
    && (forall i, j {:trigger at[i], at[j]} :: 0 <= i < j < |at| ==> at[i] < at[j])
  }

  /** The posts are different ones, each as in its first entry and in the order of these. */
  ghost predicate InOrder(ts: seq<Item>, items: seq<Item>) {
    exists at: seq<nat> :: Picks(ts, items, at)
  }

  lemma PicksMore(ts: seq<Item>, items: seq<Item>, at: seq<nat>, it: Item)
    requires Picks(ts, items, at)
    ensures Picks(ts, items + [it], at)
    ensures (it.id.Num? ==> !Has(items, it.id)) ==> Picks(ts + [it], items + [it], at + [|items|])
  {
    hide Has;
    var more := items + [it];
    forall k: nat | k < |items| && FirstEntry(items, k) ensures FirstEntry(more, k) { assert more[..k] == items[..k]; }
    assert more[..|items|] == items && more[|items|] == it;
    hide FirstEntry;
  }

  lemma OrderStep(st: Scan, done: seq<Item>, it: Item, page: nat, stop: Id)
    requires Knows(st, done) && InOrder(st.tweets, done)
    ensures Knows(Step(st, it, page, stop), done + [it]) && InOrder(Step(st, it, page, stop).tweets, done + [it])
  {
    hide Has, Picks;
    KnowsMore(st, done, it, page, stop);
    var at: seq<nat> :| Picks(st.tweets, done, at);
    PicksMore(st.tweets, done, at, it);
    var next := Step(st, it, page, stop);
    assert it.id in st.seen <==> it.id.Num? && Has(done, it.id);
    hide Knows;
    assert next.tweets == st.tweets || (next.tweets == st.tweets + [it] && it.id !in st.seen) || (next.tweets == st.tweets + [it] && it.id.NoId?);
  }

  lemma {:induction false} OrderSteps(st: Scan, done: seq<Item>, items: seq<Item>, page: nat, stop: Id)
    requires Knows(st, done) && InOrder(st.tweets, done)
    ensures var t := Steps(st, items, page, stop); Knows(t, done + items) && InOrder(t.tweets, done + items)
  {
    hide Knows, InOrder, Step;
    if items == [] {
      assert done + items == done;
    } else {
      var n := |items| - 1;
      OrderSteps(st, done, items[..n], page, stop);
      OrderStep(Steps(st, items[..n], page, stop), done + items[..n], items[n], page, stop);
      assert done + items == done + items[..n] + [items[n]];
    }
  }

  lemma OrderPage(st: Scan, done: seq<Item>, items: seq<Item>, page: nat, stop: Id)
    requires Knows(st, done) && InOrder(st.tweets, done)
    ensures var t := OnePage(st, items, page, stop); Knows(t, done + items) && InOrder(t.tweets, done + items)
  {
    var start := st.(lastTweet := NoId);
    assert Knows(start, done);
    OrderSteps(start, done, items, page, stop);
    hide Steps, InOrder, Has;
    var t := Steps(start, items, page, stop);
    assert Knows(t.(reached := false), done + items);
  }

  /** What the scan has fetched, in one list. */
  function Fetched(pages: seq<seq<Item>>, page: nat, stop: Id, st: Scan): seq<Item> {
    Flat(pages[..Run(pages, page, stop, st).1])
  }

  lemma {:induction false} OrderRun(st: Scan, done: seq<Item>, pages: seq<seq<Item>>, page: nat, stop: Id)
    requires Knows(st, done) && InOrder(st.tweets, done)
    ensures InOrder(Run(pages, page, stop, st).0.tweets, done + Fetched(pages, page, stop, st))
    decreases |pages|
  {
    if pages == [] || st.reached {
      assert pages[..Run(pages, page, stop, st).1] == [];
      assert done + [] == done;
    } else {
      var next := OnePage(st, pages[0], page, stop);
      OrderPage(st, done, pages[0], page, stop);
      hide Knows, InOrder, OnePage;
      OrderRun(next, done + pages[0], pages[1..], page + 1, stop);
      var n := Run(pages[1..], page + 1, stop, next).1;
      FlatStep(done, pages[..n + 1]);
      assert pages[..n + 1][0] == pages[0] && pages[..n + 1][1..] == pages[1..][..n];
      hide Flat;
    }
  }

  /** Every scan returns different posts, each as in its first entry, in the order of the timeline. */
  lemma ScanInOrder(pages: seq<seq<Item>>, stop: Id)
    ensures InOrder(Run(pages, 0, stop, FRESH).0.tweets, Fetched(pages, 0, stop, FRESH))
  {
    assert Picks([], [], []);
    OrderRun(FRESH, [], pages, 0, stop);
    hide InOrder, Run, Flat;
    assert [] + Fetched(pages, 0, stop, FRESH) == Fetched(pages, 0, stop, FRESH);
  }

  /** In particular no post is returned twice. */
  lemma NoPostTwice(pages: seq<seq<Item>>, stop: Id, i: nat, j: nat)
    requires var ts := Run(pages, 0, stop, FRESH).0.tweets; i < j < |ts| && ts[i].id.Num?
    ensures var ts := Run(pages, 0, stop, FRESH).0.tweets; ts[i].id != ts[j].id
  {
    ScanInOrder(pages, stop);
    var ts, items := Run(pages, 0, stop, FRESH).0.tweets, Fetched(pages, 0, stop, FRESH);
    hide Run, Flat;
    var at: seq<nat> :| Picks(ts, items, at);
    assert at[i] < at[j] && items[..at[j]][at[i]] == ts[i];
  }

  // ---------- the newest id ----------

  predicate AtLeast(a: Id, b: Id) { b.Num? ==> a.Num? && a.n >= b.n }

  lemma {:induction false} StepsSeeAll(st: Scan, items: seq<Item>, page: nat, stop: Id)
    ensures var t := Steps(st, items, page, stop);
      AtLeast(t.lastSeen, st.lastSeen) && forall k {:trigger items[k]} :: 0 <= k < |items| ==> AtLeast(t.lastSeen, items[k].id)
  {
    if items != [] {
      var n := |items| - 1;
      StepsSeeAll(st, items[..n], page, stop);
      var before := Steps(st, items[..n], page, stop);
      assert AtLeast(Step(before, items[n], page, stop).lastSeen, before.lastSeen);
      forall k | 0 <= k < |items| ensures AtLeast(Steps(st, items, page, stop).lastSeen, items[k].id) {
        if k < n { assert AtLeast(before.lastSeen, items[..n][k].id); }
      }
    }
  }

  /** The newest id a scan reports is not older than any entry it has fetched, returned or not. */
  lemma {:induction false} LastSeenIsNewest(pages: seq<seq<Item>>, page: nat, stop: Id, st: Scan, p: nat, k: nat)
    ensures AtLeast(Run(pages, page, stop, st).0.lastSeen, st.lastSeen)
    ensures p < Run(pages, page, stop, st).1 && k < |pages[p]| ==> AtLeast(Run(pages, page, stop, st).0.lastSeen, pages[p][k].id)
  {
    if pages != [] && !st.reached {
      var next := OnePage(st, pages[0], page, stop);
      StepsSeeAll(st.(lastTweet := NoId), pages[0], page, stop);
      assert AtLeast(next.lastSeen, st.lastSeen);
      assert forall l {:trigger pages[0][l]} :: 0 <= l < |pages[0]| ==> AtLeast(next.lastSeen, pages[0][l].id);
      hide OnePage, Steps;
      LastSeenIsNewest(pages[1..], page + 1, stop, next, if p == 0 then 0 else p - 1, k);
    }
  }

  /** What an incremental scan does not fetch is not newer than its stop. */
  lemma {:induction false} RestIsOlder(pages: seq<seq<Item>>, p: nat, st: Scan, stop: Id)
    requires Numeric(pages) && NewestFirst(pages) && stop.Num? && !st.reached && p <= |pages|
    requires p == 0 ==> !OnlyTheStop(pages, stop)
    ensures OlderFrom(pages, p + Run(pages[p..], p, stop, st).1, stop.n)
    decreases |pages| - p
  {
    if p < |pages| {
      var next := OnePage(st, pages[p], p, stop);
      assert pages[p..][0] == pages[p] && pages[p..][1..] == pages[p + 1..];
      if next.reached {
        StopIsSound(pages, p, st, stop);
        assert Run(pages[p + 1..], p + 1, stop, next).1 == 0;
      } else {
        hide NewestFirst, OnePage, Numeric;
        RestIsOlder(pages, p + 1, next, stop);
      }
    }
  }

  /** A scan knows the newest post of the whole timeline: no entry is newer than both the newest id it reports and its
      stop, unless the first page is the stop alone. */
  lemma NothingNewerMissed(pages: seq<seq<Item>>, stop: Id, p: nat, k: nat)
    requires Numeric(pages) && NewestFirst(pages) && p < |pages| && k < |pages[p]|
    requires stop.Num? ==> !OnlyTheStop(pages, stop)
    ensures AtLeast(Run(pages, 0, stop, FRESH).0.lastSeen, pages[p][k].id) || (stop.Num? && AtLeast(stop, pages[p][k].id))
  {
    LastSeenIsNewest(pages, 0, stop, FRESH, p, k);
    assert pages[0..] == pages;
    if stop.NoId? {
      FullNeverStops(pages, 0, FRESH);
    } else {
      RestIsOlder(pages, 0, FRESH, stop);
    }
    hide Run, NewestFirst, OnlyTheStop;
  }

  // ---------- all pages ----------

  /** The chain of pages that the service offers: each names the next one. */
  ghost predicate Chain(server: Server, cursors: seq<string>, chain: seq<Page>) {
    && |cursors| == |chain| > 0 && cursors[0] == ""
    && (forall i {:trigger cursors[i]} :: 0 <= i < |chain| ==> server(cursors[i]) == Some(chain[i]))
    && (forall i {:trigger chain[i]} :: 0 <= i < |chain| - 1 ==> chain[i].next == cursors[i + 1])
    && (forall i, j {:trigger cursors[i], cursors[j]} :: 0 <= i < j < |cursors| ==> cursors[i] != cursors[j])
  }

  /** How many empty pages end at place `i`. */
  function EmptyRun(chain: seq<Page>, i: nat): nat
    requires i < |chain|
  {
    if !IsEmpty(chain[i]) then 0 else if i == 0 then 1 else EmptyRun(chain, i - 1) + 1
  }

  /** Nothing follows the last page: no cursor, or one that was used; or three empty pages, or a thousand pages. */
  ghost predicate Ends(cursors: seq<string>, chain: seq<Page>)
    requires |cursors| == |chain| > 0
  {
    var last := |chain| - 1;
    chain[last].next == "" || chain[last].next in cursors || EmptyRun(chain, last) >= 3 || |chain| == 1000
  }

  /** The request after the last page fails. */
  ghost predicate Breaks(server: Server, cursors: seq<string>, chain: seq<Page>)
    requires |cursors| == |chain| > 0
  {
    !Ends(cursors, chain) && server(chain[|chain| - 1].next).None?
  }

  ghost predicate Calm(chain: seq<Page>) {
    |chain| <= 1000 && forall i: nat {:trigger EmptyRun(chain, i)} :: i < |chain| - 1 ==> EmptyRun(chain, i) < 3
  }

  ghost function Used(cursors: seq<string>, i: nat): set<string>
    requires i < |cursors|
  {
    set k | 1 <= k <= i :: cursors[k]
  }

  ghost function Items(chain: seq<Page>): seq<seq<Item>> {
    seq(|chain|, i requires 0 <= i < |chain| => chain[i].items)
  }

  lemma UsedIs(cursors: seq<string>, i: nat, c: string)
    requires i < |cursors| && cursors[0] == "" && c != ""
    ensures c in Used(cursors, i) <==> exists k {:trigger cursors[k]} :: 0 <= k <= i && cursors[k] == c
  {
  }

  lemma ChainGoesOn(server: Server, cursors: seq<string>, chain: seq<Page>, i: nat, empties: nat)
    requires Chain(server, cursors, chain) && i < |chain| - 1 && Empties(chain[i], empties) < 3
    ensures GoesOn(chain[i], cursors[i], Used(cursors, i), empties) && cursors[i + 1] == chain[i].next
    ensures Used(cursors, i + 1) == Used(cursors, i) + {chain[i].next}
  {
    assert chain[i].next == cursors[i + 1] != cursors[0];
    UsedIs(cursors, i, chain[i].next);
  }

  lemma ChainStops(server: Server, cursors: seq<string>, chain: seq<Page>, empties: nat)
    requires Chain(server, cursors, chain) && |chain| < 1000
    requires Empties(chain[|chain| - 1], empties) == EmptyRun(chain, |chain| - 1)
    ensures var last := |chain| - 1; GoesOn(chain[last], cursors[last], Used(cursors, last), empties) <==> !Ends(cursors, chain)
  {
    var last := |chain| - 1;
    if chain[last].next != "" { UsedIs(cursors, last, chain[last].next); }
    hide Used;
  }

  lemma {:induction false} ChainPages(server: Server, cursors: seq<string>, chain: seq<Page>, i: nat)
    requires Chain(server, cursors, chain) && Calm(chain) && (Ends(cursors, chain) || Breaks(server, cursors, chain)) && i < |chain|
    ensures Pages(server, i, cursors[i], Used(cursors, i), if i == 0 then 0 else EmptyRun(chain, i - 1))
      == Trace(Items(chain)[i..], !Ends(cursors, chain))
    decreases |chain| - i
  {
    var pg, last, empties := chain[i], |chain| - 1, if i == 0 then 0 else EmptyRun(chain, i - 1);
    assert server(cursors[i]) == Some(pg);
    assert Empties(pg, empties) == EmptyRun(chain, i);
    OnePageOf(server, i, cursors[i], Used(cursors, i), empties, pg);
    if i < last {
      assert EmptyRun(chain, i) < 3;
      ChainGoesOn(server, cursors, chain, i, empties);
      ItemsFrom(chain, i);
      hide Pages, GoesOn, EmptyRun, Used, Empties, Items, Ends;
      ChainPages(server, cursors, chain, i + 1);
    } else {
      assert Items(chain)[i..] == [pg.items];
      if |chain| < 1000 {
        ChainStops(server, cursors, chain, empties);
        if !Ends(cursors, chain) { BrokenPage(server, i + 1, pg.next, Used(cursors, i) + {pg.next}, Empties(pg, empties)); }
      }
      hide Used, GoesOn, EmptyRun, Empties;
    }
  }

  lemma BrokenPage(server: Server, page: nat, cursor: string, visited: set<string>, empties: nat)
    requires page < MAX_PAGES && server(cursor).None?
    ensures Pages(server, page, cursor, visited, empties) == Trace([], true)
  {
  }

  lemma ItemsFrom(chain: seq<Page>, i: nat)
    requires i < |chain|
    ensures Items(chain)[i..] == [chain[i].items] + Items(chain)[i + 1..]
  {
  }

  lemma OnePageOf(server: Server, page: nat, cursor: string, visited: set<string>, empties: nat, pg: Page)
    requires page < MAX_PAGES && server(cursor) == Some(pg)
    ensures Pages(server, page, cursor, visited, empties) ==
      if !GoesOn(pg, cursor, visited, empties) then Trace([pg.items], false)
      else var rest := Pages(server, page + 1, pg.next, visited + {pg.next}, Empties(pg, empties)); Trace([pg.items] + rest.pages, rest.failed)
  {
    hide GoesOn, Empties;
  }

  /** Every page of the chain is read, up to where it ends: no cursor, a repeated one, three empty pages in a row, or a
      thousand pages; or up to a request that fails, which is not taken for the end. */
  lemma AllPagesRead(server: Server, cursors: seq<string>, chain: seq<Page>)
    requires Chain(server, cursors, chain) && Calm(chain) && (Ends(cursors, chain) || Breaks(server, cursors, chain))
    ensures Timeline.Timeline(server) == Trace(Items(chain), !Ends(cursors, chain))
  {
    ChainPages(server, cursors, chain, 0);
    assert Used(cursors, 0) == {};
    assert Items(chain)[0..] == Items(chain);
    hide Pages;
  }
}
