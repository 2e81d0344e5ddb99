/** The paged, newest-first scan of a media timeline with early stop and pinned post. */
module Timeline {
  import opened Options

  /** A post id; the empty id stands for a result without `rest_id` and for "no stop id". */
  datatype Id = NoId | Num(n: nat)

  /** What parsing a result yields; `Media` carries the number of media found. */
  datatype Outcome = Unavailable | Broken | NoMedia | Media(count: nat)

  datatype Item = Item(id: Id, outcome: Outcome)

  /** One response: the entries that hold a result, the number of those that do not, and the
      next cursor ("" when there is none). */
  datatype Page = Page(items: seq<Item>, blanks: nat, next: string)

  /** The timeline as the service pages it; `None` is a failed request. */
  type Server = string -> Option<Page>

  datatype Scan = Scan(tweets: seq<Item>, skipped: seq<Id>, lastSeen: Id, seen: set<Id>, reached: bool, lastTweet: Id)

  const FRESH: Scan := Scan([], [], NoId, {}, false, NoId)

  const MAX_PAGES: nat := 1000
  const MAX_EMPTY: nat := 3

  predicate ShouldStopAt(id: Id, stop: Id, page: nat) {
    (id.Num? && id == stop) || (page > 0 && id.Num? && stop.Num? && id.n <= stop.n)
  }

  /** Conservative on ids that do not parse. */
  predicate NewerThan(id: Id, stop: Id) {
    id.Num? && stop.Num? ==> id.n > stop.n
  }

  function MaxId(a: Id, b: Id): Id {
    if a.NoId? then b else if b.NoId? then a else if a.n >= b.n then a else b
  }

  // ---------- one entry, one page, all pages ----------

  function Note(st: Scan, it: Item): Scan {
    if it.id.Num? then st.(lastTweet := it.id, lastSeen := MaxId(st.lastSeen, it.id)) else st
  }

  function Keep(st: Scan, it: Item): Scan {
    match it.outcome
    case Unavailable => st
    case Broken => st.(skipped := st.skipped + [it.id])
    case NoMedia => st
    case Media(n) => if n == 0 then st else st.(tweets := st.tweets + [it])
  }

  function Step(st: Scan, it: Item, page: nat, stop: Id): Scan {
    var noted := Note(st, it);
    if it.id.Num? && it.id in st.seen then noted
    else
      var first := if it.id.Num? then noted.(seen := noted.seen + {it.id}) else noted;
      var now := first.(reached := first.reached || (stop.Num? && ShouldStopAt(it.id, stop, page)));
      if now.reached && !NewerThan(it.id, stop) then now else Keep(now, it)
  }

  function Steps(st: Scan, items: seq<Item>, page: nat, stop: Id): Scan {
    if items == [] then st else Step(Steps(st, items[..|items| - 1], page, stop), items[|items| - 1], page, stop)
  }

  /** A page, with the second look at a stop found on the first one. */
  function OnePage(st: Scan, items: seq<Item>, page: nat, stop: Id): Scan {
    var done := Steps(st.(lastTweet := NoId), items, page, stop);
    if page == 0 && done.reached && NewerThan(done.lastTweet, stop) then done.(reached := false) else done
  }

  /** Where the paging goes after a page, if anywhere. */
  predicate GoesOn(pg: Page, cursor: string, visited: set<string>, empties: nat) {
    && !(IsEmpty(pg) && (pg.next == "" || empties + 1 >= MAX_EMPTY))
    && pg.next != "" && pg.next != cursor && pg.next !in visited
  }

  predicate IsEmpty(pg: Page) { pg.items == [] && pg.blanks == 0 }

  function Empties(pg: Page, empties: nat): nat { if IsEmpty(pg) then empties + 1 else 0 }

  datatype Result = Failed | Done(scan: Scan, fetched: nat)

  /** The scan from its `page`-th request on. */
  function ScanFrom(server: Server, stop: Id, page: nat, cursor: string, visited: set<string>, empties: nat, st: Scan): Result
    requires page <= MAX_PAGES
    decreases MAX_PAGES - page
  {
    if page == MAX_PAGES || st.reached then Done(st, page)
    else match server(cursor)
      case None => Failed
      case Some(pg) =>
        var st' := OnePage(st, pg.items, page, stop);
        if st'.reached || !GoesOn(pg, cursor, visited, empties) then Done(st', page + 1)
        else ScanFrom(server, stop, page + 1, pg.next, visited + {pg.next}, Empties(pg, empties), st')
  }

  function ScanTimeline(server: Server, stop: Id): Result {
    ScanFrom(server, stop, 0, "", {}, 0, FRESH)
  }

  /** getUserTimelineWithStats. */
  method GetUserTimeline(server: Server, stop: Id) returns (result: Result)
    ensures result == ScanTimeline(server, stop)
  {
    hide OnePage;
    var st := FRESH;
    var cursor, visited, empties, page := "", {}, 0, 0;
    while page < MAX_PAGES && !st.reached
      invariant page <= MAX_PAGES
      invariant ScanTimeline(server, stop) == ScanFrom(server, stop, page, cursor, visited, empties, st)
      decreases MAX_PAGES - page
    {
      var response := server(cursor);
      if response.None? { return Failed; }
      var pg := response.value;
      var before := st;
      st := ScanPage(st, pg.items, page, stop);
      assert st == OnePage(before, pg.items, page, stop);
      if pg.items == [] && pg.blanks == 0 {
        if pg.next == "" { return Done(st, page + 1); }
        empties := empties + 1;
        if empties >= MAX_EMPTY { return Done(st, page + 1); }
      } else {
        empties := 0;
      }
      if st.reached || pg.next == "" || pg.next == cursor || pg.next in visited {
        return Done(st, page + 1);
      }
      visited, cursor, page := visited + {pg.next}, pg.next, page + 1;
    }
    return Done(st, page);
  }

  method ScanPage(st: Scan, items: seq<Item>, page: nat, stop: Id) returns (done: Scan)
    ensures done == OnePage(st, items, page, stop)
  {
    done := st.(lastTweet := NoId);
    ghost var start := done;
    for k := 0 to |items|
      invariant done == Steps(start, items[..k], page, stop)
    {
      assert items[..k + 1][..k] == items[..k];
      var it := items[k];
      var dup := it.id.Num? && it.id in done.seen;
      if it.id.Num? {
        done := done.(lastTweet := it.id, lastSeen := MaxId(done.lastSeen, it.id), seen := done.seen + {it.id});
      }
      if !dup {
        if stop.Num? && !done.reached && ShouldStopAt(it.id, stop, page) {
          done := done.(reached := true);
        }
        if !(done.reached && !NewerThan(it.id, stop)) {
          done := Keep(done, it);
        }
      } else {
        assert (Steps(start, items[..k], page, stop).seen) + {it.id} == Steps(start, items[..k], page, stop).seen;
      }
    }
    assert items[..|items|] == items;
    if page == 0 && done.reached && NewerThan(done.lastTweet, stop) {
      done := done.(reached := false);
    }
  }

  // ---------- the pages a scan would see if it never stopped early ----------

  datatype Trace = Trace(pages: seq<seq<Item>>, failed: bool)

  function Pages(server: Server, page: nat, cursor: string, visited: set<string>, empties: nat): Trace
    requires page <= MAX_PAGES
    decreases MAX_PAGES - page
  {
    if page == MAX_PAGES then Trace([], false)
    else match server(cursor)
      case None => Trace([], true)
      case Some(pg) =>
        if !GoesOn(pg, cursor, visited, empties) then Trace([pg.items], false)
        else
          var rest := Pages(server, page + 1, pg.next, visited + {pg.next}, Empties(pg, empties));
          Trace([pg.items] + rest.pages, rest.failed)
  }

  function Timeline(server: Server): Trace { Pages(server, 0, "", {}, 0) }

  /** Processing a list of pages until one of them reaches the stop. */
  function Run(pages: seq<seq<Item>>, page: nat, stop: Id, st: Scan): (r: (Scan, nat))
    ensures r.1 <= |pages|
    ensures !r.0.reached ==> r.1 == |pages|
  {
    if pages == [] || st.reached then (st, if st.reached then 0 else |pages|)
    else
      var r := Run(pages[1..], page + 1, stop, OnePage(st, pages[0], page, stop));
      (r.0, r.1 + 1)
  }

  lemma {:induction false} ScanIsRun(server: Server, stop: Id, page: nat, cursor: string, visited: set<string>, empties: nat, st: Scan)
    requires page <= MAX_PAGES && !st.reached
    ensures var tr := Pages(server, page, cursor, visited, empties);
      var run := Run(tr.pages, page, stop, st);
      ScanFrom(server, stop, page, cursor, visited, empties, st)
        == if tr.failed && !run.0.reached then Failed else Done(run.0, page + run.1)
    decreases MAX_PAGES - page
  {
    if page < MAX_PAGES && server(cursor).Some? {
      var pg := server(cursor).value;
      var tr := Pages(server, page, cursor, visited, empties);
      var st' := OnePage(st, pg.items, page, stop);
      assert tr.pages[0] == pg.items;
      if GoesOn(pg, cursor, visited, empties) {
        assert tr.pages[1..] == Pages(server, page + 1, pg.next, visited + {pg.next}, Empties(pg, empties)).pages;
        if !st'.reached {
          ScanIsRun(server, stop, page + 1, pg.next, visited + {pg.next}, Empties(pg, empties), st');
        }
      } else {
        assert tr.pages[1..] == [];
      }
    }
  }

  // ---------- the timeline hypotheses ----------

  ghost predicate Numeric(pages: seq<seq<Item>>) {
    forall p, k {:trigger pages[p][k]} :: 0 <= p < |pages| && 0 <= k < |pages[p]| ==> pages[p][k].id.Num?
  }

  /** Newest first (repeats allowed), except for one pinned post at the head of the first page. */
  ghost predicate NewestFirst(pages: seq<seq<Item>>) {
    && (forall p, k, l {:trigger pages[p][k], pages[p][l]} :: 0 <= p < |pages| && 0 <= k <= l < |pages[p]| && (p > 0 || k > 0) ==>
          IdAt(pages, p, l) <= IdAt(pages, p, k))
    && (forall p, k, q, l {:trigger pages[p][k], pages[q][l]} ::
          0 <= p < q < |pages| && 0 <= k < |pages[p]| && 0 <= l < |pages[q]| && (p > 0 || k > 0) ==>
          IdAt(pages, q, l) <= IdAt(pages, p, k))
  }

  function IdAt(pages: seq<seq<Item>>, p: nat, k: nat): nat
    requires p < |pages| && k < |pages[p]|
  {
    if pages[p][k].id.Num? then pages[p][k].id.n else 0
  }

  /** The first page holds nothing but the stop post: the guard under which a scan ends early. */
  predicate OnlyTheStop(pages: seq<seq<Item>>, stop: Id) {
    pages != [] && |pages[0]| == 1 && pages[0][0].id == stop
  }

  // ---------- both scans keep in step ----------

  function Above(tweets: seq<Item>, stop: Id): seq<Item> {
    if tweets == [] then []
    else
      var last := tweets[|tweets| - 1];
      Above(tweets[..|tweets| - 1], stop) + (if NewerThan(last.id, stop) then [last] else [])
  }

  lemma AboveAppend(ts: seq<Item>, t: Item, stop: Id)
    ensures Above(ts + [t], stop) == Above(ts, stop) + (if NewerThan(t.id, stop) then [t] else [])
  {
    assert (ts + [t])[..|ts|] == ts;
  }

  /** The full scan `f` and the incremental scan `i` after the same entries. */
  ghost predicate InStep(f: Scan, i: Scan, stop: Id) {
    && f.seen == i.seen && f.lastSeen == i.lastSeen && f.lastTweet == i.lastTweet
    && !f.reached && Above(f.tweets, stop) == Above(i.tweets, stop)
  }

  lemma StepInStep(f: Scan, i: Scan, it: Item, page: nat, stop: Id)
    requires InStep(f, i, stop)
    ensures InStep(Step(f, it, page, NoId), Step(i, it, page, stop), stop)
  {
    AboveAppend(f.tweets, it, stop);
    AboveAppend(i.tweets, it, stop);
    hide Above;
  }

  lemma {:induction false} StepsInStep(f: Scan, i: Scan, items: seq<Item>, page: nat, stop: Id)
    requires InStep(f, i, stop)
    ensures InStep(Steps(f, items, page, NoId), Steps(i, items, page, stop), stop)
  {
    if items != [] {
      hide InStep;
      var n := |items| - 1;
      StepsInStep(f, i, items[..n], page, stop);
      StepInStep(Steps(f, items[..n], page, NoId), Steps(i, items[..n], page, stop), items[n], page, stop);
    }
  }

  lemma PageInStep(f: Scan, i: Scan, items: seq<Item>, page: nat, stop: Id)
    requires InStep(f, i, stop)
    ensures InStep(OnePage(f, items, page, NoId), OnePage(i, items, page, stop), stop)
  {
    StepsInStep(f.(lastTweet := NoId), i.(lastTweet := NoId), items, page, stop);
  }

  // ---------- stopping loses nothing newer ----------

  lemma {:induction false} WhyReached(st: Scan, items: seq<Item>, page: nat, stop: Id)
    requires !st.reached && Steps(st, items, page, stop).reached
    ensures exists k :: 0 <= k < |items| && ShouldStopAt(items[k].id, stop, page)
  {
    var n := |items| - 1;
    if Steps(st, items[..n], page, stop).reached {
      WhyReached(st, items[..n], page, stop);
      var k :| 0 <= k < n && ShouldStopAt(items[..n][k].id, stop, page);
      assert items[k] == items[..n][k];
    } else {
      assert ShouldStopAt(items[n].id, stop, page);
    }
  }

  lemma LastTweetIsLast(st: Scan, items: seq<Item>, page: nat, stop: Id)
    requires items != [] && items[|items| - 1].id.Num?
    ensures Steps(st, items, page, stop).lastTweet == items[|items| - 1].id
  {
  }

  ghost predicate OlderFrom(pages: seq<seq<Item>>, from: nat, stop: nat) {
    forall q, l {:trigger pages[q][l]} :: from <= q < |pages| && 0 <= l < |pages[q]| ==>
      pages[q][l].id.Num? && pages[q][l].id.n <= stop
  }

  /** When a page ends with the stop reached, every later page is older than the stop, unless the
      first page holds only the (pinned) stop post. */
  lemma StopIsSound(pages: seq<seq<Item>>, p: nat, st: Scan, stop: Id)
    requires Numeric(pages) && NewestFirst(pages) && p < |pages| && stop.Num? && !st.reached
    requires OnePage(st, pages[p], p, stop).reached
    requires p == 0 ==> !OnlyTheStop(pages, stop)
    ensures OlderFrom(pages, p + 1, stop.n)
  {
    var start := st.(lastTweet := NoId);
    WhyReached(start, pages[p], p, stop);
    var k :| 0 <= k < |pages[p]| && ShouldStopAt(pages[p][k].id, stop, p);
    var last := |pages[p]| - 1;
    LastTweetIsLast(start, pages[p], p, stop);
    var at := if p == 0 then last else k;
    forall q, l | p + 1 <= q < |pages| && 0 <= l < |pages[q]|
      ensures pages[q][l].id.Num? && pages[q][l].id.n <= stop.n
    {
      assert IdAt(pages, q, l) <= IdAt(pages, p, at);
    }
  }

  lemma {:induction false} OlderStepsAddNothing(f: Scan, items: seq<Item>, page: nat, stop: Id)
    requires !f.reached && stop.Num?
    requires forall l :: 0 <= l < |items| ==> items[l].id.Num? && items[l].id.n <= stop.n
    ensures var g := Steps(f, items, page, NoId); !g.reached && Above(g.tweets, stop) == Above(f.tweets, stop)
  {
    if items != [] {
      var n := |items| - 1;
      OlderStepsAddNothing(f, items[..n], page, stop);
      AboveAppend(Steps(f, items[..n], page, NoId).tweets, items[n], stop);
      hide Above;
    }
  }

  lemma {:induction false} OlderPagesAddNothing(pages: seq<seq<Item>>, p: nat, f: Scan, stop: Id)
    requires !f.reached && stop.Num? && p <= |pages| && OlderFrom(pages, p, stop.n)
    ensures Above(Run(pages[p..], p, NoId, f).0.tweets, stop) == Above(f.tweets, stop)
    decreases |pages| - p
  {
    if p < |pages| {
      assert pages[p..][0] == pages[p] && pages[p..][1..] == pages[p + 1..];
      forall l | 0 <= l < |pages[p]| ensures pages[p][l].id.Num? && pages[p][l].id.n <= stop.n { }
      OlderStepsAddNothing(f.(lastTweet := NoId), pages[p], p, stop);
      OlderPagesAddNothing(pages, p + 1, OnePage(f, pages[p], p, NoId), stop);
    }
  }

  /** The page on which the incremental scan stops. */
  lemma StopHere(pages: seq<seq<Item>>, p: nat, f: Scan, i: Scan, stop: Id)
    requires Numeric(pages) && NewestFirst(pages) && p < |pages| && stop.Num?
    requires InStep(f, i, stop) && !i.reached && OnePage(i, pages[p], p, stop).reached
    requires p == 0 ==> !OnlyTheStop(pages, stop)
    ensures Above(Run(pages[p + 1..], p + 1, NoId, OnePage(f, pages[p], p, NoId)).0.tweets, stop)
         == Above(OnePage(i, pages[p], p, stop).tweets, stop)
  {
    hide Numeric, NewestFirst, OnlyTheStop, Above, OnePage, OlderFrom, Run;
    PageInStep(f, i, pages[p], p, stop);
    StopIsSound(pages, p, i, stop);
    OlderPagesAddNothing(pages, p + 1, OnePage(f, pages[p], p, NoId), stop);
  }

  lemma RunOne(pages: seq<seq<Item>>, p: nat, stop: Id, st: Scan)
    requires p < |pages| && !st.reached
    ensures Run(pages[p..], p, stop, st).0 == Run(pages[p + 1..], p + 1, stop, OnePage(st, pages[p], p, stop)).0
  {
    hide OnePage;
    assert pages[p..][0] == pages[p] && pages[p..][1..] == pages[p + 1..];
  }

  lemma {:induction false} RunsAgree(pages: seq<seq<Item>>, p: nat, f: Scan, i: Scan, stop: Id)
    requires Numeric(pages) && NewestFirst(pages) && p <= |pages| && stop.Num?
    requires InStep(f, i, stop) && !i.reached
    requires p == 0 ==> !OnlyTheStop(pages, stop)
    ensures Above(Run(pages[p..], p, NoId, f).0.tweets, stop) == Above(Run(pages[p..], p, stop, i).0.tweets, stop)
    decreases |pages| - p
  {
    hide Numeric, NewestFirst, OnlyTheStop, Above, OnePage;
    if p < |pages| {
      RunOne(pages, p, NoId, f);
      RunOne(pages, p, stop, i);
      PageInStep(f, i, pages[p], p, stop);
      if OnePage(i, pages[p], p, stop).reached {
        StopHere(pages, p, f, i, stop);
      } else {
        RunsAgree(pages, p + 1, OnePage(f, pages[p], p, NoId), OnePage(i, pages[p], p, stop), stop);
      }
    }
  }

  /** A full scan never stops early. */
  lemma {:induction false} FullNeverStops(pages: seq<seq<Item>>, page: nat, st: Scan)
    requires !st.reached
    ensures !Run(pages, page, NoId, st).0.reached && Run(pages, page, NoId, st).1 == |pages|
  {
    if pages != [] {
      FullStepsNeverStop(st.(lastTweet := NoId), pages[0], page);
      FullNeverStops(pages[1..], page + 1, OnePage(st, pages[0], page, NoId));
    }
  }

  lemma {:induction false} FullStepsNeverStop(st: Scan, items: seq<Item>, page: nat)
    requires !st.reached
    ensures !Steps(st, items, page, NoId).reached
  {
    if items != [] { FullStepsNeverStop(st, items[..|items| - 1], page); }
  }

  lemma PinnedStopEndsTheScan(pages: seq<seq<Item>>, stop: Id)
    requires OnlyTheStop(pages, stop) && stop.Num?
    ensures Run(pages, 0, stop, FRESH).0.tweets == []
  {
    var it := pages[0][0];
    OneStep(FRESH, it, 0, stop);
    assert pages[0] == [it];
    assert OnePage(FRESH, pages[0], 0, stop) == Step(FRESH, it, 0, stop);
    assert Run(pages[1..], 1, stop, OnePage(FRESH, pages[0], 0, stop)).0 == OnePage(FRESH, pages[0], 0, stop);
  }

  /** The incremental scan refines the full scan.  It fails only where the full scan fails and
      fetches a prefix of its pages.  Restricted to posts newer than the stop id both return the
      same posts in the same order, exactly when the first page is not the stop post alone or
      there is nothing newer to find. */
  lemma IncrementalRefinesFull(server: Server, stop: Id)
    requires stop.Num? && Numeric(Timeline(server).pages) && NewestFirst(Timeline(server).pages)
    ensures var full, inc := ScanTimeline(server, NoId), ScanTimeline(server, stop);
      && (inc.Failed? ==> full.Failed?)
      && (full.Done? ==>
            && inc.Done? && inc.fetched <= full.fetched
            && (Above(inc.scan.tweets, stop) == Above(full.scan.tweets, stop)
                <==> !OnlyTheStop(Timeline(server).pages, stop) || Above(full.scan.tweets, stop) == []))
  {
    var tr := Timeline(server);
    assert Above([], stop) == [];
    hide Numeric, NewestFirst, OnlyTheStop, Pages, ScanFrom, Timeline, Above;
    ScanIsTimelineRun(server, NoId);
    ScanIsTimelineRun(server, stop);
    FullNeverStops(tr.pages, 0, FRESH);
    assert tr.pages[0..] == tr.pages;
    if OnlyTheStop(tr.pages, stop) {
      PinnedStopEndsTheScan(tr.pages, stop);
    } else {
      RunsAgree(tr.pages, 0, FRESH, FRESH, stop);
    }
  }

  lemma ScanIsTimelineRun(server: Server, stop: Id)
    ensures var tr := Timeline(server);
      var run := Run(tr.pages, 0, stop, FRESH);
      ScanTimeline(server, stop) == if tr.failed && !run.0.reached then Failed else Done(run.0, run.1)
  {
    ScanIsRun(server, stop, 0, "", {}, 0, FRESH);
  }

  lemma OneStep(st: Scan, it: Item, page: nat, stop: Id)
    ensures Steps(st, [it], page, stop) == Step(st, it, page, stop)
  {
    assert [it][..0] == [];
  }

  /** A pinned stop post alone on the first page hides everything newer. */
  lemma PinnedStopHidesNewPosts()
    ensures
      var pages := [[Item(Num(5), Media(1))], [Item(Num(9), Media(1))]];
      && Numeric(pages) && NewestFirst(pages)
      && Run(pages, 0, Num(5), FRESH).0.tweets == []
      && Item(Num(9), Media(1)) in Run(pages, 0, NoId, FRESH).0.tweets
  {
    var pages := [[Item(Num(5), Media(1))], [Item(Num(9), Media(1))]];
    PinnedStopEndsTheScan(pages, Num(5));
    var a, b := Item(Num(5), Media(1)), Item(Num(9), Media(1));
    OneStep(FRESH, a, 0, NoId);
    var one := OnePage(FRESH, pages[0], 0, NoId);
    assert one == Step(FRESH, a, 0, NoId);
    OneStep(one.(lastTweet := NoId), b, 1, NoId);
    var two := OnePage(one, pages[1], 1, NoId);
    assert two == Step(one.(lastTweet := NoId), b, 1, NoId);
    assert b in two.tweets;
    assert pages[1..] == [pages[1]] && pages[1..][1..] == [];
    hide OnePage, Step;
    assert Run([], 2, NoId, two) == (two, 0);
    assert Run(pages[1..], 1, NoId, one) == (two, 1);
  }

  // ---------- pages after the first ----------

  lemma {:induction false} LaterStepsNewer(st: Scan, items: seq<Item>, page: nat, stop: Id)
    requires page > 0 && stop.Num?
    requires forall l :: 0 <= l < |items| ==> items[l].id.Num?
    ensures var t := Steps(st, items, page, stop);
      && st.tweets <= t.tweets
      && (forall k :: |st.tweets| <= k < |t.tweets| ==> t.tweets[k].id.Num? && t.tweets[k].id.n > stop.n)
  {
    if items != [] { LaterStepsNewer(st, items[..|items| - 1], page, stop); }
  }

  /** Everything returned from the second page on is newer than the stop id. */
  lemma {:induction false} LaterPagesNewer(pages: seq<seq<Item>>, page: nat, st: Scan, stop: Id)
    requires page > 0 && stop.Num? && Numeric(pages)
    ensures var t := Run(pages, page, stop, st).0;
      && st.tweets <= t.tweets
      && (forall k :: |st.tweets| <= k < |t.tweets| ==> t.tweets[k].id.Num? && t.tweets[k].id.n > stop.n)
  {
    if pages != [] && !st.reached {
      forall l | 0 <= l < |pages[0]| ensures pages[0][l].id.Num? { }
      LaterStepsNewer(st.(lastTweet := NoId), pages[0], page, stop);
      forall p, k | 0 <= p < |pages[1..]| && 0 <= k < |pages[1..][p]| ensures pages[1..][p][k].id.Num? {
        assert pages[1..][p] == pages[p + 1];
        assert pages[p + 1][k].id.Num?;
      }
      LaterPagesNewer(pages[1..], page + 1, OnePage(st, pages[0], page, stop), stop);
    }
  }

  // ---------- what a scan returns, in terms of the published posts ----------

  /** Every entry shows a published post, whose content does not depend on the page. */
  ghost predicate Faithful(pages: seq<seq<Item>>, kind: nat -> Outcome) {
    forall p, k {:trigger pages[p][k]} :: 0 <= p < |pages| && 0 <= k < |pages[p]| ==>
      pages[p][k].id.Num? && pages[p][k].outcome == kind(pages[p][k].id.n)
  }

  ghost predicate Listed(pages: seq<seq<Item>>, id: nat) {
    exists p, k {:trigger pages[p][k]} :: 0 <= p < |pages| && 0 <= k < |pages[p]| && pages[p][k].id == Num(id)
  }

  predicate HasMedia(o: Outcome) { o.Media? && o.count > 0 }

  ghost predicate KeptSeen(st: Scan, kind: nat -> Outcome) {
    forall id: nat {:trigger Num(id) in st.seen} :: Num(id) in st.seen && HasMedia(kind(id)) ==> Item(Num(id), kind(id)) in st.tweets
  }

  lemma FullStepKeeps(st: Scan, it: Item, page: nat, kind: nat -> Outcome)
    requires !st.reached && KeptSeen(st, kind) && it.id.Num? && it.outcome == kind(it.id.n)
    ensures var t := Step(st, it, page, NoId); !t.reached && KeptSeen(t, kind) && t.seen == st.seen + {it.id}
  {
    var t := Step(st, it, page, NoId);
    assert t.tweets == st.tweets || t.tweets == st.tweets + [it];
    forall id: nat | Num(id) in t.seen && HasMedia(kind(id)) ensures Item(Num(id), kind(id)) in t.tweets {
      if Num(id) in st.seen {
        assert Item(Num(id), kind(id)) in st.tweets;
      } else {
        assert t.tweets[|t.tweets| - 1] == it;
      }
    }
  }

  lemma {:induction false} FullStepsKeep(st: Scan, items: seq<Item>, page: nat, kind: nat -> Outcome)
    requires !st.reached && KeptSeen(st, kind)
    requires forall l {:trigger items[l]} :: 0 <= l < |items| ==> items[l].id.Num? && items[l].outcome == kind(items[l].id.n)
    ensures var t := Steps(st, items, page, NoId);
      !t.reached && KeptSeen(t, kind) && st.seen <= t.seen && (forall l {:trigger items[l]} :: 0 <= l < |items| ==> items[l].id in t.seen)
  {
    if items != [] {
      var n := |items| - 1;
      FullStepsKeep(st, items[..n], page, kind);
      hide KeptSeen;
      FullStepKeeps(Steps(st, items[..n], page, NoId), items[n], page, kind);
      var t := Steps(st, items, page, NoId);
      forall l | 0 <= l < |items| ensures items[l].id in t.seen {
        if l < n { assert items[..n][l].id in Steps(st, items[..n], page, NoId).seen; }
      }
    }
  }

  lemma {:induction false} FullRunKeeps(pages: seq<seq<Item>>, p: nat, st: Scan, kind: nat -> Outcome)
    requires p <= |pages| && !st.reached && KeptSeen(st, kind) && Faithful(pages, kind)
    ensures var t := Run(pages[p..], p, NoId, st).0;
      && KeptSeen(t, kind) && st.seen <= t.seen
      && (forall q, l {:trigger pages[q][l]} :: p <= q < |pages| && 0 <= l < |pages[q]| ==> pages[q][l].id in t.seen)
    decreases |pages| - p
  {
    if p < |pages| {
      assert pages[p..][0] == pages[p] && pages[p..][1..] == pages[p + 1..];
      FullStepsKeep(st.(lastTweet := NoId), pages[p], p, kind);
      hide KeptSeen, Steps, Faithful;
      FullRunKeeps(pages, p + 1, OnePage(st, pages[p], p, NoId), kind);
    }
  }

  /** A full scan returns every listed post that has media. */
  lemma FullReturnsAll(pages: seq<seq<Item>>, kind: nat -> Outcome, id: nat)
    requires Faithful(pages, kind) && Listed(pages, id) && HasMedia(kind(id))
    ensures Item(Num(id), kind(id)) in Run(pages, 0, NoId, FRESH).0.tweets
  {
    FullRunKeeps(pages, 0, FRESH, kind);
    assert pages[0..] == pages;
  }

  lemma {:induction false} AboveMember(tweets: seq<Item>, stop: Id, it: Item)
    ensures it in Above(tweets, stop) <==> it in tweets && NewerThan(it.id, stop)
  {
    if tweets != [] {
      AboveMember(tweets[..|tweets| - 1], stop, it);
      assert tweets == tweets[..|tweets| - 1] + [tweets[|tweets| - 1]];
    }
  }

  /** An incremental scan returns every listed post with media that is newer than the stop. */
  lemma IncrementalReturnsNewer(pages: seq<seq<Item>>, kind: nat -> Outcome, stop: Id, id: nat)
    requires Faithful(pages, kind) && NewestFirst(pages) && stop.Num? && !OnlyTheStop(pages, stop)
    requires Listed(pages, id) && HasMedia(kind(id)) && id > stop.n
    ensures Item(Num(id), kind(id)) in Run(pages, 0, stop, FRESH).0.tweets
  {
    var it := Item(Num(id), kind(id));
    FullReturnsAll(pages, kind, id);
    assert Numeric(pages);
    assert pages[0..] == pages;
    RunsAgree(pages, 0, FRESH, FRESH, stop);
    hide Above, Faithful, NewestFirst;
    AboveMember(Run(pages, 0, NoId, FRESH).0.tweets, stop, it);
    AboveMember(Run(pages, 0, stop, FRESH).0.tweets, stop, it);
  }

  ghost predicate Has(items: seq<Item>, id: Id) {
    exists l {:trigger items[l]} :: 0 <= l < |items| && items[l].id == id
  }

  /** `id` stands on the page before any entry of the stop. */
  ghost predicate BeforeStop(items: seq<Item>, stop: Id, id: Id) {
    exists k {:trigger items[..k]} :: 0 < k <= |items| && items[k - 1].id == id && !Has(items[..k], stop)
  }

  lemma HasMore(items: seq<Item>, x: Item, id: Id)
    ensures Has(items + [x], id) <==> Has(items, id) || x.id == id
  {
    var more := items + [x];
    if Has(items, id) {
      var l :| 0 <= l < |items| && items[l].id == id;
      assert more[l].id == id;
    }
    assert more[|items|] == x;
  }

  lemma BeforeMore(items: seq<Item>, x: Item, stop: Id, id: Id)
    ensures BeforeStop(items + [x], stop, id) <==> BeforeStop(items, stop, id) || (x.id == id && !Has(items + [x], stop))
  {
    var more := items + [x];
    hide Has;
    if BeforeStop(items, stop, id) {
      var k :| 0 < k <= |items| && items[k - 1].id == id && !Has(items[..k], stop);
      assert more[..k] == items[..k];
    }
    if BeforeStop(more, stop, id) {
      var k :| 0 < k <= |more| && more[k - 1].id == id && !Has(more[..k], stop);
      if k <= |items| { assert more[..k] == items[..k]; } else { assert more[..k] == more; }
    }
    if x.id == id && !Has(more, stop) { assert more[..|more|] == more; }
  }

  /** A post on the page and no stop: then the post comes before the stop. */
  lemma {:induction false} HasBefore(items: seq<Item>, stop: Id, id: Id)
    requires Has(items, id) && !Has(items, stop)
    ensures BeforeStop(items, stop, id)
  {
    var l :| 0 <= l < |items| && items[l].id == id;
    var k := l + 1;
    assert items[..k][l].id == id;
    forall m | 0 <= m < k ensures items[..k][m].id != stop { assert items[m].id != stop; }
  }

  ghost predicate Head(t: Scan, items: seq<Item>, stop: Id, it: Item) {
    && (t.reached <==> Has(items, stop)) && (stop in t.seen ==> t.reached) && (it.id in t.seen <==> Has(items, it.id))
    && (it in t.tweets <==> BeforeStop(items, stop, it.id))
  }

  lemma HeadStep(t: Scan, items: seq<Item>, x: Item, stop: Id, it: Item)
    requires Head(t, items, stop, it) && stop.Num? && x.id.Num? && it.id.Num? && it.id.n <= stop.n
    requires HasMedia(it.outcome) && (x.id == it.id ==> x == it)
    ensures Head(Step(t, x, 0, stop), items + [x], stop, it)
  {
    HasMore(items, x, stop);
    HasMore(items, x, it.id);
    BeforeMore(items, x, stop, it.id);
    if Has(items, it.id) && !Has(items, stop) { HasBefore(items, stop, it.id); }
    hide Has, BeforeStop;
    var next := Step(t, x, 0, stop);
    assert next.tweets == t.tweets || next.tweets == t.tweets + [x];
  }

  lemma {:induction false} HeadSteps(items: seq<Item>, stop: Id, it: Item)
    requires stop.Num? && it.id.Num? && it.id.n <= stop.n && HasMedia(it.outcome)
    requires forall l {:trigger items[l]} :: 0 <= l < |items| ==> items[l].id.Num? && (items[l].id == it.id ==> items[l] == it)
    ensures Head(Steps(FRESH, items, 0, stop), items, stop, it)
  {
    if items != [] {
      var n := |items| - 1;
      HeadSteps(items[..n], stop, it);
      HeadStep(Steps(FRESH, items[..n], 0, stop), items[..n], items[n], stop, it);
      assert items == items[..n] + [items[n]];
    }
  }

  /** A post not newer than the stop is returned exactly if it stands on the first page before it. */
  lemma OlderReturnedIff(pages: seq<seq<Item>>, kind: nat -> Outcome, stop: Id, id: nat)
    requires Faithful(pages, kind) && stop.Num? && HasMedia(kind(id)) && id <= stop.n && pages != []
    ensures Item(Num(id), kind(id)) in Run(pages, 0, stop, FRESH).0.tweets <==> BeforeStop(pages[0], stop, Num(id))
  {
    var it, one := Item(Num(id), kind(id)), OnePage(FRESH, pages[0], 0, stop);
    HeadSteps(pages[0], stop, it);
    hide Steps, BeforeStop, Has;
    assert Numeric(pages[1..]) by {
      forall p, k | 0 <= p < |pages[1..]| && 0 <= k < |pages[1..][p]| ensures pages[1..][p][k].id.Num? {
        assert pages[p + 1][k].id.Num?;
      }
    }
    LaterPagesNewer(pages[1..], 1, one, stop);
  }

  /** What an incremental scan returns: a listed post with media is returned exactly if it is newer
      than the stop, and the first page is not the stop alone, or stands on the first page before it. */
  lemma ReturnedIff(pages: seq<seq<Item>>, kind: nat -> Outcome, stop: Id, id: nat)
    requires Faithful(pages, kind) && NewestFirst(pages) && stop.Num? && Listed(pages, id) && HasMedia(kind(id))
    ensures Item(Num(id), kind(id)) in Run(pages, 0, stop, FRESH).0.tweets
      <==> (id > stop.n && !OnlyTheStop(pages, stop)) || BeforeStop(pages[0], stop, Num(id))
  {
    hide Run, NewestFirst, Faithful, BeforeStop;
    if id <= stop.n {
      OlderReturnedIff(pages, kind, stop, id);
    } else if OnlyTheStop(pages, stop) {
      PinnedStopEndsTheScan(pages, stop);
      StopAlone(pages[0], stop, Num(id));
    } else {
      IncrementalReturnsNewer(pages, kind, stop, id);
    }
  }

  lemma StopAlone(items: seq<Item>, stop: Id, id: Id)
    requires |items| == 1 && items[0].id == stop
    ensures !BeforeStop(items, stop, id)
  {
    assert items[..1] == items && Has(items, stop);
  }

  // ---------- the newest id seen ----------

  ghost function ListedIds(pages: seq<seq<Item>>): (ids: set<nat>)
    ensures forall p, k {:trigger pages[p][k]} :: 0 <= p < |pages| && 0 <= k < |pages[p]| && pages[p][k].id.Num? ==> pages[p][k].id.n in ids
    ensures forall x :: x in ids ==> Listed(pages, x)
  {
    set p, k | 0 <= p < |pages| && 0 <= k < |pages[p]| && pages[p][k].id.Num? :: pages[p][k].id.n
  }

  ghost predicate Among(id: Id, ids: set<nat>) { id.Num? ==> id.n in ids }

  lemma {:induction false} StepsSee(st: Scan, items: seq<Item>, page: nat, stop: Id, ids: set<nat>)
    requires Among(st.lastSeen, ids)
    requires forall l {:trigger items[l]} :: 0 <= l < |items| ==> Among(items[l].id, ids)
    ensures Among(Steps(st, items, page, stop).lastSeen, ids)
  {
    if items != [] { StepsSee(st, items[..|items| - 1], page, stop, ids); }
  }

  /** The newest id a scan reports is one of the listed ids. */
  lemma {:induction false} LastSeenListed(pages: seq<seq<Item>>, page: nat, st: Scan, stop: Id, ids: set<nat>)
    requires Among(st.lastSeen, ids)
    requires forall p, k {:trigger pages[p][k]} :: 0 <= p < |pages| && 0 <= k < |pages[p]| ==> Among(pages[p][k].id, ids)
    ensures Among(Run(pages, page, stop, st).0.lastSeen, ids)
  {
    if pages != [] && !st.reached {
      forall l | 0 <= l < |pages[0]| ensures Among(pages[0][l].id, ids) { }
      StepsSee(st.(lastTweet := NoId), pages[0], page, stop, ids);
      forall p, k | 0 <= p < |pages[1..]| && 0 <= k < |pages[1..][p]| ensures Among(pages[1..][p][k].id, ids) {
        assert pages[1..][p][k] == pages[p + 1][k];
      }
      LastSeenListed(pages[1..], page + 1, OnePage(st, pages[0], page, stop), stop, ids);
    }
  }

  lemma {:induction false} StepsReturnListed(st: Scan, items: seq<Item>, page: nat, stop: Id, ids: set<nat>)
    requires forall t :: t in st.tweets ==> t.id.Num? && t.id.n in ids
    requires forall l {:trigger items[l]} :: 0 <= l < |items| ==> items[l].id.Num? && items[l].id.n in ids
    ensures forall t :: t in Steps(st, items, page, stop).tweets ==> t.id.Num? && t.id.n in ids
  {
    if items != [] { StepsReturnListed(st, items[..|items| - 1], page, stop, ids); }
  }

  /** Only listed posts are returned. */
  lemma {:induction false} RunReturnsListed(pages: seq<seq<Item>>, page: nat, st: Scan, stop: Id, ids: set<nat>)
    requires forall t :: t in st.tweets ==> t.id.Num? && t.id.n in ids
    requires forall p, k {:trigger pages[p][k]} :: 0 <= p < |pages| && 0 <= k < |pages[p]| ==> pages[p][k].id.Num? && pages[p][k].id.n in ids
    ensures forall t :: t in Run(pages, page, stop, st).0.tweets ==> t.id.Num? && t.id.n in ids
  {
    if pages != [] && !st.reached {
      forall l | 0 <= l < |pages[0]| ensures pages[0][l].id.Num? && pages[0][l].id.n in ids { }
      StepsReturnListed(st.(lastTweet := NoId), pages[0], page, stop, ids);
      forall p, k | 0 <= p < |pages[1..]| && 0 <= k < |pages[1..][p]| ensures pages[1..][p][k].id.Num? && pages[1..][p][k].id.n in ids {
        assert pages[1..][p][k] == pages[p + 1][k];
      }
      RunReturnsListed(pages[1..], page + 1, OnePage(st, pages[0], page, stop), stop, ids);
    }
  }
}
