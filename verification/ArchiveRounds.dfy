/** Archive rounds of one user over a persisted cursor: no post is lost. */
module ArchiveRounds {
  import opened Options
  import opened Timeline
  import opened TimelineOrder

  /** What happens to one medium of a post. */
  datatype Verdict =
    | Downloaded
    | Skipped
    | NoAddress      // nothing to download: recorded as an issue
    | Queued         // failed, put into the retry queue
    | Recorded       // failed for good, recorded
    | Abort          // cancelled, or the database refused: the round fails

  /** One medium: the post id and the position of the medium in the post. */
  datatype Medium = Medium(post: nat, index: nat)

  datatype Archive = Archive(cursor: Id, handled: set<Medium>)

  /** newerTweetID: an id that does not parse counts as zero on the right. */
  predicate Newer(candidate: Id, current: Id) {
    candidate.Num? && candidate.n > (if current.Num? then current.n else 0)
  }

  function Newest(tweets: seq<Item>): Id
    requires tweets != []
  {
    if |tweets| == 1 then tweets[0].id
    else
      var n := |tweets| - 1;
      var best := Newest(tweets[..n]);
      if Newer(tweets[n].id, best) then tweets[n].id else best
  }

  /** The cursor after a successful round. */
  function NextCursor(current: Id, tweets: seq<Item>, seenLast: Id): Id {
    if tweets == [] then
      if seenLast.Num? && Newer(seenLast, current) then seenLast else current
    else
      var newest := Newest(tweets);
      var seen := if Newer(seenLast, newest) then seenLast else newest;
      if Newer(current, seen) then current else seen
  }

  function MediaCount(t: Item): nat { if t.outcome.Media? then t.outcome.count else 0 }

  ghost predicate AllHandled(tweets: seq<Item>, handled: set<Medium>) {
    forall k {:trigger tweets[k]} :: 0 <= k < |tweets| ==> PostHandled(tweets[k], handled)
  }

  ghost predicate PostHandled(t: Item, handled: set<Medium>) {
    t.id.Num? ==> forall m: nat {:trigger Medium(t.id.n, m)} :: m < MediaCount(t) ==> Medium(t.id.n, m) in handled
  }

  ghost predicate Succeeded(a: Archive, b: Archive, tweets: seq<Item>, seenLast: Id) {
    && a.handled <= b.handled && AllHandled(tweets, b.handled)
    && b.cursor == NextCursor(a.cursor, tweets, seenLast)
  }

  ghost predicate FailedRound(a: Archive, b: Archive) {
    a.handled <= b.handled && b.cursor == a.cursor
  }

  ghost predicate NoAbort(t: Item, verdict: (Id, nat) -> Verdict) {
    forall m: nat {:trigger verdict(t.id, m)} :: m < MediaCount(t) ==> verdict(t.id, m) != Abort
  }

  ghost predicate NoneAborts(tweets: seq<Item>, verdict: (Id, nat) -> Verdict) {
    forall k {:trigger tweets[k]} :: 0 <= k < |tweets| ==> NoAbort(tweets[k], verdict)
  }

  /** Where the medium belongs by its verdict. */
  predicate Placed(x: Medium, v: Verdict, archived: set<Medium>, queued: set<Medium>, noted: set<Medium>) {
    match v
    case Downloaded => x in archived
    case Skipped => x in archived
    case NoAddress => x in noted
    case Recorded => x in noted
    case Queued => x in queued
    case Abort => true
  }

  // ---------- the code ----------

  class Archiver {
    var cursor: Id
    var archived: set<Medium>
    var queued: set<Medium>
    var noted: set<Medium>

    ghost function St(): Archive
      reads this
    {
      Archive(cursor, archived + queued + noted)
    }

    constructor ()
      ensures St() == Archive(NoId, {})
    {
      cursor, archived, queued, noted := NoId, {}, {}, {};
    }

    /** The media loop of one post. */
    method HandlePost(tweet: Item, verdict: (Id, nat) -> Verdict) returns (ok: bool)
      modifies this
      ensures cursor == old(cursor) && old(St()).handled <= St().handled
      ensures ok ==> PostHandled(tweet, St().handled)
      ensures ok <==> NoAbort(tweet, verdict)
      ensures old(archived) <= archived && old(queued) <= queued && old(noted) <= noted
      ensures ok && tweet.id.Num? ==> forall m: nat {:trigger Medium(tweet.id.n, m)} :: m < MediaCount(tweet) ==>
                Placed(Medium(tweet.id.n, m), verdict(tweet.id, m), archived, queued, noted)
    {
      var id: nat := if tweet.id.Num? then tweet.id.n else 0;
      for m := 0 to MediaCount(tweet)
        invariant cursor == old(cursor) && old(St()).handled <= St().handled
        invariant old(archived) <= archived && old(queued) <= queued && old(noted) <= noted
        invariant forall i: nat {:trigger verdict(tweet.id, i)} :: i < m ==> verdict(tweet.id, i) != Abort
        invariant forall i: nat {:trigger Medium(id, i)} :: i < m ==> Placed(Medium(id, i), verdict(tweet.id, i), archived, queued, noted)
        invariant forall i: nat {:trigger Medium(id, i)} :: i < m ==> Medium(id, i) in St().handled
      {
        match verdict(tweet.id, m) {
          case Abort => return false;
          case Downloaded => archived := archived + {Medium(id, m)};
          case Skipped => archived := archived + {Medium(id, m)};
          case NoAddress => noted := noted + {Medium(id, m)};
          case Recorded => noted := noted + {Medium(id, m)};
          case Queued => queued := queued + {Medium(id, m)};
        }
      }
      return true;
    }

    /** archiveTweetsWithSeen. */
    method ArchiveTweets(tweets: seq<Item>, seenLast: Id, verdict: (Id, nat) -> Verdict) returns (ok: bool)
      requires tweets != []
      modifies this
      ensures ok ==> Succeeded(old(St()), St(), tweets, seenLast)
      ensures !ok ==> FailedRound(old(St()), St())
      ensures ok <==> NoneAborts(tweets, verdict)
    {
      for k := 0 to |tweets|
        invariant cursor == old(cursor) && old(St()).handled <= St().handled
        invariant NoneAborts(tweets[..k], verdict)
        invariant AllHandled(tweets[..k], St().handled)
      {
        ghost var before := St().handled;
        var done := HandlePost(tweets[k], verdict);
        if !done {
          assert !NoAbort(tweets[k], verdict);
          return false;
        }
        NoneMore(tweets, k, verdict);
        StillHandled(tweets[..k], before, St().handled);
        OneMoreHandled(tweets, k, St().handled);
      }
      assert tweets[..|tweets|] == tweets;
      var next := tweets[0].id;
      for k := 1 to |tweets|
        invariant next == Newest(tweets[..k])
      {
        assert tweets[..k + 1][..k] == tweets[..k];
        if Newer(tweets[k].id, next) { next := tweets[k].id; }
      }
      if Newer(seenLast, next) { next := seenLast; }
      if Newer(cursor, next) { next := cursor; }
      cursor := next;
      return true;
    }

    /** The scan and archive part of archiveUser, with the user lock held. */
    method Round(server: Server, incremental: bool, verdict: (Id, nat) -> Verdict) returns (ok: bool)
      modifies this
      ensures ok ==> ScanTimeline(server, StopOf(old(St()), incremental)).Done?
      ensures ok ==> var scan := ScanTimeline(server, StopOf(old(St()), incremental)).scan;
        Succeeded(old(St()), St(), scan.tweets, scan.lastSeen)
      ensures !ok ==> FailedRound(old(St()), St())
      ensures ok <==> ScanTimeline(server, StopOf(old(St()), incremental)).Done?
                      && NoneAborts(ScanTimeline(server, StopOf(old(St()), incremental)).scan.tweets, verdict)
    {
      var stop := if incremental then cursor else NoId;
      var result := GetUserTimeline(server, stop);
      if result.Failed? { return false; }
      var scan := result.scan;
      if scan.tweets == [] {
        if scan.lastSeen.Num? && Newer(scan.lastSeen, cursor) {
          cursor := scan.lastSeen;
        }
        return true;
      }
      ok := ArchiveTweets(scan.tweets, scan.lastSeen, verdict);
    }
  }

  lemma NoneMore(tweets: seq<Item>, k: nat, verdict: (Id, nat) -> Verdict)
    requires k < |tweets| && NoneAborts(tweets[..k], verdict) && NoAbort(tweets[k], verdict)
    ensures NoneAborts(tweets[..k + 1], verdict)
  {
    var more := tweets[..k + 1];
    forall i | 0 <= i < |more| ensures NoAbort(more[i], verdict) {
      if i < k { assert tweets[..k][i] == more[i]; }
    }
    hide NoAbort;
  }

  lemma StillHandled(tweets: seq<Item>, a: set<Medium>, b: set<Medium>)
    requires AllHandled(tweets, a) && a <= b
    ensures AllHandled(tweets, b)
  {
    forall k | 0 <= k < |tweets| ensures PostHandled(tweets[k], b) { assert PostHandled(tweets[k], a); }
  }

  lemma OneMoreHandled(tweets: seq<Item>, k: nat, handled: set<Medium>)
    requires k < |tweets| && AllHandled(tweets[..k], handled) && PostHandled(tweets[k], handled)
    ensures AllHandled(tweets[..k + 1], handled)
  {
    var more := tweets[..k + 1];
    forall i | 0 <= i < |more| ensures PostHandled(more[i], handled) {
      if i < k { assert tweets[..k][i] == more[i]; }
    }
  }

  function StopOf(a: Archive, incremental: bool): Id { if incremental then a.cursor else NoId }

  // ---------- runs ----------

  /** One round: the service's answers, what a post parses to in them, the switch, and how it ended. */
  datatype Round = Round(server: Server, kind: nat -> Outcome, incremental: bool, ok: bool)

  ghost function Listing(r: Round): seq<seq<Item>> { Timeline.Timeline(r.server).pages }

  ghost predicate RoundFrom(a: Archive, r: Round, b: Archive) {
    if r.ok then
      && ScanTimeline(r.server, StopOf(a, r.incremental)).Done?
      && var scan := ScanTimeline(r.server, StopOf(a, r.incremental)).scan;
         Succeeded(a, b, scan.tweets, scan.lastSeen)
    else FailedRound(a, b)
  }

  ghost predicate IsRun(rounds: seq<Round>, states: seq<Archive>) {
    && |states| == |rounds| + 1 && states[0] == Archive(NoId, {})
    && forall i {:trigger rounds[i]} :: 0 <= i < |rounds| ==> RoundFrom(states[i], rounds[i], states[i + 1])
  }

  /** The posts on the timeline of some successful round so far, with what each of them parsed to
      in the first such round. */
  ghost function First(rounds: seq<Round>): map<nat, Outcome> {
    if rounds == [] then map[]
    else With(First(rounds[..|rounds| - 1]), rounds[|rounds| - 1])
  }

  ghost function With(first: map<nat, Outcome>, r: Round): map<nat, Outcome> {
    if r.ok then (map id | id in ListedIds(Listing(r)) :: r.kind(id)) + first else first
  }

  /** Posts not seen before are newer than every post seen before. */
  ghost predicate Newcomers(ids: set<nat>, seen: set<nat>) {
    forall x, y :: x in ids && x !in seen && y in seen ==> y < x
  }

  /** The timeline of a successful round shows published posts, newest first and complete, and its
      first page is not just the (pinned) post of the cursor while newer posts exist. */
  ghost predicate Sound(r: Round, a: Archive, seen: set<nat>) {
    r.ok ==>
      && !Timeline.Timeline(r.server).failed
      && Faithful(Listing(r), r.kind) && NewestFirst(Listing(r))
      && Newcomers(ListedIds(Listing(r)), seen)
      && (r.incremental && a.cursor.Num? && OnlyTheStop(Listing(r), a.cursor) ==>
            forall x :: x in ListedIds(Listing(r)) ==> x <= a.cursor.n)
  }

  ghost predicate HandledAs(id: nat, o: Outcome, handled: set<Medium>) {
    HasMedia(o) ==> PostHandled(Item(Num(id), o), handled)
  }

  /** Every post seen so far that had media when it was listed first has all of it handled; the
      cursor is not past them. */
  ghost predicate NothingLost(a: Archive, first: map<nat, Outcome>) {
    && (forall id: nat {:trigger first[id]} :: id in first ==> HandledAs(id, first[id], a.handled))
    && (a.cursor.Num? ==> a.cursor.n in first)
  }

  lemma {:induction false} NewestIsOne(tweets: seq<Item>, ids: set<nat>)
    requires tweets != []
    requires forall t :: t in tweets ==> t.id.Num? && t.id.n in ids
    ensures Newest(tweets).Num? && Newest(tweets).n in ids
  {
    var n := |tweets| - 1;
    assert tweets[n] in tweets;
    if |tweets| > 1 { NewestIsOne(tweets[..n], ids); }
  }

  /** The cursor never decreases, and it is an id that was listed. */
  lemma CursorMoves(current: Id, tweets: seq<Item>, seenLast: Id, ids: set<nat>)
    requires forall t :: t in tweets ==> t.id.Num? && t.id.n in ids
    requires Among(seenLast, ids)
    ensures var next := NextCursor(current, tweets, seenLast);
      && (current.Num? ==> next.Num? && current.n <= next.n)
      && (next == current || (next.Num? && next.n in ids))
  {
    if tweets != [] { NewestIsOne(tweets, ids); }
  }

  lemma ScanOf(r: Round, stop: Id)
    requires !Timeline.Timeline(r.server).failed && ScanTimeline(r.server, stop).Done?
    ensures ScanTimeline(r.server, stop).scan == Run(Listing(r), 0, stop, FRESH).0
  {
    hide Run, ScanTimeline, Timeline.Timeline;
    ScanIsTimelineRun(r.server, stop);
  }

  /** A full round returns every listed post with media; an incremental one those newer than the
      cursor and those on the first page before the cursor's post. */
  ghost predicate Returns(a: Archive, r: Round, id: nat) {
    var stop := StopOf(a, r.incremental);
    stop.Num? ==> (id > stop.n && !OnlyTheStop(Listing(r), stop)) || (Listing(r) != [] && BeforeStop(Listing(r)[0], stop, Num(id)))
  }

  lemma RoundReturnsIff(a: Archive, r: Round, b: Archive, seen: set<nat>, id: nat)
    requires r.ok && RoundFrom(a, r, b) && Sound(r, a, seen)
    requires id in ListedIds(Listing(r)) && HasMedia(r.kind(id))
    ensures Item(Num(id), r.kind(id)) in ScanTimeline(r.server, StopOf(a, r.incremental)).scan.tweets <==> Returns(a, r, id)
  {
    var stop := StopOf(a, r.incremental);
    ScanOf(r, stop);
    hide Run, NewestFirst, Faithful, Timeline.Timeline, BeforeStop, ScanTimeline;
    if stop.NoId? {
      FullReturnsAll(Listing(r), r.kind, id);
    } else {
      ReturnedIff(Listing(r), r.kind, stop, id);
    }
  }

  /** What a successful round returns is handled, by what it parses to in this round. */
  lemma RoundHandles(a: Archive, r: Round, b: Archive, seen: set<nat>, id: nat)
    requires r.ok && RoundFrom(a, r, b) && Sound(r, a, seen)
    requires id in ListedIds(Listing(r)) && Returns(a, r, id)
    ensures HandledAs(id, r.kind(id), b.handled)
  {
    if HasMedia(r.kind(id)) {
      RoundReturnsIff(a, r, b, seen, id);
      hide Returns, Sound, Timeline.Timeline;
      var tweets := ScanTimeline(r.server, StopOf(a, r.incremental)).scan.tweets;
      var k :| 0 <= k < |tweets| && tweets[k] == Item(Num(id), r.kind(id));
      assert PostHandled(tweets[k], b.handled);
    }
  }

  lemma RoundCursor(a: Archive, r: Round, b: Archive, seen: set<nat>)
    requires RoundFrom(a, r, b) && Sound(r, a, seen)
    ensures a.cursor.Num? ==> b.cursor.Num? && a.cursor.n <= b.cursor.n
    ensures b.cursor == a.cursor || (r.ok && b.cursor.Num? && b.cursor.n in ListedIds(Listing(r)))
  {
    if r.ok {
      var stop, pages := StopOf(a, r.incremental), Listing(r);
      ScanOf(r, stop);
      var ids := ListedIds(pages);
      RunReturnsListed(pages, 0, FRESH, stop, ids);
      LastSeenListed(pages, 0, FRESH, stop, ids);
      hide Run, NewestFirst, ListedIds, Timeline.Timeline, NextCursor;
      var scan := Run(pages, 0, stop, FRESH).0;
      CursorMoves(a.cursor, scan.tweets, scan.lastSeen, ids);
    }
  }

  lemma RoundKeeps(a: Archive, r: Round, b: Archive, first: map<nat, Outcome>)
    requires RoundFrom(a, r, b) && Sound(r, a, first.Keys) && NothingLost(a, first)
    ensures NothingLost(b, With(first, r))
  {
    RoundCursor(a, r, b, first.Keys);
    var now := With(first, r);
    forall id: nat | id in now ensures HandledAs(id, now[id], b.handled) {
      if id in first {
        assert HandledAs(id, first[id], a.handled);
        StaysHandled(id, first[id], a.handled, b.handled);
      } else {
        RoundHandles(a, r, b, first.Keys, id);
      }
    }
  }

  lemma StaysHandled(id: nat, o: Outcome, a: set<Medium>, b: set<Medium>)
    requires HandledAs(id, o, a) && a <= b
    ensures HandledAs(id, o, b)
  {
  }

  ghost predicate AllSound(rounds: seq<Round>, states: seq<Archive>)
    requires |states| == |rounds| + 1
  {
    forall i {:trigger rounds[i]} :: 0 <= i < |rounds| ==> Sound(rounds[i], states[i], First(rounds[..i]).Keys)
  }

  /** No post is lost.  Over any sequence of rounds, failed or successful, with the incremental
      switch flipped at will and posts parsing differently from round to round: every post that had
      media in the first successful round that listed it has all of that media handled. */
  lemma {:induction false} NoPostLost(rounds: seq<Round>, states: seq<Archive>)
    requires IsRun(rounds, states) && AllSound(rounds, states)
    ensures NothingLost(states[|rounds|], First(rounds))
  {
    hide Sound, RoundFrom, NothingLost, With;
    if rounds != [] {
      var n := |rounds| - 1;
      PrefixRun(rounds, states);
      NoPostLost(rounds[..n], states[..n + 1]);
      RoundKeeps(states[n], rounds[n], states[n + 1], First(rounds[..n]));
    } else {
      NothingSeen();
    }
  }

  lemma NothingSeen()
    ensures NothingLost(Archive(NoId, {}), First([]))
  {
  }

  lemma PrefixRun(rounds: seq<Round>, states: seq<Archive>)
    requires IsRun(rounds, states) && AllSound(rounds, states) && rounds != []
    ensures var n := |rounds| - 1;
      && IsRun(rounds[..n], states[..n + 1]) && AllSound(rounds[..n], states[..n + 1])
      && RoundFrom(states[n], rounds[n], states[n + 1]) && Sound(rounds[n], states[n], First(rounds[..n]).Keys)
  {
    hide Sound, RoundFrom, First;
    var n := |rounds| - 1;
    var front := rounds[..n];
    forall i | 0 <= i < |front| ensures front[i] == rounds[i] && front[..i] == rounds[..i] { }
    assert rounds[n] == rounds[n];
  }

  lemma {:induction false} HandledGrows(rounds: seq<Round>, states: seq<Archive>, i: nat, j: nat)
    requires IsRun(rounds, states) && i <= j < |states|
    ensures states[i].handled <= states[j].handled
  {
    if i < j {
      HandledGrows(rounds, states, i, j - 1);
      assert RoundFrom(states[j - 1], rounds[j - 1], states[j]);
      hide ScanTimeline;
    }
  }

  /** What a post parses to in a later round is handled, too, if that round returns it. */
  lemma LaterRoundCatchesUp(rounds: seq<Round>, states: seq<Archive>, i: nat, id: nat)
    requires IsRun(rounds, states) && AllSound(rounds, states) && i < |rounds|
    requires rounds[i].ok && id in ListedIds(Listing(rounds[i])) && Returns(states[i], rounds[i], id)
    ensures HandledAs(id, rounds[i].kind(id), states[|rounds|].handled)
  {
    assert RoundFrom(states[i], rounds[i], states[i + 1]) && Sound(rounds[i], states[i], First(rounds[..i]).Keys);
    hide RoundFrom, Sound, Returns;
    RoundHandles(states[i], rounds[i], states[i + 1], First(rounds[..i]).Keys, id);
    HandledGrows(rounds, states, i + 1, |rounds|);
    StaysHandled(id, rounds[i].kind(id), states[i + 1].handled, states[|rounds|].handled);
  }

  // ---------- the cursor reaches what was seen ----------

  lemma CursorAtLeast(current: Id, tweets: seq<Item>, seenLast: Id)
    requires forall t :: t in tweets ==> t.id.Num?
    ensures var next := NextCursor(current, tweets, seenLast);
      AtLeast(next, current) && (seenLast.Num? && seenLast.n > 0 ==> AtLeast(next, seenLast))
  {
    if tweets != [] { NewestIsNumber(tweets); }
    hide Newest;
  }

  lemma {:induction false} NewestIsNumber(tweets: seq<Item>)
    requires tweets != [] && forall t :: t in tweets ==> t.id.Num?
    ensures Newest(tweets).Num?
  {
    var n := |tweets| - 1;
    assert tweets[n] in tweets;
    if |tweets| > 1 { NewestIsNumber(tweets[..n]); }
  }

  /** After a successful round no listed post is newer than the cursor, handled or not. */
  lemma CursorReaches(a: Archive, r: Round, b: Archive, seen: set<nat>, id: nat)
    requires r.ok && RoundFrom(a, r, b) && Sound(r, a, seen) && id in ListedIds(Listing(r)) && id > 0
    ensures b.cursor.Num? && id <= b.cursor.n
  {
    var stop, pages := StopOf(a, r.incremental), Listing(r);
    RoundCursor(a, r, b, seen);
    if !(stop.Num? && OnlyTheStop(pages, stop)) {
      ScanOf(r, stop);
      var scan := Run(pages, 0, stop, FRESH).0;
      RunReturnsListed(pages, 0, FRESH, stop, ListedIds(pages));
      var p, k :| 0 <= p < |pages| && 0 <= k < |pages[p]| && pages[p][k].id == Num(id);
      assert Numeric(pages);
      NothingNewerMissed(pages, stop, p, k);
      hide Run, NewestFirst, Numeric, ListedIds, Timeline.Timeline, NextCursor, OnlyTheStop;
      CursorAtLeast(a.cursor, scan.tweets, scan.lastSeen);
    }
  }

  /** An incremental round over a timeline that a successful round has just seen returns nothing newer than the cursor,
      and leaves the cursor where it is. */
  lemma NothingNewTwice(a: Archive, r: Round, b: Archive, seen: set<nat>, again: Round, c: Archive, t: Item)
    requires r.ok && RoundFrom(a, r, b) && Sound(r, a, seen)
    requires again.ok && again.incremental && RoundFrom(b, again, c) && Sound(again, b, seen + ListedIds(Listing(r)))
    requires Listing(again) == Listing(r) && b.cursor.Num? && b.cursor.n > 0
    ensures c.cursor == b.cursor
    ensures t in ScanTimeline(again.server, b.cursor).scan.tweets ==> t.id.Num? && t.id.n <= b.cursor.n
  {
    var ids, known := ListedIds(Listing(r)), seen + ListedIds(Listing(r));
    forall id | id in ids ensures id <= b.cursor.n {
      if id > 0 { CursorReaches(a, r, b, seen, id); }
    }
    RoundCursor(b, again, c, known);
    ScanOf(again, b.cursor);
    RunReturnsListed(Listing(r), 0, FRESH, b.cursor, ids);
    hide Run, NewestFirst, ListedIds, Timeline.Timeline, RoundFrom, ScanTimeline;
  }

  // ---------- a post that parses late ----------

  function OnePost(id: nat, o: Outcome): Server { (cursor: string) => Some(Page([Item(Num(id), o)], 0, "")) }

  ghost function RoundOf(id: nat, o: Outcome, incremental: bool): Round {
    Round(OnePost(id, o), (x: nat) => o, incremental, true)
  }

  lemma OnePostListing(id: nat, o: Outcome, incremental: bool)
    ensures var r := RoundOf(id, o, incremental);
      && Listing(r) == [[Item(Num(id), o)]] && !Timeline.Timeline(r.server).failed
  {
  }

  lemma OnePostSound(id: nat, o: Outcome, incremental: bool, a: Archive, seen: set<nat>)
    requires seen <= {id} && (a.cursor.Num? ==> a.cursor.n == id)
    ensures Sound(RoundOf(id, o, incremental), a, seen) && ListedIds(Listing(RoundOf(id, o, incremental))) == {id}
  {
    OnePostListing(id, o, incremental);
    hide Timeline.Timeline;
    assert Listing(RoundOf(id, o, incremental))[0][0].id == Num(id);
  }

  lemma TwoRounds(r0: Round, r1: Round, states: seq<Archive>)
    requires |states| == 3 && states[0] == Archive(NoId, {})
    requires RoundFrom(states[0], r0, states[1]) && RoundFrom(states[1], r1, states[2])
    requires Sound(r0, states[0], {}) && Sound(r1, states[1], First([r0]).Keys)
    ensures IsRun([r0, r1], states) && AllSound([r0, r1], states)
  {
    hide RoundFrom, Sound, First;
    var rounds := [r0, r1];
    NoneFirst();
    assert rounds[..0] == [] && rounds[..1] == [r0];
  }

  lemma NoneFirst()
    ensures First([]).Keys == {}
  {
  }

  lemma OneFirst(r: Round)
    requires r.ok
    ensures First([r]).Keys == ListedIds(Listing(r))
  {
    assert [r][..0] == [];
  }

  /**
   * A post that cannot be parsed when it is listed first is lost to the following incremental
   * rounds: the cursor has passed it, and its media stay unhandled although it parses now.
   */
  lemma LateMediaLost(id: nat, count: nat)
    requires id > 0 && count > 0
    ensures var rounds := [RoundOf(id, Broken, true), RoundOf(id, Media(count), true)];
      var states := [Archive(NoId, {}), Archive(Num(id), {}), Archive(Num(id), {})];
      IsRun(rounds, states) && AllSound(rounds, states) && !HandledAs(id, Media(count), states[2].handled)
  {
    var r0, r1 := RoundOf(id, Broken, true), RoundOf(id, Media(count), true);
    BrokenRound(id);
    LateRound(id, count);
    OnePostSound(id, Broken, true, Archive(NoId, {}), {});
    OnePostSound(id, Media(count), true, Archive(Num(id), {}), {id});
    assert r0.ok;
    assert Medium(id, 0) !in Archive(Num(id), {}).handled;
    hide RoundOf, Sound, RoundFrom, First, IsRun, AllSound;
    OneFirst(r0);
    TwoRounds(r0, r1, [Archive(NoId, {}), Archive(Num(id), {}), Archive(Num(id), {})]);
  }

  lemma BrokenRound(id: nat)
    requires id > 0
    ensures RoundFrom(Archive(NoId, {}), RoundOf(id, Broken, true), Archive(Num(id), {}))
  {
    ScanOnePost(id, Broken, NoId);
  }

  lemma LateRound(id: nat, count: nat)
    ensures RoundFrom(Archive(Num(id), {}), RoundOf(id, Media(count), true), Archive(Num(id), {}))
  {
    ScanOnePost(id, Media(count), Num(id));
  }

  lemma ScanOnePost(id: nat, o: Outcome, stop: Id)
    requires o.Broken? || stop == Num(id)
    ensures var result := ScanTimeline(OnePost(id, o), stop);
      result.Done? && result.scan.tweets == [] && result.scan.lastSeen == Num(id)
  {
    var it := Item(Num(id), o);
    assert Steps(FRESH, [it], 0, stop) == Step(FRESH, it, 0, stop);
  }

  /** The cursor never decreases over a run. */
  lemma {:induction false} CursorNeverDecreases(rounds: seq<Round>, states: seq<Archive>, i: nat, j: nat)
    requires IsRun(rounds, states) && AllSound(rounds, states) && i <= j < |states|
    requires states[i].cursor.Num?
    ensures states[j].cursor.Num? && states[i].cursor.n <= states[j].cursor.n
  {
    if i < j {
      CursorNeverDecreases(rounds, states, i, j - 1);
      assert RoundFrom(states[j - 1], rounds[j - 1], states[j]);
      hide Sound, RoundFrom;
      RoundCursor(states[j - 1], rounds[j - 1], states[j], First(rounds[..j - 1]).Keys);
    }
  }
}
