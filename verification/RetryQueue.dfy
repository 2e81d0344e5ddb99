/** The queue of failed tweets: rounds over the oldest entries. */
module RetryQueue {
  import opened JobTables

  const BATCH: nat := 200
  const MINUTE: nat := 60_000_000_000

  function Min(a: nat, b: nat): nat { if a < b then a else b }

  function Power2(n: nat): (p: nat) { if n == 0 then 1 else 2 * Power2(n - 1) }

  /** 10 minutes doubled per retry, at most a day. */
  function Backoff(retries: nat): nat { Min(10 * MINUTE * Power2(if retries > 8 then 8 else retries), 1440 * MINUTE) }

  lemma {:induction false} BackoffGrows(a: nat, b: nat)
    requires a <= b
    ensures 10 * MINUTE <= Backoff(a) <= Backoff(b) <= 1440 * MINUTE
    ensures Backoff(0) == 10 * MINUTE && (b >= 8 ==> Backoff(b) == 1440 * MINUTE)
    ensures b < 7 ==> Backoff(b + 1) == 2 * Backoff(b)
  {
    assert Power2(4) == 16;
    assert Power2(7) == 128 && Power2(8) == 256;
  }

  function Touched(e: FailedTweet, now: nat): FailedTweet {
    e.(updated := now, retries := e.retries + 1, due := now + Backoff(e.retries))
  }

  // ---------- listing ----------

  predicate Eligible(e: FailedTweet, force: bool, now: nat) { force || e.due <= now }

  function Candidates(rows: map<nat, FailedTweet>, force: bool, now: nat): set<nat> {
    set id | id in rows && Eligible(rows[id], force, now)
  }

  /** `a` may stand before `b` in a list ordered by the last update. */
  predicate NotAfter(rows: map<nat, FailedTweet>, a: nat, b: nat) {
    a in rows && b in rows ==> rows[a].updated <= rows[b].updated
  }

  ghost predicate AllBefore(rows: map<nat, FailedTweet>, first: set<nat>, rest: set<nat>) {
    forall a, b {:trigger NotAfter(rows, a, b)} :: a in first && b in rest ==> NotAfter(rows, a, b)
  }

  ghost predicate Oldest(rows: map<nat, FailedTweet>, from: set<nat>, limit: nat, first: set<nat>) {
    first <= from && |first| == Min(limit, |from|) && AllBefore(rows, first, from - first)
  }

  function Elements(xs: seq<nat>): set<nat> { set x | x in xs }

  ghost predicate Listed(rows: map<nat, FailedTweet>, force: bool, now: nat, batch: seq<nat>) {
    |Elements(batch)| == |batch| && Oldest(rows, Candidates(rows, force, now), BATCH, Elements(batch))
  }

  // ---------- rounds, with everything else that happens to the table ----------

  datatype Round = Idle | Running(force: bool, at: nat, batch: seq<nat>, todo: seq<nat>)

  datatype State = State(rows: map<nat, FailedTweet>, clock: nat, round: Round)

  /** `Settle` is one entry of the running round: deleted, or touched if it failed again. */
  datatype Op =
    | Tick(now: nat)
    | Report(id: nat, job: nat, entity: nat, tweet: string)
    | Remove(id: nat)
    | Start(force: bool, batch: seq<nat>)
    | Settle(delete: bool)
    | Finish
    | Abort

  ghost predicate Allowed(s: State, op: Op) {
    match op
    case Tick(now) => s.clock <= now
    case Start(force, batch) => s.round.Idle? && Listed(s.rows, force, s.clock, batch)
    case Settle(_) => s.round.Running? && s.round.todo != []
    case Finish => s.round.Running? && s.round.todo == []
    case Abort => s.round.Running?
    case _ => true
  }

  function Settled(rows: map<nat, FailedTweet>, id: nat, delete: bool, now: nat): map<nat, FailedTweet> {
    if delete then rows - {id} else if id in rows then rows[id := Touched(rows[id], now)] else rows
  }

  ghost function Step(s: State, op: Op): State
    requires Allowed(s, op)
  {
    match op
    case Tick(now) => s.(clock := now)
    case Report(id, job, entity, tweet) => s.(rows := s.rows[id := Reported(s.rows, id, job, entity, tweet, s.clock)])
    case Remove(id) => s.(rows := s.rows - {id})
    case Start(force, batch) => s.(round := Running(force, s.clock, batch, batch))
    case Settle(delete) =>
      s.(rows := Settled(s.rows, s.round.todo[0], delete, s.clock), round := s.round.(todo := s.round.todo[1..]))
    case Finish => s.(round := Idle)
    case Abort => s.(round := Idle)
  }

  ghost predicate Legal(s: State, ops: seq<Op>)
    decreases |ops|
  {
    ops != [] ==> Allowed(s, ops[0]) && Legal(Step(s, ops[0]), ops[1..])
  }

  ghost function Run(s: State, ops: seq<Op>): State
    requires Legal(s, ops)
    decreases |ops|
  {
    if ops == [] then s else Run(Step(s, ops[0]), ops[1..])
  }

  // ---------- an entry that failed again cools down ----------

  /** After a failed attempt no unforced round lists the entry again before its cool-down is over, unless a report or
      an attempt touches it; each failure counts one more retry and doubles the wait, up to a day. */
  lemma CoolsDown(rows: map<nat, FailedTweet>, id: nat, at: nat, later: map<nat, FailedTweet>, now: nat, batch: seq<nat>)
    requires id in rows && id in later && later[id] == Settled(rows, id, false, at)[id]
    requires Listed(later, false, now, batch) && id in batch
    ensures now >= at + 10 * MINUTE && now >= at + Backoff(rows[id].retries) && later[id].retries == rows[id].retries + 1
    ensures later[id].updated == at && later[id].tweet == rows[id].tweet && later[id].entity == rows[id].entity && later[id].job == rows[id].job
  {
    assert id in Elements(batch);
    BackoffGrows(0, rows[id].retries);
    hide Backoff;
  }

  /** Forced rounds do not wait for anything, and once the cool-down is over unforced rounds do not either. */
  lemma ListableAgain(rows: map<nat, FailedTweet>, id: nat, at: nat, force: bool, now: nat)
    requires id in rows && (force || now >= at + Backoff(rows[id].retries))
    ensures id in Candidates(Settled(rows, id, false, at), force, now)
    ensures id !in Candidates(Settled(rows, id, true, at), force, now)
  {
    hide Backoff;
  }

  // ---------- no entry starves ----------

  /** `x` still waits with the row it had: neither attempted to an end, nor reported again, nor removed. */
  predicate Waits(s: State, x: nat, e: FailedTweet) { x in s.rows && s.rows[x] == e }

  ghost predicate WaitsThroughout(s: State, ops: seq<Op>, x: nat, e: FailedTweet)
    requires Legal(s, ops)
    decreases |ops|
  {
    Waits(s, x, e) && (ops != [] ==> WaitsThroughout(Step(s, ops[0]), ops[1..], x, e))
  }

  /** One more complete round that could have listed `x`. */
  function Counted(s: State, op: Op, e: FailedTweet): nat {
    if op.Finish? && s.round.Running? && Eligible(e, s.round.force, s.round.at) then 1 else 0
  }

  /** The complete rounds of a run that were forced or came after the entry's cool-down. */
  ghost function CompleteRounds(s: State, ops: seq<Op>, e: FailedTweet): nat
    requires Legal(s, ops)
    decreases |ops|
  {
    if ops == [] then 0 else Counted(s, ops[0], e) + CompleteRounds(Step(s, ops[0]), ops[1..], e)
  }

  /** The other entries that an ordering by last update may put before `x`. */
  ghost function Ahead(rows: map<nat, FailedTweet>, x: nat, e: FailedTweet): set<nat> {
    set id | id in rows && id != x && rows[id].updated <= e.updated
  }

  /** The running round is one that `x` might have been in. */
  predicate Relevant(s: State, e: FailedTweet) { s.round.Running? && Eligible(e, s.round.force, s.round.at) }

  /** What the running round has already taken from, or will take from, the entries ahead. */
  ghost predicate Potential(s: State, x: nat, e: FailedTweet, room: nat) {
    && e.updated < s.clock
    && |Ahead(s.rows, x, e)| <= room
    && (Relevant(s, e) && x in s.round.batch ==> x in s.round.todo)
    && (Relevant(s, e) && x !in s.round.batch ==> BATCH + |Ahead(s.rows, x, e) - Elements(s.round.todo)| <= room)
  }

  lemma Shrinks(a: set<nat>, b: set<nat>)
    requires a <= b
    ensures |a| <= |b|
  {
    assert b == a + (b - a);
  }

  lemma OthersShrinkAhead(s: State, rows: map<nat, FailedTweet>, x: nat, e: FailedTweet, room: nat)
    requires Potential(s, x, e, room) && Ahead(rows, x, e) <= Ahead(s.rows, x, e)
    ensures Potential(s.(rows := rows), x, e, room)
  {
    Shrinks(Ahead(rows, x, e), Ahead(s.rows, x, e));
    if s.round.Running? {
      Shrinks(Ahead(rows, x, e) - Elements(s.round.todo), Ahead(s.rows, x, e) - Elements(s.round.todo));
    }
    hide Ahead, Elements;
  }

  /** A full round without `x` consists of entries ahead of `x`. */
  lemma MissedRound(s: State, force: bool, batch: seq<nat>, x: nat, e: FailedTweet)
    requires Listed(s.rows, force, s.clock, batch) && Waits(s, x, e) && Eligible(e, force, s.clock) && x !in batch
    ensures |batch| == BATCH && Elements(batch) <= Ahead(s.rows, x, e)
  {
    var from, first := Candidates(s.rows, force, s.clock), Elements(batch);
    assert x in from - first;
    Shrinks(first + {x}, from);
    forall id | id in first ensures id in Ahead(s.rows, x, e) {
      assert NotAfter(s.rows, id, x);
    }
  }

  lemma StartKeeps(s: State, force: bool, batch: seq<nat>, x: nat, e: FailedTweet, room: nat)
    requires Potential(s, x, e, room) && Waits(s, x, e) && Allowed(s, Start(force, batch))
    ensures Potential(Step(s, Start(force, batch)), x, e, room)
  {
    if Eligible(e, force, s.clock) && x !in batch {
      MissedRound(s, force, batch, x, e);
      var ahead := Ahead(s.rows, x, e);
      assert ahead == (ahead - Elements(batch)) + Elements(batch);
    }
    hide Ahead, Elements, Oldest, Candidates;
  }

  /** An attempted entry is no longer ahead, and no other entry comes to be. */
  lemma SettledLeaves(s: State, delete: bool, x: nat, e: FailedTweet)
    requires Allowed(s, Settle(delete)) && e.updated < s.clock
    ensures var id := s.round.todo[0];
      var rows := Settled(s.rows, id, delete, s.clock);
      Ahead(rows, x, e) <= Ahead(s.rows, x, e) && id !in Ahead(rows, x, e)
  {
    hide Backoff, Elements;
  }

  lemma SettleKeeps(s: State, delete: bool, x: nat, e: FailedTweet, room: nat)
    requires Potential(s, x, e, room) && Waits(s, x, e) && Allowed(s, Settle(delete))
    requires Waits(Step(s, Settle(delete)), x, e)
    ensures Potential(Step(s, Settle(delete)), x, e, room)
  {
    var id, rest := s.round.todo[0], s.round.todo[1..];
    var rows := Settled(s.rows, id, delete, s.clock);
    assert s.round.todo == [id] + rest;
    assert id != x;
    SettledLeaves(s, delete, x, e);
    assert Elements(s.round.todo) == Elements(rest) + {id};
    hide Ahead, Elements, Settled;
    assert Ahead(rows, x, e) - Elements(rest) <= Ahead(s.rows, x, e) - Elements(s.round.todo);
    Shrinks(Ahead(rows, x, e), Ahead(s.rows, x, e));
    Shrinks(Ahead(rows, x, e) - Elements(rest), Ahead(s.rows, x, e) - Elements(s.round.todo));
  }

  lemma FinishKeeps(s: State, x: nat, e: FailedTweet, room: nat)
    requires Potential(s, x, e, room) && Waits(s, x, e) && Allowed(s, Finish)
    ensures var n := Counted(s, Finish, e); BATCH * n <= room && Potential(Step(s, Finish), x, e, room - BATCH * n)
  {
    if Relevant(s, e) {
      assert x !in s.round.batch;
      assert Ahead(s.rows, x, e) - Elements(s.round.todo) == Ahead(s.rows, x, e);
    }
    hide Ahead;
  }

  lemma StepKeeps(s: State, op: Op, x: nat, e: FailedTweet, room: nat)
    requires Potential(s, x, e, room) && Waits(s, x, e) && Allowed(s, op) && Waits(Step(s, op), x, e)
    ensures var n := Counted(s, op, e); BATCH * n <= room && Potential(Step(s, op), x, e, room - BATCH * n)
  {
    match op
    case Report(id, _, _, _) =>
      assert Ahead(Step(s, op).rows, x, e) <= Ahead(s.rows, x, e);
      OthersShrinkAhead(s, Step(s, op).rows, x, e, room);
    case Remove(id) =>
      assert Ahead(Step(s, op).rows, x, e) <= Ahead(s.rows, x, e);
      OthersShrinkAhead(s, Step(s, op).rows, x, e, room);
    case Start(force, batch) => StartKeeps(s, force, batch, x, e, room);
    case Settle(delete) => SettleKeeps(s, delete, x, e, room);
    case Finish => FinishKeeps(s, x, e, room);
    case _ =>
  }

  lemma {:induction false} RunBound(s: State, ops: seq<Op>, x: nat, e: FailedTweet, room: nat)
    requires Legal(s, ops) && WaitsThroughout(s, ops, x, e) && Potential(s, x, e, room)
    ensures BATCH * CompleteRounds(s, ops, e) <= room
    decreases |ops|
  {
    if ops != [] {
      var next, n := Step(s, ops[0]), Counted(s, ops[0], e);
      StepKeeps(s, ops[0], x, e, room);
      RunBound(next, ops[1..], x, e, room - BATCH * n);
      hide Step, Potential, Counted;
    }
  }

  /**
   * With `k` entries that may stand before `x`, at most k / 200 complete rounds pass it by: whatever is reported,
   * removed or aborted in between, the next complete round attempts it.
   */
  lemma NoStarvation(s: State, ops: seq<Op>, x: nat, e: FailedTweet)
    requires Legal(s, ops) && WaitsThroughout(s, ops, x, e)
    requires s.round.Idle? && e.updated < s.clock
    ensures CompleteRounds(s, ops, e) <= |Ahead(s.rows, x, e)| / BATCH
  {
    RunBound(s, ops, x, e, |Ahead(s.rows, x, e)|);
    hide Ahead, CompleteRounds;
  }

  // ---------- the round as code ----------

  /** What the download of one entry came to: done, nothing to download, failed again, or the round must stop. */
  datatype Attempt = Done | NothingToDo | FailedAgain | Stop

  function Limit(limit: int): nat { if limit <= 0 || limit > 500 then 20 else limit }

  ghost predicate Ordered(rows: map<nat, FailedTweet>, batch: seq<nat>) {
    forall i, j {:trigger batch[i], batch[j]} :: 0 <= i < j < |batch| ==> NotAfter(rows, batch[i], batch[j])
  }

  lemma TakeOldest(rows: map<nat, FailedTweet>, first: set<nat>, rest: set<nat>, id: nat)
    requires AllBefore(rows, first, rest) && AllBefore(rows, {id}, rest) && id in rest
    ensures AllBefore(rows, first + {id}, rest - {id})
  {
  }

  lemma AppendOrdered(rows: map<nat, FailedTweet>, batch: seq<nat>, rest: set<nat>, id: nat)
    requires Ordered(rows, batch) && AllBefore(rows, Elements(batch), rest) && id in rest
    ensures Ordered(rows, batch + [id])
  {
    forall i, j | 0 <= i < j < |batch + [id]| ensures NotAfter(rows, (batch + [id])[i], (batch + [id])[j]) {
      assert batch[i] in Elements(batch);
    }
  }

  lemma OlderOf(rows: map<nat, FailedTweet>, id: nat, o: nat, seen: set<nat>)
    requires id in rows && o in rows && AllBefore(rows, {id}, seen)
    ensures AllBefore(rows, {if rows[o].updated < rows[id].updated then o else id}, seen + {o})
  {
    forall b | b in seen ensures NotAfter(rows, if rows[o].updated < rows[id].updated then o else id, b) {
      assert NotAfter(rows, id, b);
    }
  }

  class Queue {
    var rows: map<nat, FailedTweet>

    constructor ()
      ensures rows == map[]
    {
      rows := map[];
    }

    method OldestOf(ids: set<nat>) returns (id: nat)
      requires ids != {} && ids <= rows.Keys
      ensures id in ids && AllBefore(rows, {id}, ids)
    {
      id :| id in ids;
      var rest := ids - {id};
      while rest != {}
        invariant id in ids && rest <= ids && AllBefore(rows, {id}, ids - rest)
        decreases |rest|
      {
        var o :| o in rest;
        OlderOf(rows, id, o, ids - rest);
        assert ids - (rest - {o}) == (ids - rest) + {o};
        if rows[o].updated < rows[id].updated { id := o; }
        rest := rest - {o};
      }
      assert ids - rest == ids;
    }

    method ListFailedTweetsForRetry(limit: int, force: bool, now: nat) returns (batch: seq<nat>)
      ensures |Elements(batch)| == |batch| && Ordered(rows, batch)
      ensures Oldest(rows, Candidates(rows, force, now), Limit(limit), Elements(batch))
    {
      hide AllBefore, Ordered, Candidates, Elements;
      var rest := Candidates(rows, force, now);
      batch := [];
      Empty(rows, rest);
      CandidatesStored(rows, force, now);
      while |batch| < Limit(limit) && rest != {}
        invariant rest <= Candidates(rows, force, now) && Elements(batch) == Candidates(rows, force, now) - rest
        invariant |Elements(batch)| == |batch| <= Limit(limit)
        invariant Ordered(rows, batch) && AllBefore(rows, Elements(batch), rest)
        decreases |rest|
      {
        var id := OldestOf(rest);
        TakeOldest(rows, Elements(batch), rest, id);
        AppendOrdered(rows, batch, rest, id);
        ElementsAppend(batch, id);
        batch, rest := batch + [id], rest - {id};
      }
      assert Candidates(rows, force, now) - Elements(batch) == rest;
      assert |Candidates(rows, force, now)| == |Elements(batch)| + |rest|;
    }

    method DeleteFailedTweet(id: nat)
      modifies this
      ensures rows == Settled(old(rows), id, true, 0)
    {
      rows := rows - {id};
    }

    method TouchFailedTweet(id: nat, now: nat)
      modifies this
      ensures rows == Settled(old(rows), id, false, now)
    {
      if id in rows {
        rows := rows[id := rows[id].(updated := now, retries := rows[id].retries + 1, due := now + Backoff(rows[id].retries))];
      }
    }

    /**
     * A round by the only holder of the retry lock. A complete one leaves every listed entry deleted or at the
     * back of the queue; a stopped one leaves the entries from some place on as they were. The clock shows `now` at
     * the listing and `times(i)` when entry `i` is touched.
     */
    method RetryFailedTweets(force: bool, autoRetry: bool, locked: bool, now: nat, times: nat -> nat, attempts: map<nat, Attempt>)
      returns (batch: seq<nat>, settled: nat, retried: nat)
      modifies this
      ensures (!force && !autoRetry) || locked ==> batch == [] && rows == old(rows)
      ensures (force || autoRetry) && !locked ==> Listed(old(rows), force, now, batch)
      ensures retried <= settled <= |batch|
      ensures Outcomes(old(rows), rows, batch, settled, times, attempts) && Untouched(old(rows), rows, batch[..settled])
      ensures settled < |batch| ==> batch[settled] in attempts && attempts[batch[settled]] == Stop
    {
      hide Oldest, Candidates, Ordered, Backoff;
      batch, settled, retried := [], 0, 0;
      if !force && !autoRetry { return; }
      if locked { return; }
      batch := ListFailedTweetsForRetry(BATCH, force, now);
      Distinct(batch);
      assert Listed(rows, force, now, batch);
      assert Outcomes(rows, rows, batch, 0, times, attempts) && Untouched(rows, rows, batch[..0]);
      hide Listed, Elements, Outcomes, Untouched, Different;
      while settled < |batch|
        invariant retried <= settled <= |batch|
        invariant Outcomes(old(rows), rows, batch, settled, times, attempts) && Untouched(old(rows), rows, batch[..settled])
      {
        ghost var before := rows;
        var id := batch[settled];
        var attempt := if id in attempts then attempts[id] else FailedAgain;
        match attempt {
          case Stop => return;
          case Done => DeleteFailedTweet(id); retried := retried + 1;
          case NothingToDo => DeleteFailedTweet(id);
          case FailedAgain => TouchFailedTweet(id, times(settled));
        }
        OneSettled(old(rows), before, rows, batch, settled, times, attempts);
        settled := settled + 1;
      }
    }
  }

  /** Deleted if the attempt was final, otherwise moved to the back with one more retry. */
  predicate Outcome(was: map<nat, FailedTweet>, rows: map<nat, FailedTweet>, id: nat, now: nat, attempts: map<nat, Attempt>) {
    if id in attempts && attempts[id] != FailedAgain then id !in rows
    else id in was ==> id in rows && rows[id] == Touched(was[id], now)
  }

  /** The first `n` entries of the round are deleted or moved to the back. */
  ghost predicate Outcomes(was: map<nat, FailedTweet>, rows: map<nat, FailedTweet>, batch: seq<nat>, n: nat, times: nat -> nat, attempts: map<nat, Attempt>)
    requires n <= |batch|
  {
    forall i: nat {:trigger batch[i]} :: i < n ==> Outcome(was, rows, batch[i], times(i), attempts)
  }

  /** All other entries are as they were. */
  ghost predicate Untouched(was: map<nat, FailedTweet>, rows: map<nat, FailedTweet>, done: seq<nat>) {
    forall id: nat {:trigger id in done} :: id !in done ==> (id in rows <==> id in was) && (id in rows ==> rows[id] == was[id])
  }

  lemma OneSettled(was: map<nat, FailedTweet>, before: map<nat, FailedTweet>, rows: map<nat, FailedTweet>, batch: seq<nat>, n: nat,
                   times: nat -> nat, attempts: map<nat, Attempt>)
    requires n < |batch| && Different(batch) && Outcomes(was, before, batch, n, times, attempts) && Untouched(was, before, batch[..n])
    requires rows == Settled(before, batch[n], batch[n] in attempts && attempts[batch[n]] != FailedAgain, times(n))
    ensures Outcomes(was, rows, batch, n + 1, times, attempts) && Untouched(was, rows, batch[..n + 1])
  {
    hide Backoff;
    var id := batch[n];
    assert batch[..n + 1] == batch[..n] + [id];
    forall i: nat | i < n + 1 ensures Outcome(was, rows, batch[i], times(i), attempts) {
      if i < n { assert batch[i] != id; } else { assert id !in batch[..n]; }
    }
  }

  lemma Empty(rows: map<nat, FailedTweet>, rest: set<nat>)
    ensures Ordered(rows, []) && AllBefore(rows, {}, rest) && Elements([]) == {}
  {
  }

  lemma ElementsAppend(xs: seq<nat>, x: nat)
    ensures Elements(xs + [x]) == Elements(xs) + {x}
  {
  }

  lemma CandidatesStored(rows: map<nat, FailedTweet>, force: bool, now: nat)
    ensures Candidates(rows, force, now) <= rows.Keys
  {
  }

  ghost predicate Different(xs: seq<nat>) { forall i, j :: 0 <= i < j < |xs| ==> xs[i] != xs[j] }

  lemma {:induction false} Distinct(xs: seq<nat>)
    requires |Elements(xs)| == |xs|
    ensures Different(xs)
  {
    if xs != [] {
      var ys, x := xs[..|xs| - 1], xs[|xs| - 1];
      assert xs == ys + [x];
      assert Elements(xs) == Elements(ys) + {x};
      SetOfSeq(ys);
      Distinct(ys);
      assert x !in ys;
    }
  }

  lemma {:induction false} SetOfSeq(xs: seq<nat>)
    ensures |Elements(xs)| <= |xs|
  {
    if xs != [] {
      var ys, x := xs[..|xs| - 1], xs[|xs| - 1];
      assert xs == ys + [x];
      assert Elements(xs) == Elements(ys) + {x};
      SetOfSeq(ys);
    }
  }
}
