/** Per-path request budgets of one client, driven by response headers, under a clock that only moves forward
    and may jump at every reading. */
module RateLimiter {
  import opened Options

  const MILLISECOND: nat := 1_000_000
  const SECOND: nat := 1000 * MILLISECOND
  const MINUTE: nat := 60 * SECOND
  const MAX_RETRY_AFTER: nat := 15 * MINUTE
  const MARGIN: nat := 5 * SECOND
  const MAX_WAITS: nat := 3

  datatype Limit = Limit(remaining: int, limit: int, reset: int, ready: bool)

  /** The clock; `jitter` is how much time passes before each reading, and beyond each sleep. */
  class Clock {
    var now: nat
    var readings: nat
    const jitter: nat -> nat

    constructor (now: nat, jitter: nat -> nat)
      ensures this.now == now && readings == 0 && this.jitter == jitter
    {
      this.now, readings, this.jitter := now, 0, jitter;
    }

    method Now() returns (t: nat)
      modifies this
      ensures t == now && old(now) <= now
    {
      now, readings := now + jitter(readings), readings + 1;
      t := now;
    }

    method Sleep(d: nat)
      modifies this
      ensures old(now) + d <= now
    {
      now, readings := now + d + jitter(readings), readings + 1;
    }
  }

  // ---------- one budget ----------

  /** The reserve that is not spent: 2 percent of the limit, rounded down, and at least one request. */
  function Threshold(l: Limit): (t: int)
    ensures t >= 1 && (l.limit >= 100 ==> 50 * t <= l.limit < 50 * (t + 1)) && (l.limit < 100 ==> t == 1)
  {
    if l.limit < 100 then 1 else l.limit / 50
  }

  /** Used up and not reset yet. */
  predicate Blocked(l: Limit, now: nat) { l.ready && now <= l.reset && l.remaining <= Threshold(l) }

  predicate BlockedAt(limits: map<string, Limit>, path: string, now: nat) { path in limits && Blocked(limits[path], now) }

  predicate BoundedAt(limits: map<string, Limit>, path: string, now: nat) {
    path in limits ==> limits[path].reset <= now + MAX_RETRY_AFTER
  }

  /** The invariant of every limiter: no reset lies more than 15 minutes ahead. */
  ghost predicate Bounded(limits: map<string, Limit>, now: nat) {
    forall p {:trigger BoundedAt(limits, p, now)} :: BoundedAt(limits, p, now)
  }

  lemma BoundedLater(limits: map<string, Limit>, now: nat, later: nat)
    requires Bounded(limits, now) && now <= later
    ensures Bounded(limits, later)
  {
    forall p ensures BoundedAt(limits, p, later) { assert BoundedAt(limits, p, now); }
  }

  function Taken(l: Limit): Limit { l.(remaining := l.remaining - 1) }

  function Refunded(l: Limit): Limit { if l.ready && l.remaining < l.limit then l.(remaining := l.remaining + 1) else l }

  /** A refund undoes the deduction exactly when the server had not granted more than its own limit. */
  lemma RefundUndoes(l: Limit)
    requires l.ready
    ensures Refunded(Taken(l)) == l <==> l.remaining <= l.limit
  {
  }

  // ---------- Retry-After ----------

  datatype RetryHeader = Absent | Seconds(secs: int) | Date(at: nat) | Junk

  /** Multiplication of 64-bit durations wraps around. */
  function Wrap64(x: int): int { (x + 0x8000_0000_0000_0000) % 0x1_0000_0000_0000_0000 - 0x8000_0000_0000_0000 }

  function RetryAfter(h: RetryHeader, now: nat): (d: int)
    ensures d <= MAX_RETRY_AFTER
    ensures h.Seconds? && 0 <= h.secs <= 900 ==> d == h.secs * SECOND
    ensures h.Seconds? && 900 < h.secs <= 9_223_372_036 ==> d == MAX_RETRY_AFTER
  {
    match h
    case Absent => 0
    case Junk => 0
    case Seconds(secs) => if secs < 0 then 0 else Min(Wrap64(secs * SECOND), MAX_RETRY_AFTER)
    case Date(at) => if at > now then Min(at - now, MAX_RETRY_AFTER) else 0
  }

  function Min(a: int, b: int): int { if a < b then a else b }

  const TWO_63: int := 0x8000_0000_0000_0000
  const TWO_64: int := 0x1_0000_0000_0000_0000

  /** Wrapping keeps the remainder, read as a signed number. */
  lemma WrapIsSigned(x: int)
    ensures var m := x % TWO_64; Wrap64(x) == if m < TWO_63 then m else m - TWO_64
  {
  }

  /**
   * A number of seconds is honoured up to the cap of 15 minutes if and only if its product fits 64 bits, or wraps
   * around to at least the cap; any other number asks for less than it says, or for no wait at all.
   */
  lemma RetryAfterHonouredIff(secs: nat, now: nat)
    ensures RetryAfter(Seconds(secs), now) == Min(secs * SECOND, MAX_RETRY_AFTER)
      <==> (secs <= 9_223_372_036 || MAX_RETRY_AFTER <= (secs * SECOND) % TWO_64 < TWO_63)
  {
    WrapIsSigned(secs * SECOND);
    hide Wrap64;
  }

  /** The smallest number that is not honoured: its product is negative, and the header asks for no wait. */
  lemma HugeRetryAfterWraps(now: nat)
    ensures RetryAfter(Seconds(9_223_372_037), now) < 0
  {
  }

  datatype Headers = Missing(retry: RetryHeader) | Unreadable | Budget(limit: int, remaining: int, reset: int)

  class Limiter {
    var limits: map<string, Limit>
    var lastPrune: nat

    constructor (clock: Clock)
      ensures limits == map[] && lastPrune == clock.now
    {
      limits, lastPrune := map[], clock.now;
    }

    /** Forgets budgets whose reset is more than five minutes past, at most every five minutes. */
    method Prune(clock: Clock)
      modifies this, clock
      ensures old(clock.now) <= clock.now
      ensures forall p, t: nat :: clock.now <= t ==> (BlockedAt(limits, p, t) <==> BlockedAt(old(limits), p, t))
      ensures Pruned(old(limits), limits, clock.now)
      ensures old(lastPrune) + 5 * MINUTE > clock.now ==> limits == old(limits)
      ensures old(lastPrune) + 5 * MINUTE <= clock.now ==>
                lastPrune == clock.now && forall p :: p in limits && limits[p].ready ==> clock.now <= limits[p].reset + 5 * MINUTE
    {
      var now := clock.Now();
      if now < lastPrune + 5 * MINUTE { return; }
      limits := map p | p in limits && !(limits[p].ready && limits[p].reset + 5 * MINUTE < now) :: limits[p];
      lastPrune := now;
    }

    method WouldBlock(path: string, clock: Clock) returns (b: bool)
      modifies clock
      ensures old(clock.now) <= clock.now && b == BlockedAt(limits, path, clock.now)
    {
      if path !in limits { var t := clock.Now(); return false; }
      var l := limits[path];
      if !l.ready { var t := clock.Now(); return false; }
      var t := clock.Now();
      if t > l.reset { return false; }
      return l.remaining <= Threshold(l);
    }

    /**
     * Takes one request from the budget, or waits for the reset; between two readings the whole table may be
     * replaced by other requests. At most three waits; only one if nobody interferes. `table` is what was found when
     * the decision was made, after the clock had shown `seen`.
     */
    method Before(path: string, clock: Clock, others: nat -> Option<map<string, Limit>>, cancel: nat -> bool)
      returns (ok: bool, waits: nat, ghost slept: nat, ghost table: map<string, Limit>, ghost seen: nat)
      requires Bounded(limits, clock.now)
      requires forall k {:trigger others(k)} :: others(k).Some? ==> Bounded(others(k).value, clock.now)
      modifies this, clock
      ensures waits <= MAX_WAITS && slept <= waits * (MAX_RETRY_AFTER + MARGIN) && old(clock.now) + slept <= clock.now
      ensures Bounded(limits, clock.now)
      ensures (forall k {:trigger others(k)} :: others(k).None?) && (forall k {:trigger cancel(k)} :: !cancel(k)) ==> ok && waits <= 1
      ensures old(clock.now) <= seen <= clock.now && Decided(ok, table, limits, path, seen, clock.now)
      ensures !BlockedAt(old(limits), path, old(clock.now)) ==> ok && waits == 0
      ensures Origin(old(limits), others, waits, table, clock.now)
    {
      hide Bounded, Origin, Pruned;
      Prune(clock);
      PruneBounded(old(limits), limits, old(clock.now), clock.now);
      OriginStart(old(limits), others, limits, clock.now);
      ghost var blocked := BlockedAt(old(limits), path, old(clock.now));
      ok, waits, slept, table, seen := false, 0, 0, limits, clock.now;
      while true
        invariant old(clock.now) <= seen <= clock.now
        invariant Origin(old(limits), others, waits, limits, clock.now)
        invariant waits > 0 ==> blocked
        invariant waits == 0 && BlockedAt(limits, path, clock.now) ==> blocked
        invariant waits <= MAX_WAITS && slept <= waits * (MAX_RETRY_AFTER + MARGIN)
        invariant old(clock.now) + slept <= clock.now && Bounded(limits, clock.now)
        invariant (forall k {:trigger others(k)} :: others(k).None?) && (forall k {:trigger cancel(k)} :: !cancel(k)) && waits > 0
                  ==> waits == 1 && path in limits && limits[path].reset < clock.now
        decreases MAX_WAITS - waits
      {
        ghost var start := clock.now;
        table, seen := limits, start;
        if path !in limits || !limits[path].ready { return true, waits, slept, table, seen; }
        var t := clock.Now();
        seen := t;
        BoundedLater(limits, start, t);
        OriginLater(old(limits), others, waits, limits, start, t);
        if t > limits[path].reset { return true, waits, slept, table, seen; }
        if limits[path].remaining > Threshold(limits[path]) {
          TakenBounded(limits, path, t);
          limits := limits[path := limits[path].(remaining := limits[path].remaining - 1)];
          return true, waits, slept, table, seen;
        }
        var until := limits[path].reset + MARGIN;
        InBound(limits, path, t);
        var u := clock.Now();
        BoundedLater(limits, t, u);
        OriginLater(old(limits), others, waits, limits, t, u);
        if until <= u { return true, waits, slept, table, seen; }
        if waits >= MAX_WAITS { return false, waits, slept, table, seen; }
        if cancel(waits) { return false, waits, slept, table, seen; }
        clock.Sleep(until - u);
        slept := slept + (until - u);
        BoundedLater(limits, u, clock.now);
        OriginMore(old(limits), others, waits, limits, u, clock.now);
        if others(waits).Some? {
          BoundedLater(others(waits).value, old(clock.now), clock.now);
          limits := others(waits).value;
        }
        waits := waits + 1;
      }
    }

    method After(path: string, h: Headers, clock: Clock)
      requires Bounded(limits, clock.now)
      modifies this, clock
      ensures old(clock.now) <= clock.now && Bounded(limits, clock.now)
      ensures h.Unreadable? || (h.Missing? && RetryAfter(h.retry, old(clock.now)) <= 0 && !h.retry.Date?) ==> limits == old(limits)
      ensures h.Missing? && limits != old(limits) ==> BlockedAt(limits, path, clock.now) && limits == old(limits)[path := limits[path]]
      ensures h.Missing? && h.retry.Seconds? && 0 < h.retry.secs <= 9_223_372_036 ==>
                limits == old(limits)[path := Limit(0, 1, clock.now + Min(h.retry.secs * SECOND, MAX_RETRY_AFTER), true)]
      ensures h.Missing? && h.retry.Date? && h.retry.at > clock.now ==>
                BlockedAt(limits, path, clock.now) && limits[path].reset >= Min(h.retry.at, clock.now + MAX_RETRY_AFTER)
      ensures h.Budget? ==> path in limits && limits == old(limits)[path := limits[path]]
                            && limits[path].remaining == h.remaining && limits[path].limit == h.limit && limits[path].ready
                            && limits[path].reset == Min(h.reset, clock.now + MAX_RETRY_AFTER)
      ensures h.Budget? ==> (BlockedAt(limits, path, clock.now) <==>
                clock.now <= h.reset && (h.remaining <= 1 || 50 * h.remaining <= h.limit))
    {
      hide Bounded;
      match h {
        case Unreadable =>
        case Missing(retry) =>
          var t := clock.Now();
          var d := RetryAfter(retry, t);
          BoundedLater(limits, old(clock.now), t);
          if d > 0 {
            var u := clock.Now();
            BoundedLater(limits, t, u);
            PutBounded(limits, path, Limit(0, 1, u + d, true), u);
            limits := limits[path := Limit(0, 1, u + d, true)];
          }
        case Budget(limit, remaining, reset) =>
          var t := clock.Now();
          BoundedLater(limits, old(clock.now), t);
          var clipped := if reset > t + MAX_RETRY_AFTER then t + MAX_RETRY_AFTER else reset;
          PutBounded(limits, path, Limit(remaining, limit, clipped, true), t);
          limits := limits[path := Limit(remaining, limit, clipped, true)];
      }
    }

    /** Blocks the path for a while; a longer block that is already there stays. */
    method MarkRateLimitedFor(path: string, block: int, clock: Clock)
      requires Bounded(limits, clock.now)
      modifies this, clock
      ensures old(clock.now) <= clock.now && (block <= MAX_RETRY_AFTER ==> Bounded(limits, clock.now))
      ensures BlockedAt(limits, path, clock.now) && limits == old(limits)[path := limits[path]]
      ensures limits[path].reset >= clock.now + (if block <= 0 then MINUTE else block)
      ensures path in old(limits) ==> limits[path].reset >= old(limits)[path].reset
    {
      hide Bounded;
      var d: nat := if block <= 0 then MINUTE else block;
      var t := clock.Now();
      BoundedLater(limits, old(clock.now), t);
      var l := if path in limits then limits[path] else Limit(0, 0, 0, false);
      var reset := t + d;
      if path in limits { InBound(limits, path, t); }
      if l.reset > reset { reset := l.reset; }
      var marked := Limit(0, if l.limit <= 0 then 1 else l.limit, reset, true);
      if block <= MAX_RETRY_AFTER { PutBounded(limits, path, marked, t); }
      limits := limits[path := marked];
    }

    method Refund(path: string)
      modifies this
      ensures limits == if path in old(limits) then old(limits)[path := Refunded(old(limits)[path])] else old(limits)
    {
      if path !in limits || !limits[path].ready { return; }
      if limits[path].remaining < limits[path].limit {
        limits := limits[path := limits[path].(remaining := limits[path].remaining + 1)];
      }
    }

    /** The earliest end of a block on any path, each judged at its own reading of the clock. */
    method BlockedReset(clock: Clock) returns (earliest: Option<nat>)
      modifies clock
      ensures old(clock.now) <= clock.now
      ensures earliest.Some? ==> exists p :: BlockedAt(limits, p, old(clock.now)) && earliest.value == limits[p].reset + MARGIN
      ensures forall p {:trigger BlockedAt(limits, p, clock.now)} :: BlockedAt(limits, p, clock.now) ==>
        earliest.Some? && earliest.value <= limits[p].reset + MARGIN
    {
      earliest := None;
      var rest := limits.Keys;
      while rest != {}
        invariant rest <= limits.Keys && old(clock.now) <= clock.now
        invariant earliest.Some? ==> exists p :: BlockedAt(limits, p, old(clock.now)) && earliest.value == limits[p].reset + MARGIN
        invariant forall p {:trigger BlockedAt(limits, p, clock.now)} :: p !in rest && BlockedAt(limits, p, clock.now) ==>
          earliest.Some? && earliest.value <= limits[p].reset + MARGIN
        decreases |rest|
      {
        ghost var start := clock.now;
        var p :| p in rest;
        rest := rest - {p};
        var l := limits[p];
        var t := clock.Now();
        forall q | q in limits && BlockedAt(limits, q, t) ensures BlockedAt(limits, q, start) { }
        if l.ready && t <= l.reset && l.remaining <= Threshold(l) {
          assert BlockedAt(limits, p, old(clock.now));
          if earliest.None? || l.reset + MARGIN < earliest.value { earliest := Some(l.reset + MARGIN); }
        }
      }
    }
  }

  /** The path has a budget that is not reset yet. */
  predicate InUse(limits: map<string, Limit>, path: string, now: nat) {
    path in limits && limits[path].ready && now <= limits[path].reset
  }

  /** The same table without some budgets whose reset is long past. */
  ghost predicate Pruned(was: map<string, Limit>, limits: map<string, Limit>, now: nat) {
    && (forall p :: p in limits ==> p in was && limits[p] == was[p])
    && (forall p :: p in was && p !in limits ==> was[p].ready && was[p].reset + 5 * MINUTE < now)
  }

  /** The table found is the last one that others put there, or the own one. */
  ghost predicate Origin(was: map<string, Limit>, others: nat -> Option<map<string, Limit>>, waits: nat, limits: map<string, Limit>, now: nat) {
    if waits > 0 && others(waits - 1).Some? then limits == others(waits - 1).value
    else (forall k {:trigger others(k)} :: 0 <= k < waits ==> others(k).None?) ==> Pruned(was, limits, now)
  }

  lemma OriginStart(was: map<string, Limit>, others: nat -> Option<map<string, Limit>>, limits: map<string, Limit>, now: nat)
    requires Pruned(was, limits, now)
    ensures Origin(was, others, 0, limits, now)
  {
  }

  lemma OriginLater(was: map<string, Limit>, others: nat -> Option<map<string, Limit>>, waits: nat, limits: map<string, Limit>, now: nat, later: nat)
    requires Origin(was, others, waits, limits, now) && now <= later
    ensures Origin(was, others, waits, limits, later)
  {
  }

  lemma OriginMore(was: map<string, Limit>, others: nat -> Option<map<string, Limit>>, waits: nat, limits: map<string, Limit>, now: nat, later: nat)
    requires Origin(was, others, waits, limits, now) && now <= later
    ensures Origin(was, others, waits + 1, if others(waits).Some? then others(waits).value else limits, later)
  {
    OriginLater(was, others, waits, limits, now, later);
  }

  /** The request goes ahead exactly if the path is not blocked any more, and takes one from a budget in use that
      allows it; refused, it leaves the table alone. */
  predicate Decided(ok: bool, table: map<string, Limit>, limits: map<string, Limit>, path: string, seen: nat, now: nat) {
    if ok then
      && limits == (if InUse(table, path, seen) && table[path].remaining > Threshold(table[path])
                    then table[path := table[path].(remaining := table[path].remaining - 1)] else table)
      && !BlockedAt(table, path, now)
    else limits == table && BlockedAt(table, path, seen)
  }

  lemma PruneBounded(was: map<string, Limit>, limits: map<string, Limit>, now: nat, later: nat)
    requires Bounded(was, now) && now <= later && Pruned(was, limits, later)
    ensures Bounded(limits, later)
  {
    forall p ensures BoundedAt(limits, p, later) { assert BoundedAt(was, p, now); }
  }

  lemma PutBounded(limits: map<string, Limit>, path: string, l: Limit, now: nat)
    requires Bounded(limits, now) && l.reset <= now + MAX_RETRY_AFTER
    ensures Bounded(limits[path := l], now)
  {
    var next := limits[path := l];
    forall p ensures BoundedAt(next, p, now) { assert BoundedAt(limits, p, now); }
  }

  lemma TakenBounded(limits: map<string, Limit>, path: string, now: nat)
    requires Bounded(limits, now) && path in limits
    ensures Bounded(limits[path := Taken(limits[path])], now)
  {
    InBound(limits, path, now);
    PutBounded(limits, path, Taken(limits[path]), now);
  }

  lemma InBound(limits: map<string, Limit>, path: string, now: nat)
    requires Bounded(limits, now) && path in limits
    ensures limits[path].reset <= now + MAX_RETRY_AFTER
  {
    assert BoundedAt(limits, path, now);
  }
}
