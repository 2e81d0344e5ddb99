/** Choosing one of several clients round-robin, and waiting for the earliest reset on any path when all
    are rate-limited. */
module CookiePool {
  import opened Options
  import opened RateLimiter

  const MAX_WAIT: nat := MAX_RETRY_AFTER + 10 * SECOND
  const MAX_STEP: nat := 60 * SECOND
  const SHORT: nat := 200 * MILLISECOND

  /** A client is disabled until a moment; 0 if it never was. */
  class Client {
    var disabledUntil: nat
    const limiter: Limiter?

    constructor (limiter: Limiter?)
      ensures this.limiter == limiter && disabledUntil == 0
    {
      this.limiter, disabledUntil := limiter, 0;
    }

    /** The budgets known for this client; one without a limiter has none. */
    ghost function Limits(): map<string, Limit>
      reads this, limiter
    {
      if limiter == null then map[] else limiter.limits
    }

    method IsDisabled(clock: Clock) returns (b: bool)
      modifies clock
      ensures old(clock.now) <= clock.now && b == (disabledUntil != 0 && clock.now < disabledUntil)
    {
      var t := clock.Now();
      return disabledUntil != 0 && t < disabledUntil;
    }
  }

  datatype Selection = NoClients | Selected(index: nat) | AllDisabled | AllRateLimited | Cancelled

  function Wait(distance: int): (w: nat)
    ensures 1 <= w <= MAX_STEP && (distance > 0 ==> w <= distance)
    ensures w == if distance <= 0 then SHORT else if distance <= MAX_STEP then distance else MAX_STEP
  {
    var w := if distance <= 0 then SHORT else distance;
    if w > MAX_STEP then MAX_STEP else w
  }

  class Pool {
    const clients: seq<Client>
    var next: nat

    constructor (clients: seq<Client>)
      ensures this.clients == clients && next == 0
    {
      this.clients, next := clients, 0;
    }

    /** The position `offset` places after the start, around the end. */
    function At(start: nat, offset: nat): (i: nat)
      requires |clients| > 0
      ensures i < |clients|
    {
      Place(|clients|, start, offset)
    }

    ghost function Footprint(): set<object?> {
      (set i | 0 <= i < |clients| :: clients[i]) + (set i | 0 <= i < |clients| :: clients[i].limiter)
    }

    /** What the pool knows of its clients. */
    ghost function Views(): (v: seq<View>)
      reads Footprint()
      ensures |v| == |clients|
      ensures forall i :: 0 <= i < |clients| ==> v[i] == View(clients[i].disabledUntil, clients[i].Limits())
    {
      seq(|clients|, i requires 0 <= i < |clients| reads Footprint() => View(clients[i].disabledUntil, clients[i].Limits()))
    }

    /**
     * One round over the clients. The chosen one is eligible, and those passed over were not; if none is chosen,
     * either all are disabled or an enabled one is out of budget on the path.
     */
    method Scan(path: string, clock: Clock) returns (r: Option<nat>, offset: nat, blocked: nat, disabled: nat)
      requires |clients| > 0
      modifies this`next, clock
      ensures old(clock.now) <= clock.now && Views() == old(Views())
      ensures r.Some? ==> r.value == At(old(next), offset) && next == r.value + 1 && !Ineligible(Views()[r.value], path, clock.now)
      ensures r.None? ==> offset == |clients| && next == old(next) && blocked + disabled == |clients|
      ensures Skipped(Views(), path, old(next), offset, old(clock.now))
      ensures r.None? && blocked == 0 ==> AllDisabledAt(Views(), old(next), |clients|, old(clock.now))
      ensures r.None? && blocked > 0 ==> path != "" && exists i {:trigger Views()[i]} ::
        0 <= i < |clients| && BlockedAt(Views()[i].limits, path, old(clock.now)) && !DisabledAt(Views()[i], clock.now)
    {
      var start := next;
      ghost var v, since := Views(), clock.now;
      r, offset, blocked, disabled := None, 0, 0, 0;
      hide Ineligible, BlockedAt;
      while offset < |clients|
        invariant offset <= |clients| && blocked + disabled == offset && next == start && since <= clock.now && Views() == v
        invariant Skipped(v, path, start, offset, since)
        invariant blocked == 0 ==> AllDisabledAt(v, start, offset, since)
        invariant blocked > 0 ==> path != "" && exists i {:trigger v[i]} ::
          0 <= i < |clients| && BlockedAt(v[i].limits, path, since) && !DisabledAt(v[i], clock.now)
      {
        var index := At(start, offset);
        var client := clients[index];
        assert client.disabledUntil == v[index].disabledUntil && client.Limits() == v[index].limits;
        var off := client.IsDisabled(clock);
        if off {
          PassOver(v, path, start, offset, since, clock.now);
          disabled := disabled + 1;
        } else {
          var full := false;
          ghost var seen := clock.now;
          if path != "" && client.limiter != null { full := client.limiter.WouldBlock(path, clock); }
          if !full {
            EligibleNow(v[index], path, seen, clock.now);
            next := index + 1;
            return Some(index), offset, blocked, disabled;
          }
          PassOver(v, path, start, offset, since, clock.now);
          BlockedBefore(v[index].limits, path, clock.now, since);
          blocked := blocked + 1;
        }
        offset := offset + 1;
      }
    }

    /** The distance to the earliest reset on any path of a client that is not disabled; 0 or less if there is none. */
    method EarliestBlockedWait(clock: Clock) returns (distance: int)
      modifies clock
      ensures old(clock.now) <= clock.now && Views() == old(Views())
      ensures distance > 0 ==> ResetAt(Views(), old(clock.now), distance + clock.now)
      ensures forall i, p {:trigger BlockedAt(Views()[i].limits, p, clock.now)} ::
        (0 <= i < |clients| && !DisabledAt(Views()[i], old(clock.now)) && BlockedAt(Views()[i].limits, p, clock.now)
         ==> distance <= Views()[i].limits[p].reset + MARGIN - clock.now)
    {
      var earliest: Option<nat> := None;
      ghost var v, since := Views(), clock.now;
      hide BlockedAt;
      for i := 0 to |clients|
        invariant since <= clock.now && Views() == v
        invariant earliest.Some? ==> ResetAt(v, since, earliest.value)
        invariant NoEarlier(v, i, since, clock.now, earliest)
      {
        ghost var before := clock.now;
        assert clients[i].disabledUntil == v[i].disabledUntil && clients[i].Limits() == v[i].limits;
        var off := clients[i].IsDisabled(clock);
        ghost var seen := clock.now;
        if !off {
          var reset: Option<nat> := None;
          if clients[i].limiter != null { reset := clients[i].limiter.BlockedReset(clock); } else { NothingBlocked(); }
          if reset.Some? { ResetSeen(v, i, since, seen, reset.value); }
          NoEarlierLater(v, i, since, before, clock.now, earliest);
          NoEarlierMore(v, i, since, clock.now, earliest, reset);
          if reset.Some? && (earliest.None? || reset.value < earliest.value) { earliest := reset; }
        } else {
          NoEarlierLater(v, i, since, before, clock.now, earliest);
          NoEarlierDisabled(v, i, since, clock.now, earliest);
        }
      }
      ghost var before := clock.now;
      if earliest.None? {
        return 0;
      }
      var t := clock.Now();
      NoEarlierLater(v, |clients|, since, before, t, earliest);
      return earliest.value - t;
    }

    /**
     * While nobody else touches the limiters: if they obey their bound, waiting never ends in AllRateLimited, takes
     * at most 15 minutes and 5 seconds, and with one client not disabled ends in a client that is eligible, the
     * first such after the last choice.
     */
    method Select(path: string, clock: Clock, cancel: nat -> bool) returns (r: Selection, waited: nat)
      modifies this`next, clock
      ensures Views() == old(Views()) && waited <= MAX_WAIT && old(clock.now) + waited <= clock.now
      ensures r.NoClients? <==> clients == []
      ensures r.AllDisabled? ==> EveryDisabled(Views(), old(clock.now))
      ensures r.Selected? ==> r.index < |clients| && next == r.index + 1 && !Ineligible(Views()[r.index], path, clock.now)
      ensures r.Selected? ==> exists offset, since ::
        (r.index == Place(|clients|, old(next), offset) && old(clock.now) <= since <= clock.now
         && Skipped(Views(), path, old(next), offset, since))
      ensures AllBounded(Views(), old(clock.now)) ==> !r.AllRateLimited? && waited <= MAX_RETRY_AFTER + MARGIN
      ensures (AllBounded(Views(), old(clock.now)) && clients != [] && !EveryDisabled(Views(), old(clock.now))
               && (forall k {:trigger cancel(k)} :: !cancel(k))) ==> r.Selected?
    {
      hide AllBounded, EveryDisabled, Skipped, AllDisabledAt, Ineligible, BlockedAt, ResetAt, Place;
      waited := 0;
      if |clients| == 0 { return NoClients, 0; }
      ghost var v, begin, first := Views(), clock.now, next;
      var round := 0;
      while true
        invariant Views() == v && next == first && waited <= MAX_WAIT && begin + waited <= clock.now
        invariant AllBounded(v, begin) ==> waited <= MAX_RETRY_AFTER + MARGIN
        decreases MAX_WAIT - waited
      {
        ghost var since := clock.now;
        var chosen, offset, blocked, disabled := Scan(path, clock);
        if chosen.Some? {
          assert Place(|clients|, first, offset) == chosen.value && Skipped(v, path, first, offset, since);
          return Selected(chosen.value), waited;
        }
        if disabled == |clients| {
          WholeRound(v, first, begin, since);
          return AllDisabled, waited;
        }
        ghost var seen := clock.now;
        var distance := EarliestBlockedWait(clock);
        var wait := Wait(distance);
        if AllBounded(v, begin) {
          StillBlocked(v, path, begin, since);
          if distance > 0 { ResetBound(v, begin, seen, distance + clock.now); }
        }
        if waited + wait > MAX_WAIT { return AllRateLimited, waited; }
        waited := waited + wait;
        if cancel(round) {
          clock.Sleep(wait);
          return Cancelled, waited;
        }
        clock.Sleep(wait);
        round := round + 1;
      }
    }
  }

  // ---------- views ----------

  datatype View = View(disabledUntil: nat, limits: map<string, Limit>)

  predicate DisabledAt(v: View, now: nat) { v.disabledUntil != 0 && now < v.disabledUntil }

  /** Switched off, or out of budget on the path; an empty path asks for no budget. */
  predicate Ineligible(v: View, path: string, now: nat) { DisabledAt(v, now) || (path != "" && BlockedAt(v.limits, path, now)) }

  function Place(n: nat, start: nat, offset: nat): (i: nat)
    requires n > 0
    ensures i < n
  {
    (start + offset) % n
  }

  /** The clients before `offset`, seen from the start, were not eligible. */
  ghost predicate Skipped(vs: seq<View>, path: string, start: nat, offset: nat, now: nat)
    requires |vs| > 0
  {
    forall o {:trigger Place(|vs|, start, o)} :: 0 <= o < offset ==> Ineligible(vs[Place(|vs|, start, o)], path, now)
  }

  ghost predicate AllDisabledAt(vs: seq<View>, start: nat, offset: nat, now: nat)
    requires |vs| > 0
  {
    forall o {:trigger Place(|vs|, start, o)} :: 0 <= o < offset ==> DisabledAt(vs[Place(|vs|, start, o)], now)
  }

  /** Some client's block on some path ends at `at`, margin included. */
  ghost predicate ResetAt(vs: seq<View>, since: nat, at: nat) {
    exists i, p {:trigger BlockedAt(vs[i].limits, p, since)} :: 0 <= i < |vs| && BlockedAt(vs[i].limits, p, since) && at == vs[i].limits[p].reset + MARGIN
  }

  /** No block of the first `n` clients that still lasts ends before `earliest`. */
  ghost predicate NoEarlier(vs: seq<View>, n: nat, since: nat, now: nat, earliest: Option<nat>) {
    forall i, p {:trigger BlockedAt(vs[i].limits, p, now)} :: 0 <= i < n && i < |vs| && !DisabledAt(vs[i], since) && BlockedAt(vs[i].limits, p, now) ==>
      earliest.Some? && earliest.value <= vs[i].limits[p].reset + MARGIN
  }

  lemma NothingBlocked()
    ensures forall p, t: nat {:trigger BlockedAt(map[], p, t)} :: !BlockedAt(map[], p, t)
  {
  }

  lemma BlockedBefore(limits: map<string, Limit>, path: string, now: nat, earlier: nat)
    requires BlockedAt(limits, path, now) && earlier <= now
    ensures BlockedAt(limits, path, earlier)
  {
  }

  lemma EligibleNow(v: View, path: string, seen: nat, now: nat)
    requires !DisabledAt(v, seen) && seen <= now && (path != "" ==> !BlockedAt(v.limits, path, now))
    ensures !Ineligible(v, path, now)
  {
  }

  lemma PassOver(vs: seq<View>, path: string, start: nat, offset: nat, since: nat, now: nat)
    requires |vs| > 0 && Skipped(vs, path, start, offset, since) && since <= now
    requires var v := vs[Place(|vs|, start, offset)]; DisabledAt(v, now) || (path != "" && BlockedAt(v.limits, path, now))
    ensures Skipped(vs, path, start, offset + 1, since)
    ensures DisabledAt(vs[Place(|vs|, start, offset)], now) && AllDisabledAt(vs, start, offset, since) ==> AllDisabledAt(vs, start, offset + 1, since)
  {
  }

  lemma ResetSeen(vs: seq<View>, i: nat, since: nat, seen: nat, at: nat)
    requires i < |vs| && since <= seen && exists p :: BlockedAt(vs[i].limits, p, seen) && at == vs[i].limits[p].reset + MARGIN
    ensures ResetAt(vs, since, at)
  {
    var p :| BlockedAt(vs[i].limits, p, seen) && at == vs[i].limits[p].reset + MARGIN;
    BlockedBefore(vs[i].limits, p, seen, since);
  }

  lemma NoEarlierLater(vs: seq<View>, n: nat, since: nat, now: nat, later: nat, earliest: Option<nat>)
    requires NoEarlier(vs, n, since, now, earliest) && now <= later
    ensures NoEarlier(vs, n, since, later, earliest)
  {
    forall i, p | 0 <= i < n && i < |vs| && !DisabledAt(vs[i], since) && BlockedAt(vs[i].limits, p, later)
      ensures earliest.Some? && earliest.value <= vs[i].limits[p].reset + MARGIN
    {
      BlockedBefore(vs[i].limits, p, later, now);
    }
  }

  /** The earlier of two ends, if any. */
  function Sooner(a: Option<nat>, b: Option<nat>): Option<nat> {
    if b.Some? && (a.None? || b.value < a.value) then b else a
  }

  lemma NoEarlierMore(vs: seq<View>, n: nat, since: nat, now: nat, earliest: Option<nat>, reset: Option<nat>)
    requires NoEarlier(vs, n, since, now, earliest) && n < |vs|
    requires forall p {:trigger BlockedAt(vs[n].limits, p, now)} :: BlockedAt(vs[n].limits, p, now) ==>
      reset.Some? && reset.value <= vs[n].limits[p].reset + MARGIN
    ensures NoEarlier(vs, n + 1, since, now, Sooner(earliest, reset))
  {
    hide BlockedAt;
  }

  lemma NoEarlierDisabled(vs: seq<View>, n: nat, since: nat, now: nat, earliest: Option<nat>)
    requires NoEarlier(vs, n, since, now, earliest) && n < |vs| && since <= now && DisabledAt(vs[n], now)
    ensures NoEarlier(vs, n + 1, since, now, earliest)
  {
    hide BlockedAt;
  }

  // ---------- why the budget suffices ----------

  ghost predicate AllBounded(vs: seq<View>, now: nat) { forall i {:trigger vs[i]} :: 0 <= i < |vs| ==> Bounded(vs[i].limits, now) }

  ghost predicate EveryDisabled(vs: seq<View>, now: nat) { forall i {:trigger vs[i]} :: 0 <= i < |vs| ==> DisabledAt(vs[i], now) }

  /** A round over all places visits every client. */
  lemma PlaceReaches(n: nat, start: nat, i: nat) returns (offset: nat)
    requires i < n
    ensures offset < n && Place(n, start, offset) == i
  {
    var q, r := start / n, start % n;
    if r <= i {
      offset := i - r;
      Remainder(start + offset, n, q, i);
    } else {
      offset := i - r + n;
      Distribute(n, q, 1);
      Remainder(start + offset, n, q + 1, i);
    }
  }

  lemma Distribute(n: int, a: int, b: int)
    ensures n * (a + b) == n * a + n * b
  {
  }

  lemma AtLeast(n: nat, a: nat)
    requires a >= 1
    ensures n * a >= n
  {
    Distribute(n, a - 1, 1);
  }

  /** Quotient and remainder are unique. */
  lemma Remainder(x: nat, n: nat, q: nat, r: nat)
    requires 0 <= r < n && x == n * q + r
    ensures x % n == r
  {
    var p, s := x / n, x % n;
    assert x == n * p + s;
    if p < q {
      Distribute(n, q - p, p);
      AtLeast(n, q - p);
    } else if q < p {
      Distribute(n, p - q, q);
      AtLeast(n, p - q);
    }
  }

  lemma WholeRound(vs: seq<View>, start: nat, begin: nat, since: nat)
    requires |vs| > 0 && AllDisabledAt(vs, start, |vs|, since) && begin <= since
    ensures EveryDisabled(vs, begin)
  {
    forall i | 0 <= i < |vs| ensures DisabledAt(vs[i], begin) {
      var o := PlaceReaches(|vs|, start, i);
    }
  }

  /** While a client is blocked, less than 15 minutes have passed since its limiter was last bounded. */
  lemma StillBlocked(vs: seq<View>, path: string, begin: nat, since: nat)
    requires AllBounded(vs, begin) && exists i {:trigger vs[i]} :: 0 <= i < |vs| && BlockedAt(vs[i].limits, path, since)
    ensures since <= begin + MAX_RETRY_AFTER
  {
    var i :| 0 <= i < |vs| && BlockedAt(vs[i].limits, path, since);
    InBound(vs[i].limits, path, begin);
  }

  lemma ResetBound(vs: seq<View>, begin: nat, since: nat, at: nat)
    requires AllBounded(vs, begin) && ResetAt(vs, since, at)
    ensures at <= begin + MAX_RETRY_AFTER + MARGIN
  {
    var i, p :| 0 <= i < |vs| && BlockedAt(vs[i].limits, p, since) && at == vs[i].limits[p].reset + MARGIN;
    InBound(vs[i].limits, p, begin);
  }
}
