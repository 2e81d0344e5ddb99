/** Generation-checked library caches against any number of writers. */
module LibraryCache {
  import opened Options

  // Database content is represented by the number of commits it contains, so "older than" is `<`.
  // The array cache is checked when it is filled, the paged snapshot when it is read.  Neither the build mutex
  // nor the time-to-live is relied on: readers may build concurrently, and both caches may be dropped any time.

  /** A snapshot remembers the generation it was built for. */
  datatype Snapshot = Snapshot(gen: nat, version: nat)

  /** A writer has committed, then bumps the generation, then clears the array cache. */
  datatype Writer = Quiet | Committed(version: nat) | Bumped(version: nat)

  /** `floor` is the newest commit whose invalidate had returned when the read started. */
  datatype Reader =
    | Away
    | Started(floor: nat)
    | Loaded(gen: nat, floor: nat)
    | Queried(gen: nat, version: nat, floor: nat)
    | Returned(version: nat, floor: nat)

  /** `marks[g]` is the newest commit that had bumped by the time the generation became `g`. */
  datatype State = State(
    commits: nat,
    gen: nat,
    cache: Option<nat>,
    snap: Option<Snapshot>,
    invalidated: nat,
    marks: seq<nat>,
    writers: map<nat, Writer>,
    readers: map<nat, Reader>)

  const START: State := State(0, 0, None, None, 0, [0], map[], map[])

  function WriterOf(s: State, w: nat): Writer { if w in s.writers then s.writers[w] else Quiet }

  function ReaderOf(s: State, r: nat): Reader { if r in s.readers then s.readers[r] else Away }

  function Max(a: nat, b: nat): nat { if a < b then b else a }

  ghost predicate BasicOk(s: State) {
    && |s.marks| == s.gen + 1
    && s.invalidated <= s.marks[s.gen] <= s.commits
    && (forall g, h :: 0 <= g <= h <= s.gen ==> s.marks[g] <= s.marks[h])
    && (s.cache.Some? ==> s.invalidated <= s.cache.value)
    && (s.snap.Some? ==> s.snap.value.gen <= s.gen && s.marks[s.snap.value.gen] <= s.snap.value.version)
  }

  ghost predicate WriterOk(s: State, w: nat)
    requires BasicOk(s)
  {
    match WriterOf(s, w)
    case Quiet => true
    case Committed(v) => v <= s.commits
    case Bumped(v) => v <= s.marks[s.gen]
  }

  ghost predicate ReaderOk(s: State, r: nat)
    requires BasicOk(s)
  {
    ReaderPhaseOk(s, ReaderOf(s, r))
  }

  ghost predicate ReaderPhaseOk(s: State, ph: Reader)
    requires BasicOk(s)
  {
    match ph
    case Away => true
    case Started(f) => f <= s.invalidated
    case Loaded(g, f) => g <= s.gen && f <= s.marks[g]
    case Queried(g, v, f) => g <= s.gen && f <= s.marks[g] <= v <= s.commits
    case Returned(v, f) => f <= v
  }

  ghost predicate Inv(s: State) {
    && BasicOk(s)
    && (forall w {:trigger WriterOk(s, w)} :: WriterOk(s, w))
    && (forall r {:trigger ReaderOk(s, r)} :: ReaderOk(s, r))
  }

  // ---------- writers ----------

  function Commit(s: State, w: nat): State {
    s.(commits := s.commits + 1, writers := s.writers[w := Committed(s.commits + 1)])
  }

  function Bump(s: State, w: nat): State
    requires WriterOf(s, w).Committed? && |s.marks| == s.gen + 1
  {
    var v := WriterOf(s, w).version;
    s.(gen := s.gen + 1, marks := s.marks + [Max(s.marks[s.gen], v)], writers := s.writers[w := Bumped(v)])
  }

  function Clear(s: State, w: nat): State
    requires WriterOf(s, w).Bumped?
  {
    s.(cache := None, invalidated := Max(s.invalidated, WriterOf(s, w).version), writers := s.writers[w := Quiet])
  }

  // ---------- readers ----------

  function Begin(s: State, r: nat): State { s.(readers := s.readers[r := Started(s.invalidated)]) }

  /** Array cache hit: no generation check. */
  function HitArray(s: State, r: nat): State
    requires ReaderOf(s, r).Started? && s.cache.Some?
  {
    s.(readers := s.readers[r := Returned(s.cache.value, ReaderOf(s, r).floor)])
  }

  /** Read the generation counter, after starting or again after a miss. */
  function LoadGen(s: State, r: nat): State
    requires ReaderOf(s, r).Started? || ReaderOf(s, r).Loaded?
  {
    s.(readers := s.readers[r := Loaded(s.gen, ReaderOf(s, r).floor)])
  }

  /** Snapshot hit: it was built for the generation this reader loaded, which may be past. */
  function HitSnap(s: State, r: nat): State
    requires ReaderOf(s, r).Loaded? && s.snap.Some? && s.snap.value.gen == ReaderOf(s, r).gen
  {
    s.(readers := s.readers[r := Returned(s.snap.value.version, ReaderOf(s, r).floor)])
  }

  /** The first query of a build; later queries only see newer content. */
  function Query(s: State, r: nat): State
    requires ReaderOf(s, r).Loaded?
  {
    s.(readers := s.readers[r := Queried(ReaderOf(s, r).gen, s.commits, ReaderOf(s, r).floor)])
  }

  /** cacheLibraryDownloads: fill only if the generation has not moved. */
  function StoreArray(s: State, r: nat): State
    requires ReaderOf(s, r).Queried?
  {
    var q := ReaderOf(s, r);
    s.(cache := if s.gen == q.gen then Some(q.version) else s.cache,
       readers := s.readers[r := Returned(q.version, q.floor)])
  }

  /** librarySnapshot: store unconditionally, tagged with the generation loaded first. */
  function StoreSnap(s: State, r: nat): State
    requires ReaderOf(s, r).Queried?
  {
    var q := ReaderOf(s, r);
    s.(snap := Some(Snapshot(q.gen, q.version)), readers := s.readers[r := Returned(q.version, q.floor)])
  }

  /** The request ended, was cancelled or failed. */
  function Leave(s: State, r: nat): State { s.(readers := s.readers[r := Away]) }

  /** Time-to-live expiry. */
  function Expire(s: State): State { s.(cache := None, snap := None) }

  ghost predicate WriterStep(s: State, t: State, w: nat) {
    || (WriterOf(s, w).Quiet? && t == Commit(s, w))
    || (WriterOf(s, w).Committed? && |s.marks| == s.gen + 1 && t == Bump(s, w))
    || (WriterOf(s, w).Bumped? && t == Clear(s, w))
  }

  ghost predicate ReaderStep(s: State, t: State, r: nat) {
    match ReaderOf(s, r)
    case Away => t == Begin(s, r)
    case Started(_) => (s.cache.Some? && t == HitArray(s, r)) || t == LoadGen(s, r) || t == Leave(s, r)
    case Loaded(g, _) =>
      || t == LoadGen(s, r) || t == Query(s, r) || t == Leave(s, r)
      || (s.snap.Some? && s.snap.value.gen == g && t == HitSnap(s, r))
    case Queried(_, _, _) => t == StoreArray(s, r) || t == StoreSnap(s, r) || t == Leave(s, r)
    case Returned(_, _) => t == Leave(s, r)
  }

  ghost predicate StepOf(s: State, t: State, x: nat) {
    WriterStep(s, t, x) || ReaderStep(s, t, x) || t == Expire(s)
  }

  /** A change that only moves one reader and at most refills the caches. */
  lemma ReaderMoved(s: State, r: nat, ph: Reader, cache: Option<nat>, snap: Option<Snapshot>)
    requires Inv(s)
    requires cache.Some? ==> s.invalidated <= cache.value
    requires snap.Some? ==> snap.value.gen <= s.gen && s.marks[snap.value.gen] <= snap.value.version
    requires ReaderPhaseOk(s, ph)
    ensures Inv(s.(cache := cache, snap := snap, readers := s.readers[r := ph]))
  {
    var t := s.(cache := cache, snap := snap, readers := s.readers[r := ph]);
    forall w ensures WriterOk(t, w) { assert WriterOk(s, w); }
    forall q ensures ReaderOk(t, q) { assert ReaderOk(s, q); }
  }

  lemma WriterKeepsInv(s: State, t: State, w: nat)
    requires Inv(s) && WriterStep(s, t, w)
    ensures Inv(t)
  {
    assert WriterOk(s, w);
    forall g, h | 0 <= g <= h <= t.gen ensures t.marks[g] <= t.marks[h] {
      if h > s.gen && g <= s.gen { assert s.marks[g] <= s.marks[s.gen]; }
    }
    forall x ensures WriterOk(t, x) { assert WriterOk(s, x); }
    forall r ensures ReaderOk(t, r) { assert ReaderOk(s, r); }
  }

  lemma StoreKeepsInv(s: State, r: nat)
    requires Inv(s) && ReaderOf(s, r).Queried?
    ensures Inv(StoreArray(s, r)) && Inv(StoreSnap(s, r)) && Inv(Leave(s, r))
  {
    assert ReaderOk(s, r);
    var q := ReaderOf(s, r);
    ReaderMoved(s, r, Returned(q.version, q.floor), StoreArray(s, r).cache, s.snap);
    ReaderMoved(s, r, Returned(q.version, q.floor), s.cache, StoreSnap(s, r).snap);
    ReaderMoved(s, r, Away, s.cache, s.snap);
  }

  lemma ReaderKeepsInv(s: State, t: State, r: nat)
    requires Inv(s) && ReaderStep(s, t, r)
    ensures Inv(t)
  {
    if ReaderOf(s, r).Queried? {
      StoreKeepsInv(s, r);
    } else {
      assert ReaderOk(s, r);
      var ph := ReaderOf(t, r);
      assert t == s.(readers := s.readers[r := ph]);
      assert ReaderPhaseOk(s, ph);
      hide ReaderStep, Inv, BasicOk, ReaderOk, ReaderPhaseOk;
      ReaderMoved(s, r, ph, s.cache, s.snap);
    }
  }

  lemma StepKeepsInv(s: State, t: State, x: nat)
    requires Inv(s) && StepOf(s, t, x)
    ensures Inv(t)
  {
    if WriterStep(s, t, x) {
      WriterKeepsInv(s, t, x);
    } else if ReaderStep(s, t, x) {
      ReaderKeepsInv(s, t, x);
    } else {
      forall w ensures WriterOk(t, w) { assert WriterOk(s, w); }
      forall r ensures ReaderOk(t, r) { assert ReaderOk(s, r); }
    }
  }

  ghost predicate Next(s: State, t: State) { exists x: nat :: StepOf(s, t, x) }

  ghost predicate StepAt(run: seq<State>, i: nat) {
    i + 1 < |run| ==> Next(run[i], run[i + 1])
  }

  ghost predicate IsRun(run: seq<State>) {
    && |run| > 0 && run[0] == START
    && forall i {:trigger StepAt(run, i)} :: StepAt(run, i)
  }

  lemma {:induction false} RunKeepsInv(run: seq<State>, i: nat)
    requires IsRun(run) && i < |run|
    ensures Inv(run[i])
  {
    if i > 0 {
      RunKeepsInv(run, i - 1);
      assert StepAt(run, i - 1);
      var x :| StepOf(run[i - 1], run[i], x);
      StepKeepsInv(run[i - 1], run[i], x);
    }
  }

  /** When writer `w` finishes invalidating its commit, every later state remembers it. */
  lemma {:induction false} InvalidatedStays(run: seq<State>, i: nat, j: nat)
    requires IsRun(run) && i <= j < |run|
    ensures run[i].invalidated <= run[j].invalidated
  {
    if i < j {
      InvalidatedStays(run, i, j - 1);
      assert StepAt(run, j - 1);
    }
  }

  /** No stale read.  Writer `w` returns from invalidate at step `i`; reader `r` starts at a
      later step `j`; whatever that read returns at step `k` contains `w`'s commit. */
  lemma NoStaleRead(run: seq<State>, i: nat, w: nat, j: nat, k: nat, r: nat)
    requires IsRun(run) && i < j < k < |run|
    requires WriterOf(run[i], w).Bumped? && run[i + 1] == Clear(run[i], w)
    requires run[j + 1] == Begin(run[j], r)
    requires ReaderOf(run[k], r).Returned?
    requires forall n :: j < n < k ==> !ReaderOf(run[n], r).Away? && !ReaderOf(run[n], r).Returned?
    ensures WriterOf(run[i], w).version <= ReaderOf(run[k], r).version
  {
    InvalidatedStays(run, i + 1, j);
    FloorStays(run, j, k, r);
    RunKeepsInv(run, k);
    assert ReaderOk(run[k], r);
  }

  lemma StepKeepsFloor(s: State, t: State, x: nat, r: nat)
    requires StepOf(s, t, x)
    requires !ReaderOf(s, r).Away? && !ReaderOf(s, r).Returned? && !ReaderOf(t, r).Away?
    ensures ReaderOf(t, r).floor == ReaderOf(s, r).floor
  {
    if WriterStep(s, t, x) {
      assert t.readers == s.readers;
    } else if ReaderStep(s, t, x) {
      assert x == r || ReaderOf(t, r) == ReaderOf(s, r);
    }
  }

  /** A read keeps the floor it started with until it returns. */
  lemma {:induction false} FloorStays(run: seq<State>, j: nat, k: nat, r: nat)
    requires IsRun(run) && j < k < |run|
    requires run[j + 1] == Begin(run[j], r)
    requires forall n :: j < n < k ==> !ReaderOf(run[n], r).Away? && !ReaderOf(run[n], r).Returned?
    requires !ReaderOf(run[k], r).Away?
    ensures ReaderOf(run[k], r).floor == run[j].invalidated
  {
    if k > j + 1 {
      hide StepOf;
      FloorStays(run, j, k - 1, r);
      assert StepAt(run, k - 1);
      var x :| StepOf(run[k - 1], run[k], x);
      StepKeepsFloor(run[k - 1], run[k], x, r);
    }
  }

  // ---------- the caches serve what was stored ----------

  /** A result that no invalidate overtook is what the next reads get, from either cache. */
  lemma FillServes(s: State, r: nat, q: nat)
    requires Inv(s) && ReaderOf(s, r).Queried? && q != r
    ensures var a := StoreArray(s, r);
      s.gen == ReaderOf(s, r).gen && ReaderOf(s, q).Started? ==>
        ReaderStep(a, HitArray(a, q), q) && ReaderOf(HitArray(a, q), q) == Returned(ReaderOf(s, r).version, ReaderOf(s, q).floor)
    ensures var b := StoreSnap(s, r);
      ReaderOf(s, q).Loaded? && ReaderOf(s, q).gen == ReaderOf(s, r).gen ==>
        ReaderStep(b, HitSnap(b, q), q) && ReaderOf(HitSnap(b, q), q) == Returned(ReaderOf(s, r).version, ReaderOf(s, q).floor)
    ensures s.gen != ReaderOf(s, r).gen ==> StoreArray(s, r).cache == s.cache
  {
    hide Inv;
  }

  /** A read of its own sees all commits made so far, and returns what it saw. */
  lemma QuerySeesCommits(s: State, r: nat)
    requires ReaderOf(s, r).Loaded?
    ensures ReaderOf(Query(s, r), r).Queried? && ReaderOf(Query(s, r), r).version == s.commits
    ensures ReaderOf(StoreArray(Query(s, r), r), r).version == s.commits == ReaderOf(StoreSnap(Query(s, r), r), r).version
  {
  }

  // ---------- the code ----------

  class Cache {
    var gen: nat
    var cache: Option<nat>
    var snap: Option<Snapshot>
    ghost var commits: nat
    ghost var invalidated: nat
    ghost var marks: seq<nat>
    ghost var writers: map<nat, Writer>
    ghost var readers: map<nat, Reader>

    ghost function St(): State
      reads this
    {
      State(commits, gen, cache, snap, invalidated, marks, writers, readers)
    }

    constructor ()
      ensures St() == START && Inv(St())
    {
      gen, cache, snap := 0, None, None;
      commits, invalidated, marks, writers, readers := 0, 0, [0], map[], map[];
    }

    /** First statement of invalidateLibraryDownloadsCache: an atomic add, outside the mutex. */
    method BumpGeneration(ghost w: nat)
      requires Inv(St()) && WriterOf(St(), w).Committed?
      modifies this
      ensures St() == Bump(old(St()), w) && Inv(St()) && gen == old(gen) + 1
    {
      WriterKeepsInv(St(), Bump(St(), w), w);
      ghost var v := WriterOf(St(), w).version;
      marks := marks + [Max(marks[gen], v)];
      gen := gen + 1;
      writers := writers[w := Bumped(v)];
    }

    /** The rest of invalidateLibraryDownloadsCache, under the cache mutex. */
    method ClearArray(ghost w: nat)
      requires Inv(St()) && WriterOf(St(), w).Bumped?
      modifies this
      ensures St() == Clear(old(St()), w) && Inv(St()) && cache == None
    {
      WriterKeepsInv(St(), Clear(St(), w), w);
      invalidated := Max(invalidated, WriterOf(St(), w).version);
      cache := None;
      writers := writers[w := Quiet];
    }

    /** cacheLibraryDownloads, under the cache mutex. */
    method FillArray(ghost r: nat, version: nat, generation: nat)
      requires Inv(St()) && ReaderOf(St(), r).Queried?
      requires ReaderOf(St(), r).gen == generation && ReaderOf(St(), r).version == version
      modifies this
      ensures St() == StoreArray(old(St()), r) && Inv(St()) && cache == if gen == generation then Some(version) else old(cache)
    {
      StoreKeepsInv(St(), r);
      if gen == generation {
        cache := Some(version);
      }
      readers := readers[r := Returned(version, ReaderOf(St(), r).floor)];
    }

    /** peekLibrarySnapshot with the generation the caller loaded. */
    method Peek(ghost r: nat, generation: nat) returns (hit: Option<nat>)
      requires Inv(St()) && ReaderOf(St(), r).Loaded? && ReaderOf(St(), r).gen == generation
      modifies this
      ensures hit.Some? <==> old(snap).Some? && old(snap).value.gen == generation
      ensures Inv(St())
      ensures hit.Some? ==> hit.value == old(snap).value.version
      ensures hit.Some? ==> St() == HitSnap(old(St()), r) && old(ReaderOf(St(), r)).floor <= hit.value
      ensures hit.None? ==> St() == old(St())
    {
      hit := None;
      if snap.Some? && snap.value.gen == generation {
        ReaderKeepsInv(St(), HitSnap(St(), r), r);
        hit := Some(snap.value.version);
        readers := readers[r := Returned(snap.value.version, ReaderOf(St(), r).floor)];
        assert ReaderOk(St(), r);
      }
    }
  }
}
