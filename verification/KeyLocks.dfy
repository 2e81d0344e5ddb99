/** Per-key token locks with waiter counts, evicted when unused. */
module KeyLocks {

  // A key can be served by many channels over time.  The mutex-protected sections are the methods of
  // `LockTable`; between them goroutines interleave freely, which `Next` captures.

  type Key = string
  type Proc = nat
  type LockId = nat

  /** One channel: the tokens it buffers and the number of goroutines counted on it. */
  datatype Lock = Lock(key: Key, tokens: nat, waiters: int)

  /** Where a goroutine is inside lock / critical section / unlock. */
  datatype Phase =
    | Idle
    | Waiting(key: Key, lock: LockId)
    | Holding(key: Key, lock: LockId)
    | Aborting(key: Key, lock: LockId)

  /** `next` is the number the next allocated channel gets. */
  datatype State = State(table: map<Key, LockId>, locks: map<LockId, Lock>, next: LockId, procs: map<Proc, Phase>)

  function PhaseOf(s: State, p: Proc): Phase {
    if p in s.procs then s.procs[p] else Idle
  }

  ghost function Users(s: State, id: LockId): set<Proc> {
    set p | p in s.procs && !s.procs[p].Idle? && s.procs[p].lock == id
  }

  ghost function Holders(s: State, id: LockId): set<Proc> {
    set p | p in s.procs && s.procs[p].Holding? && s.procs[p].lock == id
  }

  // ---------- the invariant, one goroutine, key or channel at a time ----------

  ghost predicate ProcOk(s: State, p: Proc) {
    PhaseOf(s, p).Idle? || (PhaseOf(s, p).key in s.table && s.table[PhaseOf(s, p).key] == PhaseOf(s, p).lock)
  }

  ghost predicate EntryOk(s: State, key: Key) {
    key in s.table ==>
      && s.table[key] in s.locks
      && s.locks[s.table[key]].key == key
      && s.locks[s.table[key]].waiters > 0
      && s.locks[s.table[key]].tokens + |Holders(s, s.table[key])| == 1
  }

  ghost predicate CountOk(s: State, id: LockId) {
    && (id in s.locks ==> id < s.next && s.locks[id].waiters == |Users(s, id)|)
    && (id !in s.locks ==> Users(s, id) == {})
  }

  ghost predicate Inv(s: State) {
    && (forall p {:trigger ProcOk(s, p)} :: ProcOk(s, p))
    && (forall k {:trigger EntryOk(s, k)} :: EntryOk(s, k))
    && (forall id {:trigger CountOk(s, id)} :: CountOk(s, id))
  }

  // ---------- the atomic steps ----------

  function EnterStep(s: State, p: Proc, key: Key): State {
    if key in s.table && s.table[key] in s.locks then
      var id := s.table[key];
      var lock := s.locks[id];
      s.(locks := s.locks[id := lock.(waiters := lock.waiters + 1)], procs := s.procs[p := Waiting(key, id)])
    else
      State(s.table[key := s.next], s.locks[s.next := Lock(key, 1, 1)], s.next + 1, s.procs[p := Waiting(key, s.next)])
  }

  predicate CanTake(s: State, p: Proc) {
    PhaseOf(s, p).Waiting? && PhaseOf(s, p).lock in s.locks && s.locks[PhaseOf(s, p).lock].tokens > 0
  }

  function TakeStep(s: State, p: Proc): State
    requires CanTake(s, p)
  {
    var ph := PhaseOf(s, p);
    var lock := s.locks[ph.lock];
    s.(locks := s.locks[ph.lock := lock.(tokens := lock.tokens - 1)], procs := s.procs[p := Holding(ph.key, ph.lock)])
  }

  function CancelStep(s: State, p: Proc): State
    requires PhaseOf(s, p).Waiting?
  {
    var ph := PhaseOf(s, p);
    s.(procs := s.procs[p := Aborting(ph.key, ph.lock)])
  }

  /** Leaving under the mutex: the last one evicts the entry; a releasing holder that leaves
      others behind puts the token back. */
  function LeaveStep(s: State, p: Proc): State
    requires PhaseOf(s, p).Holding? || PhaseOf(s, p).Aborting?
  {
    var ph := PhaseOf(s, p);
    var lock := if ph.lock in s.locks then s.locks[ph.lock] else Lock(ph.key, 0, 0);
    var left := lock.(waiters := lock.waiters - 1);
    if left.waiters <= 0 then
      State(s.table - {ph.key}, s.locks[ph.lock := left], s.next, s.procs[p := Idle])
    else
      var after := if ph.Holding? then left.(tokens := left.tokens + 1) else left;
      s.(locks := s.locks[ph.lock := after], procs := s.procs[p := Idle])
  }

  ghost predicate Next(s: State, t: State) {
    exists p: Proc :: StepOf(s, t, p)
  }

  ghost predicate StepOf(s: State, t: State, p: Proc) {
    || (PhaseOf(s, p).Idle? && exists key: Key :: t == EnterStep(s, p, key))
    || (CanTake(s, p) && t == TakeStep(s, p))
    || (PhaseOf(s, p).Waiting? && t == CancelStep(s, p))
    || ((PhaseOf(s, p).Holding? || PhaseOf(s, p).Aborting?) && t == LeaveStep(s, p))
  }

  // ---------- counting goroutines ----------

  ghost predicate Uses(ph: Phase, id: LockId) { !ph.Idle? && ph.lock == id }

  ghost predicate Holds(ph: Phase, id: LockId) { ph.Holding? && ph.lock == id }

  ghost function With(ps: set<Proc>, p: Proc, yes: bool): set<Proc> {
    if yes then ps + {p} else ps - {p}
  }

  /** How the goroutines on a channel change when only `p` moves. */
  lemma Moved(s: State, t: State, p: Proc, ph: Phase, id: LockId)
    requires t.procs == s.procs[p := ph]
    ensures Users(t, id) == With(Users(s, id), p, Uses(ph, id))
    ensures Holders(t, id) == With(Holders(s, id), p, Holds(ph, id))
    ensures p in Users(s, id) <==> Uses(PhaseOf(s, p), id)
    ensures p in Holders(s, id) <==> Holds(PhaseOf(s, p), id)
  {
  }

  lemma MovedSize(s: State, t: State, p: Proc, ph: Phase, id: LockId)
    requires t.procs == s.procs[p := ph]
    ensures |Users(t, id)| == |Users(s, id)| + B(Uses(ph, id)) - B(Uses(PhaseOf(s, p), id))
    ensures |Holders(t, id)| == |Holders(s, id)| + B(Holds(ph, id)) - B(Holds(PhaseOf(s, p), id))
  {
    Moved(s, t, p, ph, id);
  }

  function B(b: bool): int { if b then 1 else 0 }

  // ---------- every step keeps the invariant ----------

  lemma EnterEntry(s: State, p: Proc, key: Key, k: Key)
    requires EntryOk(s, key) && EntryOk(s, k) && CountOk(s, s.next)
    requires k in s.table ==> s.table[k] < s.next
    requires PhaseOf(s, p).Idle?
    ensures EntryOk(EnterStep(s, p, key), k)
  {
    var t := EnterStep(s, p, key);
    if k in t.table {
      MovedSize(s, t, p, t.procs[p], t.table[k]);
      NoHolderUnlessUser(s, s.next);
    }
  }

  lemma EnterCount(s: State, p: Proc, key: Key, id: LockId)
    requires EntryOk(s, key) && CountOk(s, id) && PhaseOf(s, p).Idle?
    ensures CountOk(EnterStep(s, p, key), id)
  {
    var t := EnterStep(s, p, key);
    Moved(s, t, p, t.procs[p], id);
  }

  lemma EnterProc(s: State, p: Proc, key: Key, q: Proc)
    requires EntryOk(s, key) && ProcOk(s, q) && PhaseOf(s, p).Idle?
    ensures ProcOk(EnterStep(s, p, key), q)
  {
  }

  lemma EnterKeepsInv(s: State, p: Proc, key: Key)
    requires Inv(s) && PhaseOf(s, p).Idle?
    ensures Inv(EnterStep(s, p, key))
  {
    var t := EnterStep(s, p, key);
    assert EntryOk(s, key) && CountOk(s, s.next);
    forall q ensures ProcOk(t, q) {
      assert ProcOk(s, q);
      EnterProc(s, p, key, q);
    }
    forall k ensures EntryOk(t, k) {
      assert EntryOk(s, k);
      if k in s.table { assert CountOk(s, s.table[k]); }
      EnterEntry(s, p, key, k);
    }
    forall id ensures CountOk(t, id) {
      assert CountOk(s, id);
      EnterCount(s, p, key, id);
    }
  }

  lemma NoHolderUnlessUser(s: State, id: LockId)
    ensures Holders(s, id) <= Users(s, id)
  {
  }

  lemma TakeKeepsInv(s: State, p: Proc)
    requires Inv(s) && CanTake(s, p)
    ensures Inv(TakeStep(s, p))
  {
    var t := TakeStep(s, p);
    var was, ph := PhaseOf(s, p), t.procs[p];
    assert ProcOk(s, p) && EntryOk(s, was.key);
    forall q ensures ProcOk(t, q) { assert ProcOk(s, q); }
    forall k ensures EntryOk(t, k) {
      assert EntryOk(s, k);
      if k in t.table { MovedSize(s, t, p, ph, t.table[k]); }
    }
    forall id ensures CountOk(t, id) {
      assert CountOk(s, id);
      MovedSize(s, t, p, ph, id);
      Moved(s, t, p, ph, id);
    }
  }

  lemma CancelKeepsInv(s: State, p: Proc)
    requires Inv(s) && PhaseOf(s, p).Waiting?
    ensures Inv(CancelStep(s, p))
  {
    var t := CancelStep(s, p);
    var ph := t.procs[p];
    forall q ensures ProcOk(t, q) { assert ProcOk(s, q) && ProcOk(s, p); }
    forall k ensures EntryOk(t, k) {
      assert EntryOk(s, k);
      if k in t.table { MovedSize(s, t, p, ph, t.table[k]); }
    }
    forall id ensures CountOk(t, id) {
      assert CountOk(s, id);
      MovedSize(s, t, p, ph, id);
      Moved(s, t, p, ph, id);
    }
  }

  lemma LeaveEntry(s: State, p: Proc, k: Key)
    requires PhaseOf(s, p).Holding? || PhaseOf(s, p).Aborting?
    requires ProcOk(s, p) && EntryOk(s, PhaseOf(s, p).key) && EntryOk(s, k)
    ensures EntryOk(LeaveStep(s, p), k)
  {
    var t := LeaveStep(s, p);
    if k in t.table { MovedSize(s, t, p, Idle, t.table[k]); }
  }

  lemma LeaveCount(s: State, p: Proc, id: LockId)
    requires PhaseOf(s, p).Holding? || PhaseOf(s, p).Aborting?
    requires ProcOk(s, p) && EntryOk(s, PhaseOf(s, p).key) && CountOk(s, id)
    ensures CountOk(LeaveStep(s, p), id)
  {
    hide Users, Holders;
    var t := LeaveStep(s, p);
    Moved(s, t, p, Idle, id);
    MovedSize(s, t, p, Idle, id);
  }

  lemma LeaveProc(s: State, p: Proc, q: Proc)
    requires PhaseOf(s, p).Holding? || PhaseOf(s, p).Aborting?
    requires ProcOk(s, p) && ProcOk(s, q) && EntryOk(s, PhaseOf(s, p).key) && CountOk(s, PhaseOf(s, p).lock)
    ensures ProcOk(LeaveStep(s, p), q)
  {
    var t, ph := LeaveStep(s, p), PhaseOf(s, p);
    if q != p && !PhaseOf(s, q).Idle? && PhaseOf(s, q).key == ph.key {
      MovedSize(s, t, p, Idle, ph.lock);
      assert q in Users(t, ph.lock) && |Users(t, ph.lock)| > 0;
    }
  }

  lemma LeaveKeepsInv(s: State, p: Proc)
    requires Inv(s)
    requires PhaseOf(s, p).Holding? || PhaseOf(s, p).Aborting?
    ensures Inv(LeaveStep(s, p))
  {
    assert ProcOk(s, p) && EntryOk(s, PhaseOf(s, p).key) && CountOk(s, PhaseOf(s, p).lock);
    forall q ensures ProcOk(LeaveStep(s, p), q) {
      assert ProcOk(s, q);
      LeaveProc(s, p, q);
    }
    forall k ensures EntryOk(LeaveStep(s, p), k) {
      assert EntryOk(s, k);
      LeaveEntry(s, p, k);
    }
    forall id ensures CountOk(LeaveStep(s, p), id) {
      assert CountOk(s, id);
      LeaveCount(s, p, id);
    }
  }

  // ---------- whole runs ----------

  const START: State := State(map[], map[], 0, map[])

  ghost predicate StepAt(run: seq<State>, i: nat) {
    i + 1 < |run| ==> Next(run[i], run[i + 1])
  }

  ghost predicate IsRun(run: seq<State>) {
    && |run| > 0 && run[0] == START
    && forall i {:trigger StepAt(run, i)} :: StepAt(run, i)
  }

  lemma StepKeepsInv(s: State, t: State, p: Proc)
    requires Inv(s) && StepOf(s, t, p)
    ensures Inv(t)
  {
    if PhaseOf(s, p).Idle? {
      var key :| t == EnterStep(s, p, key);
      EnterKeepsInv(s, p, key);
    } else if CanTake(s, p) && t == TakeStep(s, p) {
      TakeKeepsInv(s, p);
    } else if PhaseOf(s, p).Waiting? {
      CancelKeepsInv(s, p);
    } else {
      LeaveKeepsInv(s, p);
    }
  }

  lemma {:induction false} RunKeepsInv(run: seq<State>, i: nat)
    requires IsRun(run) && i < |run|
    ensures Inv(run[i])
  {
    if i > 0 {
      RunKeepsInv(run, i - 1);
      var s, t := run[i - 1], run[i];
      assert StepAt(run, i - 1);
      var p :| StepOf(s, t, p);
      StepKeepsInv(s, t, p);
    }
  }

  /** Mutual exclusion per key in every reachable state, across evictions and re-creations. */
  lemma MutualExclusion(run: seq<State>, i: nat, p: Proc, q: Proc)
    requires IsRun(run) && i < |run|
    requires PhaseOf(run[i], p).Holding? && PhaseOf(run[i], q).Holding?
    requires PhaseOf(run[i], p).key == PhaseOf(run[i], q).key
    ensures p == q
  {
    RunKeepsInv(run, i);
    var s := run[i];
    var id := PhaseOf(s, p).lock;
    assert ProcOk(s, p) && ProcOk(s, q) && EntryOk(s, PhaseOf(s, p).key);
    assert p in Holders(s, id) && q in Holders(s, id);
    assert |Holders(s, id) - {p}| == 0;
  }

  /** No goroutine is stranded: everyone between lock and unlock is on the channel the table
      holds for its key, so no waiter sits on an evicted channel while another holds the key;
      and a waiter that sees no holder finds the token waiting. */
  lemma NoStrandedWaiter(run: seq<State>, i: nat, p: Proc)
    requires IsRun(run) && i < |run| && !PhaseOf(run[i], p).Idle?
    ensures var s, ph := run[i], PhaseOf(run[i], p);
      && ph.key in s.table && s.table[ph.key] == ph.lock
      && (forall q :: PhaseOf(s, q).Holding? && PhaseOf(s, q).key == ph.key ==> PhaseOf(s, q).lock == ph.lock)
      && (ph.Waiting? && (forall q :: PhaseOf(s, q).Holding? ==> PhaseOf(s, q).key != ph.key) ==>
            CanTake(s, p) && PhaseOf(TakeStep(s, p), p) == Holding(ph.key, ph.lock))
  {
    RunKeepsInv(run, i);
    var s, ph := run[i], PhaseOf(run[i], p);
    assert ProcOk(s, p) && EntryOk(s, ph.key);
    forall q | PhaseOf(s, q).Holding? && PhaseOf(s, q).key == ph.key ensures PhaseOf(s, q).lock == ph.lock {
      assert ProcOk(s, q);
    }
    forall q | q in Holders(s, ph.lock) ensures PhaseOf(s, q).Holding? && PhaseOf(s, q).key == ph.key {
      assert ProcOk(s, q) && EntryOk(s, PhaseOf(s, q).key);
    }
    assert Holders(s, ph.lock) == {} ==> |Holders(s, ph.lock)| == 0;
  }

  ghost function OnKey(s: State, key: Key): set<Proc> {
    set p | p in s.procs && !PhaseOf(s, p).Idle? && PhaseOf(s, p).key == key
  }

  lemma OnKeyIsUsers(s: State, key: Key)
    requires Inv(s) && key in s.table
    ensures OnKey(s, key) == Users(s, s.table[key])
  {
    assert EntryOk(s, key);
    forall p | p in s.procs ensures p in OnKey(s, key) <==> p in Users(s, s.table[key]) {
      assert ProcOk(s, p) && EntryOk(s, if PhaseOf(s, p).Idle? then key else PhaseOf(s, p).key);
    }
  }

  /** A table entry exists exactly while someone is counted on the key, its count is the number
      of holders plus waiting or aborting goroutines, and a hand-over send never blocks: the
      channel of a held key is empty. */
  lemma TableMatchesGoroutines(run: seq<State>, i: nat, key: Key)
    requires IsRun(run) && i < |run|
    ensures key in run[i].table <==> OnKey(run[i], key) != {}
    ensures key in run[i].table ==>
      run[i].table[key] in run[i].locks && run[i].locks[run[i].table[key]].waiters == |OnKey(run[i], key)|
    ensures forall p :: PhaseOf(run[i], p).Holding? && PhaseOf(run[i], p).key == key ==>
      key in run[i].table && run[i].table[key] in run[i].locks && run[i].locks[run[i].table[key]].tokens == 0
  {
    RunKeepsInv(run, i);
    var s := run[i];
    assert EntryOk(s, key);
    if key in s.table {
      OnKeyIsUsers(s, key);
      assert CountOk(s, s.table[key]);
    }
    forall p | p in OnKey(s, key) ensures key in s.table { assert ProcOk(s, p); }
    forall p | PhaseOf(s, p).Holding? && PhaseOf(s, p).key == key
      ensures key in s.table && s.table[key] in s.locks && s.locks[s.table[key]].tokens == 0
    {
      assert ProcOk(s, p);
      assert p in Holders(s, s.table[key]) && |Holders(s, s.table[key])| > 0;
    }
  }

  /** Releasing hands the key over: whoever waits for it can take it at once and then holds it. */
  lemma HandsOver(run: seq<State>, i: nat, p: Proc, q: Proc)
    requires IsRun(run) && i < |run| && PhaseOf(run[i], p).Holding? && PhaseOf(run[i], q).Waiting?
    requires PhaseOf(run[i], p).key == PhaseOf(run[i], q).key
    ensures var t := LeaveStep(run[i], p);
      PhaseOf(t, p).Idle? && CanTake(t, q) && PhaseOf(TakeStep(t, q), q) == Holding(PhaseOf(run[i], q).key, PhaseOf(run[i], q).lock)
  {
    var s, key := run[i], PhaseOf(run[i], p).key;
    RunKeepsInv(run, i);
    var t := LeaveStep(s, p);
    assert ProcOk(s, p) && ProcOk(s, q) && EntryOk(s, key);
    LeaveKeepsInv(s, p);
    var id := PhaseOf(s, p).lock;
    Moved(s, t, p, Idle, id);
    assert p in Holders(s, id) && |Holders(s, id)| <= 1;
    assert |Holders(t, id)| == |Holders(s, id) - {p}| == 0;
    assert ProcOk(t, q) && EntryOk(t, key);
  }

  /** A step of one goroutine leaves all the others where they are. */
  lemma OthersStay(s: State, t: State, p: Proc, q: Proc)
    requires StepOf(s, t, p) && q != p
    ensures PhaseOf(t, q) == PhaseOf(s, q)
  {
  }

  // ---------- the code: sections run under the mutex, and channel operations ----------

  class LockTable {
    var table: map<Key, LockId>
    var locks: map<LockId, Lock>
    var next: LockId
    ghost var procs: map<Proc, Phase>

    ghost function St(): State
      reads this
    {
      State(table, locks, next, procs)
    }

    constructor ()
      ensures St() == START && Inv(St())
    {
      table, locks, next, procs := map[], map[], 0, map[];
    }

    /** First half of lockMedia / lockUser: find or create the channel and count in. */
    method Enter(p: Proc, key: Key) returns (id: LockId)
      requires Inv(St()) && PhaseOf(St(), p).Idle?
      modifies this
      ensures St() == EnterStep(old(St()), p, key) && Inv(St())
      ensures PhaseOf(St(), p) == Waiting(key, id)
    {
      EnterKeepsInv(St(), p, key);
      assert EntryOk(St(), key);
      if key !in table {
        id, next := next, next + 1;
        locks := locks[id := Lock(key, 1, 0)];
        table := table[key := id];
      } else {
        id := table[key];
      }
      locks := locks[id := locks[id].(waiters := locks[id].waiters + 1)];
      procs := procs[p := Waiting(key, id)];
    }

    /** Receive from the channel; `ok` says whether the token was there. */
    method TryTake(p: Proc, key: Key, id: LockId) returns (ok: bool)
      requires Inv(St()) && PhaseOf(St(), p) == Waiting(key, id)
      modifies this
      ensures ok == CanTake(old(St()), p) && Inv(St())
      ensures St() == if ok then TakeStep(old(St()), p) else old(St())
      ensures PhaseOf(St(), p) == if ok then Holding(key, id) else Waiting(key, id)
    {
      assert ProcOk(St(), p) && EntryOk(St(), key);
      ok := locks[id].tokens > 0;
      if ok {
        TakeKeepsInv(St(), p);
        locks := locks[id := locks[id].(tokens := locks[id].tokens - 1)];
        procs := procs[p := Holding(key, id)];
      }
    }

    /** The context was cancelled while waiting; abortKeyLock comes next. */
    ghost method Cancel(p: Proc, key: Key, id: LockId)
      requires Inv(St()) && PhaseOf(St(), p) == Waiting(key, id)
      modifies this
      ensures St() == CancelStep(old(St()), p) && Inv(St()) && PhaseOf(St(), p) == Aborting(key, id)
    {
      CancelKeepsInv(St(), p);
      procs := procs[p := Aborting(key, id)];
    }

    method Abort(p: Proc, key: Key, id: LockId)
      requires Inv(St()) && PhaseOf(St(), p) == Aborting(key, id)
      modifies this
      ensures St() == LeaveStep(old(St()), p) && Inv(St()) && PhaseOf(St(), p) == Idle
    {
      LeaveKeepsInv(St(), p);
      assert ProcOk(St(), p) && EntryOk(St(), key);
      locks := locks[id := locks[id].(waiters := locks[id].waiters - 1)];
      if locks[id].waiters <= 0 {
        table := table - {key};
      }
      procs := procs[p := Idle];
    }

    /** releaseKeyLock.  The `assert` is the room the send needs in a channel of capacity one. */
    method Release(p: Proc, key: Key, id: LockId)
      requires Inv(St()) && PhaseOf(St(), p) == Holding(key, id)
      modifies this
      ensures St() == LeaveStep(old(St()), p) && Inv(St()) && PhaseOf(St(), p) == Idle
    {
      LeaveKeepsInv(St(), p);
      assert ProcOk(St(), p) && EntryOk(St(), key);
      assert p in Holders(St(), id) && |Holders(St(), id)| > 0;
      ghost var was := locks;
      locks := locks[id := locks[id].(waiters := locks[id].waiters - 1)];
      if locks[id].waiters <= 0 {
        table := table - {key};
      } else {
        assert locks[id].tokens == 0;
        locks := locks[id := locks[id].(tokens := locks[id].tokens + 1)];
        assert locks == was[id := was[id].(waiters := was[id].waiters - 1, tokens := was[id].tokens + 1)];
      }
      procs := procs[p := Idle];
    }
  }
}
