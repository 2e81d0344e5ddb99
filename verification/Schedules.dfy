/** Archive schedules: stale snapshots and the claim by version number. */
module Schedules {
  import opened JobTables
  import opened ScheduleItems

  const MINUTE: int := 60_000_000_000

  /** `next == 0` is the zero time; `last` holds the ids of the jobs of the last claim. */
  datatype Schedule = Schedule(enabled: bool, interval: int, items: seq<Item>, next: int, last: set<nat>, version: nat)

  datatype Draft = Draft(enabled: bool, interval: int, items: seq<Item>)

  // ---------- one row ----------

  function NextRun(now: int, interval: int): int { now + MINUTE * interval }

  /** UpdateArchiveSchedule: the next run moves only when the switch or the interval asks for it. */
  function EditedNext(row: Schedule, d: Draft, now: int): int {
    var next := if d.enabled && (!row.enabled || row.interval != d.interval) then NextRun(now, d.interval) else row.next;
    if next == 0 then NextRun(now, d.interval) else next
  }

  function Edited(row: Schedule, d: Draft, items: seq<Item>, now: int): Schedule {
    var next := EditedNext(row, d, now);
    row.(enabled := d.enabled, interval := d.interval, items := items, next := next,
         version := if next != row.next then row.version + 1 else row.version)
  }

  function Postponed(row: Schedule, next: int): Schedule { row.(next := next, version := row.version + 1) }

  function ClaimedRow(row: Schedule, ids: set<nat>, at: int): Schedule {
    row.(last := ids, next := NextRun(at, row.interval), version := row.version + 1)
  }

  // ---------- the jobs of one claim ----------

  function DraftJob(x: Item, now: int): Job { Job(x.kind, x.input, Pending, now, now) }

  function InsertOne(t: Tables, x: Item, now: int): Tables {
    t.(jobs := t.jobs[t.nextJob := DraftJob(x, now)], nextJob := t.nextJob + 1, counters := AfterInsertJob(t.counters, Pending))
  }

  ghost function InsertAll(t: Tables, xs: seq<Item>, now: int): Tables {
    if xs == [] then t else InsertOne(InsertAll(t, xs[..|xs| - 1], now), xs[|xs| - 1], now)
  }

  ghost function NewIds(t: Tables, n: nat): (ids: set<nat>)
    ensures forall j :: j in ids <==> t.nextJob <= j < t.nextJob + n
  {
    if n == 0 then {} else NewIds(t, n - 1) + {t.nextJob + n - 1}
  }

  /** Place `i` of the list became job `nextJob + i`, and no other job changed. */
  ghost predicate InsertedAt(t: Tables, r: Tables, xs: seq<Item>, now: int, j: nat) {
    if t.nextJob <= j < t.nextJob + |xs| then j in r.jobs && r.jobs[j] == Job(xs[j - t.nextJob].kind, xs[j - t.nextJob].input, Pending, now, now)
    else (j in r.jobs <==> j in t.jobs) && (j in t.jobs ==> r.jobs[j] == t.jobs[j])
  }

  ghost predicate Sound(t: Tables) { Exact(t) && IdsBelow(t) }

  lemma InsertOneKeeps(t: Tables, x: Item, now: int)
    requires Sound(t)
    ensures Sound(InsertOne(t, x, now))
  {
    InsertExact(t, DraftJob(x, now));
    hide Exact;
  }

  /** A claim creates exactly one pending job for every item, in order, and touches no other job. */
  lemma {:induction false} InsertAllAt(t: Tables, xs: seq<Item>, now: int, j: nat)
    requires Sound(t)
    ensures var r := InsertAll(t, xs, now);
      Sound(r) && r.nextJob == t.nextJob + |xs| && r.tweets == t.tweets && InsertedAt(t, r, xs, now, j)
  {
    hide Exact;
    if xs != [] {
      InsertAllAt(t, xs[..|xs| - 1], now, j);
      InsertOneKeeps(InsertAll(t, xs[..|xs| - 1], now), xs[|xs| - 1], now);
    }
  }

  lemma InsertOneMore(t: Tables, xs: seq<Item>, x: Item, now: int)
    ensures InsertAll(t, xs + [x], now) == InsertOne(InsertAll(t, xs, now), x, now)
  {
    assert (xs + [x])[..|xs|] == xs;
  }

  // ---------- the system ----------

  /** `due`: read by the scheduler among the schedules due at `at`, a time it took before the
      listing; otherwise read for "run now". */
  datatype Snapshot = Snapshot(id: nat, row: Schedule, due: bool, at: int)

  /** A goroutine between reading a schedule and claiming it; `idle`: the last jobs were seen to be over. */
  datatype Proc = Proc(snap: Snapshot, idle: bool)

  datatype Batch = Batch(schedule: nat, version: nat)

  /** `origin` records which claim created a job. */
  datatype World = World(t: Tables, rows: map<nat, Schedule>, nextRow: nat, clock: int, procs: map<nat, Proc>, origin: map<nat, Batch>)

  datatype Op =
    | Jobs(after: Tables)
    | Tick(now: int)
    | Create(draft: Draft)
    | Update(id: nat, draft: Draft)
    | Reschedule(id: nat, next: int)
    | Delete(id: nat)
    | ReadDue(p: nat, id: nat, at: int)
    | ReadNow(p: nat, id: nat)
    | SeeIdle(p: nat)
    | Claim(p: nat)
    | GiveUp(p: nat)

  predicate Active(t: Tables, j: nat) { j in t.jobs && t.jobs[j].status in ACTIVE }

  ghost predicate NoneActive(t: Tables, js: set<nat>) { forall j {:trigger Active(t, j)} :: j in js ==> !Active(t, j) }

  /** What may happen next; `Jobs` stands for any transactions on jobs and failed tweets. */
  ghost predicate Allowed(w: World, op: Op) {
    match op
    case Jobs(after) => JobsStep(w.t, after) && Sound(after)
    case Tick(now) => w.clock <= now
    case Reschedule(_, next) => next > 0
    case ReadDue(p, id, at) => id in w.rows && w.rows[id].enabled && w.rows[id].next <= at <= w.clock
    case ReadNow(p, id) => id in w.rows
    case SeeIdle(p) => p in w.procs && NoneActive(w.t, w.procs[p].snap.row.last)
    case Claim(p) => p in w.procs && w.procs[p].idle
    case GiveUp(p) => p in w.procs
    case _ => true
  }

  predicate Claimable(w: World, s: Snapshot) {
    s.id in w.rows && w.rows[s.id].version == s.row.version && (s.due ==> w.rows[s.id].enabled)
  }

  ghost function Claimed(w: World, id: nat, at: int): World
    requires id in w.rows
  {
    var row := w.rows[id];
    var ids := NewIds(w.t, |row.items|);
    w.(t := InsertAll(w.t, row.items, at),
       rows := w.rows[id := ClaimedRow(row, ids, at)],
       origin := w.origin + map j | j in ids :: Batch(id, row.version))
  }

  ghost predicate ClaimWorks(u: Text, w: World, s: Snapshot) {
    Claimable(w, s) && Accepts(u, w.rows[s.id].interval, w.rows[s.id].items)
  }

  ghost function Step(u: Text, w: World, op: Op): World
    requires Allowed(w, op)
  {
    match op
    case Jobs(after) => w.(t := after)
    case Tick(now) => w.(clock := now)
    case Create(d) =>
      if !Accepts(u, d.interval, d.items) then w
      else w.(rows := w.rows[w.nextRow := Schedule(d.enabled, d.interval, Kept(u, d.items), NextRun(w.clock, d.interval), {}, 0)],
              nextRow := w.nextRow + 1)
    case Update(id, d) =>
      if !Accepts(u, d.interval, d.items) || id !in w.rows then w
      else w.(rows := w.rows[id := Edited(w.rows[id], d, Kept(u, d.items), w.clock)])
    case Reschedule(id, next) => if id !in w.rows then w else w.(rows := w.rows[id := Postponed(w.rows[id], next)])
    case Delete(id) => w.(rows := w.rows - {id})
    case ReadDue(p, id, at) => w.(procs := w.procs[p := Proc(Snapshot(id, w.rows[id], true, at), false)])
    case ReadNow(p, id) => w.(procs := w.procs[p := Proc(Snapshot(id, w.rows[id], false, w.clock), false)])
    case SeeIdle(p) => w.(procs := w.procs[p := w.procs[p].(idle := true)])
    case Claim(p) =>
      var s := w.procs[p].snap;
      var rest := w.(procs := w.procs - {p});
      if !ClaimWorks(u, w, s) then rest else Claimed(rest, s.id, if s.due then s.at else w.clock)
    case GiveUp(p) => w.(procs := w.procs - {p})
  }

  // ---------- the invariant ----------

  predicate Live(w: World, j: nat) { j in w.origin && Active(w.t, j) }

  ghost predicate OriginOk(w: World, j: nat) {
    j in w.origin ==> j < w.t.nextJob && w.origin[j].schedule < w.nextRow && (j in w.t.jobs ==> !IsAutoRetry(w.t.jobs[j]))
  }

  ghost predicate LiveOk(w: World, j: nat) {
    Live(w, j) && w.origin[j].schedule in w.rows ==> j in w.rows[w.origin[j].schedule].last
  }

  ghost predicate OneBatch(w: World, i: nat, j: nat) {
    Live(w, i) && Live(w, j) && w.origin[i].schedule == w.origin[j].schedule ==> w.origin[i] == w.origin[j]
  }

  /** A stored schedule is a prepared one. */
  ghost predicate Stored(u: Text, r: Schedule) {
    Accepts(u, r.interval, r.items) && Kept(u, r.items) == r.items && r.next > 0
  }

  ghost predicate RowOk(u: Text, w: World, s: nat) {
    s in w.rows ==> s < w.nextRow && w.rows[s].last <= w.origin.Keys && Stored(u, w.rows[s])
  }

  ghost predicate SnapOk(w: World, s: Snapshot) {
    && s.id < w.nextRow && s.row.last <= w.origin.Keys && 0 < s.at <= w.clock
    && (s.id in w.rows ==> s.row.version <= w.rows[s.id].version)
    && (s.due ==> s.row.next <= s.at)
    && (s.id in w.rows && w.rows[s.id].version == s.row.version ==>
          w.rows[s.id].last == s.row.last && w.rows[s.id].next == s.row.next)
  }

  ghost predicate ProcOk(w: World, p: nat) {
    p in w.procs ==> SnapOk(w, w.procs[p].snap) && (w.procs[p].idle ==> NoneActive(w.t, w.procs[p].snap.row.last))
  }

  ghost predicate Origins(w: World) { forall j {:trigger OriginOk(w, j)} :: OriginOk(w, j) }
  ghost predicate Lives(w: World) { forall j {:trigger LiveOk(w, j)} :: LiveOk(w, j) }
  ghost predicate Batches(w: World) { forall i, j {:trigger OneBatch(w, i, j)} :: OneBatch(w, i, j) }
  ghost predicate Rows(u: Text, w: World) { forall s {:trigger RowOk(u, w, s)} :: RowOk(u, w, s) }
  ghost predicate Procs(w: World) { forall p {:trigger ProcOk(w, p)} :: ProcOk(w, p) }

  ghost predicate Inv(u: Text, w: World) {
    w.clock > 0 && Sound(w.t) && Origins(w) && Lives(w) && Batches(w) && Rows(u, w) && Procs(w)
  }

  // ---------- steps that leave the schedules alone ----------

  /** A claimed job that is over stays over: its status is terminal or its row is gone. */
  lemma StaysOver(w: World, after: Tables, j: nat)
    requires OriginOk(w, j) && JobsStep(w.t, after) && IdsBelow(w.t) && j in w.origin
    ensures Active(after, j) ==> Active(w.t, j)
    ensures OriginOk(w.(t := after), j)
  {
    assert JobOk(w.t, after, j);
    if j in w.t.jobs { StatusSetsPartition(w.t.jobs[j].status); }
  }

  lemma JobsKeep(u: Text, w: World, after: Tables)
    requires Inv(u, w) && JobsStep(w.t, after) && Sound(after)
    ensures Inv(u, w.(t := after))
  {
    hide Exact, IdsBelow, JobsStep, Active, Stored;
    var w2 := w.(t := after);
    forall j | j in w.origin ensures OriginOk(w2, j) && (Active(after, j) ==> Active(w.t, j)) {
      assert OriginOk(w, j);
      assert IdsBelow(w.t);
      StaysOver(w, after, j);
    }
    forall j ensures LiveOk(w2, j) { assert LiveOk(w, j); }
    forall i, j ensures OneBatch(w2, i, j) { assert OneBatch(w, i, j); }
    forall s ensures RowOk(u, w2, s) { assert RowOk(u, w, s); }
    forall p ensures ProcOk(w2, p) { assert ProcOk(w, p); }
  }

  lemma TickKeeps(u: Text, w: World, now: int)
    requires Inv(u, w) && w.clock <= now
    ensures Inv(u, w.(clock := now))
  {
    hide Sound, Active, Stored, NoneActive;
    var w2 := w.(clock := now);
    forall j ensures OriginOk(w2, j) { assert OriginOk(w, j); }
    forall j ensures LiveOk(w2, j) { assert LiveOk(w, j); }
    forall i, j ensures OneBatch(w2, i, j) { assert OneBatch(w, i, j); }
    forall s ensures RowOk(u, w2, s) { assert RowOk(u, w, s); }
    forall p ensures ProcOk(w2, p) { assert ProcOk(w, p); }
  }

  lemma ProcsKeep(u: Text, w: World, procs: map<nat, Proc>)
    requires Inv(u, w)
    requires forall p {:trigger ProcOk(w.(procs := procs), p)} :: ProcOk(w.(procs := procs), p)
    ensures Inv(u, w.(procs := procs))
  {
    hide Sound, Active, Stored, ProcOk;
    var w2 := w.(procs := procs);
    forall j ensures OriginOk(w2, j) { assert OriginOk(w, j); }
    forall j ensures LiveOk(w2, j) { assert LiveOk(w, j); }
    forall i, j ensures OneBatch(w2, i, j) { assert OneBatch(w, i, j); }
    forall s ensures RowOk(u, w2, s) { assert RowOk(u, w, s); }
  }

  lemma PutProcKeeps(u: Text, w: World, p: nat, x: Proc)
    requires Inv(u, w) && SnapOk(w, x.snap) && (x.idle ==> NoneActive(w.t, x.snap.row.last))
    ensures Inv(u, w.(procs := w.procs[p := x]))
  {
    hide Sound, Active, Stored, Origins, Lives, Batches, Rows, NoneActive;
    var w2 := w.(procs := w.procs[p := x]);
    forall q ensures ProcOk(w2, q) { assert ProcOk(w, q); assert SnapOk(w2, x.snap); }
    ProcsKeep(u, w, w2.procs);
  }

  lemma DropProcKeeps(u: Text, w: World, p: nat)
    requires Inv(u, w)
    ensures Inv(u, w.(procs := w.procs - {p}))
  {
    hide Sound, Active, Stored, Origins, Lives, Batches, Rows, NoneActive;
    var w2 := w.(procs := w.procs - {p});
    forall q ensures ProcOk(w2, q) { assert ProcOk(w, q); }
    ProcsKeep(u, w, w2.procs);
  }

  lemma SnapshotOk(u: Text, w: World, id: nat, due: bool, at: int)
    requires Inv(u, w) && id in w.rows && 0 < at <= w.clock && (due ==> w.rows[id].next <= at)
    ensures SnapOk(w, Snapshot(id, w.rows[id], due, at))
  {
    assert RowOk(u, w, id);
  }

  // ---------- steps that edit a schedule ----------

  lemma EditKeeps(u: Text, w: World, id: nat, r: Schedule)
    requires Inv(u, w) && id in w.rows && Stored(u, r) && r.last == w.rows[id].last && w.rows[id].version <= r.version
    requires w.rows[id].version == r.version ==> r.next == w.rows[id].next
    ensures Inv(u, w.(rows := w.rows[id := r]))
  {
    hide Sound, Active, Stored, NoneActive;
    var w2 := w.(rows := w.rows[id := r]);
    forall j ensures OriginOk(w2, j) { assert OriginOk(w, j); }
    forall j ensures LiveOk(w2, j) { assert LiveOk(w, j); }
    forall i, j ensures OneBatch(w2, i, j) { assert OneBatch(w, i, j); }
    forall s ensures RowOk(u, w2, s) { assert RowOk(u, w, s); }
    forall p ensures ProcOk(w2, p) { assert ProcOk(w, p); }
  }

  lemma CreateKeeps(u: Text, w: World, r: Schedule)
    requires Inv(u, w) && Stored(u, r) && r.last == {}
    ensures Inv(u, w.(rows := w.rows[w.nextRow := r], nextRow := w.nextRow + 1))
  {
    hide Sound, Active, Stored, NoneActive;
    var w2 := w.(rows := w.rows[w.nextRow := r], nextRow := w.nextRow + 1);
    forall j ensures OriginOk(w2, j) { assert OriginOk(w, j); }
    forall j ensures LiveOk(w2, j) { assert LiveOk(w, j); assert OriginOk(w, j); }
    forall i, j ensures OneBatch(w2, i, j) { assert OneBatch(w, i, j); }
    forall s ensures RowOk(u, w2, s) { assert RowOk(u, w, s); }
    forall p ensures ProcOk(w2, p) { assert ProcOk(w, p); }
  }

  lemma DeleteKeeps(u: Text, w: World, id: nat)
    requires Inv(u, w)
    ensures Inv(u, w.(rows := w.rows - {id}))
  {
    hide Sound, Active, Stored, NoneActive;
    var w2 := w.(rows := w.rows - {id});
    forall j ensures OriginOk(w2, j) { assert OriginOk(w, j); }
    forall j ensures LiveOk(w2, j) { assert LiveOk(w, j); }
    forall i, j ensures OneBatch(w2, i, j) { assert OneBatch(w, i, j); }
    forall s ensures RowOk(u, w2, s) { assert RowOk(u, w, s); }
    forall p ensures ProcOk(w2, p) { assert ProcOk(w, p); }
  }

  // ---------- the claim ----------

  /** The jobs of the latest claim are over, so nothing the schedule ever created is still active. */
  lemma NothingLive(w: World, id: nat, j: nat)
    requires id in w.rows && NoneActive(w.t, w.rows[id].last) && LiveOk(w, j)
    requires j in w.origin && w.origin[j].schedule == id
    ensures !Live(w, j)
  {
  }

  /** What a claim does to one job that was there before, and to one that it creates. */
  ghost predicate ClaimJob(w: World, w2: World, id: nat, j: nat)
    requires id in w.rows && id in w2.rows
  {
    && (j in w.origin ==> j in w2.origin && w2.origin[j] == w.origin[j] && (Active(w2.t, j) <==> Active(w.t, j))
                          && (j in w2.t.jobs ==> j in w.t.jobs && w2.t.jobs[j] == w.t.jobs[j]))
    && (j in w2.origin && j !in w.origin ==> j in w2.rows[id].last && w2.origin[j] == Batch(id, w.rows[id].version) && j < w2.t.nextJob
                                             && (j in w2.t.jobs ==> !IsAutoRetry(w2.t.jobs[j])))
  }

  lemma ClaimOneJob(u: Text, w: World, id: nat, at: int, j: nat)
    requires Sound(w.t) && OriginOk(w, j) && id in w.rows && RowOk(u, w, id)
    ensures ClaimJob(w, Claimed(w, id, at), id, j) && w.t.nextJob <= Claimed(w, id, at).t.nextJob
    ensures Sound(Claimed(w, id, at).t)
  {
    var xs := w.rows[id].items;
    InsertAllAt(w.t, xs, at, j);
    OldAt(w.t, j);
    if w.t.nextJob <= j < w.t.nextJob + |xs| {
      GoodAt(u, xs, j - w.t.nextJob);
      NewJob(w, id, at, j);
    } else {
      OldJob(w, id, at, j);
    }
    hide Sound, RowOk, OriginOk, InsertAll, ClaimJob, InsertedAt;
  }

  lemma OldJob(w: World, id: nat, at: int, j: nat)
    requires id in w.rows && !(w.t.nextJob <= j < w.t.nextJob + |w.rows[id].items|)
    requires InsertedAt(w.t, InsertAll(w.t, w.rows[id].items, at), w.rows[id].items, at, j)
    ensures ClaimJob(w, Claimed(w, id, at), id, j)
  {
    assert j !in NewIds(w.t, |w.rows[id].items|);
    hide NewIds, ClaimedRow, InsertAll, DraftJob;
  }

  lemma NewJob(w: World, id: nat, at: int, j: nat)
    requires id in w.rows && w.t.nextJob <= j < w.t.nextJob + |w.rows[id].items| && j !in w.origin
    requires w.rows[id].items[j - w.t.nextJob].kind != FailedRetry
    requires InsertAll(w.t, w.rows[id].items, at).nextJob == w.t.nextJob + |w.rows[id].items|
    requires InsertedAt(w.t, InsertAll(w.t, w.rows[id].items, at), w.rows[id].items, at, j)
    ensures ClaimJob(w, Claimed(w, id, at), id, j)
  {
    assert j in NewIds(w.t, |w.rows[id].items|);
    hide NewIds, InsertAll, Active;
  }

  lemma OldAt(t: Tables, j: nat)
    requires Sound(t)
    ensures j in t.jobs ==> j < t.nextJob
  {
    hide Exact;
  }

  lemma GoodAt(u: Text, xs: seq<Item>, i: nat)
    requires AllGood(u, xs) && i < |xs|
    ensures xs[i].kind != FailedRetry
  {
    assert Good(u, xs[i]);
  }

  lemma ClaimKeepsJobs(u: Text, w: World, id: nat, at: int)
    requires Inv(u, w) && id in w.rows && NoneActive(w.t, w.rows[id].last)
    ensures var w2 := Claimed(w, id, at); Sound(w2.t) && Origins(w2) && Lives(w2)
  {
    var w2 := Claimed(w, id, at);
    forall j ensures OriginOk(w2, j) && LiveOk(w2, j) && Sound(w2.t) {
      assert OriginOk(w, j) && LiveOk(w, j) && RowOk(u, w, id);
      ClaimOneJob(u, w, id, at, j);
      hide Sound, Active, InsertAll, Stored;
      if j in w.origin && w.origin[j].schedule == id { NothingLive(w, id, j); }
    }
    hide Sound, OriginOk, LiveOk;
    assert OriginOk(w2, 0);
  }

  lemma ClaimKeepsBatches(u: Text, w: World, id: nat, at: int)
    requires Inv(u, w) && id in w.rows && NoneActive(w.t, w.rows[id].last)
    ensures Batches(Claimed(w, id, at))
  {
    var w2 := Claimed(w, id, at);
    forall i, j ensures OneBatch(w2, i, j) {
      assert OneBatch(w, i, j);
      assert OriginOk(w, i) && OriginOk(w, j) && LiveOk(w, i) && LiveOk(w, j) && RowOk(u, w, id);
      ClaimOneJob(u, w, id, at, i);
      ClaimOneJob(u, w, id, at, j);
      hide Sound, Active, InsertAll, Stored, Claimed, LiveOk, OriginOk;
      if i in w.origin && w.origin[i].schedule == id { NothingLive(w, id, i); }
      if j in w.origin && w.origin[j].schedule == id { NothingLive(w, id, j); }
    }
  }

  lemma ClaimKeepsRows(u: Text, w: World, id: nat, at: int)
    requires Inv(u, w) && id in w.rows && at > 0
    ensures Rows(u, Claimed(w, id, at))
  {
    var w2 := Claimed(w, id, at);
    hide Sound, Active, InsertAll, NewIds, Kept, AllGood;
    forall s ensures RowOk(u, w2, s) { assert RowOk(u, w, s); }
  }

  lemma ClaimKeepsProcs(u: Text, w: World, id: nat, at: int)
    requires Inv(u, w) && id in w.rows
    ensures Procs(Claimed(w, id, at))
  {
    var w2 := Claimed(w, id, at);
    forall p ensures ProcOk(w2, p) {
      assert ProcOk(w, p);
      if p in w.procs {
        forall j | j in w.procs[p].snap.row.last ensures Active(w2.t, j) <==> Active(w.t, j) {
          assert OriginOk(w, j) && RowOk(u, w, id);
          ClaimOneJob(u, w, id, at, j);
          hide Sound, Active, InsertAll, Stored, Claimed;
        }
        hide Sound, Active, InsertAll, Stored;
      }
    }
  }

  lemma ClaimKeeps(u: Text, w: World, id: nat, at: int)
    requires Inv(u, w) && id in w.rows && at > 0 && NoneActive(w.t, w.rows[id].last)
    ensures Inv(u, Claimed(w, id, at))
  {
    ClaimKeepsJobs(u, w, id, at);
    ClaimKeepsBatches(u, w, id, at);
    ClaimKeepsRows(u, w, id, at);
    ClaimKeepsProcs(u, w, id, at);
    hide Sound, Origins, Lives, Batches, Rows, Procs, NoneActive, InsertAll;
  }

  // ---------- every step, every run ----------

  lemma EditStored(u: Text, row: Schedule, d: Draft, now: int)
    requires Stored(u, row) && Accepts(u, d.interval, d.items) && now > 0
    ensures Stored(u, Edited(row, d, Kept(u, d.items), now))
  {
    KeptTwice(u, d.items);
    KeptOncePerTarget(u, d.items);
    hide Kept, AllGood, Targets, Keys;
  }

  lemma CreateStored(u: Text, d: Draft, now: int)
    requires Accepts(u, d.interval, d.items) && now > 0
    ensures Stored(u, Schedule(d.enabled, d.interval, Kept(u, d.items), NextRun(now, d.interval), {}, 0))
  {
    KeptTwice(u, d.items);
    KeptOncePerTarget(u, d.items);
    hide Kept, AllGood, Targets, Keys;
  }

  lemma EditStepKeeps(u: Text, w: World, op: Op)
    requires Inv(u, w) && Allowed(w, op) && (op.Create? || op.Update? || op.Reschedule? || op.Delete?)
    ensures Inv(u, Step(u, w, op))
  {
    hide Inv, Accepts, Kept, ClaimWorks, Claimed, AllGood;
    match op
    case Create(d) =>
      if Accepts(u, d.interval, d.items) {
        Clock(u, w);
        CreateStored(u, d, w.clock);
        CreateKeeps(u, w, Schedule(d.enabled, d.interval, Kept(u, d.items), NextRun(w.clock, d.interval), {}, 0));
      }
    case Update(id, d) =>
      if Accepts(u, d.interval, d.items) && id in w.rows {
        Clock(u, w);
        StoredRow(u, w, id);
        EditStored(u, w.rows[id], d, w.clock);
        EditKeeps(u, w, id, Edited(w.rows[id], d, Kept(u, d.items), w.clock));
      }
    case Reschedule(id, next) =>
      if id in w.rows {
        StoredRow(u, w, id);
        EditKeeps(u, w, id, Postponed(w.rows[id], next));
      }
    case Delete(id) => DeleteKeeps(u, w, id);
  }

  lemma Clock(u: Text, w: World)
    requires Inv(u, w)
    ensures w.clock > 0
  {
  }

  lemma StoredRow(u: Text, w: World, id: nat)
    requires Inv(u, w) && id in w.rows
    ensures Stored(u, w.rows[id]) && id < w.nextRow
  {
    assert RowOk(u, w, id);
  }

  lemma SnapOf(u: Text, w: World, p: nat)
    requires Inv(u, w) && p in w.procs
    ensures SnapOk(w, w.procs[p].snap) && (w.procs[p].idle ==> NoneActive(w.t, w.procs[p].snap.row.last))
  {
    assert ProcOk(w, p);
  }

  lemma ClaimStepKeeps(u: Text, w: World, p: nat)
    requires Inv(u, w) && Allowed(w, Claim(p))
    ensures Inv(u, Step(u, w, Claim(p)))
  {
    var s := w.procs[p].snap;
    var rest := w.(procs := w.procs - {p});
    SnapOf(u, w, p);
    DropProcKeeps(u, w, p);
    Clock(u, w);
    hide Inv, Accepts, Claimed, NoneActive;
    if ClaimWorks(u, w, s) {
      ClaimKeeps(u, rest, s.id, if s.due then s.at else w.clock);
    }
  }

  lemma StepKeeps(u: Text, w: World, op: Op)
    requires Inv(u, w) && Allowed(w, op)
    ensures Inv(u, Step(u, w, op))
  {
    if op.Create? || op.Update? || op.Reschedule? || op.Delete? {
      EditStepKeeps(u, w, op);
    } else if op.Claim? {
      ClaimStepKeeps(u, w, op.p);
    } else {
      hide Inv, Claimed, NoneActive, ClaimWorks, Sound, Accepts, Kept, SnapOk;
      match op
      case Jobs(after) => JobsKeep(u, w, after);
      case Tick(now) => TickKeeps(u, w, now);
      case ReadDue(p, id, at) =>
        StoredRow(u, w, id);
        SnapshotOk(u, w, id, true, at);
        PutProcKeeps(u, w, p, Proc(Snapshot(id, w.rows[id], true, at), false));
      case ReadNow(p, id) =>
        Clock(u, w);
        SnapshotOk(u, w, id, false, w.clock);
        PutProcKeeps(u, w, p, Proc(Snapshot(id, w.rows[id], false, w.clock), false));
      case SeeIdle(p) =>
        SnapOf(u, w, p);
        PutProcKeeps(u, w, p, w.procs[p].(idle := true));
      case GiveUp(p) => DropProcKeeps(u, w, p);
    }
  }

  ghost predicate Legal(u: Text, w: World, ops: seq<Op>)
    decreases |ops|
  {
    ops != [] ==> Allowed(w, ops[0]) && Legal(u, Step(u, w, ops[0]), ops[1..])
  }

  ghost function Run(u: Text, w: World, ops: seq<Op>): World
    requires Legal(u, w, ops)
    decreases |ops|
  {
    if ops == [] then w else Run(u, Step(u, w, ops[0]), ops[1..])
  }

  lemma ClockMoves(u: Text, w: World, op: Op)
    requires Allowed(w, op)
    ensures w.clock <= Step(u, w, op).clock
  {
    hide JobsStep, Sound, NoneActive, ClaimWorks, Accepts, Kept, InsertAll, NewIds;
  }

  /** Every reachable state is sound, and time does not run backwards. */
  lemma {:induction false} RunKeeps(u: Text, w: World, ops: seq<Op>)
    requires Inv(u, w) && Legal(u, w, ops)
    ensures Inv(u, Run(u, w, ops)) && w.clock <= Run(u, w, ops).clock
    decreases |ops|
  {
    if ops != [] {
      StepKeeps(u, w, ops[0]);
      ClockMoves(u, w, ops[0]);
      hide Inv, Step;
      RunKeeps(u, Step(u, w, ops[0]), ops[1..]);
    }
  }

  ghost function Start(t: Tables, now: int): World { World(t, map[], 0, now, map[], map[]) }

  /** In every run no schedule has two live batches, and the live one is that of its latest claim. */
  lemma OneLiveBatch(u: Text, t: Tables, now: int, ops: seq<Op>, i: nat, j: nat)
    requires Sound(t) && now > 0 && Legal(u, Start(t, now), ops)
    ensures var w := Run(u, Start(t, now), ops);
      Live(w, i) && Live(w, j) && w.origin[i].schedule == w.origin[j].schedule ==>
        (w.origin[i] == w.origin[j] && (w.origin[i].schedule in w.rows ==> {i, j} <= w.rows[w.origin[i].schedule].last))
  {
    var w := Run(u, Start(t, now), ops);
    assert Inv(u, Start(t, now));
    RunKeeps(u, Start(t, now), ops);
    assert OneBatch(w, i, j) && LiveOk(w, i) && LiveOk(w, j);
  }

  // ---------- when a due snapshot may be claimed ----------

  /** The snapshot was taken of the row as it stands, among the due schedules. */
  predicate JustRead(w: World, s: Snapshot) {
    s.due && s.id in w.rows && w.rows[s.id] == s.row && s.row.enabled && s.row.next <= w.clock
  }

  /** A claim, a removal, a reschedule, switching off, or a new interval. */
  ghost predicate Disturbs(u: Text, w: World, op: Op, id: nat) {
    match op
    case Update(k, d) => k == id && id in w.rows && Accepts(u, d.interval, d.items) && (!d.enabled || d.interval != w.rows[id].interval)
    case Reschedule(k, _) => k == id
    case Delete(k) => k == id
    case Claim(p) => p in w.procs && w.procs[p].snap.id == id && ClaimWorks(u, w, w.procs[p].snap)
    case _ => false
  }

  ghost predicate Disturbed(u: Text, w: World, ops: seq<Op>, id: nat)
    requires Legal(u, w, ops)
    decreases |ops|
  {
    ops != [] && (Disturbs(u, w, ops[0], id) || Disturbed(u, Step(u, w, ops[0]), ops[1..], id))
  }

  predicate Unspent(w: World, s: Snapshot) {
    && s.due && s.id in w.rows && s.row.next <= w.clock
    && w.rows[s.id].version == s.row.version && w.rows[s.id].enabled && w.rows[s.id].next == s.row.next
  }

  predicate Spent(w: World, s: Snapshot) {
    && s.due && s.id < w.nextRow && s.row.next <= w.clock
    && (s.id in w.rows ==> w.rows[s.id].version > s.row.version
                           || (w.rows[s.id].version == s.row.version && !w.rows[s.id].enabled && w.rows[s.id].next == s.row.next))
  }

  lemma ClaimedRows(w: World, id: nat, at: int)
    requires id in w.rows
    ensures var w2 := Claimed(w, id, at);
      && w2.nextRow == w.nextRow && w2.clock == w.clock && w2.rows.Keys == w.rows.Keys && w2.rows[id].version == w.rows[id].version + 1
      && forall k :: k in w.rows && k != id ==> w2.rows[k] == w.rows[k]
  {
    hide InsertAll, NewIds;
  }

  lemma UnspentClaim(u: Text, w: World, p: nat, s: Snapshot)
    requires Inv(u, w) && Allowed(w, Claim(p)) && Unspent(w, s)
    ensures if Disturbs(u, w, Claim(p), s.id) then Spent(Step(u, w, Claim(p)), s) else Unspent(Step(u, w, Claim(p)), s)
  {
    StoredRow(u, w, s.id);
    hide Inv, Sound, Claimed, RowOk, NoneActive, Accepts;
    var c := w.procs[p].snap;
    if ClaimWorks(u, w, c) { ClaimedRows(w.(procs := w.procs - {p}), c.id, if c.due then c.at else w.clock); }
    hide ClaimWorks;
  }

  lemma UnspentStep(u: Text, w: World, op: Op, s: Snapshot)
    requires Inv(u, w) && Allowed(w, op) && Unspent(w, s)
    ensures if Disturbs(u, w, op, s.id) then Spent(Step(u, w, op), s) else Unspent(Step(u, w, op), s)
  {
    if op.Claim? {
      UnspentClaim(u, w, op.p, s);
      hide Step, Disturbs, Spent, Unspent, Allowed, Inv;
    } else {
      StoredRow(u, w, s.id);
      hide Inv, Sound, JobsStep, NoneActive, Claimed, Kept, AllGood, ClaimWorks, RowOk, SnapOk;
    }
  }

  lemma SpentStep(u: Text, w: World, op: Op, s: Snapshot)
    requires Inv(u, w) && Allowed(w, op) && Spent(w, s)
    ensures Spent(Step(u, w, op), s)
  {
    if s.id in w.rows { StoredRow(u, w, s.id); }
    if op.Claim? && ClaimWorks(u, w, w.procs[op.p].snap) {
      var c := w.procs[op.p].snap;
      ClaimedRows(w.(procs := w.procs - {op.p}), c.id, if c.due then c.at else w.clock);
    }
    hide Inv, Sound, JobsStep, NoneActive, Claimed, Kept, AllGood, ClaimWorks, RowOk, SnapOk;
  }

  lemma {:induction false} SpentForGood(u: Text, w: World, ops: seq<Op>, s: Snapshot)
    requires Inv(u, w) && Legal(u, w, ops) && Spent(w, s)
    ensures Spent(Run(u, w, ops), s)
    decreases |ops|
  {
    if ops != [] {
      StepKeeps(u, w, ops[0]);
      SpentStep(u, w, ops[0], s);
      hide Inv, Step, Spent;
      SpentForGood(u, Step(u, w, ops[0]), ops[1..], s);
    }
  }

  lemma {:induction false} UnspentUntilDisturbed(u: Text, w: World, ops: seq<Op>, s: Snapshot)
    requires Inv(u, w) && Legal(u, w, ops) && Unspent(w, s)
    ensures if Disturbed(u, w, ops, s.id) then Spent(Run(u, w, ops), s) else Unspent(Run(u, w, ops), s)
    decreases |ops|
  {
    if ops != [] {
      StepKeeps(u, w, ops[0]);
      UnspentStep(u, w, ops[0], s);
      hide Inv, Step, Spent, Unspent, Disturbs;
      if Disturbs(u, w, ops[0], s.id) {
        SpentForGood(u, Step(u, w, ops[0]), ops[1..], s);
      } else {
        UnspentUntilDisturbed(u, Step(u, w, ops[0]), ops[1..], s);
      }
    }
  }

  /**
   * A due snapshot stays claimable exactly until its schedule is claimed, removed, rescheduled, switched off or
   * given a new interval: whatever happens afterwards, and whatever else happens before.
   */
  lemma DueClaimableIff(u: Text, w: World, ops: seq<Op>, s: Snapshot)
    requires Inv(u, w) && Legal(u, w, ops) && JustRead(w, s)
    ensures Claimable(Run(u, w, ops), s) <==> !Disturbed(u, w, ops, s.id)
  {
    UnspentUntilDisturbed(u, w, ops, s);
    hide Inv, Run, Legal, Disturbed;
  }

  lemma StoredClaimWorks(u: Text, w: World, s: Snapshot)
    requires Inv(u, w) && Claimable(w, s)
    ensures ClaimWorks(u, w, s) && DistinctKeys(u, w.rows[s.id].items)
  {
    StoredRow(u, w, s.id);
    KeptOncePerTarget(u, w.rows[s.id].items);
    hide Inv, Kept, AllGood, DistinctKeys, Targets, Keys;
  }

  /** One pending job per listed item, in order; the row remembers exactly these. */
  ghost predicate OneJobEach(w: World, w2: World, id: nat, at: int, i: nat)
    requires id in w.rows
  {
    && w2.t.nextJob == w.t.nextJob + |w.rows[id].items|
    && InsertedAt(w.t, w2.t, w.rows[id].items, at, i)
    && id in w2.rows && (i in w2.rows[id].last <==> w.t.nextJob <= i < w2.t.nextJob)
    && w2.rows[id].version == w.rows[id].version + 1
  }

  lemma ClaimedEach(w: World, id: nat, at: int, i: nat)
    requires Sound(w.t) && id in w.rows
    ensures OneJobEach(w, Claimed(w, id, at), id, at, i)
  {
    InsertAllAt(w.t, w.rows[id].items, at, i);
    hide Sound, InsertAll, InsertedAt, NewIds;
  }

  /** A claim that goes through makes one pending job per listed target; a stored list never fails the check. */
  lemma ClaimCreates(u: Text, w: World, p: nat, i: nat)
    requires Inv(u, w) && Allowed(w, Claim(p)) && Claimable(w, w.procs[p].snap)
    ensures var s := w.procs[p].snap;
      DistinctKeys(u, w.rows[s.id].items) && OneJobEach(w, Step(u, w, Claim(p)), s.id, if s.due then s.at else w.clock, i)
  {
    var s := w.procs[p].snap;
    StoredClaimWorks(u, w, s);
    assert Sound(w.t);
    ClaimedEach(w.(procs := w.procs - {p}), s.id, if s.due then s.at else w.clock, i);
    hide Inv, Sound, ClaimWorks, Claimed, InsertedAt, DistinctKeys, SnapOk, NoneActive;
  }

  // ---------- when a schedule is due again ----------

  /** A claim, a removal, a reschedule, or an edit of the switch or the interval. */
  ghost predicate Touches(u: Text, w: World, op: Op, id: nat) {
    match op
    case Update(k, d) =>
      k == id && id in w.rows && Accepts(u, d.interval, d.items) && !(d.enabled == w.rows[id].enabled && d.interval == w.rows[id].interval)
    case Reschedule(k, _) => k == id
    case Delete(k) => k == id
    case Claim(p) => p in w.procs && w.procs[p].snap.id == id && ClaimWorks(u, w, w.procs[p].snap)
    case _ => false
  }

  ghost predicate Touched(u: Text, w: World, ops: seq<Op>, id: nat)
    requires Legal(u, w, ops)
    decreases |ops|
  {
    ops != [] && (Touches(u, w, ops[0], id) || Touched(u, Step(u, w, ops[0]), ops[1..], id))
  }

  /** The switch, the interval and the next run of a row. */
  predicate Runs(w: World, id: nat, enabled: bool, interval: int, next: int) {
    id in w.rows && w.rows[id].enabled == enabled && w.rows[id].interval == interval && w.rows[id].next == next
  }

  lemma UntouchedStep(u: Text, w: World, op: Op, id: nat, enabled: bool, interval: int, next: int)
    requires Inv(u, w) && Allowed(w, op) && Runs(w, id, enabled, interval, next) && !Touches(u, w, op, id)
    ensures Runs(Step(u, w, op), id, enabled, interval, next)
  {
    StoredRow(u, w, id);
    if op.Claim? && ClaimWorks(u, w, w.procs[op.p].snap) {
      var c := w.procs[op.p].snap;
      ClaimedRows(w.(procs := w.procs - {op.p}), c.id, if c.due then c.at else w.clock);
    }
    hide Inv, Sound, JobsStep, NoneActive, Claimed, Kept, AllGood, ClaimWorks, RowOk, SnapOk;
  }

  lemma {:induction false} UntouchedRun(u: Text, w: World, ops: seq<Op>, id: nat, enabled: bool, interval: int, next: int)
    requires Inv(u, w) && Legal(u, w, ops) && Runs(w, id, enabled, interval, next) && !Touched(u, w, ops, id)
    ensures Inv(u, Run(u, w, ops)) && Runs(Run(u, w, ops), id, enabled, interval, next)
    decreases |ops|
  {
    if ops != [] {
      StepKeeps(u, w, ops[0]);
      UntouchedStep(u, w, ops[0], id, enabled, interval, next);
      hide Inv, Step, Runs, Touches;
      UntouchedRun(u, Step(u, w, ops[0]), ops[1..], id, enabled, interval, next);
    }
  }

  /** While nobody touches a schedule, the scheduler finds it due from one moment on and not before. */
  ghost predicate DueFrom(u: Text, w: World, ops: seq<Op>, id: nat, enabled: bool, moment: int)
    requires Legal(u, w, ops)
  {
    !Touched(u, w, ops, id) ==>
      forall p: nat, at: int {:trigger ReadDue(p, id, at)} ::
        Allowed(Run(u, w, ops), ReadDue(p, id, at)) <==> enabled && moment <= at <= Run(u, w, ops).clock
  }

  lemma RunsDue(u: Text, w: World, ops: seq<Op>, id: nat, enabled: bool, interval: int, next: int)
    requires Inv(u, w) && Legal(u, w, ops) && Runs(w, id, enabled, interval, next)
    ensures DueFrom(u, w, ops, id, enabled, next)
  {
    hide Inv, Touched;
    if !Touched(u, w, ops, id) {
      UntouchedRun(u, w, ops, id, enabled, interval, next);
      hide Run, Legal;
    }
  }

  /** A claim that goes through puts the next run one interval after its own time. */
  lemma DueAfterClaim(u: Text, w: World, p: nat, ops: seq<Op>)
    requires Inv(u, w) && Allowed(w, Claim(p)) && Claimable(w, w.procs[p].snap) && Legal(u, Step(u, w, Claim(p)), ops)
    ensures var s := w.procs[p].snap;
      var row, at := w.rows[s.id], if s.due then s.at else w.clock;
      DueFrom(u, Step(u, w, Claim(p)), ops, s.id, row.enabled, at + 60_000_000_000 * row.interval)
  {
    var s := w.procs[p].snap;
    var row, at := w.rows[s.id], if s.due then s.at else w.clock;
    StepKeeps(u, w, Claim(p));
    ClaimRuns(u, w, p);
    hide Inv, Step, Legal, DueFrom, Claimable;
    RunsDue(u, Step(u, w, Claim(p)), ops, s.id, row.enabled, row.interval, at + 60_000_000_000 * row.interval);
  }

  lemma ClaimRuns(u: Text, w: World, p: nat)
    requires Inv(u, w) && Allowed(w, Claim(p)) && Claimable(w, w.procs[p].snap)
    ensures var s := w.procs[p].snap;
      var row, at := w.rows[s.id], if s.due then s.at else w.clock;
      Runs(Step(u, w, Claim(p)), s.id, row.enabled, row.interval, at + 60_000_000_000 * row.interval)
  {
    StoredClaimWorks(u, w, w.procs[p].snap);
    hide Inv, InsertAll, NewIds, ClaimWorks, NoneActive, DistinctKeys;
  }

  /** Two scheduler claims of a schedule that nobody else touches lie at least its interval apart. */
  lemma ClaimsApart(u: Text, w: World, p: nat, ops: seq<Op>, q: nat)
    requires Inv(u, w) && Allowed(w, Claim(p)) && Claimable(w, w.procs[p].snap) && w.procs[p].snap.due
    requires Legal(u, Step(u, w, Claim(p)), ops) && !Touched(u, Step(u, w, Claim(p)), ops, w.procs[p].snap.id)
    requires var w2 := Run(u, Step(u, w, Claim(p)), ops);
      q in w2.procs && w2.procs[q].snap.id == w.procs[p].snap.id && w2.procs[q].snap.due && Claimable(w2, w2.procs[q].snap)
    ensures var s, later := w.procs[p].snap, Run(u, Step(u, w, Claim(p)), ops).procs[q].snap;
      later.at >= s.at + 60_000_000_000 * w.rows[s.id].interval
  {
    var s := w.procs[p].snap;
    var w1 := Step(u, w, Claim(p));
    var w2 := Run(u, w1, ops);
    var next := s.at + 60_000_000_000 * w.rows[s.id].interval;
    StepKeeps(u, w, Claim(p));
    ClaimRuns(u, w, p);
    hide Inv, Step, Legal, Touched, Allowed;
    UntouchedRun(u, w1, ops, s.id, w.rows[s.id].enabled, w.rows[s.id].interval, next);
    SnapOf(u, w2, q);
  }

  /** A new schedule runs first after one interval. */
  lemma DueAfterCreate(u: Text, w: World, d: Draft, ops: seq<Op>)
    requires Inv(u, w) && Accepts(u, d.interval, d.items) && Legal(u, Step(u, w, Create(d)), ops)
    ensures DueFrom(u, Step(u, w, Create(d)), ops, w.nextRow, d.enabled, w.clock + 60_000_000_000 * d.interval)
    ensures var row := Step(u, w, Create(d)).rows[w.nextRow]; row.items == Kept(u, d.items) && row.last == {}
  {
    StepKeeps(u, w, Create(d));
    assert Runs(Step(u, w, Create(d)), w.nextRow, d.enabled, d.interval, w.clock + 60_000_000_000 * d.interval);
    hide Inv, Step, Legal, DueFrom, Accepts, Runs;
    RunsDue(u, Step(u, w, Create(d)), ops, w.nextRow, d.enabled, d.interval, w.clock + 60_000_000_000 * d.interval);
  }

  /** An edit starts a new interval if it switches the schedule on or changes the interval of one that stays on;
      otherwise the next run stays where it was. It takes the new list over, and the jobs of the last claim stay. */
  lemma DueAfterUpdate(u: Text, w: World, id: nat, d: Draft, ops: seq<Op>)
    requires Inv(u, w) && id in w.rows && Accepts(u, d.interval, d.items) && Legal(u, Step(u, w, Update(id, d)), ops)
    ensures var row, after := w.rows[id], Step(u, w, Update(id, d)).rows[id];
      && DueFrom(u, Step(u, w, Update(id, d)), ops, id, d.enabled,
                 if d.enabled && !(row.enabled && row.interval == d.interval) then w.clock + 60_000_000_000 * d.interval else row.next)
      && after.items == Kept(u, d.items) && after.last == row.last
  {
    var row := w.rows[id];
    var next := if d.enabled && !(row.enabled && row.interval == d.interval) then w.clock + 60_000_000_000 * d.interval else row.next;
    StepKeeps(u, w, Update(id, d));
    StoredRow(u, w, id);
    assert Runs(Step(u, w, Update(id, d)), id, d.enabled, d.interval, next) by { hide Inv, Kept, AllGood; }
    hide Inv, Legal, DueFrom, Runs, Kept, AllGood;
    RunsDue(u, Step(u, w, Update(id, d)), ops, id, d.enabled, d.interval, next);
  }

  /** A postponed schedule runs at the time it was put to. */
  lemma DueAfterReschedule(u: Text, w: World, id: nat, next: int, ops: seq<Op>)
    requires Inv(u, w) && id in w.rows && next > 0 && Legal(u, Step(u, w, Reschedule(id, next)), ops)
    ensures DueFrom(u, Step(u, w, Reschedule(id, next)), ops, id, w.rows[id].enabled, next)
  {
    StepKeeps(u, w, Reschedule(id, next));
    assert Runs(Step(u, w, Reschedule(id, next)), id, w.rows[id].enabled, w.rows[id].interval, next);
    hide Inv, Step, Legal, DueFrom, Runs;
    RunsDue(u, Step(u, w, Reschedule(id, next)), ops, id, w.rows[id].enabled, w.rows[id].interval, next);
  }
}
