/** The transactions on archive_schedules, tied to the steps of the claim protocol; a claim inserts its jobs
    through the job store. */
module ScheduleStore {
  import opened JobTables
  import opened ScheduleItems
  import opened Schedules
  import JS = JobStore

  datatype Claimed<T> = AlreadyClaimed | Invalid(problem: Problem) | Created(jobs: seq<T>)

  /** Two sound tables with the same rows have the same counters. */
  lemma CountersFollow(a: Tables, b: Tables)
    requires Exact(a) && Exact(b) && a.jobs == b.jobs && a.tweets == b.tweets && a.nextJob == b.nextJob && a.nextTweet == b.nextTweet
    ensures a == b
  {
    hide Ids;
  }

  class ScheduleTable {
    const store: JS.Store
    var rows: map<nat, Schedule>
    var nextRow: nat
    const u: Text

    constructor (store: JS.Store, u: Text)
      ensures this.store == store && this.u == u && rows == map[] && nextRow == 0
    {
      this.store, this.u, rows, nextRow := store, u, map[], 0;
    }

    method CreateArchiveSchedule(d: Draft, now: int) returns (r: Outcome)
      modifies this
      ensures r.Prepared? <==> Accepts(u, d.interval, d.items)
      ensures if r.Prepared?
        then rows == old(rows)[old(nextRow) := Schedule(d.enabled, d.interval, Kept(u, d.items), NextRun(now, d.interval), {}, 0)]
             && nextRow == old(nextRow) + 1
        else rows == old(rows) && nextRow == old(nextRow)
    {
      r := Prepare(u, d.interval, d.items);
      if r.Prepared? {
        rows := rows[nextRow := Schedule(d.enabled, d.interval, r.items, now + MINUTE * d.interval, {}, 0)];
        nextRow := nextRow + 1;
      }
    }

    /** Reads the row, works out the next run, and moves the version exactly when the next run moved. */
    method UpdateArchiveSchedule(id: nat, d: Draft, now: int) returns (r: Outcome, found: bool)
      modifies this`rows
      ensures r.Prepared? <==> Accepts(u, d.interval, d.items)
      ensures r.Prepared? ==> (found <==> id in old(rows))
      ensures rows == if r.Prepared? && found then old(rows)[id := Edited(old(rows)[id], d, Kept(u, d.items), now)] else old(rows)
    {
      found := false;
      r := Prepare(u, d.interval, d.items);
      if r.Rejected? { return; }
      found := id in rows;
      if !found { return; }
      var current := rows[id];
      var next := current.next;
      if d.enabled && (!current.enabled || current.interval != d.interval) { next := now + MINUTE * d.interval; }
      if next == 0 { next := now + MINUTE * d.interval; }
      var version := current.version;
      if next != current.next { version := version + 1; }
      rows := rows[id := Schedule(d.enabled, d.interval, r.items, next, current.last, version)];
    }

    method RescheduleArchiveSchedule(id: nat, next: int) returns (found: bool)
      modifies this`rows
      ensures found <==> id in old(rows)
      ensures rows == if found then old(rows)[id := Postponed(old(rows)[id], next)] else old(rows)
    {
      found := id in rows;
      if found {
        rows := rows[id := rows[id].(next := next, version := rows[id].version + 1)];
      }
    }

    method DeleteArchiveSchedule(id: nat)
      modifies this`rows
      ensures rows == old(rows) - {id}
    {
      rows := rows - {id};
    }

    method HasActiveJobs(ids: set<nat>) returns (active: bool)
      ensures active <==> !NoneActive(store.T(), ids)
    {
      var busy := set id | id in ids && id in store.jobs && store.jobs[id].status in ACTIVE;
      active := |busy| > 0;
      if active {
        var j :| j in busy;
        assert Active(store.T(), j);
      } else {
        assert forall j {:trigger Active(store.T(), j)} :: Active(store.T(), j) && j in ids ==> j in busy;
      }
    }

    /** Inserts the drafts in order and collects their ids. */
    method InsertJobs(items: seq<Item>, at: int) returns (jobs: seq<nat>)
      requires store.Valid()
      modifies store
      ensures store.Valid() && store.T() == InsertAll(old(store.T()), items, at)
      ensures |jobs| == |items| && forall k :: 0 <= k < |jobs| ==> jobs[k] == old(store.nextJob) + k
    {
      hide Exact, Recount;
      jobs := [];
      for n := 0 to |items|
        invariant store.Valid() && store.T() == InsertAll(old(store.T()), items[..n], at)
        invariant |jobs| == n && store.nextJob == old(store.nextJob) + n
        invariant forall k :: 0 <= k < n ==> jobs[k] == old(store.nextJob) + k
      {
        ghost var before := store.T();
        InsertOneKeeps(before, items[n], at);
        var id := store.InsertRow(items[n].kind, items[n].input, at);
        CountersFollow(store.T(), InsertOne(before, items[n], at));
        InsertOneMore(old(store.T()), items[..n], items[n], at);
        assert items[..n + 1] == items[..n] + [items[n]];
        jobs := jobs + [id];
      }
      assert items[..|items|] == items;
    }

    /** claimArchiveScheduleJobs: one transaction that checks the version and creates the jobs of the stored list. */
    method ClaimArchiveScheduleJobs(snap: Snapshot, runAt: int) returns (r: Claimed<nat>)
      requires store.Valid()
      modifies this`rows, store
      ensures store.Valid()
      ensures r.AlreadyClaimed? <==> !(snap.id in old(rows) && old(rows)[snap.id].version == snap.row.version
                                       && (snap.due ==> old(rows)[snap.id].enabled))
      ensures r.Created? <==> !r.AlreadyClaimed? && Accepts(u, old(rows)[snap.id].interval, old(rows)[snap.id].items)
      ensures !r.Created? ==> rows == old(rows) && store.T() == old(store.T())
      ensures r.Created? ==>
        var row := old(rows)[snap.id];
        var items := Kept(u, row.items);
        && store.T() == InsertAll(old(store.T()), items, runAt)
        && rows == old(rows)[snap.id := ClaimedRow(row, NewIds(old(store.T()), |items|), runAt)]
        && |r.jobs| == |items| && forall k :: 0 <= k < |items| ==> r.jobs[k] == old(store.nextJob) + k
    {
      hide Exact, Recount, InsertAll, Kept, AllGood;
      if snap.id !in rows || (snap.due && !rows[snap.id].enabled) { return AlreadyClaimed; }
      var current := rows[snap.id];
      if current.version != snap.row.version { return AlreadyClaimed; }
      var prepared := Prepare(u, current.interval, current.items);
      if prepared.Rejected? { return Invalid(prepared.problem); }
      rows := rows[snap.id := current.(last := {}, next := runAt + MINUTE * current.interval, version := current.version + 1)];
      var jobs := InsertJobs(prepared.items, runAt);
      var ids := set k | 0 <= k < |jobs| :: jobs[k];
      RangeOf(jobs, old(store.T()));
      rows := rows[snap.id := rows[snap.id].(last := ids)];
      return Created(jobs);
    }
  }

  lemma RangeOf(jobs: seq<nat>, t: Tables)
    requires forall k :: 0 <= k < |jobs| ==> jobs[k] == t.nextJob + k
    ensures (set k | 0 <= k < |jobs| :: jobs[k]) == NewIds(t, |jobs|)
  {
    forall j | j in NewIds(t, |jobs|) ensures j in set k | 0 <= k < |jobs| :: jobs[k] {
      assert jobs[j - t.nextJob] == j;
    }
  }
}
