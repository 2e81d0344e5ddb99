/** The transactions on jobs and failed tweets, row by row, each firing the triggers that keep the counters
    row in step. */
module JobStore {
  import opened Options
  import opened JobTables

  /** The jobs after the rows in `ids` were set to a status at a time. */
  ghost function Marked(jobs: map<nat, Job>, ids: set<nat>, status: Status, now: int): map<nat, Job> {
    map id | id in jobs :: if id in ids then jobs[id].(status := status, updated := now) else jobs[id]
  }

  lemma MarkOneMore(jobs: map<nat, Job>, ids: set<nat>, status: Status, now: int, id: nat)
    requires id in jobs && id !in ids
    ensures Marked(jobs, ids + {id}, status, now)
      == Marked(jobs, ids, status, now)[id := jobs[id].(status := status, updated := now)]
    ensures id in Marked(jobs, ids, status, now) && Marked(jobs, ids, status, now)[id] == jobs[id]
  {
  }

  lemma MarkNone(jobs: map<nat, Job>, status: Status, now: int)
    ensures Marked(jobs, {}, status, now) == jobs
  {
  }

  /** Marking sets status and time of exactly these rows, and leaves the identity of every row alone. */
  lemma MarkedIs(jobs: map<nat, Job>, ids: set<nat>, status: Status, now: int, id: nat)
    ensures id in Marked(jobs, ids, status, now) <==> id in jobs
    ensures id in jobs ==>
      var j := Marked(jobs, ids, status, now)[id];
      && j.kind == jobs[id].kind && j.input == jobs[id].input && j.created == jobs[id].created
      && (if id in ids then j.status == status && j.updated == now else j == jobs[id])
  {
  }

  /** A job that was claimed is not claimed again while it is being worked on. */
  lemma ClaimedOnce(jobs: map<nat, Job>, first: set<nat>, now: int, second: set<nat>, limit: nat)
    requires OldestPending(Marked(jobs, first, Resolving, now), second, limit)
    ensures first !! second
  {
  }

  /** Deleting jobs deletes exactly the reports made by them. */
  lemma CascadeIs(tweets: map<nat, FailedTweet>, ids: set<nat>, w: nat)
    ensures w in NotReportedBy(tweets, ids) <==> w in tweets && tweets[w].job !in ids
    ensures w in NotReportedBy(tweets, ids) ==> NotReportedBy(tweets, ids)[w] == tweets[w]
  {
  }

  /** No job of `first` is younger than one of `rest`. */
  ghost predicate NoneYounger(jobs: map<nat, Job>, first: set<nat>, rest: set<nat>) {
    forall c, u {:trigger Younger(jobs, c, u)} :: c in first && u in rest ==> !Younger(jobs, c, u)
  }

  predicate Younger(jobs: map<nat, Job>, c: nat, u: nat) {
    c in jobs && u in jobs && jobs[u].created < jobs[c].created
  }

  lemma NothingYounger(jobs: map<nat, Job>, rest: set<nat>)
    ensures NoneYounger(jobs, {}, rest)
  {
  }

  lemma OlderOf(jobs: map<nat, Job>, id: nat, o: nat, seen: set<nat>)
    requires id in jobs && o in jobs && NoneYounger(jobs, {id}, seen)
    ensures NoneYounger(jobs, {if jobs[o].created < jobs[id].created then o else id}, seen + {o})
  {
    forall u | u in seen ensures !Younger(jobs, if jobs[o].created < jobs[id].created then o else id, u) {
      assert !Younger(jobs, id, u);
    }
  }

  lemma MoveOldest(jobs: map<nat, Job>, first: set<nat>, rest: set<nat>, id: nat)
    requires NoneYounger(jobs, first, rest) && id in rest && NoneYounger(jobs, {id}, rest)
    ensures NoneYounger(jobs, first + {id}, rest - {id})
  {
    hide Younger;
  }

  /** The unfinished jobs with the same target. */
  function Twins(jobs: map<nat, Job>, kind: Kind, input: string): set<nat> {
    set id | id in jobs && jobs[id].kind == kind && jobs[id].input == input && jobs[id].status in ACTIVE
  }

  /** At most `limit` pending jobs, all of them if fewer, and none younger than one left out. */
  ghost predicate OldestPending(jobs: map<nat, Job>, claimed: set<nat>, limit: nat) {
    var pending := Ids(jobs, {Pending});
    && claimed <= pending
    && |claimed| == (if limit < |pending| then limit else |pending|)
    && NoneYounger(jobs, claimed, pending - claimed)
  }

  /** The reports left after the jobs in `ids` were deleted. */
  ghost function NotReportedBy(tweets: map<nat, FailedTweet>, ids: set<nat>): map<nat, FailedTweet> {
    map w | w in tweets && tweets[w].job !in ids :: tweets[w]
  }

  lemma CascadeOne(tweets: map<nat, FailedTweet>, id: nat, children: set<nat>)
    requires children == set w | w in tweets && tweets[w].job == id
    ensures tweets - children == NotReportedBy(tweets, {id})
  {
  }

  lemma RemovalStep(t: Tables, left: map<nat, FailedTweet>, id: nat)
    requires IdsBelow(t) && left.Keys <= t.tweets.Keys && id in t.jobs
    ensures forall c {:trigger t.(tweets := left, jobs := t.jobs - {id}, counters := c)} ::
      JobsStep(t, t.(tweets := left, jobs := t.jobs - {id}, counters := c)) && IdsBelow(t.(tweets := left, jobs := t.jobs - {id}, counters := c))
  {
  }

  lemma CascadeMore(tweets: map<nat, FailedTweet>, ids: set<nat>, id: nat)
    ensures NotReportedBy(NotReportedBy(tweets, ids), {id}) == NotReportedBy(tweets, ids + {id})
    ensures NotReportedBy(tweets, {}) == tweets
  {
  }

  function ClaimLimit(limit: int): nat { if limit <= 0 then 1 else if limit > 64 then 64 else limit }

  /** The transactions that workers, the scheduler and callers may send, with their arguments. */
  datatype Tx =
    | Create(kind: Kind, input: string, now: int)
    | Claim(limit: int, now: int)
    | Save(id: nat, status: Status, now: int)
    | Cancel(id: nat, now: int)
    | Retry(id: nat, now: int)
    | Requeue(now: int)
    | Reserve(now: int)
    | Prune(olderThan: int, hasDownload: nat -> bool)
    | Report(job: nat, entity: nat, tweet: string, now: int)
    | Forget(id: nat)
    | Expire(olderThan: int)
    | Reconcile

  class Store {
    var jobs: map<nat, Job>
    var nextJob: nat
    var tweets: map<nat, FailedTweet>
    var nextTweet: nat
    var counters: Counters

    ghost function T(): Tables
      reads this
    {
      Tables(jobs, nextJob, tweets, nextTweet, counters)
    }

    ghost predicate Valid()
      reads this
    {
      Exact(T()) && IdsBelow(T())
    }

    constructor ()
      ensures Valid() && T() == Tables(map[], 0, map[], 0, Counters(0, 0, 0, 0, 0))
    {
      jobs, nextJob, tweets, nextTweet, counters := map[], 0, map[], 0, Counters(0, 0, 0, 0, 0);
      new;
      assert Ids(jobs, ACTIVE) == {} && Ids(jobs, COMPLETED) == {} && Ids(jobs, FAILED) == {};
    }

    // ---------- rows ----------

    method InsertRow(kind: Kind, input: string, now: int) returns (id: nat)
      requires Valid()
      modifies this
      ensures Valid() && JobsStep(old(T()), T())
      ensures id == old(nextJob) && nextJob == id + 1 && id !in old(jobs)
      ensures jobs == old(jobs)[id := Job(kind, input, Pending, now, now)]
      ensures tweets == old(tweets) && nextTweet == old(nextTweet)
    {
      id := nextJob;
      var j := Job(kind, input, Pending, now, now);
      InsertExact(T(), j);
      jobs, nextJob, counters := jobs[id := j], id + 1, AfterInsertJob(counters, Pending);
      hide Ids;
    }

    method UpdateRow(id: nat, j: Job)
      requires Valid() && id in jobs && RowStep(jobs[id], j)
      modifies this
      ensures Valid() && JobsStep(old(T()), T())
      ensures jobs == old(jobs)[id := j] && nextJob == old(nextJob)
      ensures tweets == old(tweets) && nextTweet == old(nextTweet)
    {
      UpdateExact(T(), id, j);
      hide Ids;
      counters := AfterUpdateJob(counters, jobs[id].status, j.status);
      jobs := jobs[id := j];
    }

    method DeleteTweetRow(id: nat)
      requires Valid() && id in tweets
      modifies this
      ensures Valid() && jobs == old(jobs) && nextJob == old(nextJob)
      ensures tweets == old(tweets) - {id} && nextTweet == old(nextTweet)
    {
      DeleteTweetExact(T(), id);
      hide Ids;
      tweets, counters := tweets - {id}, AfterDeleteTweet(counters);
    }

    method DeleteTweetRows(ids: set<nat>)
      requires Valid() && ids <= tweets.Keys
      modifies this
      ensures Valid() && jobs == old(jobs) && nextJob == old(nextJob)
      ensures tweets == old(tweets) - ids && nextTweet == old(nextTweet)
    {
      hide Ids, Exact, Recount;
      var rest := ids;
      while rest != {}
        invariant Valid() && rest <= ids && jobs == old(jobs) && nextJob == old(nextJob) && nextTweet == old(nextTweet)
        invariant tweets == old(tweets) - (ids - rest)
        decreases |rest|
      {
        var id :| id in rest;
        DeleteTweetRow(id);
        rest := rest - {id};
      }
    }

    /** Deleting a job cascades to the failed tweets it reported. */
    method DeleteJobRow(id: nat)
      requires Valid() && id in jobs
      modifies this
      ensures Valid() && JobsStep(old(T()), T())
      ensures jobs == old(jobs) - {id} && nextJob == old(nextJob) && nextTweet == old(nextTweet)
      ensures tweets == NotReportedBy(old(tweets), {id})
    {
      hide Ids, NotReportedBy, Exact, Recount, JobsStep;
      var children := set w | w in tweets && tweets[w].job == id;
      RemovalStep(T(), tweets - children, id);
      CascadeOne(tweets, id, children);
      DeleteTweetRows(children);
      DeleteExact(T(), id);
      counters := AfterDeleteJob(counters, jobs[id].status);
      jobs := jobs - {id};
    }

    /** Every row of `ids` moves to one status. */
    method MarkRows(ids: set<nat>, status: Status, now: int)
      requires Valid() && ids <= jobs.Keys
      requires forall id :: id in ids ==> RowStep(jobs[id], jobs[id].(status := status))
      modifies this
      ensures Valid() && JobsStep(old(T()), T())
      ensures jobs == Marked(old(jobs), ids, status, now) && nextJob == old(nextJob)
      ensures tweets == old(tweets) && nextTweet == old(nextTweet)
    {
      hide Ids, Exact, Recount, Marked, JobsStep;
      var rest := ids;
      StepReflexive(T());
      MarkNone(jobs, status, now);
      assert ids - rest == {};
      while rest != {}
        invariant Valid() && rest <= ids && nextJob == old(nextJob) && tweets == old(tweets) && nextTweet == old(nextTweet)
        invariant jobs == Marked(old(jobs), ids - rest, status, now)
        invariant JobsStep(old(T()), T())
        decreases |rest|
      {
        var id :| id in rest;
        MarkOneMore(old(jobs), ids - rest, status, now, id);
        assert ids - (rest - {id}) == (ids - rest) + {id};
        ghost var before := T();
        UpdateRow(id, jobs[id].(status := status, updated := now));
        StepTransitive(old(T()), before, T());
        rest := rest - {id};
      }
      assert ids - rest == ids;
    }

    // ---------- transactions ----------

    method CreateJob(kind: Kind, input: string, now: int) returns (id: nat)
      requires Valid()
      modifies this
      ensures Valid() && JobsStep(old(T()), T())
      ensures id == old(nextJob) && id !in old(jobs) && jobs == old(jobs)[id := Job(kind, input, Pending, now, now)]
      ensures nextJob == id + 1 && tweets == old(tweets) && nextTweet == old(nextTweet)
    {
      id := InsertRow(kind, input, now);
    }

    method Oldest(ids: set<nat>) returns (id: nat)
      requires ids != {} && ids <= jobs.Keys
      ensures id in ids && NoneYounger(jobs, {id}, ids)
    {
      id :| id in ids;
      var rest := ids - {id};
      while rest != {}
        invariant id in ids && rest <= ids
        invariant NoneYounger(jobs, {id}, ids - rest)
        decreases |rest|
      {
        var o :| o in rest;
        OlderOf(jobs, id, o, ids - rest);
        assert ids - (rest - {o}) == (ids - rest) + {o};
        if jobs[o].created < jobs[id].created { id := o; }
        rest := rest - {o};
      }
      assert ids - rest == ids;
    }

    /** The subquery of ClaimPendingJobs: the oldest pending ids, up to the limit. */
    method SelectPending(limit: nat) returns (claimed: set<nat>)
      ensures OldestPending(jobs, claimed, limit)
    {
      var pending := set id | id in jobs && jobs[id].status == Pending;
      assert pending == Ids(jobs, {Pending});
      hide Ids, NoneYounger;
      var rest := pending;
      claimed := {};
      NothingYounger(jobs, rest);
      while |claimed| < limit && rest != {}
        invariant claimed !! rest && claimed + rest == pending && |claimed| <= limit
        invariant NoneYounger(jobs, claimed, rest)
        decreases |rest|
      {
        var id := Oldest(rest);
        MoveOldest(jobs, claimed, rest, id);
        claimed, rest := claimed + {id}, rest - {id};
      }
      assert pending - claimed == rest;
      assert |pending| == |claimed| + |rest|;
    }

    method ClaimPendingJobs(limit: int, now: int) returns (claimed: set<nat>)
      requires Valid()
      modifies this
      ensures Valid() && JobsStep(old(T()), T())
      ensures OldestPending(old(jobs), claimed, if limit <= 0 then 1 else if limit > 64 then 64 else limit)
      ensures jobs == Marked(old(jobs), claimed, Resolving, now)
      ensures nextJob == old(nextJob) && tweets == old(tweets) && nextTweet == old(nextTweet)
    {
      claimed := SelectPending(ClaimLimit(limit));
      MarkRows(claimed, Resolving, now);
    }

    /** UpdateJobAndGet: a terminal row only accepts its own status. */
    method UpdateJob(id: nat, status: Status, now: int) returns (applied: bool)
      requires Valid()
      modifies this
      ensures Valid() && JobsStep(old(T()), T())
      ensures applied <==> id in old(jobs) && (old(jobs)[id].status !in TERMINAL || old(jobs)[id].status == status)
      ensures jobs == if applied then old(jobs)[id := old(jobs)[id].(status := status, updated := now)] else old(jobs)
      ensures nextJob == old(nextJob) && tweets == old(tweets) && nextTweet == old(nextTweet)
    {
      hide Ids, Exact, Recount;
      applied := id in jobs && (jobs[id].status !in TERMINAL || jobs[id].status == status);
      if applied {
        UpdateRow(id, jobs[id].(status := status, updated := now));
      } else {
        StepReflexive(T());
      }
    }

    method CancelJob(id: nat, now: int) returns (applied: bool)
      requires Valid()
      modifies this
      ensures Valid() && JobsStep(old(T()), T())
      ensures applied <==> id in old(jobs) && old(jobs)[id].status in ACTIVE
      ensures jobs == if applied then old(jobs)[id := old(jobs)[id].(status := Canceled, updated := now)] else old(jobs)
      ensures nextJob == old(nextJob) && tweets == old(tweets) && nextTweet == old(nextTweet)
    {
      hide Ids, Exact, Recount;
      applied := id in jobs && jobs[id].status in ACTIVE;
      if applied {
        UpdateRow(id, jobs[id].(status := Canceled, updated := now));
      } else {
        StepReflexive(T());
      }
    }

    /** RetryJob: a new job for the same target, unless that target is already busy. */
    method RetryJob(id: nat, now: int) returns (created: Option<nat>)
      requires Valid()
      modifies this
      ensures Valid() && JobsStep(old(T()), T())
      ensures created.Some? <==> (id in old(jobs) && old(jobs)[id].status !in ACTIVE
                                  && Twins(old(jobs), old(jobs)[id].kind, old(jobs)[id].input) == {})
      ensures jobs == if created.Some?
        then old(jobs)[old(nextJob) := Job(old(jobs)[id].kind, old(jobs)[id].input, Pending, now, now)]
        else old(jobs)
      ensures created.Some? ==> created.value == old(nextJob) && created.value !in old(jobs)
      ensures tweets == old(tweets) && nextTweet == old(nextTweet)
    {
      hide Ids, Exact, Recount, Twins;
      created := None;
      if id in jobs && jobs[id].status !in ACTIVE {
        if Twins(jobs, jobs[id].kind, jobs[id].input) == {} {
          var retried := InsertRow(jobs[id].kind, jobs[id].input, now);
          return Some(retried);
        }
      }
      StepReflexive(T());
    }

    method RequeueInterruptedJobs(now: int) returns (requeued: set<nat>)
      requires Valid()
      modifies this
      ensures Valid() && JobsStep(old(T()), T())
      ensures requeued == Ids(old(jobs), INTERRUPTED) && jobs == Marked(old(jobs), requeued, Pending, now)
      ensures nextJob == old(nextJob) && tweets == old(tweets) && nextTweet == old(nextTweet)
    {
      requeued := set id | id in jobs && jobs[id].status in INTERRUPTED;
      MarkRows(requeued, Pending, now);
    }

    /** ReserveAutomaticRetryJob: one row serves all rounds; a terminal row starts over. */
    method ReserveAutomaticRetryJob(now: int) returns (reserved: Option<nat>)
      requires Valid()
      modifies this
      ensures Valid() && JobsStep(old(T()), T())
      ensures tweets == old(tweets) && nextTweet == old(nextTweet)
      ensures reserved.None? ==> jobs == old(jobs)
      ensures reserved.None? ==> exists id :: id in jobs && IsAutoRetry(jobs[id]) && jobs[id].status in ACTIVE
      ensures reserved.Some? ==> reserved.value in jobs && IsAutoRetry(jobs[reserved.value]) && jobs[reserved.value].status == Pending
      ensures reserved.Some? ==> forall id :: id in old(jobs) && id != reserved.value ==> id in jobs && jobs[id] == old(jobs)[id]
      ensures reserved.Some? && (exists id :: id in old(jobs) && IsAutoRetry(old(jobs)[id]))
              ==> (jobs.Keys == old(jobs).Keys && old(jobs)[reserved.value].status !in ACTIVE
                   && jobs[reserved.value] == old(jobs)[reserved.value].(status := Pending, updated := now)
                   && forall id :: id in old(jobs) && IsAutoRetry(old(jobs)[id]) ==> id <= reserved.value)
      ensures reserved.Some? && !(exists id :: id in old(jobs) && IsAutoRetry(old(jobs)[id])) ==>
                reserved.value == old(nextJob) && jobs[reserved.value] == Job(FailedRetry, "automatic-failed-tweets", Pending, now, now)
    {
      hide Ids, Exact, Recount;
      var rows := set id | id in jobs && IsAutoRetry(jobs[id]);
      if rows == {} {
        assert forall id :: id in jobs && IsAutoRetry(jobs[id]) ==> id in rows;
        var id := InsertRow(FailedRetry, AUTO_RETRY, now);
        return Some(id);
      }
      var current := Latest(rows);
      if jobs[current].status in ACTIVE {
        StepReflexive(T());
        return None;
      }
      assert forall id :: id in jobs && IsAutoRetry(jobs[id]) ==> id in rows;
      UpdateRow(current, jobs[current].(status := Pending, updated := now));
      return Some(current);
    }

    method Latest(ids: set<nat>) returns (id: nat)
      requires ids != {}
      ensures id in ids && forall o :: o in ids ==> o <= id
    {
      id :| id in ids;
      var rest := ids - {id};
      while rest != {}
        invariant id in ids && rest <= ids && forall o :: o in ids && o !in rest ==> o <= id
        decreases |rest|
      {
        var o :| o in rest;
        if id < o { id := o; }
        rest := rest - {o};
      }
    }

    /** PruneAutomaticRetryJobs, with the cascade into failed_tweets. */
    method PruneAutomaticRetryJobs(olderThan: int, hasDownload: nat -> bool) returns (pruned: set<nat>)
      requires Valid()
      modifies this
      ensures Valid() && JobsStep(old(T()), T())
      ensures pruned == set id | id in old(jobs) && old(jobs)[id].kind == FailedRetry && old(jobs)[id].input == "automatic-failed-tweets"
                                 && old(jobs)[id].updated < olderThan && old(jobs)[id].status !in ACTIVE && !hasDownload(id)
      ensures jobs == old(jobs) - pruned && nextJob == old(nextJob) && nextTweet == old(nextTweet)
      ensures tweets == NotReportedBy(old(tweets), pruned)
    {
      hide Ids, Exact, Recount;
      pruned := set id | id in jobs && IsAutoRetry(jobs[id]) && jobs[id].updated < olderThan && jobs[id].status !in ACTIVE && !hasDownload(id);
      DeleteJobRows(pruned);
    }

    method DeleteJobRows(ids: set<nat>)
      requires Valid() && ids <= jobs.Keys
      modifies this
      ensures Valid() && JobsStep(old(T()), T())
      ensures jobs == old(jobs) - ids && nextJob == old(nextJob) && nextTweet == old(nextTweet)
      ensures tweets == NotReportedBy(old(tweets), ids)
    {
      hide Ids, Exact, Recount, NotReportedBy, JobsStep;
      var rest := ids;
      StepReflexive(T());
      CascadeMore(tweets, {}, 0);
      assert ids - rest == {};
      while rest != {}
        invariant Valid() && rest <= ids && nextJob == old(nextJob) && nextTweet == old(nextTweet)
        invariant jobs == old(jobs) - (ids - rest)
        invariant tweets == NotReportedBy(old(tweets), ids - rest)
        invariant JobsStep(old(T()), T())
        decreases |rest|
      {
        var id :| id in rest;
        ghost var before := T();
        CascadeMore(old(tweets), ids - rest, id);
        assert ids - (rest - {id}) == (ids - rest) + {id};
        DeleteJobRow(id);
        StepTransitive(old(T()), before, T());
        rest := rest - {id};
      }
      assert ids - rest == ids;
    }

    /** CreateFailedTweet: one row per entity and tweet; a new report refreshes it. */
    method CreateFailedTweet(job: nat, entity: nat, tweet: string, now: int) returns (id: nat)
      requires Valid()
      modifies this
      ensures Valid() && jobs == old(jobs) && nextJob == old(nextJob)
      ensures id in tweets && tweets[id] == Reported(old(tweets), id, job, entity, tweet, now)
      ensures tweets[id].job == job && tweets[id].entity == entity && tweets[id].tweet == tweet && tweets[id].updated == now
      ensures if id in old(tweets) then tweets[id].retries == old(tweets)[id].retries && tweets[id].due == old(tweets)[id].due
              else tweets[id].retries == 0 && tweets[id].due == 0
      ensures id in old(tweets) ==> old(tweets)[id].entity == entity && old(tweets)[id].tweet == tweet
      ensures id !in old(tweets) ==> forall w :: w in old(tweets) ==> old(tweets)[w].entity != entity || old(tweets)[w].tweet != tweet
      ensures forall w :: w != id ==> (w in tweets <==> w in old(tweets)) && (w in tweets ==> tweets[w] == old(tweets)[w])
    {
      hide Ids;
      var same := set w | w in tweets && tweets[w].entity == entity && tweets[w].tweet == tweet;
      if same != {} {
        id :| id in same;
        var row := tweets[id].(job := job, updated := now);
        UpdateTweetExact(T(), id, row);
        tweets := tweets[id := row];
      } else {
        assert forall w :: w in tweets && tweets[w].entity == entity && tweets[w].tweet == tweet ==> w in same;
        id := nextTweet;
        var row := FailedTweet(job, entity, tweet, now, 0, 0);
        InsertTweetExact(T(), row);
        tweets, nextTweet, counters := tweets[id := row], id + 1, AfterInsertTweet(counters);
      }
    }

    /** PruneFailedRecords on failed_tweets. */
    method PruneFailedTweets(olderThan: int) returns (pruned: set<nat>)
      requires Valid()
      modifies this
      ensures Valid() && jobs == old(jobs) && nextJob == old(nextJob)
      ensures pruned == (set w | w in old(tweets) && old(tweets)[w].updated < olderThan) && tweets == old(tweets) - pruned
    {
      pruned := set w | w in tweets && tweets[w].updated < olderThan;
      DeleteTweetRows(pruned);
    }

    /** RecountDashboardCounters: afterwards the row is exact, whatever it held before. */
    method RecountDashboardCounters()
      requires IdsBelow(T())
      modifies this`counters
      ensures Valid()
    {
      var active := set id | id in jobs && jobs[id].status in ACTIVE;
      var completed := set id | id in jobs && jobs[id].status in COMPLETED;
      var failed := set id | id in jobs && jobs[id].status in FAILED;
      counters := Counters(|jobs|, |active|, |completed|, |failed|, |tweets|);
      assert active == Ids(jobs, ACTIVE) && completed == Ids(jobs, COMPLETED) && failed == Ids(jobs, FAILED);
    }

    /** Any transactions in any order: the counters stay exact, ids are never reused, and finished jobs stay finished. */
    method Replay(txs: seq<Tx>)
      requires Valid()
      modifies this
      ensures Valid() && JobsStep(old(T()), T())
    {
      hide Exact, Recount, Ids, JobsStep;
      StepReflexive(T());
      for n := 0 to |txs|
        invariant Valid() && JobsStep(old(T()), T())
      {
        ghost var before := T();
        match txs[n] {
          case Create(kind, input, now) => var id := CreateJob(kind, input, now);
          case Claim(limit, now) => var ids := ClaimPendingJobs(limit, now);
          case Save(id, status, now) => var ok := UpdateJob(id, status, now);
          case Cancel(id, now) => var ok := CancelJob(id, now);
          case Retry(id, now) => var o := RetryJob(id, now);
          case Requeue(now) => var ids := RequeueInterruptedJobs(now);
          case Reserve(now) => var o := ReserveAutomaticRetryJob(now);
          case Prune(olderThan, hasDownload) => var ids := PruneAutomaticRetryJobs(olderThan, hasDownload);
          case Report(job, entity, tweet, now) =>
            var w := CreateFailedTweet(job, entity, tweet, now);
            SameJobsStep(before, T());
          case Forget(id) =>
            if id in tweets { DeleteTweetRow(id); }
            SameJobsStep(before, T());
          case Expire(olderThan) =>
            var ids := PruneFailedTweets(olderThan);
            SameJobsStep(before, T());
          case Reconcile =>
            RecountDashboardCounters();
            SameJobsStep(before, T());
        }
        StepTransitive(old(T()), before, T());
      }
    }
  }

  lemma SameJobsStep(a: Tables, b: Tables)
    requires IdsBelow(a) && a.jobs == b.jobs && a.nextJob == b.nextJob
    ensures JobsStep(a, b)
  {
  }
}
