/** The jobs and failed_tweets tables with their counters row. */
module JobTables {

  datatype Status = Pending | Resolving | Downloading | Completed | CompletedWithErrors | Failed | Canceled

  datatype Kind = TweetLink | MediaUrl | User | List | Following | FailedRetry

  const ACTIVE: set<Status> := {Pending, Resolving, Downloading}
  const INTERRUPTED: set<Status> := {Resolving, Downloading}
  const COMPLETED: set<Status> := {Completed}
  const FAILED: set<Status> := {Failed, CompletedWithErrors}
  const CANCELED: set<Status> := {Canceled}
  const TERMINAL: set<Status> := {Completed, CompletedWithErrors, Failed, Canceled}

  const AUTO_RETRY: string := "automatic-failed-tweets"

  datatype Job = Job(kind: Kind, input: string, status: Status, created: int, updated: int)

  /** `job` is the job that reported the failure last; `due`: no unforced retry comes earlier, 0 if
      there was none yet. */
  datatype FailedTweet = FailedTweet(job: nat, entity: nat, tweet: string, updated: int, retries: nat, due: nat)

  /** What a report makes of a row: a known one keeps its retry columns. */
  function Reported(tweets: map<nat, FailedTweet>, id: nat, job: nat, entity: nat, tweet: string, now: int): FailedTweet {
    if id in tweets then tweets[id].(job := job, updated := now) else FailedTweet(job, entity, tweet, now, 0, 0)
  }

  datatype Counters = Counters(total: int, active: int, completed: int, failed: int, tweets: int)

  datatype Tables = Tables(jobs: map<nat, Job>, nextJob: nat, tweets: map<nat, FailedTweet>, nextTweet: nat, counters: Counters)

  // ---------- the status sets ----------

  /** The sets split all statuses, and exactly the non-active ones are terminal. */
  lemma StatusSetsPartition(s: Status)
    ensures B(s in ACTIVE) + B(s in COMPLETED) + B(s in FAILED) + B(s in CANCELED) == 1
    ensures s in TERMINAL <==> s !in ACTIVE
    ensures s in INTERRUPTED ==> s in ACTIVE
  {
  }

  function B(b: bool): int { if b then 1 else 0 }

  // ---------- counting ----------

  ghost function Ids(jobs: map<nat, Job>, ss: set<Status>): set<nat> {
    set id | id in jobs && jobs[id].status in ss
  }

  ghost function Recount(t: Tables): Counters {
    Counters(|t.jobs|, |Ids(t.jobs, ACTIVE)|, |Ids(t.jobs, COMPLETED)|, |Ids(t.jobs, FAILED)|, |t.tweets|)
  }

  ghost predicate Exact(t: Tables) { t.counters == Recount(t) }

  lemma IdsAfterPut(jobs: map<nat, Job>, id: nat, j: Job, ss: set<Status>)
    ensures |Ids(jobs[id := j], ss)| == |Ids(jobs, ss)| + B(j.status in ss) - B(id in jobs && jobs[id].status in ss)
  {
    var a, b := Ids(jobs, ss), Ids(jobs[id := j], ss);
    if j.status in ss { assert b == a + {id}; } else { assert b == a - {id}; }
  }

  lemma IdsAfterRemove(jobs: map<nat, Job>, id: nat, ss: set<Status>)
    requires id in jobs
    ensures |Ids(jobs - {id}, ss)| == |Ids(jobs, ss)| - B(jobs[id].status in ss)
  {
    assert Ids(jobs - {id}, ss) == Ids(jobs, ss) - {id};
  }

  lemma SizeAfterPut<V>(m: map<nat, V>, id: nat, v: V)
    ensures |m[id := v]| == |m| + B(id !in m)
  {
    assert m[id := v].Keys == m.Keys + {id};
  }

  lemma SizeAfterRemove<V>(m: map<nat, V>, id: nat)
    requires id in m
    ensures |m - {id}| == |m| - 1
  {
    assert (m - {id}).Keys == m.Keys - {id};
  }

  // ---------- the triggers, with their MAX(0, ...) guards ----------

  function Max0(x: int): int { if x < 0 then 0 else x }

  function AfterInsertJob(c: Counters, s: Status): Counters {
    c.(total := c.total + 1,
       active := c.active + B(s in ACTIVE),
       completed := c.completed + B(s in COMPLETED),
       failed := c.failed + B(s in FAILED))
  }

  function AfterUpdateJob(c: Counters, was: Status, now: Status): Counters {
    if was == now then c
    else c.(active := Max0(c.active - B(was in ACTIVE) + B(now in ACTIVE)),
            completed := Max0(c.completed - B(was in COMPLETED) + B(now in COMPLETED)),
            failed := Max0(c.failed - B(was in FAILED) + B(now in FAILED)))
  }

  function AfterDeleteJob(c: Counters, s: Status): Counters {
    c.(total := Max0(c.total - 1),
       active := Max0(c.active - B(s in ACTIVE)),
       completed := Max0(c.completed - B(s in COMPLETED)),
       failed := Max0(c.failed - B(s in FAILED)))
  }

  function AfterInsertTweet(c: Counters): Counters { c.(tweets := c.tweets + 1) }

  function AfterDeleteTweet(c: Counters): Counters { c.(tweets := Max0(c.tweets - 1)) }

  /** The same without the guards: what the counters would be if nothing were clipped. */
  function Unclipped(c: Counters, was: Status, now: Status): Counters {
    c.(active := c.active - B(was in ACTIVE) + B(now in ACTIVE),
       completed := c.completed - B(was in COMPLETED) + B(now in COMPLETED),
       failed := c.failed - B(was in FAILED) + B(now in FAILED))
  }

  predicate NonNegative(c: Counters) {
    c.total >= 0 && c.active >= 0 && c.completed >= 0 && c.failed >= 0 && c.tweets >= 0
  }

  // ---------- one row at a time, the counters stay exact and no guard clips ----------

  lemma InsertExact(t: Tables, j: Job)
    requires Exact(t) && t.nextJob !in t.jobs
    ensures Exact(t.(jobs := t.jobs[t.nextJob := j], nextJob := t.nextJob + 1, counters := AfterInsertJob(t.counters, j.status)))
  {
    SizeAfterPut(t.jobs, t.nextJob, j);
    IdsAfterPut(t.jobs, t.nextJob, j, ACTIVE);
    IdsAfterPut(t.jobs, t.nextJob, j, COMPLETED);
    IdsAfterPut(t.jobs, t.nextJob, j, FAILED);
    hide Ids;
  }

  lemma UpdateExact(t: Tables, id: nat, j: Job)
    requires Exact(t) && id in t.jobs
    ensures Exact(t.(jobs := t.jobs[id := j], counters := AfterUpdateJob(t.counters, t.jobs[id].status, j.status)))
    ensures AfterUpdateJob(t.counters, t.jobs[id].status, j.status) == Unclipped(t.counters, t.jobs[id].status, j.status)
  {
    SizeAfterPut(t.jobs, id, j);
    IdsAfterPut(t.jobs, id, j, ACTIVE);
    IdsAfterPut(t.jobs, id, j, COMPLETED);
    IdsAfterPut(t.jobs, id, j, FAILED);
    hide Ids;
  }

  lemma DeleteExact(t: Tables, id: nat)
    requires Exact(t) && id in t.jobs
    ensures Exact(t.(jobs := t.jobs - {id}, counters := AfterDeleteJob(t.counters, t.jobs[id].status)))
    ensures var s := t.jobs[id].status;
      t.counters.total >= 1 && t.counters.active >= B(s in ACTIVE) && t.counters.completed >= B(s in COMPLETED) && t.counters.failed >= B(s in FAILED)
  {
    SizeAfterRemove(t.jobs, id);
    IdsAfterRemove(t.jobs, id, ACTIVE);
    IdsAfterRemove(t.jobs, id, COMPLETED);
    IdsAfterRemove(t.jobs, id, FAILED);
    hide Ids;
  }

  lemma InsertTweetExact(t: Tables, w: FailedTweet)
    requires Exact(t) && t.nextTweet !in t.tweets
    ensures Exact(t.(tweets := t.tweets[t.nextTweet := w], nextTweet := t.nextTweet + 1, counters := AfterInsertTweet(t.counters)))
  {
    SizeAfterPut(t.tweets, t.nextTweet, w);
    hide Ids;
  }

  lemma UpdateTweetExact(t: Tables, id: nat, w: FailedTweet)
    requires Exact(t) && id in t.tweets
    ensures Exact(t.(tweets := t.tweets[id := w]))
  {
    SizeAfterPut(t.tweets, id, w);
    hide Ids;
  }

  lemma DeleteTweetExact(t: Tables, id: nat)
    requires Exact(t) && id in t.tweets
    ensures Exact(t.(tweets := t.tweets - {id}, counters := AfterDeleteTweet(t.counters)))
    ensures t.counters.tweets >= 1
  {
    SizeAfterRemove(t.tweets, id);
    hide Ids;
  }

  /** The dashboard adds up: total = active + completed + failed + canceled. */
  lemma TotalIsSum(t: Tables)
    requires Exact(t)
    ensures NonNegative(t.counters)
    ensures t.counters.total == t.counters.active + t.counters.completed + t.counters.failed + |Ids(t.jobs, CANCELED)|
  {
    PartitionSizes(t.jobs);
  }

  lemma {:induction false} PartitionSizes(jobs: map<nat, Job>)
    ensures |jobs| == |Ids(jobs, ACTIVE)| + |Ids(jobs, COMPLETED)| + |Ids(jobs, FAILED)| + |Ids(jobs, CANCELED)|
    decreases |jobs|
  {
    if jobs.Keys == {} {
      assert Ids(jobs, ACTIVE) == {} && Ids(jobs, COMPLETED) == {} && Ids(jobs, FAILED) == {} && Ids(jobs, CANCELED) == {};
    } else {
      var id :| id in jobs;
      SizeAfterRemove(jobs, id);
      PartitionSizes(jobs - {id});
      IdsAfterRemove(jobs, id, ACTIVE);
      IdsAfterRemove(jobs, id, COMPLETED);
      IdsAfterRemove(jobs, id, FAILED);
      IdsAfterRemove(jobs, id, CANCELED);
      StatusSetsPartition(jobs[id].status);
      hide Ids;
    }
  }

  // ---------- what every transaction keeps ----------

  predicate IsAutoRetry(j: Job) { j.kind == FailedRetry && j.input == AUTO_RETRY }

  /** Rows keep their identity, and only the automatic-retry row may leave a terminal status. */
  predicate RowStep(was: Job, now: Job) {
    && now.kind == was.kind && now.input == was.input && now.created == was.created
    && (was.status in TERMINAL && !IsAutoRetry(was) ==> now.status == was.status)
  }

  ghost predicate JobOk(a: Tables, b: Tables, id: nat) {
    id in b.jobs ==> id < b.nextJob && (if id in a.jobs then RowStep(a.jobs[id], b.jobs[id]) else id >= a.nextJob)
  }

  /** Ids are never reused (AUTOINCREMENT), so an absent id below `nextJob` stays absent. */
  ghost predicate JobsStep(a: Tables, b: Tables) {
    && a.nextJob <= b.nextJob
    && forall id {:trigger JobOk(a, b, id)} :: JobOk(a, b, id)
  }

  ghost predicate IdsBelow(t: Tables) {
    && (forall id :: id in t.jobs ==> id < t.nextJob)
    && (forall id :: id in t.tweets ==> id < t.nextTweet)
  }

  lemma StepReflexive(a: Tables)
    requires IdsBelow(a)
    ensures JobsStep(a, a)
  {
  }

  lemma StepTransitive(a: Tables, b: Tables, c: Tables)
    requires IdsBelow(a) && JobsStep(a, b) && JobsStep(b, c)
    ensures JobsStep(a, c)
  {
    forall id ensures JobOk(a, c, id) {
      assert JobOk(a, b, id) && JobOk(b, c, id);
    }
  }
}
