/**
 The account-deletion worker makes progress: every call that reaches a job
 uses up one of the job's ten attempts or finishes it.
 */
module WorkerProgress {
  import Sums
  import opened SaveTables
  import opened StoreInvariants

  function AttemptsLeft(jobs: map<JobId, Job>): JobId -> int {
    j => if j in jobs then 10 - jobs[j].attempts else 0
  }

  // Attempts the pending jobs still have, in total.
  ghost function Work(jobs: map<JobId, Job>): int {
    Sums.Sum(PendingOf(jobs), AttemptsLeft(jobs))
  }

  predicate Charged(e: Event) {
    e.ProcessJob? && e.fault != Unrecorded
  }

  // Changing one job changes a sum by what that job contributes.
  lemma SumAfterUpdate(jobs: map<JobId, Job>, jobs': map<JobId, Job>, id: JobId, s: set<JobId>, s': set<JobId>)
    requires id in jobs' && jobs' == jobs[id := jobs'[id]] && s - {id} == s' - {id}
    ensures Sums.Sum(s', AttemptsLeft(jobs')) == Sums.Sum(s, AttemptsLeft(jobs))
              - (if id in s then AttemptsLeft(jobs)(id) else 0) + (if id in s' then AttemptsLeft(jobs')(id) else 0)
  {
    var rest := s - {id};
    Sums.Same(rest, AttemptsLeft(jobs), AttemptsLeft(jobs'));
    Sums.Without(s, AttemptsLeft(jobs), id);
    Sums.Without(s', AttemptsLeft(jobs'), id);
  }

  lemma WorkAfterUpdate(jobs: map<JobId, Job>, id: JobId, j: Job)
    ensures Work(jobs[id := j]) == Work(jobs)
              - (if id in jobs && jobs[id].status == Pending then 10 - jobs[id].attempts else 0)
              + (if j.status == Pending then 10 - j.attempts else 0)
  {
    var jobs' := jobs[id := j];
    assert PendingOf(jobs') - {id} == PendingOf(jobs) - {id};
    SumAfterUpdate(jobs, jobs', id, PendingOf(jobs), PendingOf(jobs'));
  }

  // How one event changes the job table.
  ghost predicate JobsChange(jobs: map<JobId, Job>, jobs': map<JobId, Job>, e: Event, now: Time) {
    match e
    case ProcessJob(job, fault) =>
      && job in jobs && job in jobs' && jobs' == jobs[job := jobs'[job]]
      && (if fault == Unrecorded then jobs' == jobs
          else jobs'[job].attempts == jobs[job].attempts + 1 && jobs[job].status == Pending
               && jobs'[job].createdAt == jobs[job].createdAt)
    case RequestDeletion(_, job) =>
      || jobs' == jobs
      || (job !in jobs && job in jobs' && jobs' == jobs[job := jobs'[job]]
          && jobs'[job].status == Pending && jobs'[job].attempts == 0 && jobs'[job].createdAt == now)
    case _ => jobs' == jobs
  }

  lemma JobsAfter(w: World, max: int, e: Event)
    requires JobsBounded(w.db) && Enabled(w, e)
    ensures JobsChange(w.db.jobs, NextDb(w, max, e).jobs, e, w.now)
  {
    hide EraseBlocked, Candidates, OldestOf, Purgeable, Release, CommitTx, LiveOf, Doomed, ProcessTx, JobRows;
    match e
    case Commit(i, id) => CommitKeepsJobs(w.db, max, i, id, w.now);
    case ProcessJob(job, fault) => ProcessChangesOne(w.db, job, fault, w.now);
    case _ =>
  }

  lemma ProcessChangesOne(db: Db, job: JobId, fault: Fault, now: Time)
    requires OldestPending(db, job) && db.jobs[job].user in db.users
    ensures JobsChange(db.jobs, ProcessTx(db, job, fault, now).jobs, ProcessJob(job, fault), now)
  {
    hide EraseBlocked, Release;
    var jobs' := ProcessTx(db, job, fault, now).jobs;
    assert jobs' == db.jobs[job := jobs'[job]];
  }

  // A charged call strictly decreases the work, and so it cannot go on for ever.
  lemma WorkStep(w: World, max: int, e: Event)
    requires JobsBounded(w.db) && Enabled(w, e)
    ensures Work(NextDb(w, max, e).jobs) <=
              Work(w.db.jobs) + (if e.RequestDeletion? then 10 else 0) - (if Charged(e) then 1 else 0)
  {
    JobsAfter(w, max, e);
    var jobs' := NextDb(w, max, e).jobs;
    match e
    case ProcessJob(job, _) => WorkAfterUpdate(w.db.jobs, job, jobs'[job]);
    case RequestDeletion(_, job) =>
      if jobs' != w.db.jobs {
        WorkAfterUpdate(w.db.jobs, job, jobs'[job]);
      }
    case _ =>
  }

  function Count(es: seq<Event>, p: Event -> bool): nat {
    if es == [] then 0 else (if p(es[0]) then 1 else 0) + Count(es[1..], p)
  }

  lemma WorkIsNatural(jobs: map<JobId, Job>)
    requires forall j | j in jobs :: jobs[j].attempts <= 10
    ensures 0 <= Work(jobs)
  {
    Sums.Monotone({}, PendingOf(jobs), AttemptsLeft(jobs));
  }

  // Over any run the worker is charged at most once per attempt that existed
  // at the start or was added by a deletion request.
  lemma {:induction false} WorkRun(w: World, max: int, es: seq<Event>)
    requires JobsBounded(w.db) && Legal(w, max, es)
    ensures Count(es, e => Charged(e)) <= Work(w.db.jobs) + 10 * Count(es, (e: Event) => e.RequestDeletion?)
    decreases |es|
  {
    WorkIsNatural(w.db.jobs);
    if es != [] {
      WorkStep(w, max, es[0]);
      JobsStep(w, max, es[0]);
      WorkRun(Next(w, max, es[0]), max, es[1..]);
    }
  }

  predicate ChargedTo(e: Event, job: JobId) {
    Charged(e) && e.job == job
  }

  // One job, however often it fails, is charged at most ten times: it blocks
  // the jobs behind it for at most ten calls.
  lemma {:induction false} JobBlocksTenRounds(w: World, max: int, es: seq<Event>, job: JobId)
    requires JobsBounded(w.db) && Legal(w, max, es)
    ensures Count(es, e => ChargedTo(e, job)) <= (if job in w.db.jobs then 10 - w.db.jobs[job].attempts else 10)
    decreases |es|
  {
    if es != [] {
      JobsAfter(w, max, es[0]);
      JobsStep(w, max, es[0]);
      JobBlocksTenRounds(Next(w, max, es[0]), max, es[1..], job);
    }
  }

  // ---------- Later jobs ----------

  // The pending jobs that the worker may prefer to job j.
  function AheadOf(jobs: map<JobId, Job>, j: JobId, created: Time): set<JobId> {
    set k | k in jobs && k != j && jobs[k].status == Pending && jobs[k].createdAt <= created
  }

  ghost function WorkAhead(jobs: map<JobId, Job>, j: JobId, created: Time): int {
    Sums.Sum(AheadOf(jobs, j, created), AttemptsLeft(jobs))
  }

  // While j waits, a charged call that is not for j uses up work ahead of it, and jobs
  // requested later are not ahead.
  lemma WaitStep(w: World, max: int, e: Event, j: JobId)
    requires JobsBounded(w.db) && Enabled(w, e) && !ChargedTo(e, j)
    requires j in PendingOf(w.db.jobs) && w.db.jobs[j].createdAt < w.now
    ensures var jobs', c := NextDb(w, max, e).jobs, w.db.jobs[j].createdAt;
      && j in PendingOf(jobs') && jobs'[j].createdAt == c
      && WorkAhead(jobs', j, c) <= WorkAhead(w.db.jobs, j, c) - (if Charged(e) then 1 else 0)
  {
    hide EraseBlocked, Candidates, OldestOf, Purgeable, Release, NextDb;
    JobsAfter(w, max, e);
    var jobs, jobs', c := w.db.jobs, NextDb(w, max, e).jobs, w.db.jobs[j].createdAt;
    if jobs' != jobs {
      var id := e.job;
      assert AheadOf(jobs', j, c) - {id} == AheadOf(jobs, j, c) - {id};
      SumAfterUpdate(jobs, jobs', id, AheadOf(jobs, j, c), AheadOf(jobs', j, c));
    }
  }

  // A waiting job is reached: if no charged call is for j, the charged calls number at most
  // the attempts left to the jobs ahead of it, whatever else happens.
  lemma {:induction false} WaitingJobIsReached(w: World, max: int, es: seq<Event>, j: JobId)
    requires JobsBounded(w.db) && Legal(w, max, es)
    requires j in PendingOf(w.db.jobs) && w.db.jobs[j].createdAt < w.now
    ensures Count(es, e => ChargedTo(e, j)) == 0 ==>
      Count(es, e => Charged(e)) <= WorkAhead(w.db.jobs, j, w.db.jobs[j].createdAt)
    decreases |es|
  {
    var c := w.db.jobs[j].createdAt;
    Sums.Monotone({}, AheadOf(w.db.jobs, j, c), AttemptsLeft(w.db.jobs));
    if es != [] && !ChargedTo(es[0], j) {
      WaitStep(w, max, es[0], j);
      JobsStep(w, max, es[0]);
      WaitingJobIsReached(Next(w, max, es[0]), max, es[1..], j);
    }
  }

  // With one job ahead, however often it fails, more than ten charged calls reach the next.
  lemma NextJobIsReached(w: World, max: int, es: seq<Event>, first: JobId, next: JobId)
    requires JobsBounded(w.db) && Legal(w, max, es)
    requires next in PendingOf(w.db.jobs) && w.db.jobs[next].createdAt < w.now
    requires AheadOf(w.db.jobs, next, w.db.jobs[next].createdAt) <= {first}
    ensures Count(es, e => Charged(e)) > 10 ==> Count(es, e => ChargedTo(e, next)) > 0
  {
    var ahead := AheadOf(w.db.jobs, next, w.db.jobs[next].createdAt);
    WaitingJobIsReached(w, max, es, next);
    if first in ahead {
      Sums.Extract(ahead, AttemptsLeft(w.db.jobs), first);
      assert ahead - {first} == {};
    } else {
      assert ahead == {};
    }
  }
}
