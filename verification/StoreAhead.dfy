/** No job waits behind one that ended: in front of every created job its predecessor is active or succeeded. */
module StoreAhead {
  import opened Wrappers
  import opened StoreModel
  import opened StoreInvariant
  import opened StoreSteps
  import opened StoreRestart
  import opened StoreRuns
  import opened StoreTheorems
  import opened StoreWaiting
  import opened StoreEffects
  import opened StoreLaunches
  import opened StoreHeld
  import opened StoreProgress

  predicate GoingOn(s: JobStatus) { ActiveJob(s) || s.Success? }

  /** If its successor is created, the job is active or has succeeded. */
  predicate AheadOf(jobs: Jobs, p: JobId)
    requires p in jobs
  {
    jobs[p].next.Some? && jobs[p].next.value in jobs && jobs[jobs[p].next.value].status.Created? ==>
      GoingOn(jobs[p].status)
  }

  predicate Ahead(jobs: Jobs) {
    forall p :: p in jobs ==> AheadOf(jobs, p)
  }

  /** The job ended in this step. */
  predicate Ended(before: Job, after: Job) { GoingOn(before.status) && !GoingOn(after.status) }

  predicate NextCreated(jobs: Jobs, job: Job) {
    job.next.Some? && job.next.value in jobs && jobs[job.next.value].status.Created?
  }

  /** Links are as they were, no job is created again, and where a job ended its successor is not created. */
  predicate EndsAll(jobs: Jobs, jobs': Jobs) {
    && jobs'.Keys == jobs.Keys
    && (forall p :: p in jobs ==> jobs'[p].next == jobs[p].next)
    && (forall p :: p in jobs && jobs'[p].status.Created? ==> jobs[p].status.Created?)
    && (forall p :: p in jobs && Ended(jobs[p], jobs'[p]) ==> !NextCreated(jobs', jobs[p]))
  }

  lemma EndsAllAhead(jobs: Jobs, jobs': Jobs)
    requires Ahead(jobs) && EndsAll(jobs, jobs')
    ensures Ahead(jobs')
  {
    forall p | p in jobs' ensures AheadOf(jobs', p) { assert AheadOf(jobs, p); }
  }

  // ---------------------------------------------------------------- single transactions

  lemma WorkEnds(db: Db, ch: Chains, e: Work)
    requires InvWith(db, ch)
    ensures EndsAll(db.jobs, WorkTx(db, e).jobs)
  {
    hide EndsAll, CancelJobs, Promoted, Unclaimed;
    match e
    case ClaimJob(n, j) => ClaimEnds(db, n, j);
    case UnclaimJob(n, j) => UnclaimEnds(db, n, j);
    case PromoteJob(j) => PromoteEnds(db.jobs, j);
    case CancelAttempt(r, a) => WholeRuns(db.jobs, ch, r, a, {});
  }

  lemma ClaimEnds(db: Db, n: NodeId, j: JobId)
    ensures EndsAll(db.jobs, db.jobs) && (Claimable(db, n, j) ==> EndsAll(db.jobs, Claimed(db, n, j).jobs))
  {
  }

  lemma UnclaimEnds(db: Db, n: NodeId, j: JobId)
    ensures EndsAll(db.jobs, Unclaimed(db, n, j).jobs)
  {
  }

  lemma PromoteEnds(jobs: Jobs, j: JobId)
    ensures EndsAll(jobs, Promoted(jobs, j))
  {
  }

  lemma CancelEnds(jobs: Jobs, ids: set<JobId>)
    requires forall p :: p in ids && p in jobs && jobs[p].next.Some? && jobs[p].next.value in jobs ==>
      jobs[p].next.value in ids
    ensures EndsAll(jobs, CancelJobs(jobs, ids))
  {
  }

  lemma WholeRuns(jobs: Jobs, ch: Chains, r: RunId, attempt: nat, rs: set<RunId>)
    requires Chained(jobs, ch)
    ensures EndsAll(jobs, CancelJobs(jobs, JobsOfAttempt(jobs, r, attempt)))
    ensures EndsAll(jobs, CancelJobs(jobs, JobsOfRun(jobs, r))) && EndsAll(jobs, CancelJobs(jobs, JobsOfRuns(jobs, rs)))
  {
    hide EndsAll, CancelJobs;
    forall p | p in jobs && jobs[p].next.Some?
      ensures jobs[p].next.value in jobs && SameAttempt(jobs[p], jobs[jobs[p].next.value])
    {
      LinksWithin(jobs, ch, p);
    }
    CancelEnds(jobs, JobsOfAttempt(jobs, r, attempt));
    CancelEnds(jobs, JobsOfRun(jobs, r));
    CancelEnds(jobs, JobsOfRuns(jobs, rs));
  }

  lemma ChainedOf(db: Db, ch: Chains)
    requires InvWith(db, ch)
    ensures Chained(db.jobs, ch)
  {
  }

  lemma StopEnds(db: Db, ch: Chains, e: Stop)
    requires InvWith(db, ch)
    ensures EndsAll(db.jobs, StopTx(db, e).jobs)
  {
    hide CancelJobs, EndsAll, CancelRuns, InvWith;
    ClaimEnds(db, 0, 0);
    ChainedOf(db, ch);
    match e
    case CancelRun(r) => WholeRuns(db.jobs, ch, r, 0, {});
    case CancelWave(w) => WholeRuns(db.jobs, ch, 0, 0, RunsOfWave(db.runs, w));
  }

  lemma SuccessEnds(jobs: Jobs, jobs': Jobs, j: JobId, shaOut: string, nextLocked: bool)
    requires MovedOn(jobs, jobs', j, shaOut, nextLocked)
    ensures EndsAll(jobs, jobs')
  {
  }

  lemma FailureEnds(jobs: Jobs, jobs': Jobs, j: JobId, status: JobStatus, shaOut: string, c: seq<JobId>, p: nat)
    requires StoppedAt(jobs, jobs', j, status, shaOut, c, p)
    requires forall x :: x in jobs ==> x in jobs' && jobs'[x].next == jobs[x].next
    requires forall x :: x in jobs && jobs'[x].status.Created? ==> jobs[x].status.Created?
    ensures EndsAll(jobs, jobs')
  {
    forall x | x in jobs && x in c[p..] ensures !NextCreated(jobs', jobs[x]) {
      var i :| p <= i < |c| && c[i] == x;
      assert LinkAt(jobs, c, i);
    }
  }

  lemma CompleteEnds(db: Db, ch: Chains, m: Completion, nextLocked: bool)
    requires InvWith(db, ch) && Waiting(db.runs, db.jobs) && Accepts(db, m)
    ensures EndsAll(db.jobs, CompleteTx(db, m, nextLocked).jobs)
  {
    hide Waiting, StoppedAt, MovedOn, CompleteRows, AfterCompletion, Leads, EndsAll;
    ActiveLeads(db, ch, m.job);
    if m.status.Success? {
      SuccessRows(db.jobs, m.job, m.shaOut, nextLocked);
      SuccessEnds(db.jobs, CompleteTx(db, m, nextLocked).jobs, m.job, m.shaOut, nextLocked);
    } else {
      var c, p := PlaceInChain(db, ch, m.job);
      FailureRows(db.jobs, m.job, m.status, m.shaOut, nextLocked, c, p);
      CompletedRows(db, m, nextLocked);
      FailureEnds(db.jobs, CompleteTx(db, m, nextLocked).jobs, m.job, m.status, m.shaOut, c, p);
    }
  }

  lemma CompletedRows(db: Db, m: Completion, nextLocked: bool)
    requires Accepts(db, m) && !m.status.Success?
    ensures var jobs, jobs' := db.jobs, CompleteTx(db, m, nextLocked).jobs;
            forall x :: x in jobs ==>
              x in jobs' && jobs'[x].next == jobs[x].next && (jobs'[x].status.Created? ==> jobs[x].status.Created?)
  {
    hide Walk;
  }

  // ---------------------------------------------------------------- new chains and restarts

  lemma CreateAhead(db: Db, ch: Chains, db': Db, w: WaveId, plans: seq<RunPlan>, ids: seq<seq<JobId>>)
    requires Ahead(db.jobs) && Chained(db.jobs, ch) && |plans| == |ids| && AllAdded(db, db', w, plans, ids)
    ensures Ahead(db'.jobs)
  {
    forall p | p in db'.jobs ensures AheadOf(db'.jobs, p) {
      if p in db.jobs {
        assert AheadOf(db.jobs, p);
        if db.jobs[p].next.Some? { LinksWithin(db.jobs, ch, p); }
      } else {
        var k :| 0 <= k < |ids| && p in ids[k];
        assert RunAdded(db', w, plans[k], ids[k]);
        var i :| 0 <= i < |ids[k]| && ids[k][i] == p;
        assert RowOf(db'.jobs[ids[k][i]], plans[k].id, 1, plans[k].sha0, plans[k].jobs, ids[k], i);
      }
    }
  }

  lemma ReplacedAhead(jobs: Jobs, ch: Chains, jobs': Jobs, r: RunId, attempt: nat, sha0: string, plans: seq<JobPlan>,
                      ids: seq<JobId>)
    requires Ahead(jobs) && Chained(jobs, ch) && ChainReplaced(jobs, jobs', r, attempt, sha0, plans, ids)
    ensures Ahead(jobs')
  {
    forall p | p in jobs' ensures AheadOf(jobs', p) {
      if p in jobs {
        assert AheadOf(jobs, p);
        if jobs[p].next.Some? { LinksWithin(jobs, ch, p); }
      } else {
        var i :| 0 <= i < |ids| && ids[i] == p;
        assert RowOf(jobs'[ids[i]], r, attempt, sha0, plans, ids, i);
      }
    }
  }

  lemma ResumedAhead(jobs: Jobs, ch: Chains, jobs': Jobs, key: Key, c: seq<JobId>, f: nat)
    requires Ahead(jobs) && Chained(jobs, ch) && ChainGoesOn(jobs, jobs', c, f) && IsChain(jobs, key, c)
    ensures Ahead(jobs')
  {
    forall p | p in jobs' ensures AheadOf(jobs', p) {
      assert AheadOf(jobs, p);
      if p in c[f..] {
        var i :| f <= i < |c| && c[i] == p;
      } else if jobs[p].next.Some? && jobs[p].next.value in c[f..] {
        var m :| f <= m < |c| && c[m] == jobs[p].next.value;
        if m > f { PointsBehind(jobs, ch, key, c, f, p, m); }
      }
    }
  }

  /** What points behind position `f` of a chain is in the chain from there on. */
  lemma PointsBehind(jobs: Jobs, ch: Chains, key: Key, c: seq<JobId>, f: nat, p: JobId, m: nat)
    requires Chained(jobs, ch) && IsChain(jobs, key, c) && f < m < |c| && p in jobs && jobs[p].next == Some(c[m])
    ensures p in c[f..]
  {
    assert LinkAt(jobs, c, m - 1);
    UniquePredecessor(jobs, ch, p, c[m - 1]);
    assert c[f..][m - 1 - f] == p;
  }

  // ---------------------------------------------------------------- every reachable state

  lemma LaunchAhead(db: Db, ch: Chains, e: Launch)
    requires InvWith(db, ch) && Ahead(db.jobs)
    ensures Ahead(LaunchTx(db, e).jobs)
  {
    hide Ahead, InsertRuns, AllAdded, AllFit, CanResume, ResumeTx, FullRestartTx, ChainGoesOn, RepoBusy;
    hide FreshIds, ChainReplaced, Claimable, Shaped, Complete, Seeded, Short, Fed, OneOwner, Owned, Waved;
    hide OneRunPerRepo, Chained, Placed, OldSettled;
    match e
    case CreateWave(w, plans, ids) =>
      if |plans| == |ids| {
        var started := db.(waves := db.waves[w := Wave(WaveStarted)]);
        InsertRunsExactly(started, w, plans, ids);
        if InsertRuns(started, w, plans, ids).Some? {
          CreateAhead(started, ch, InsertRuns(started, w, plans, ids).value, w, plans, ids);
        }
      }
    case Restart(arg, ids, chain) =>
      if CanRestart(db, arg) && !arg.fromFailed {
        if CanPlan(db.jobs, arg.jobs, ids) {
          FullRestartRows(db, ch, arg, ids);
          var jobs', run := FullRestartTx(db, arg, ids).jobs, db.runs[arg.run];
          ReplacedAhead(db.jobs, ch, jobs', arg.run, run.attempt + 1, run.sha0, arg.jobs, ids);
        } else {
          KeptRuns(db, arg, ids);
        }
      } else if CanRestart(db, arg) && CanResume(db, arg, chain) {
        var f := ResumeGoesOn(db, ch, arg, chain);
        ResumedAhead(db.jobs, ch, ResumeTx(db, arg, chain).jobs, Key(arg.run, db.runs[arg.run].attempt), chain, f);
      }
  }

  lemma ApplyAhead(s: Sys, ch: Chains, e: Event)
    requires InvWith(s.db, ch) && Waiting(s.db.runs, s.db.jobs) && Ahead(s.db.jobs)
    ensures Ahead(Apply(s, e).db.jobs)
  {
    hide Ahead, Waiting, InvWith, LaunchTx, StopTx, CompleteTx, EndsAll, Accepts;
    match e
    case OnLaunch(l) => LaunchAhead(s.db, ch, l);
    case OnWork(w) =>
      WorkEnds(s.db, ch, w);
      EndsAllAhead(s.db.jobs, WorkTx(s.db, w).jobs);
    case OnStop(c) =>
      StopEnds(s.db, ch, c);
      EndsAllAhead(s.db.jobs, StopTx(s.db, c).jobs);
    case OnOutside(_) =>
    case Deliver(_, _, _, _, locked) =>
      if Sendable(s, e) {
        if Accepts(s.db, Message(e)) {
          CompleteEnds(s.db, ch, Message(e), locked);
          EndsAllAhead(s.db.jobs, CompleteTx(s.db, Message(e), locked).jobs);
        } else {
          Refused(s.db, Message(e), locked);
        }
      }
  }

  lemma Refused(db: Db, m: Completion, nextLocked: bool)
    requires !Accepts(db, m)
    ensures CompleteTx(db, m, nextLocked) == db
  {
  }

  lemma {:induction false} AlwaysAhead(run: seq<Event>, n: nat)
    requires n <= |run|
    ensures Ahead(At(run, n).db.jobs)
  {
    hide Apply, InvWith, Waiting;
    if n > 0 {
      hide Ahead;
      AlwaysAhead(run, n - 1);
      AlwaysWaiting(run, n - 1);
      var ch := ReachableWith(run, n - 1);
      ApplyAhead(At(run, n - 1), ch, run[n - 1]);
    }
  }

  // ---------------------------------------------------------------- an active front

  /** Before an active job of a chain everything is active or succeeded. */
  lemma {:induction false} ActiveBefore(jobs: Jobs, c: seq<JobId>, key: Key, f: nat, i: nat)
    requires Ahead(jobs) && IsChain(jobs, key, c) && Shape(jobs, c) && f <= i < |c|
    requires ActiveJob(jobs[c[i]].status) && !jobs[c[f]].status.Success?
    ensures ActiveJob(jobs[c[f]].status)
    decreases i
  {
    if f < i {
      assert LinkAt(jobs, c, i - 1) && AheadOf(jobs, c[i - 1]);
      assert InOrder(jobs[c[f]], jobs[c[i]]);
      assert f < i - 1 ==> InOrder(jobs[c[f]], jobs[c[i - 1]]);
      ActiveBefore(jobs, c, key, f, i - 1);
    }
  }

  lemma FrontOf(db: Db, ch: Chains, j: JobId) returns (c: seq<JobId>, p: nat)
    requires InvWith(db, ch) && Ahead(db.jobs) && j in db.jobs && ActiveJob(db.jobs[j].status)
    ensures db.jobs[j].run in db.runs && CurrentChain(db, db.jobs[j].run, c) && FrontAt(db.jobs, c, p)
  {
    hide InvWith, Ahead;
    AlwaysCurrent(db, ch, j);
    var i;
    c, i := ShapedChain(db, ch, j);
    p := FirstUnfinished(db.jobs, c);
    ActiveBefore(db.jobs, c, Key(db.jobs[j].run, db.jobs[j].attempt), p, i);
  }

  lemma ShapedChain(db: Db, ch: Chains, j: JobId) returns (c: seq<JobId>, i: nat)
    requires InvWith(db, ch) && j in db.jobs
    ensures IsChain(db.jobs, Key(db.jobs[j].run, db.jobs[j].attempt), c) && Shape(db.jobs, c) && i < |c| && c[i] == j
    ensures forall x :: x in db.jobs && SameAttempt(db.jobs[x], db.jobs[j]) ==> x in c
  {
    hide Placed, OldSettled, Owned, OneOwner, Complete, Short, Fed, Seeded, Waved, OneRunPerRepo;
    c := ch[Key(db.jobs[j].run, db.jobs[j].attempt)];
    i := IndexIn(c, j);
  }

  /**
    No active job is ever stranded: in every reachable state its chain has an active front, and everything before the
    front succeeded.
   */
  lemma ActiveFront(run: seq<Event>, n: nat, j: JobId) returns (c: seq<JobId>, p: nat)
    requires n <= |run| && j in At(run, n).db.jobs && ActiveJob(At(run, n).db.jobs[j].status)
    ensures var db := At(run, n).db;
            db.jobs[j].run in db.runs && CurrentChain(db, db.jobs[j].run, c) && FrontAt(db.jobs, c, p)
  {
    hide InvWith, Ahead;
    var ch := ReachableWith(run, n);
    AlwaysAhead(run, n);
    c, p := FrontOf(At(run, n).db, ch, j);
  }
}
