/** When a restart is accepted, exactly, and that an accepted one brings the run to success. */
module StoreRetry {
  import opened Wrappers
  import opened StoreModel
  import opened StoreInvariant
  import opened StoreSteps
  import opened StoreRestart
  import opened StoreRuns
  import opened StoreTheorems
  import opened StoreFinished
  import opened StoreWaiting
  import opened StoreEffects
  import opened StoreLaunches
  import opened StoreHeld
  import opened StoreProgress

  // ---------------------------------------------------------------- acceptance

  /** The request names the current attempt of a known run whose wave is not cancelled and whose repository is free. */
  predicate MayRestart(db: Db, arg: RestartArgs) {
    && arg.run in db.runs && db.runs[arg.run].attempt == arg.expectedAttempt
    && (db.runs[arg.run].wave in db.waves ==> db.waves[db.runs[arg.run].wave].status != WaveCancelled)
    && forall q :: q in db.runs && db.runs[q].repo == db.runs[arg.run].repo ==>
         db.runs[q].status in {RunSuccess, RunFail, RunCancelled}
  }

  predicate InAttempt(db: Db, r: RunId, j: JobId) {
    j in db.jobs && r in db.runs && db.jobs[j].run == r && db.jobs[j].attempt == db.runs[r].attempt
  }

  predicate Failed(job: Job) {
    job.status in {Fail, Error}
  }

  /** One job of the attempt failed on a canonical input, and none is active. */
  ghost predicate Ended(db: Db, r: RunId) {
    && (exists j :: InAttempt(db, r, j) && Failed(db.jobs[j]) && CanonicalSha(db.jobs[j].shaIn))
    && (forall j :: InAttempt(db, r, j) ==> db.jobs[j].status !in {Created, Queued, Running})
  }

  /** The request has a step of the same name and kind for every job to run again. */
  ghost predicate Replanned(db: Db, r: RunId, plans: seq<JobPlan>) {
    forall j :: InAttempt(db, r, j) && db.jobs[j].status != Success ==> PlanFor(plans, db.jobs[j].name, db.jobs[j].kind)
  }

  /** Of several steps with one name in a request the last one counts. */
  lemma LastPlanCounts(plans: seq<JobPlan>, plan: JobPlan, name: string, kind: nat)
    ensures !PlanFor([], name, kind)
    ensures PlanFor(plans + [plan], name, kind) <==>
      if plan.name == name then plan.kind == kind else PlanFor(plans, name, kind)
  {
    var more := plans + [plan];
    if plan.name == name {
      assert more[|plans|] == plan;
    } else {
      if PlanFor(plans, name, kind) {
        var i :| 0 <= i < |plans| && plans[i] == JobPlan(name, kind)
                 && forall k :: i < k < |plans| ==> plans[k].name != name;
        assert more[i] == JobPlan(name, kind);
      }
      if PlanFor(more, name, kind) {
        var i :| 0 <= i < |more| && more[i] == JobPlan(name, kind)
                 && forall k :: i < k < |more| ==> more[k].name != name;
        assert plans[i] == JobPlan(name, kind);
        forall k | i < k < |plans| ensures plans[k].name != name { assert more[k] == plans[k]; }
      }
    }
  }

  lemma MayIsCan(db: Db, ch: Chains, arg: RestartArgs)
    requires InvWith(db, ch)
    ensures MayRestart(db, arg) <==> CanRestart(db, arg)
  {
    hide JobInv;
  }

  /** A request for a new attempt is accepted exactly when it may and plans a chain of new jobs. */
  lemma RestartedExactly(run: seq<Event>, m: nat)
    requires m < |run| && run[m].OnLaunch? && run[m].launch.Restart? && !run[m].launch.arg.fromFailed
    ensures var db, arg, ids := At(run, m).db, run[m].launch.arg, run[m].launch.newIds;
            RestartsRun(run, m, arg.run) <==>
              && MayRestart(db, arg) && 0 < |arg.jobs| == |ids|
              && (forall i :: 0 <= i < |ids| ==> ids[i] !in db.jobs)
              && (forall i, k :: 0 <= i < k < |ids| ==> ids[i] != ids[k])
  {
    hide InvWith, CanRestart, MayRestart;
    var ch := ReachableWith(run, m);
    MayIsCan(At(run, m).db, ch, run[m].launch.arg);
  }

  lemma ChainIsComplete(db: Db, ch: Chains, r: RunId, c: seq<JobId>)
    requires InvWith(db, ch) && r in db.runs
    ensures CurrentChain(db, r, c) <==> CompleteChain(db.jobs, r, db.runs[r].attempt, c)
  {
    hide InvWith, CompleteChain, IsChain, Resumed, ResumeRows;
    if CompleteChain(db.jobs, r, db.runs[r].attempt, c) {
      TheChain(db, ch, r, db.runs[r].attempt, c, 0);
    }
    if CurrentChain(db, r, c) { CurrentIsComplete(db.jobs, r, db.runs[r].attempt, c); }
  }

  lemma CurrentIsComplete(jobs: Jobs, r: RunId, attempt: nat, c: seq<JobId>)
    requires IsChain(jobs, Key(r, attempt), c)
    requires forall j :: j in jobs && jobs[j].run == r && jobs[j].attempt == attempt ==> j in c
    ensures CompleteChain(jobs, r, attempt, c)
  {
    assert JobsOfAttempt(jobs, r, attempt) == Elements(c);
    DistinctCard(c);
  }

  lemma ShapedCurrent(db: Db, ch: Chains, r: RunId, c: seq<JobId>)
    requires InvWith(db, ch) && CurrentChain(db, r, c)
    ensures Shape(db.jobs, c)
  {
    hide CompleteChain, Placed, OldSettled, Owned, OneOwner, Complete, Short, Fed, Seeded, Waved, OneRunPerRepo, Shape;
    ChainIsComplete(db, ch, r, c);
    ChainUnique(db.jobs, ch, r, db.runs[r].attempt, c);
  }

  /** Everything before the failed job of a chain succeeded, and nothing behind it has started. */
  lemma FailedInChain(db: Db, ch: Chains, r: RunId, c: seq<JobId>, i: nat)
    requires InvWith(db, ch) && CurrentChain(db, r, c) && i < |c| && Failed(db.jobs[c[i]])
    ensures FirstUnfinished(db.jobs, c) == i
    ensures forall k :: i < k < |c| ==> Idle(db.jobs[c[k]])
  {
    hide InvWith;
    ShapedCurrent(db, ch, r, c);
    var f := FirstUnfinished(db.jobs, c);
    assert f < i ==> InOrder(db.jobs[c[f]], db.jobs[c[i]]);
    forall k | i < k < |c| ensures Idle(db.jobs[c[k]]) { assert InOrder(db.jobs[c[i]], db.jobs[c[k]]); }
  }

  lemma EndedResumes(db: Db, ch: Chains, r: RunId, c: seq<JobId>)
    requires InvWith(db, ch) && Waiting(db.runs, db.jobs) && CurrentChain(db, r, c) && Ended(db, r)
    ensures ResumableAt(db.jobs, c, FirstUnfinished(db.jobs, c))
  {
    hide CanonicalSha, InvWith, Waiting, SingleOwner, FirstUnfinished;
    var j :| InAttempt(db, r, j) && Failed(db.jobs[j]) && CanonicalSha(db.jobs[j].shaIn);
    var i := IndexIn(c, j);
    FailedInChain(db, ch, r, c, i);
    ChainOwner(db, ch, r, c);
    FailedOwned(db, ch, j);
    forall k | i < k < |c| ensures NeverRan(db.jobs[c[k]]) { assert InAttempt(db, r, c[k]); }
  }

  lemma FailedOwned(db: Db, ch: Chains, j: JobId)
    requires InvWith(db, ch) && Waiting(db.runs, db.jobs) && j in db.jobs && Failed(db.jobs[j])
    ensures db.jobs[j].node.Some? && db.jobs[j].node.value != NO_NODE
  {
    assert Ready(db.runs, db.jobs[j]);
  }

  lemma ChainOwner(db: Db, ch: Chains, r: RunId, c: seq<JobId>)
    requires InvWith(db, ch) && CurrentChain(db, r, c)
    ensures SingleOwner(db.jobs, c)
  {
    hide Chained, Shaped, Complete, Seeded, Short, Fed, Owned, OneRunPerRepo, Placed, OldSettled, Waved;
    forall a, b | 0 <= a < b < |c| && db.jobs[c[a]].node.Some? && db.jobs[c[b]].node.Some?
      ensures db.jobs[c[a]].node == db.jobs[c[b]].node
    {
      assert SameAttempt(db.jobs[c[a]], db.jobs[c[b]]);
    }
  }

  lemma ResumableEnded(db: Db, r: RunId, c: seq<JobId>, f: nat)
    requires CurrentChain(db, r, c) && ResumableAt(db.jobs, c, f)
    ensures Ended(db, r)
  {
    hide CanonicalSha;
    assert InAttempt(db, r, c[f]) && Failed(db.jobs[c[f]]);
    forall j | InAttempt(db, r, j) ensures db.jobs[j].status !in {Created, Queued, Running} {
      var i := IndexIn(c, j);
    }
  }

  lemma ReplannedChain(db: Db, r: RunId, c: seq<JobId>, plans: seq<JobPlan>)
    requires CurrentChain(db, r, c) && ResumableAt(db.jobs, c, FirstUnfinished(db.jobs, c))
    ensures Replanned(db, r, plans) <==>
      forall i :: FirstUnfinished(db.jobs, c) <= i < |c| ==> PlanFor(plans, db.jobs[c[i]].name, db.jobs[c[i]].kind)
  {
    hide PlanFor, CanonicalSha;
    var f := FirstUnfinished(db.jobs, c);
    if Replanned(db, r, plans) {
      forall i | f <= i < |c| ensures PlanFor(plans, db.jobs[c[i]].name, db.jobs[c[i]].kind) {
        assert InAttempt(db, r, c[i]);
      }
    }
    if forall i :: f <= i < |c| ==> PlanFor(plans, db.jobs[c[i]].name, db.jobs[c[i]].kind) {
      forall j | InAttempt(db, r, j) && db.jobs[j].status != Success
        ensures PlanFor(plans, db.jobs[j].name, db.jobs[j].kind)
      {
        var i := IndexIn(c, j);
      }
    }
  }

  /** What a resume from the failed job needs, besides what every restart needs. */
  ghost predicate MayResume(db: Db, arg: RestartArgs, c: seq<JobId>) {
    && arg.run in db.runs && db.runs[arg.run].status in {RunFail, RunCancelled}
    && db.runs[arg.run].resumes == arg.expectedResumes
    && CurrentChain(db, arg.run, c) && Ended(db, arg.run) && Replanned(db, arg.run, arg.jobs)
  }

  lemma MayIsCanResume(db: Db, ch: Chains, arg: RestartArgs, c: seq<JobId>)
    requires InvWith(db, ch) && Waiting(db.runs, db.jobs) && CanRestart(db, arg)
    ensures MayResume(db, arg, c) <==> CanResume(db, arg, c)
  {
    hide InvWith, Waiting, CurrentChain, CompleteChain, Ended, Replanned, ResumableAt, PlanFor, RepoBusy;
    ChainIsComplete(db, ch, arg.run, c);
    if CurrentChain(db, arg.run, c) {
      InJobs(db, arg.run, c);
      var f := FirstUnfinished(db.jobs, c);
      if Ended(db, arg.run) { EndedResumes(db, ch, arg.run, c); }
      if ResumableAt(db.jobs, c, f) {
        ResumableEnded(db, arg.run, c, f);
        ReplannedChain(db, arg.run, c, arg.jobs);
      }
    }
  }

  lemma InJobs(db: Db, r: RunId, c: seq<JobId>)
    requires CurrentChain(db, r, c)
    ensures forall i :: 0 <= i < |c| ==> c[i] in db.jobs
  {
  }

  /**
    A resume is accepted exactly when it may restart, the run failed or was cancelled, the resume count is the expected
    one, a job of the attempt failed on a canonical input, none is active, and the request plans what is left.
    Everything else that is checked holds in every reachable state.
   */
  lemma ResumedExactly(run: seq<Event>, m: nat)
    requires m < |run| && run[m].OnLaunch? && run[m].launch.Restart? && run[m].launch.arg.fromFailed
    ensures var db, arg, c := At(run, m).db, run[m].launch.arg, run[m].launch.chain;
            RestartsRun(run, m, arg.run) <==> MayRestart(db, arg) && MayResume(db, arg, c)
  {
    hide InvWith, Waiting, CanRestart, MayRestart, MayResume, CanResume;
    var db, arg := At(run, m).db, run[m].launch.arg;
    var ch := ReachableWith(run, m);
    AlwaysWaiting(run, m);
    MayIsCan(db, ch, arg);
    if CanRestart(db, arg) { MayIsCanResume(db, ch, arg, run[m].launch.chain); }
  }

  // ---------------------------------------------------------------- what follows

  lemma NewRows(jobs: Jobs, jobs': Jobs, r: RunId, attempt: nat, sha0: string, plans: seq<JobPlan>, ids: seq<JobId>)
    requires ChainReplaced(jobs, jobs', r, attempt, sha0, plans, ids)
    requires forall i, k :: 0 <= i < k < |ids| ==> ids[i] != ids[k]
    ensures IsChain(jobs', Key(r, attempt), ids) && FrontAt(jobs', ids, 0) && jobs'[ids[0]].shaIn == sha0
    ensures forall i :: 0 <= i < |ids| ==> jobs'[ids[i]].node == None
  {
    forall i | 0 <= i < |ids|
      ensures LinkAt(jobs', ids, i) && jobs'[ids[i]].run == r && jobs'[ids[i]].attempt == attempt
      ensures jobs'[ids[i]].node == None
    {
      assert RowOf(jobs'[ids[i]], r, attempt, sha0, plans, ids, i);
    }
  }

  /** Only the new chain belongs to the new attempt. */
  lemma NewAttemptOnly(db: Db, ch: Chains, jobs': Jobs, r: RunId, sha0: string, plans: seq<JobPlan>, ids: seq<JobId>)
    requires InvWith(db, ch) && r in db.runs
    requires ChainReplaced(db.jobs, jobs', r, db.runs[r].attempt + 1, sha0, plans, ids)
    ensures forall j :: j in jobs' && jobs'[j].run == r && jobs'[j].attempt == db.runs[r].attempt + 1 ==> j in ids
  {
    hide Chained, Shaped, Complete, Seeded, Short, Fed, OneOwner, Owned, Waved, OneRunPerRepo, RowOf;
  }

  lemma NewFront(db: Db, ch: Chains, db': Db, r: RunId, resumes: nat, plans: seq<JobPlan>, ids: seq<JobId>, n: NodeId)
    requires InvWith(db, ch) && r in db.runs && GoesOn(db, db', r, db.runs[r].attempt + 1, resumes) && Able(db', n)
    requires ChainReplaced(db.jobs, db'.jobs, r, db.runs[r].attempt + 1, db.runs[r].sha0, plans, ids)
    requires |ids| == 1 || CanonicalSha(db.runs[r].sha0)
    requires forall i, k :: 0 <= i < k < |ids| ==> ids[i] != ids[k]
    ensures OnFront(db', r, n, ids, 0)
  {
    hide InvWith, CanonicalSha, ChainReplaced, IsChain;
    NewRows(db.jobs, db'.jobs, r, db.runs[r].attempt + 1, db.runs[r].sha0, plans, ids);
    NewAttemptOnly(db, ch, db'.jobs, r, db.runs[r].sha0, plans, ids);
  }

  /** A run that was restarted from the start can succeed, on any able node. */
  lemma RestartedRunFinishes(run: seq<Event>, m: nat, r: RunId, n: NodeId) returns (later: seq<Event>)
    requires m < |run| == m + 1 && RestartsRun(run, m, r) && !run[m].launch.arg.fromFailed
    requires Able(At(run, m + 1).db, n)
    requires |run[m].launch.arg.jobs| == 1 || CanonicalSha(At(run, m).db.runs[r].sha0)
    ensures forall e :: e in later ==> Worker(e, n)
    ensures AllSucceeded(Then(run, later).db, r)
  {
    hide InvWith, At, ChainReplaced, Able, CanonicalSha, RepoBusy, OnFront, GoesOn, Claimable, AllSucceeded, Worker;
    var arg, ids := run[m].launch.arg, run[m].launch.newIds;
    var ch := ReachableWith(run, m);
    FullRestartStarts(run, m, r);
    NewFront(At(run, m).db, ch, At(run, m + 1).db, r, arg.resumes, arg.jobs, ids, n);
    later := NeverStuck(run, r, n, ids, 0);
  }

  lemma ResumedFront(db: Db, ch: Chains, db': Db, r: RunId, c: seq<JobId>, f: nat, n: NodeId)
    requires InvWith(db, ch) && r in db.runs && GoesOn(db, db', r, db.runs[r].attempt, db.runs[r].resumes + 1)
    requires CurrentChain(db, r, c) && ChainGoesOn(db.jobs, db'.jobs, c, f) && Able(db', n)
    requires db.jobs[c[f]].node == Some(n) && CanonicalSha(db.jobs[c[f]].shaIn)
    ensures OnFront(db', r, n, c, f)
  {
    hide Chained, Shaped, Complete, Seeded, Short, Fed, Owned, OneRunPerRepo, Placed, OldSettled, Waved, CanonicalSha;
    forall j | j in db.jobs ensures db'.jobs[j].node == db.jobs[j].node && db'.jobs[j].next == db.jobs[j].next
                                    && SameAttempt(db'.jobs[j], db.jobs[j]) {
      SameNodes(db.jobs, db'.jobs, c, f, j);
    }
    StillChain(db.jobs, db'.jobs, Key(r, db.runs[r].attempt), c);
    forall o | o in db.jobs && db.jobs[o].run == r && db.jobs[o].attempt == db.runs[r].attempt
      ensures db.jobs[o].node == None || db.jobs[o].node == Some(n)
    {
      assert SameAttempt(db.jobs[o], db.jobs[c[f]]);
    }
    forall i | 0 <= i < f ensures db'.jobs[c[i]] == db.jobs[c[i]] {
      forall k | f <= k < |c| ensures c[k] != c[i] { }
      assert c[i] !in c[f..];
    }
  }

  /** A run that was resumed from its failed job can succeed, on the node that had the job. */
  lemma ResumedRunFinishes(run: seq<Event>, m: nat, r: RunId) returns (n: NodeId, later: seq<Event>)
    requires m < |run| == m + 1 && RestartsRun(run, m, r) && run[m].launch.arg.fromFailed
    ensures var db, c := At(run, m).db, run[m].launch.chain;
            exists i :: 0 <= i < |c| && c[i] in db.jobs && Failed(db.jobs[c[i]]) && db.jobs[c[i]].node == Some(n)
    ensures forall e :: e in later ==> Worker(e, n)
    ensures Able(At(run, m + 1).db, n) ==> AllSucceeded(Then(run, later).db, r)
  {
    hide InvWith, ChainGoesOn, Able, CanonicalSha, RepoBusy, OnFront, GoesOn, Claimable, CanResume, ResumeTx;
    var arg, c, db := run[m].launch.arg, run[m].launch.chain, At(run, m).db;
    var ch := ReachableWith(run, m);
    var f := ResumeContinues(run, m, r);
    n := db.jobs[c[f]].node.value;
    CanonicalFront(db, arg, c, f);
    FailedFront(db.jobs, At(run, m + 1).db.jobs, c, f);
    later := [];
    if Able(At(run, m + 1).db, n) {
      ResumedFront(db, ch, At(run, m + 1).db, r, c, f, n);
      later := NeverStuck(run, r, n, c, f);
    }
  }

  lemma FailedFront(jobs: Jobs, jobs': Jobs, c: seq<JobId>, f: nat)
    requires ChainGoesOn(jobs, jobs', c, f)
    ensures Failed(jobs[c[f]])
  {
  }
}
