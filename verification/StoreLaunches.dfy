/** What creating a wave, restarting a run and cancelling do to every row, over every run of events. */
module StoreLaunches {
  import opened Wrappers
  import opened StoreModel
  import opened StoreInvariant
  import opened StoreSteps
  import opened StoreInsert
  import opened StoreRestart
  import opened StoreRuns
  import opened StoreEvolution
  import opened StoreTheorems
  import opened StoreCancel
  import opened StoreWaiting
  import opened StoreEffects

  // ---------------------------------------------------------------- new chains

  /** Row `i` of a new chain: plan `i`, linked to row `i + 1`; the first row is queued with the run's commit. */
  predicate RowOf(job: Job, r: RunId, attempt: nat, sha0: string, plans: seq<JobPlan>, ids: seq<JobId>, i: nat)
    requires i < |plans| == |ids|
  {
    && job.run == r && job.attempt == attempt && JobPlan(job.name, job.kind) == plans[i]
    && job.next == (if i == |ids| - 1 then None else Some(ids[i + 1]))
    && job.status == (if i == 0 then Queued else Created) && job.node == None && !job.started
    && job.shaIn == (if i == 0 then sha0 else "") && job.shaOut == "" && job.shaOut8 == ""
    && job.shaIn8 == Sha8(job.shaIn)
  }

  /** `jobs'` is `jobs` with one new chain. */
  ghost predicate ChainAdded(jobs: Jobs, jobs': Jobs, r: RunId, attempt: nat, sha0: string, plans: seq<JobPlan>,
                             ids: seq<JobId>)
  {
    && 0 < |plans| == |ids| && (forall i :: 0 <= i < |ids| ==> ids[i] !in jobs)
    && (forall i, k :: 0 <= i < k < |ids| ==> ids[i] != ids[k])
    && (forall j :: j in jobs' <==> j in jobs || j in ids)
    && (forall j :: j in jobs ==> j in jobs' && jobs'[j] == jobs[j])
    && (forall i :: 0 <= i < |ids| ==> ids[i] in jobs' && RowOf(jobs'[ids[i]], r, attempt, sha0, plans, ids, i))
  }

  lemma InsertAdds(jobs: Jobs, r: RunId, run: Run, plans: seq<JobPlan>, ids: seq<JobId>)
    requires CanPlan(jobs, plans, ids)
    ensures ChainAdded(jobs, InsertFrom(jobs, r, run, plans, ids, 0), r, run.attempt, run.sha0, plans, ids)
  {
    InsertPlans(jobs, r, run, plans, ids);
    var jobs' := InsertFrom(jobs, r, run, plans, ids, 0);
    forall i | 0 <= i < |ids| ensures ids[i] in jobs' && RowOf(jobs'[ids[i]], r, run.attempt, run.sha0, plans, ids, i) {
      assert jobs'[ids[i]] == PlannedJob(r, run, plans, ids, i);
    }
  }

  // ---------------------------------------------------------------- creating a wave

  /** The plan can be added: a new run, a free repository, a chain of new jobs. */
  predicate Fits(db: Db, plan: RunPlan, ids: seq<JobId>) {
    && plan.id !in db.runs && 0 < |plan.jobs| == |ids|
    && (forall r :: r in db.runs && db.runs[r].repo == plan.repo ==> !ActiveRun(db.runs[r].status))
    && (forall i :: 0 <= i < |ids| ==> ids[i] !in db.jobs)
    && (forall i, k :: 0 <= i < k < |ids| ==> ids[i] != ids[k])
  }

  /** The plans can be added together: no two of them share a run, a repository or a job. */
  predicate AllFit(db: Db, plans: seq<RunPlan>, ids: seq<seq<JobId>>)
    requires |plans| == |ids|
  {
    && (forall k :: 0 <= k < |plans| ==> Fits(db, plans[k], ids[k]))
    && (forall k, m :: 0 <= k < m < |plans| ==> plans[k].id != plans[m].id && plans[k].repo != plans[m].repo)
    && (forall k, m :: 0 <= k < m < |plans| ==> Disjoint(ids[k], ids[m]))
  }

  predicate Disjoint(a: seq<JobId>, b: seq<JobId>) {
    forall j :: j in a ==> j !in b
  }

  lemma FitsIsCan(db: Db, plan: RunPlan, ids: seq<JobId>)
    ensures Fits(db, plan, ids) <==> CanInsertRun(db, plan, ids)
  {
  }

  /** The rows of one plan. */
  ghost predicate Added(db: Db, db': Db, w: WaveId, plan: RunPlan, ids: seq<JobId>) {
    && db'.waves == db.waves && db'.nodes == db.nodes
    && db'.runs == db.runs[plan.id := Run(w, plan.repo, plan.sha0, RunRunning, 1, plan.resumes)]
    && ChainAdded(db.jobs, db'.jobs, plan.id, 1, plan.sha0, plan.jobs, ids)
  }

  lemma InsertRunAdds(db: Db, w: WaveId, plan: RunPlan, ids: seq<JobId>)
    requires CanInsertRun(db, plan, ids)
    ensures Added(db, InsertRun(db, w, plan, ids), w, plan, ids)
  {
    InsertAdds(db.jobs, plan.id, InsertRun(db, w, plan, ids).runs[plan.id], plan.jobs, ids);
  }

  /** After one plan was added the others fit exactly when all fitted together. */
  lemma OthersFit(db: Db, db': Db, w: WaveId, plans: seq<RunPlan>, ids: seq<seq<JobId>>)
    requires |plans| == |ids| && plans != [] && Added(db, db', w, plans[0], ids[0]) && Fits(db, plans[0], ids[0])
    ensures AllFit(db', plans[1..], ids[1..]) <==> AllFit(db, plans, ids)
  {
    forall k | 1 <= k < |plans|
      ensures Fits(db', plans[k], ids[k]) <==>
        && Fits(db, plans[k], ids[k]) && plans[0].id != plans[k].id && plans[0].repo != plans[k].repo
        && Disjoint(ids[0], ids[k])
    {
      OtherFits(db, db', w, plans[0], ids[0], plans[k], ids[k]);
    }
    if AllFit(db', plans[1..], ids[1..]) {
      forall k | 1 <= k < |plans| ensures Fits(db', plans[k], ids[k]) {
        assert Fits(db', plans[1..][k - 1], ids[1..][k - 1]);
      }
      forall k, m | 1 <= k < m < |plans|
        ensures plans[k].id != plans[m].id && plans[k].repo != plans[m].repo && Disjoint(ids[k], ids[m])
      {
        assert plans[1..][k - 1] == plans[k] && plans[1..][m - 1] == plans[m];
        assert Disjoint(ids[1..][k - 1], ids[1..][m - 1]);
      }
    }
  }

  lemma OtherFits(db: Db, db': Db, w: WaveId, a: RunPlan, ia: seq<JobId>, b: RunPlan, ib: seq<JobId>)
    requires Added(db, db', w, a, ia) && Fits(db, a, ia)
    ensures Fits(db', b, ib) <==> Fits(db, b, ib) && a.id != b.id && a.repo != b.repo && Disjoint(ia, ib)
  {
    if Fits(db', b, ib) {
      forall r | r in db.runs && db.runs[r].repo == b.repo ensures !ActiveRun(db.runs[r].status) {
        assert db'.runs[r] == db.runs[r];
      }
      assert db'.runs[a.id].repo == a.repo && ActiveRun(db'.runs[a.id].status);
      forall j | j in ia ensures j !in ib { assert j in db'.jobs; }
    }
  }

  /** Run `k` of the wave and its chain. */
  predicate RunAdded(db': Db, w: WaveId, plan: RunPlan, ids: seq<JobId>) {
    && 0 < |plan.jobs| == |ids|
    && plan.id in db'.runs && db'.runs[plan.id] == Run(w, plan.repo, plan.sha0, RunRunning, 1, plan.resumes)
    && forall i :: 0 <= i < |ids| ==>
         ids[i] in db'.jobs && RowOf(db'.jobs[ids[i]], plan.id, 1, plan.sha0, plan.jobs, ids, i)
  }

  /** The rows of all plans, and nothing else. */
  ghost predicate AllAdded(db: Db, db': Db, w: WaveId, plans: seq<RunPlan>, ids: seq<seq<JobId>>)
    requires |plans| == |ids|
  {
    && db'.waves == db.waves && db'.nodes == db.nodes
    && (forall k :: 0 <= k < |plans| ==> RunAdded(db', w, plans[k], ids[k]))
    && (forall r :: r in db.runs ==> r in db'.runs && db'.runs[r] == db.runs[r])
    && (forall r :: r in db'.runs ==> r in db.runs || exists k :: 0 <= k < |plans| && plans[k].id == r)
    && (forall j :: j in db.jobs ==> j in db'.jobs && db'.jobs[j] == db.jobs[j])
    && (forall j :: j in db'.jobs ==> j in db.jobs || exists k :: 0 <= k < |ids| && j in ids[k])
  }

  lemma AddedThenAll(db: Db, db1: Db, db': Db, w: WaveId, plans: seq<RunPlan>, ids: seq<seq<JobId>>)
    requires |plans| == |ids| && plans != [] && 0 < |plans[0].jobs| == |ids[0]| && plans[0].id !in db.runs
    requires Added(db, db1, w, plans[0], ids[0]) && AllAdded(db1, db', w, plans[1..], ids[1..])
    ensures AllAdded(db, db', w, plans, ids)
  {
    forall k | 0 <= k < |plans| ensures RunAdded(db', w, plans[k], ids[k]) {
      if k > 0 {
        assert RunAdded(db', w, plans[1..][k - 1], ids[1..][k - 1]);
      } else {
        StaysAdded(db, db1, db', w, plans[0], ids[0]);
      }
    }
    forall r | r in db'.runs && r !in db.runs ensures exists k :: 0 <= k < |plans| && plans[k].id == r {
      if r in db1.runs {
        assert plans[0].id == r;
      } else {
        var k :| 0 <= k < |plans[1..]| && plans[1..][k].id == r;
        assert plans[k + 1].id == r;
      }
    }
    forall j | j in db'.jobs && j !in db.jobs ensures exists k :: 0 <= k < |ids| && j in ids[k] {
      if j in db1.jobs {
        assert j in ids[0];
      } else {
        var k :| 0 <= k < |ids[1..]| && j in ids[1..][k];
        assert j in ids[k + 1];
      }
    }
  }

  lemma StaysAdded(db: Db, db1: Db, db': Db, w: WaveId, plan: RunPlan, ids: seq<JobId>)
    requires 0 < |plan.jobs| == |ids| && Added(db, db1, w, plan, ids)
    requires forall r :: r in db1.runs ==> r in db'.runs && db'.runs[r] == db1.runs[r]
    requires forall j :: j in db1.jobs ==> j in db'.jobs && db'.jobs[j] == db1.jobs[j]
    ensures RunAdded(db', w, plan, ids)
  {
    forall i | 0 <= i < |ids|
      ensures ids[i] in db'.jobs && RowOf(db'.jobs[ids[i]], plan.id, 1, plan.sha0, plan.jobs, ids, i)
    {
      assert ids[i] in db1.jobs && db'.jobs[ids[i]] == db1.jobs[ids[i]];
    }
  }

  lemma {:induction false} InsertRunsExactly(db: Db, w: WaveId, plans: seq<RunPlan>, ids: seq<seq<JobId>>)
    requires |plans| == |ids|
    ensures InsertRuns(db, w, plans, ids).Some? <==> AllFit(db, plans, ids)
    ensures InsertRuns(db, w, plans, ids).Some? ==> AllAdded(db, InsertRuns(db, w, plans, ids).value, w, plans, ids)
    decreases plans
  {
    hide AllAdded, Added, InsertRun, FreshIds, RepoBusy;
    if plans == [] {
      NothingAdded(db, w);
    } else {
      FitsIsCan(db, plans[0], ids[0]);
      if Fits(db, plans[0], ids[0]) {
        var db1 := InsertRun(db, w, plans[0], ids[0]);
        InsertRunAdds(db, w, plans[0], ids[0]);
        InsertRunsExactly(db1, w, plans[1..], ids[1..]);
        OthersFit(db, db1, w, plans, ids);
        if InsertRuns(db, w, plans, ids).Some? {
          AddedThenAll(db, db1, InsertRuns(db, w, plans, ids).value, w, plans, ids);
        }
      }
    }
  }

  lemma NothingAdded(db: Db, w: WaveId)
    ensures AllAdded(db, db, w, [], [])
  {
  }

  /**
    A wave is created exactly when it is new, has runs, and its plans fit together. Then it is started, each of its
    runs is running with its planned chain, and no other row changes; otherwise no row does.
   */
  lemma CreateStarts(run: seq<Event>, i: nat, w: WaveId, plans: seq<RunPlan>, ids: seq<seq<JobId>>)
    requires i < |run| && run[i] == OnLaunch(CreateWave(w, plans, ids))
    ensures var db, db' := At(run, i).db, At(run, i + 1).db;
            if w !in db.waves && 0 < |plans| == |ids| && AllFit(db, plans, ids)
            then AllAdded(db.(waves := db.waves[w := Wave(WaveStarted)]), db', w, plans, ids)
            else db' == db
  {
    hide AllAdded, AllFit, InsertRuns;
    var db := At(run, i).db;
    if |plans| == |ids| {
      var started := db.(waves := db.waves[w := Wave(WaveStarted)]);
      InsertRunsExactly(started, w, plans, ids);
      SameFit(db, started, plans, ids);
    }
  }

  lemma SameFit(db: Db, started: Db, plans: seq<RunPlan>, ids: seq<seq<JobId>>)
    requires |plans| == |ids| && started.runs == db.runs && started.jobs == db.jobs
    ensures AllFit(started, plans, ids) <==> AllFit(db, plans, ids)
  {
  }

  // ---------------------------------------------------------------- restarting a run

  /** Run `r` and its wave go on; every other run, wave and node is as it was. */
  predicate GoesOn(db: Db, db': Db, r: RunId, attempt: nat, resumes: nat) {
    && r in db.runs && db.runs[r].wave in db.waves && db'.nodes == db.nodes
    && db'.runs == db.runs[r := db.runs[r].(status := RunRunning, attempt := attempt, resumes := resumes)]
    && db'.waves == db.waves[db.runs[r].wave := Wave(WaveStarted)]
  }

  /** The active jobs of the run were cancelled. */
  predicate ActiveCancelled(jobs: Jobs, jobs': Jobs, r: RunId) {
    forall j :: j in jobs ==>
      j in jobs' && jobs'[j] == if jobs[j].run == r && ActiveJob(jobs[j].status) then jobs[j].(status := Cancelled)
                                else jobs[j]
  }

  /** The attempt's jobs are `ids` alone, and nobody has them. */
  lemma NewHeadClaimable(db: Db, r: RunId, plans: seq<JobPlan>, ids: seq<JobId>, n: NodeId)
    requires r in db.runs && db.runs[r].status == RunRunning && 0 < |plans| == |ids| && Able(db, n)
    requires db.runs[r].wave in db.waves && db.waves[db.runs[r].wave] == Wave(WaveStarted)
    requires forall i :: 0 <= i < |ids| ==>
      ids[i] in db.jobs && RowOf(db.jobs[ids[i]], r, db.runs[r].attempt, db.runs[r].sha0, plans, ids, i)
    requires forall j :: j in db.jobs && db.jobs[j].run == r && db.jobs[j].attempt == db.runs[r].attempt ==> j in ids
    ensures Claimable(db, n, ids[0])
  {
    forall o | o in db.jobs && db.jobs[o].run == r && db.jobs[o].attempt == db.runs[r].attempt
      ensures db.jobs[o].node == None
    {
      var i :| 0 <= i < |ids| && ids[i] == o;
      assert RowOf(db.jobs[ids[i]], r, db.runs[r].attempt, db.runs[r].sha0, plans, ids, i);
    }
  }

  /** The active jobs of the run were cancelled, and the planned chain was added. */
  ghost predicate ChainReplaced(jobs: Jobs, jobs': Jobs, r: RunId, attempt: nat, sha0: string, plans: seq<JobPlan>,
                                ids: seq<JobId>)
  {
    && 0 < |plans| == |ids| && ActiveCancelled(jobs, jobs', r)
    && (forall i :: 0 <= i < |ids| ==>
          ids[i] !in jobs && ids[i] in jobs' && RowOf(jobs'[ids[i]], r, attempt, sha0, plans, ids, i))
    && (forall j :: j in jobs' && j !in jobs ==> j in ids)
  }

  lemma FullRestartRows(db: Db, ch: Chains, arg: RestartArgs, ids: seq<JobId>)
    requires InvWith(db, ch) && CanRestart(db, arg) && CanPlan(db.jobs, arg.jobs, ids)
    ensures var run := db.runs[arg.run];
            ChainReplaced(db.jobs, FullRestartTx(db, arg, ids).jobs, arg.run, run.attempt + 1, run.sha0, arg.jobs, ids)
  {
    hide Chained, Shaped, Complete, Seeded, Short, Fed, OneOwner, Owned, Waved, OneRunPerRepo;
    var run := db.runs[arg.run];
    var ended := CancelJobs(db.jobs, JobsOfAttempt(db.jobs, arg.run, run.attempt));
    InsertAdds(ended, arg.run, NextAttempt(run, arg.resumes), arg.jobs, ids);
  }

  lemma NewHeads(db: Db, ch: Chains, db': Db, r: RunId, resumes: nat, plans: seq<JobPlan>, ids: seq<JobId>)
    requires InvWith(db, ch) && r in db.runs && GoesOn(db, db', r, db.runs[r].attempt + 1, resumes)
    requires ChainReplaced(db.jobs, db'.jobs, r, db.runs[r].attempt + 1, db.runs[r].sha0, plans, ids)
    ensures forall n :: Able(db', n) ==> Claimable(db', n, ids[0])
  {
    hide Chained, Shaped, Complete, Seeded, Short, Fed, OneOwner, Owned, Waved, OneRunPerRepo, RowOf;
    forall n | Able(db', n) ensures Claimable(db', n, ids[0]) {
      NewHeadClaimable(db', r, plans, ids, n);
    }
  }

  /**
    A full restart cancels what was active in the run, adds the planned chain under the next attempt and changes no
    other job. Run and wave go on, and every able node can claim the head of the new chain.
   */
  lemma FullRestartStarts(run: seq<Event>, m: nat, r: RunId)
    requires m < |run| && RestartsRun(run, m, r) && !run[m].launch.arg.fromFailed
    ensures var db, db', arg, ids := At(run, m).db, At(run, m + 1).db, run[m].launch.arg, run[m].launch.newIds;
            && GoesOn(db, db', r, db.runs[r].attempt + 1, arg.resumes)
            && ChainReplaced(db.jobs, db'.jobs, r, db.runs[r].attempt + 1, db.runs[r].sha0, arg.jobs, ids)
            && (forall n :: Able(db', n) ==> Claimable(db', n, ids[0]))
  {
    hide InvWith, ChainReplaced, InsertFrom, CancelJobs, FreshIds, RepoBusy, Able, Claimable;
    var db, arg, ids := At(run, m).db, run[m].launch.arg, run[m].launch.newIds;
    var ch := ReachableWith(run, m);
    FullRestartRows(db, ch, arg, ids);
    NewHeads(db, ch, At(run, m + 1).db, r, arg.resumes, arg.jobs, ids);
    NotEmpty(db.jobs, At(run, m + 1).db.jobs, r, db.runs[r].attempt + 1, db.runs[r].sha0, arg.jobs, ids);
  }

  lemma NotEmpty(jobs: Jobs, jobs': Jobs, r: RunId, attempt: nat, sha0: string, plans: seq<JobPlan>, ids: seq<JobId>)
    requires ChainReplaced(jobs, jobs', r, attempt, sha0, plans, ids)
    ensures 0 < |plans| == |ids|
  {
  }

  /** The failed job is queued again with its input and its node. */
  predicate QueuedAgain(before: Job, after: Job) {
    && (before.status == Fail || before.status == Error)
    && after == before.(status := Queued, started := false, shaOut := "", shaOut8 := "")
  }

  /** A job behind it is as a job of a new chain. */
  predicate CreatedAgain(before: Job, after: Job) {
    && before.status == Cancelled
    && after == before.(status := Created, started := false, shaIn := "", shaIn8 := "", shaOut := "", shaOut8 := "")
    && after.node == None
  }

  /** The attempt's chain `c` goes on at position `f`; no other job changes. */
  predicate ChainGoesOn(jobs: Jobs, jobs': Jobs, c: seq<JobId>, f: nat) {
    && f < |c| && jobs'.Keys == jobs.Keys && (forall i :: 0 <= i < |c| ==> c[i] in jobs)
    && (forall i :: 0 <= i < f ==> jobs[c[i]].status == Success)
    && QueuedAgain(jobs[c[f]], jobs'[c[f]])
    && (forall i :: f < i < |c| ==> CreatedAgain(jobs[c[i]], jobs'[c[i]]))
    && (forall j :: j in jobs && j !in c[f..] ==> jobs'[j] == jobs[j])
  }

  lemma ResumedGoesOn(jobs: Jobs, jobs': Jobs, c: seq<JobId>, f: nat)
    requires f < |c| && (forall i :: 0 <= i < |c| ==> c[i] in jobs) && Resumed(jobs, jobs', c, f)
    requires Retryable(jobs[c[f]])
    requires forall i :: 0 <= i < f ==> jobs[c[i]].status.Success?
    requires forall i :: f < i < |c| ==> NeverRan(jobs[c[i]])
    ensures ChainGoesOn(jobs, jobs', c, f)
  {
    forall j | j in jobs && j !in c[f..] ensures jobs'[j] == jobs[j] {
      forall i | f <= i < |c| ensures c[i] != j { assert c[f..][i - f] == c[i]; }
    }
  }

  /**
    A resume queues the first job that did not succeed, with its input and its node, and resets the jobs behind it.
    No other job changes. Run and wave go on, and the node can claim the job again if it is able.
   */
  lemma ResumeContinues(run: seq<Event>, m: nat, r: RunId) returns (f: nat)
    requires m < |run| && RestartsRun(run, m, r) && run[m].launch.arg.fromFailed
    ensures var db, db', c := At(run, m).db, At(run, m + 1).db, run[m].launch.chain;
            && GoesOn(db, db', r, db.runs[r].attempt, db.runs[r].resumes + 1)
            && IsChain(db.jobs, Key(r, db.runs[r].attempt), c)
            && (forall j :: j in db.jobs && db.jobs[j].run == r && db.jobs[j].attempt == db.runs[r].attempt ==> j in c)
            && f < |c| && ChainGoesOn(db.jobs, db'.jobs, c, f)
            && db.jobs[c[f]].node.Some?
            && (Able(db', db.jobs[c[f]].node.value) ==> Claimable(db', db.jobs[c[f]].node.value, c[f]))
  {
    hide InvWith, GoesOn, ResumeTx, CanResume, ChainGoesOn, Claimable, Able, RepoBusy;
    var ch := ReachableWith(run, m);
    f := ResumeGoesOn(At(run, m).db, ch, run[m].launch.arg, run[m].launch.chain);
  }

  lemma ResumeGoesOn(db: Db, ch: Chains, arg: RestartArgs, c: seq<JobId>) returns (f: nat)
    requires InvWith(db, ch) && CanRestart(db, arg) && CanResume(db, arg, c)
    ensures var db', attempt := ResumeTx(db, arg, c), db.runs[arg.run].attempt;
            && GoesOn(db, db', arg.run, attempt, db.runs[arg.run].resumes + 1)
            && IsChain(db.jobs, Key(arg.run, attempt), c)
            && (forall j :: j in db.jobs && db.jobs[j].run == arg.run && db.jobs[j].attempt == attempt ==> j in c)
            && f < |c| && ChainGoesOn(db.jobs, db'.jobs, c, f)
            && db.jobs[c[f]].node.Some?
            && (Able(db', db.jobs[c[f]].node.value) ==> Claimable(db', db.jobs[c[f]].node.value, c[f]))
  {
    hide InvWith, CompleteChain, ResumableAt, PlanFor, ResumeRows, Resumed, ChainGoesOn, Claimable, RepoBusy;
    var db' := ResumeTx(db, arg, c);
    ResumeAccepted(db, arg, c);
    f := FirstUnfinished(db.jobs, c);
    TheChain(db, ch, arg.run, db.runs[arg.run].attempt, c, f);
    ResumedGoesOn(db.jobs, db'.jobs, c, f);
    if Able(db', db.jobs[c[f]].node.value) {
      OwnerClaims(db, ch, db', arg.run, c, f, db.jobs[c[f]].node.value);
    }
  }

  lemma TheChain(db: Db, ch: Chains, r: RunId, attempt: nat, c: seq<JobId>, f: nat)
    requires InvWith(db, ch) && CompleteChain(db.jobs, r, attempt, c) && f <= |c|
    ensures IsChain(db.jobs, Key(r, attempt), c) && Resumed(db.jobs, ResumeRows(db.jobs, c, f, |c|), c, f)
    ensures forall j :: j in db.jobs && db.jobs[j].run == r && db.jobs[j].attempt == attempt ==> j in c
  {
    hide Resumed, ResumeRows;
    ResumeRowsResumed(db.jobs, ch, r, attempt, c, f);
  }

  lemma OwnerClaims(db: Db, ch: Chains, db': Db, r: RunId, c: seq<JobId>, f: nat, n: NodeId)
    requires InvWith(db, ch) && r in db.runs && GoesOn(db, db', r, db.runs[r].attempt, db.runs[r].resumes + 1)
    requires ChainGoesOn(db.jobs, db'.jobs, c, f) && IsChain(db.jobs, Key(r, db.runs[r].attempt), c)
    requires db.jobs[c[f]].node == Some(n) && Able(db', n)
    ensures Claimable(db', n, c[f])
  {
    hide Chained, Shaped, Complete, Seeded, Short, Fed, Owned, OneRunPerRepo, Placed, OldSettled, Waved;
    forall o | o in db'.jobs && SameAttempt(db'.jobs[o], db'.jobs[c[f]]) && db'.jobs[o].node.Some?
      ensures db'.jobs[o].node.value == n
    {
      SameNodes(db.jobs, db'.jobs, c, f, o);
      assert SameAttempt(db.jobs[o], db.jobs[c[f]]);
    }
  }

  lemma SameNodes(jobs: Jobs, jobs': Jobs, c: seq<JobId>, f: nat, o: JobId)
    requires ChainGoesOn(jobs, jobs', c, f) && o in jobs
    ensures jobs'[o].node == jobs[o].node && SameAttempt(jobs'[o], jobs[o])
  {
    if o in c[f..] {
      var i :| f <= i < |c| && c[i] == o;
    }
  }

  /** A restart that is not accepted changes nothing. */
  lemma RefusedRestart(run: seq<Event>, m: nat)
    requires m < |run| && run[m].OnLaunch? && run[m].launch.Restart? && !RestartsRun(run, m, run[m].launch.arg.run)
    ensures At(run, m + 1) == At(run, m)
  {
  }

  // ---------------------------------------------------------------- cancelling

  /** The run is cancelled if it was active. */
  predicate RunStopped(before: Run, after: Run) {
    after == if before.status in {RunQueued, RunRunning} then before.(status := RunCancelled) else before
  }

  /** CancelRun cancels the run and its active jobs, and nothing else; an unknown run changes nothing. */
  lemma CancelRunStops(run: seq<Event>, i: nat, r: RunId)
    requires i < |run| && run[i] == OnStop(CancelRun(r))
    ensures var db, db' := At(run, i).db, At(run, i + 1).db;
            && db'.waves == db.waves && db'.nodes == db.nodes
            && db'.runs.Keys == db.runs.Keys && db'.jobs.Keys == db.jobs.Keys
            && (forall q :: q in db.runs ==>
                  if q == r then RunStopped(db.runs[q], db'.runs[q]) else db'.runs[q] == db.runs[q])
            && (r in db.runs ==> ActiveCancelled(db.jobs, db'.jobs, r))
            && (r !in db.runs ==> db'.jobs == db.jobs)
  {
  }

  /** CancelWave cancels a started wave, its active runs and their active jobs, and nothing else. */
  lemma CancelWaveStops(run: seq<Event>, i: nat, w: WaveId)
    requires i < |run| && run[i] == OnStop(CancelWave(w)) && w in At(run, i).db.waves
    ensures var db, db' := At(run, i).db, At(run, i + 1).db;
            && db'.nodes == db.nodes && db'.waves.Keys == db.waves.Keys
            && db'.runs.Keys == db.runs.Keys && db'.jobs.Keys == db.jobs.Keys
            && (forall v :: v in db.waves ==>
                  db'.waves[v].status == if v == w && db.waves[v].status == WaveStarted then WaveCancelled
                                         else db.waves[v].status)
            && (forall q :: q in db.runs ==>
                  if db.runs[q].wave == w then RunStopped(db.runs[q], db'.runs[q]) else db'.runs[q] == db.runs[q])
            && (forall j :: j in db.jobs && db.jobs[j].run in db.runs ==>
                  db'.jobs[j] == if db.runs[db.jobs[j].run].wave == w && ActiveJob(db.jobs[j].status)
                                 then db.jobs[j].(status := Cancelled) else db.jobs[j])
  {
  }

  /** Recovery cancels the active jobs of the attempt, and nothing else. */
  lemma RecoveryStops(run: seq<Event>, i: nat, r: RunId, attempt: nat)
    requires i < |run| && run[i] == OnWork(CancelAttempt(r, attempt))
    ensures var db, db' := At(run, i).db, At(run, i + 1).db;
            && OnlyJobs(db, db') && db'.jobs.Keys == db.jobs.Keys
            && forall j :: j in db.jobs ==>
                 db'.jobs[j] == if db.jobs[j].run == r && db.jobs[j].attempt == attempt && ActiveJob(db.jobs[j].status)
                                then db.jobs[j].(status := Cancelled) else db.jobs[j]
  {
  }
}
