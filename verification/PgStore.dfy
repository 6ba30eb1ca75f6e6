/** The store as it is written: transactions that change rows step by step and commit or roll back. */
module PgStore {
  import opened Wrappers
  import opened StoreModel
  import ResumeSuffix

  datatype RestartResult =
    | Restarted
    | RunNotFound
    | RunStillActive
    | WaveNotFound
    | OwningWaveCancelled
    | RepoHasActiveRun
    | NotResumable
    | JobsRejected

  datatype CompletionResult =
    | Applied
    | JobNotFound
    | StaleExecution
    | NotAssigned
    | NotRunning
    | NotFinal
    | CommitMissing

  /** The order in which the claim query offers jobs. */
  predicate ClaimedBefore(jobs: Jobs, a: JobId, b: JobId)
    requires a in jobs && b in jobs
  {
    || jobs[a].run < jobs[b].run
    || (jobs[a].run == jobs[b].run && jobs[a].attempt < jobs[b].attempt)
    || (jobs[a].run == jobs[b].run && jobs[a].attempt == jobs[b].attempt && a <= b)
  }

  lemma CancelMore(jobs: Jobs, rs: set<RunId>, r: RunId)
    ensures var jobs' := CancelJobs(jobs, JobsOfRuns(jobs, rs));
            CancelJobs(jobs', JobsOfRun(jobs', r)) == CancelJobs(jobs, JobsOfRuns(jobs, rs + {r}))
  {
  }

  lemma ResumeNext(jobs: Jobs, chain: seq<JobId>, f: nat, i: nat)
    requires f <= i < |chain| && chain[i] in jobs
    requires forall k, m :: 0 <= k < m < |chain| ==> chain[k] != chain[m]
    ensures ResumeRows(jobs, chain, f, i)[chain[i]] == jobs[chain[i]]
    ensures ResumeRows(jobs, chain, f, i + 1) ==
      ResumeRows(jobs, chain, f, i)[chain[i] := ResumedJob(jobs[chain[i]], i == f)]
  {
    assert chain[i] !in chain[f..i];
    assert chain[f..i + 1] == chain[f..i] + [chain[i]];
  }

  class Store {
    var waves: map<WaveId, Wave>
    var runs: Runs
    var jobs: Jobs
    var nodes: map<NodeId, Node>

    function Rows(): Db
      reads this
    {
      Db(waves, runs, jobs, nodes)
    }

    constructor ()
      ensures Rows() == EMPTY_DB
    {
      waves, runs, jobs, nodes := map[], map[], map[], map[];
    }

    method Rollback(saved: Db)
      modifies this
      ensures Rows() == saved
    {
      waves, runs, jobs, nodes := saved.waves, saved.runs, saved.jobs, saved.nodes;
    }

    // -------------------------------------------------------------- claims

    /**
      Claims the first eligible job in (run, attempt, job) order whose row no other transaction has locked.
     */
    method ClaimJob(n: NodeId, locked: set<JobId>) returns (claimed: Option<JobId>)
      modifies this`jobs
      ensures claimed.Some? ==>
        && Claimable(old(Rows()), n, claimed.value) && claimed.value !in locked
        && Rows() == Claimed(old(Rows()), n, claimed.value)
        && forall j :: Claimable(old(Rows()), n, j) && j !in locked ==> ClaimedBefore(old(jobs), claimed.value, j)
      ensures claimed.None? ==> Rows() == old(Rows()) && forall j :: Claimable(old(Rows()), n, j) ==> j in locked
    {
      claimed := None;
      var rest := jobs.Keys;
      while rest != {}
        invariant rest <= jobs.Keys && jobs == old(jobs)
        invariant claimed.Some? ==> Claimable(Rows(), n, claimed.value) && claimed.value !in locked
        invariant forall j :: Claimable(Rows(), n, j) && j !in locked && j !in rest ==>
          claimed.Some? && ClaimedBefore(jobs, claimed.value, j)
        decreases |rest|
      {
        var j :| j in rest;
        rest := rest - {j};
        if j !in locked && Claimable(Rows(), n, j) && (claimed.None? || ClaimedBefore(jobs, j, claimed.value)) {
          claimed := Some(j);
        }
      }
      if claimed.Some? {
        var j := claimed.value;
        jobs := jobs[j := jobs[j].(status := Running, node := Some(n), started := true)];
      }
    }

    method UnclaimJob(n: NodeId, j: JobId)
      modifies this`jobs
      ensures Rows() == Unclaimed(old(Rows()), n, j)
    {
      if n in nodes && n != NO_NODE && j in jobs && jobs[j].node == Some(n) && jobs[j].status.Running? {
        var keep := jobs[j].run in runs && runs[jobs[j].run].resumes > 0;
        jobs := jobs[j := jobs[j].(status := Queued, node := if keep then jobs[j].node else None, started := false)];
      }
    }

    // -------------------------------------------------------------- creation

    /** Inserts a chain tail first, so that every next_id refers to a row that is already there. */
    method CreatePlannedJobs(r: RunId, run: Run, plans: seq<JobPlan>, ids: seq<JobId>) returns (ok: bool)
      requires |plans| == |ids|
      modifies this`jobs
      ensures ok == CanPlan(old(jobs), plans, ids)
      ensures ok ==> jobs == InsertFrom(old(jobs), r, run, plans, ids, 0)
    {
      if |plans| == 0 {
        return false;
      }
      var i := |plans|;
      while i > 0
        invariant 0 <= i <= |plans|
        invariant jobs == InsertFrom(old(jobs), r, run, plans, ids, i)
        invariant forall j :: j in jobs <==> j in old(jobs) || j in ids[i..]
        invariant forall k :: i <= k < |ids| ==> ids[k] !in old(jobs)
        invariant forall k, m :: i <= k < m < |ids| ==> ids[k] != ids[m]
      {
        i := i - 1;
        assert ids[i..] == [ids[i]] + ids[i + 1..];
        if ids[i] in jobs {
          assert !FreshIds(old(jobs), ids);
          return false;
        }
        assert i + 1 < |ids| ==> ids[i + 1] in jobs; // foreign key
        jobs := jobs[ids[i] := PlannedJob(r, run, plans, ids, i)];
      }
      return true;
    }

    /** Creates a wave with its runs and chains, all or nothing. */
    method CreateWaveWithRuns(w: WaveId, plans: seq<RunPlan>, ids: seq<seq<JobId>>) returns (ok: bool)
      requires |plans| == |ids| && forall k :: 0 <= k < |plans| ==> |plans[k].jobs| == |ids[k]|
      modifies this
      ensures Rows() == CreateWaveTx(old(Rows()), w, plans, ids)
      ensures ok <==> plans != [] && w !in old(waves)
                      && InsertRuns(old(Rows()).(waves := old(waves)[w := Wave(WaveStarted)]), w, plans, ids).Some?
    {
      if |plans| == 0 || w in waves {
        return false;
      }
      var saved := Rows();
      waves := waves[w := Wave(WaveStarted)];
      ghost var start := Rows();
      var k := 0;
      while k < |plans|
        invariant 0 <= k <= |plans|
        invariant InsertRuns(Rows(), w, plans[k..], ids[k..]) == InsertRuns(start, w, plans, ids)
      {
        var plan := plans[k];
        assert plans[k..][0] == plan && ids[k..][0] == ids[k];
        assert plans[k..][1..] == plans[k + 1..] && ids[k..][1..] == ids[k + 1..];
        if plan.id in runs || RepoBusy(runs, plan.repo) {
          Rollback(saved);
          return false;
        }
        var run := Run(w, plan.repo, plan.sha0, RunRunning, 1, plan.resumes);
        ghost var before := Rows();
        runs := runs[plan.id := run];
        var created := CreatePlannedJobs(plan.id, run, plan.jobs, ids[k]);
        if !created {
          Rollback(saved);
          return false;
        }
        assert Rows() == InsertRun(before, w, plan, ids[k]);
        k := k + 1;
      }
      return true;
    }

    // -------------------------------------------------------------- cancellation

    method CancelRun(r: RunId) returns (ok: bool)
      modifies this
      ensures Rows() == RunCancelTx(old(Rows()), r) && ok == (r in old(runs))
    {
      if r !in runs {
        return false;
      }
      runs := CancelRuns(runs, {r});
      jobs := CancelJobs(jobs, JobsOfRun(jobs, r));
      return true;
    }

    /** Cancels the active jobs of the given runs, one run after the other. */
    method CancelJobsOfRuns(rs: set<RunId>)
      modifies this`jobs
      ensures jobs == CancelJobs(old(jobs), JobsOfRuns(old(jobs), rs))
    {
      var rest := rs;
      while rest != {}
        invariant rest <= rs
        invariant jobs == CancelJobs(old(jobs), JobsOfRuns(old(jobs), rs - rest))
        decreases |rest|
      {
        var r :| r in rest;
        CancelMore(old(jobs), rs - rest, r);
        assert rs - rest + {r} == rs - (rest - {r});
        rest := rest - {r};
        jobs := CancelJobs(jobs, JobsOfRun(jobs, r));
      }
      assert rs - rest == rs;
    }

    /** Cancels the runs of a wave, then the jobs of each of them in turn. */
    method CancelWave(w: WaveId) returns (ok: bool)
      modifies this
      ensures Rows() == WaveCancelTx(old(Rows()), w) && ok == (w in old(waves))
    {
      if w !in waves {
        return false;
      }
      if !waves[w].status.WaveFinished? && !waves[w].status.WaveCancelled? {
        waves := waves[w := Wave(WaveCancelled)];
      }
      var rs := RunsOfWave(runs, w);
      runs := CancelRuns(runs, rs);
      CancelJobsOfRuns(rs);
      return true;
    }

    // -------------------------------------------------------------- completion

    /** Cancels what is still active behind a failed job, following next_id until a row was seen or is missing. */
    method CancelRemaining(j: JobId)
      requires j in jobs
      modifies this`jobs
      ensures jobs ==
        CancelJobs(old(jobs), Walk(old(jobs), old(jobs)[j].run, old(jobs)[j].attempt, old(jobs)[j].next, {}))
    {
      var r, attempt := jobs[j].run, jobs[j].attempt;
      var next, seen := jobs[j].next, {};
      var rows := jobs;
      ghost var all := Walk(rows, r, attempt, next, {});
      while
        && next.Some? && next.value !in seen && next.value in rows
        && rows[next.value].run == r && rows[next.value].attempt == attempt
        invariant all == seen + Walk(rows, r, attempt, next, seen)
        invariant jobs == CancelJobs(rows, seen)
        decreases rows.Keys - seen
      {
        var id := next.value;
        if ActiveJob(rows[id].status) {
          jobs := jobs[id := rows[id].(status := Cancelled)];
        }
        next, seen := rows[id].next, seen + {id};
      }
    }

    /** A completion behind the execution fence, with the promotion or cancellation it causes. */
    method CompleteJob(c: Completion, nextLocked: bool) returns (result: CompletionResult)
      modifies this`jobs
      ensures Rows() == CompleteTx(old(Rows()), c, nextLocked)
      ensures result.Applied? <==> Accepts(old(Rows()), c)
      ensures result.StaleExecution? <==>
        c.job in old(jobs) && old(jobs)[c.job].run in runs && !Fenced(old(Rows()), c.job, c.resume)
      ensures !result.Applied? ==> jobs == old(jobs)
      ensures result.Applied? ==> c.job in jobs && jobs[c.job].status == c.status
      ensures result.Applied? && c.status.Success? && !nextLocked && NextAlone(old(jobs), c.job) ==>
        var n := old(jobs)[c.job].next.value; n in jobs && jobs[n].status == Queued && jobs[n].shaIn == c.shaOut
    {
      AppliedRows(Rows(), c, nextLocked);
      if c.job !in jobs || jobs[c.job].run !in runs {
        return JobNotFound;
      }
      var job := jobs[c.job];
      if runs[job.run].resumes != c.resume || job.attempt != runs[job.run].attempt {
        return StaleExecution;
      }
      if job.node.None? || job.node.value != c.node {
        return NotAssigned;
      }
      if !job.status.Running? {
        return NotRunning;
      }
      if ActiveJob(c.status) {
        return NotFinal;
      }
      if c.status.Success? && job.next.Some? && (!CanonicalSha(job.shaIn) || c.shaOut == "") {
        return CommitMissing;
      }
      var done := CompletedJob(job, c.status, c.shaOut);
      if done.next.Some? && done.next.value in jobs && done.next.value != c.job {
        jobs := jobs[done.next.value := FedJob(jobs[done.next.value], done.shaOut)];
      }
      jobs := jobs[c.job := done];
      assert jobs == CompleteRows(old(jobs), c.job, c.status, c.shaOut);
      if !c.status.Success? {
        CancelRemaining(c.job);
      } else if done.next.Some? && !nextLocked {
        Promote(done.next.value);
      }
      return Applied;
    }

    method Promote(j: JobId)
      modifies this`jobs
      ensures jobs == Promoted(old(jobs), j)
    {
      if
        && j in jobs && jobs[j].status.Created?
        && forall p :: p in jobs && jobs[p].next == Some(j) ==> jobs[p].status.Success?
      {
        jobs := jobs[j := jobs[j].(status := Queued)];
      }
    }

    // -------------------------------------------------------------- restart

    /** Resets the jobs of the failed suffix one by one; a missing step configuration aborts. */
    method ResetSuffix(chain: seq<JobId>, f: nat, plans: seq<JobPlan>) returns (ok: bool)
      requires f < |chain| && forall i :: 0 <= i < |chain| ==> chain[i] in jobs
      requires forall i, k :: 0 <= i < k < |chain| ==> chain[i] != chain[k]
      modifies this`jobs
      ensures ok <==>
        forall i :: f <= i < |chain| ==> PlanFor(plans, old(jobs)[chain[i]].name, old(jobs)[chain[i]].kind)
      ensures ok ==> jobs == ResumeRows(old(jobs), chain, f, |chain|)
    {
      var byName := PlansByName(plans);
      ghost var rows := jobs;
      for i := f to |chain|
        invariant forall k :: f <= k < i ==> PlanFor(plans, rows[chain[k]].name, rows[chain[k]].kind)
        invariant jobs == ResumeRows(rows, chain, f, i)
      {
        ResumeNext(rows, chain, f, i);
        var job := jobs[chain[i]];
        if job.name !in byName || byName[job.name] != job.kind {
          return false;
        }
        jobs := jobs[chain[i] := ResumedJob(job, i == f)];
      }
      return true;
    }

    method ResumeFailedJobs(arg: RestartArgs) returns (ok: bool, ghost chain: seq<JobId>)
      requires CanRestart(Rows(), arg)
      modifies this`jobs, this`runs
      ensures forall c :: CompleteChain(old(jobs), arg.run, old(runs)[arg.run].attempt, c) ==> chain == c
      ensures ok == CanResume(old(Rows()), arg, chain)
      ensures ok ==> jobs == ResumeRows(old(jobs), chain, FirstUnfinished(old(jobs), chain), |chain|)
      ensures ok ==>
        runs == old(runs)[arg.run := old(runs)[arg.run].(status := RunRunning, resumes := arg.expectedResumes + 1)]
    {
      var run := runs[arg.run];
      var found, suffix, f := ResumeSuffix.FailedJobSuffix(jobs, arg.run, run.attempt);
      chain := suffix;
      if (!run.status.RunFail? && !run.status.RunCancelled?) || run.resumes != arg.expectedResumes {
        return false, chain;
      }
      if !found {
        assert !CanResume(Rows(), arg, chain) by {
          assert !ResumeSuffix.ResumableChain(jobs, arg.run, run.attempt, chain, FirstUnfinishedOf(jobs, chain));
        }
        return false, chain;
      }
      ok := ResetSuffix(suffix, f, arg.jobs);
      if ok {
        runs := runs[arg.run := run.(status := RunRunning, resumes := arg.expectedResumes + 1)];
      }
    }

    /** Starts a new attempt or retries the failed suffix in place; a refusal leaves every row as it was. */
    method RestartRun(arg: RestartArgs, ids: seq<JobId>) returns (result: RestartResult, ghost chain: seq<JobId>)
      requires |arg.jobs| == |ids|
      modifies this
      ensures arg.run in old(runs) && CanRestart(old(Rows()), arg) && arg.fromFailed ==>
        forall c :: CompleteChain(old(jobs), arg.run, old(runs)[arg.run].attempt, c) ==> chain == c
      ensures Rows() == RestartTx(old(Rows()), arg, ids, chain)
      ensures result.Restarted? == Restarts(old(Rows()), arg, ids, chain)
      ensures result.OwningWaveCancelled? <==>
        && arg.run in old(runs) && old(runs)[arg.run].attempt == arg.expectedAttempt &&
             !ActiveRun(old(runs)[arg.run].status)
        && old(runs)[arg.run].wave in old(waves) && old(waves)[old(runs)[arg.run].wave].status.WaveCancelled?
      ensures result.RepoHasActiveRun? ==> arg.run in old(runs) && RepoBusy(old(runs), old(runs)[arg.run].repo)
      ensures !result.Restarted? ==> Rows() == old(Rows())
      ensures result.Restarted? ==>
        && arg.run in runs && runs[arg.run].status == RunRunning
        && runs[arg.run].wave in waves && waves[runs[arg.run].wave].status == WaveStarted
    {
      chain := [];
      var saved := Rows();
      if arg.run !in runs {
        return RunNotFound, chain;
      }
      var run := runs[arg.run];
      if run.attempt != arg.expectedAttempt || ActiveRun(run.status) {
        return RunStillActive, chain;
      }
      if run.wave !in waves {
        return WaveNotFound, chain;
      }
      if waves[run.wave].status.WaveCancelled? {
        return OwningWaveCancelled, chain;
      }
      if RepoBusy(runs, run.repo) {
        return RepoHasActiveRun, chain;
      }
      if arg.fromFailed {
        var resumed;
        resumed, chain := ResumeFailedJobs(arg);
        if !resumed {
          Rollback(saved);
          return NotResumable, chain;
        }
      } else {
        jobs := CancelJobs(jobs, JobsOfAttempt(jobs, arg.run, run.attempt));
        runs := runs[arg.run := NextAttempt(run, arg.resumes)];
      }
      waves := waves[run.wave := RevivedWave(waves[run.wave])];
      if !arg.fromFailed {
        var created := CreatePlannedJobs(arg.run, runs[arg.run], arg.jobs, ids);
        if !created {
          Rollback(saved);
          return JobsRejected, chain;
        }
      }
      return Restarted, chain;
    }
  }

  /** The job has a successor that is created and waits for no other job. */
  predicate NextAlone(jobs: Jobs, j: JobId) {
    && j in jobs && jobs[j].next.Some? && jobs[j].next.value in jobs && jobs[jobs[j].next.value].status.Created?
    && forall p :: p in jobs && p != j && jobs[p].next == jobs[j].next ==> jobs[p].status.Success?
  }

  /** What an accepted completion does to the row of the job and to its successor. */
  lemma AppliedRows(db: Db, c: Completion, nextLocked: bool)
    ensures Accepts(db, c) ==>
      var jobs := CompleteTx(db, c, nextLocked).jobs;
      && c.job in jobs && jobs[c.job].status == c.status
      && (c.status.Success? && !nextLocked && NextAlone(db.jobs, c.job) ==>
            var n := db.jobs[c.job].next.value; n in jobs && jobs[n].status == Queued && jobs[n].shaIn == c.shaOut)
  {
    if Accepts(db, c) {
      var rows := CompleteRows(db.jobs, c.job, c.status, c.shaOut);
      if c.status.Success? && NextAlone(db.jobs, c.job) { assert Unblocked(rows, db.jobs[c.job].next.value); }
    }
  }

  ghost function FirstUnfinishedOf(jobs: Jobs, chain: seq<JobId>): nat {
    if forall i :: 0 <= i < |chain| ==> chain[i] in jobs then FirstUnfinished(jobs, chain) else 0
  }

  ghost predicate ByName(plans: seq<JobPlan>, byName: map<string, nat>) {
    forall name, kind :: PlanFor(plans, name, kind) <==> name in byName && byName[name] == kind
  }

  /** The step configurations by name; a later one replaces an earlier one. */
  method PlansByName(plans: seq<JobPlan>) returns (byName: map<string, nat>)
    ensures ByName(plans, byName)
  {
    byName := map[];
    for i := 0 to |plans|
      invariant ByName(plans[..i], byName)
    {
      ByNameNext(plans, i, byName);
      byName := byName[plans[i].name := plans[i].kind];
    }
    assert plans[..|plans|] == plans;
  }

  lemma ByNameNext(plans: seq<JobPlan>, i: nat, byName: map<string, nat>)
    requires i < |plans| && ByName(plans[..i], byName)
    ensures ByName(plans[..i + 1], byName[plans[i].name := plans[i].kind])
  {
    var p, q := plans[..i], plans[..i + 1];
    var byName' := byName[plans[i].name := plans[i].kind];
    forall name, kind ensures PlanFor(q, name, kind) <==> name in byName' && byName'[name] == kind {
      assert q[i] == plans[i];
      if name == plans[i].name {
        if kind == plans[i].kind { assert q[i] == JobPlan(name, kind); }
      } else {
        OtherPlan(plans, i, name, kind);
      }
    }
  }

  lemma OtherPlan(plans: seq<JobPlan>, i: nat, name: string, kind: nat)
    requires i < |plans| && name != plans[i].name
    ensures PlanFor(plans[..i + 1], name, kind) <==> PlanFor(plans[..i], name, kind)
  {
    var p, q := plans[..i], plans[..i + 1];
    if PlanFor(p, name, kind) {
      var k :| 0 <= k < |p| && p[k] == JobPlan(name, kind) && forall m :: k < m < |p| ==> p[m].name != name;
      assert q[k] == JobPlan(name, kind);
      assert forall m :: k < m < |q| ==> q[m] == plans[m] && (m < i ==> p[m] == plans[m]);
      assert forall m :: k < m < |q| ==> q[m].name != name;
    }
    if PlanFor(q, name, kind) {
      var k :| 0 <= k < |q| && q[k] == JobPlan(name, kind) && forall m :: k < m < |q| ==> q[m].name != name;
      assert p[k] == JobPlan(name, kind);
      assert forall m :: k < m < |p| ==> p[m] == q[m] && p[m].name != name;
    }
  }
}
