/** What no event ever undoes: rows stay, executions only move on, success and ownership last. */
module StoreEvolution {
  import opened Wrappers
  import opened StoreModel
  import opened StoreInvariant
  import opened StoreSteps
  import opened StoreInsert
  import opened StoreRestart
  import opened StoreRuns

  // ---------------------------------------------------------------- executions

  /** The lexicographic order on (attempt, resume count). */
  predicate NotLater(attempt: nat, resumes: nat, attempt': nat, resumes': nat) {
    attempt < attempt' || (attempt == attempt' && resumes <= resumes')
  }

  predicate RunEvolves(a: Run, b: Run) {
    b.wave == a.wave && b.repo == a.repo && b.sha0 == a.sha0 && NotLater(a.attempt, a.resumes, b.attempt, b.resumes)
  }

  predicate RunsEvolve(runs: Runs, runs': Runs) {
    forall r :: r in runs ==> r in runs' && RunEvolves(runs[r], runs'[r])
  }

  predicate WavesEvolve(waves: map<WaveId, Wave>, waves': map<WaveId, Wave>) {
    forall w :: w in waves ==> w in waves' && (waves[w].status.WaveCancelled? ==> waves'[w].status.WaveCancelled?)
  }

  // ---------------------------------------------------------------- jobs

  /** `a` keeps its node once it has succeeded, and once its run has been resumed. */
  predicate JobEvolves(resumed: bool, a: Job, b: Job) {
    && b.run == a.run && b.attempt == a.attempt && b.next == a.next
    && (a.status.Success? ==> b.status.Success? && b.node == a.node)
    && (resumed && a.node.Some? ==> b.node == a.node)
  }

  predicate Resumable(runs: Runs, job: Job) { job.run in runs && runs[job.run].resumes > 0 }

  predicate JobsEvolve(runs: Runs, jobs: Jobs, jobs': Jobs) {
    forall j :: j in jobs ==> j in jobs' && JobEvolves(Resumable(runs, jobs[j]), jobs[j], jobs'[j])
  }

  predicate Evolves(db: Db, db': Db) {
    RunsEvolve(db.runs, db'.runs) && WavesEvolve(db.waves, db'.waves) && JobsEvolve(db.runs, db.jobs, db'.jobs)
  }

  lemma WorkEvolves(db: Db, e: Work)
    ensures Evolves(db, WorkTx(db, e))
  {
  }

  lemma StopEvolves(db: Db, e: Stop)
    ensures Evolves(db, StopTx(db, e))
  {
  }

  lemma OutsideEvolves(db: Db, e: Outside)
    ensures Evolves(db, OutsideTx(db, e))
  {
  }

  lemma CompleteRowsEvolve(runs: Runs, jobs: Jobs, j: JobId, status: JobStatus, shaOut: string)
    requires j in jobs && jobs[j].status.Running?
    ensures JobsEvolve(runs, jobs, CompleteRows(jobs, j, status, shaOut))
  {
  }

  lemma AfterCompletionEvolve(runs: Runs, jobs: Jobs, j: JobId, locked: bool)
    requires j in jobs
    ensures JobsEvolve(runs, jobs, AfterCompletion(jobs, j, locked))
  {
  }

  lemma CompleteEvolves(db: Db, c: Completion, locked: bool)
    ensures Evolves(db, CompleteTx(db, c, locked))
  {
    if Accepts(db, c) {
      var jobs := CompleteRows(db.jobs, c.job, c.status, c.shaOut);
      CompleteRowsEvolve(db.runs, db.jobs, c.job, c.status, c.shaOut);
      AfterCompletionEvolve(db.runs, jobs, c.job, locked);
      JobsEvolveTrans(db.runs, db.jobs, jobs, AfterCompletion(jobs, c.job, locked));
    }
  }

  lemma JobsEvolveTrans(runs: Runs, a: Jobs, b: Jobs, c: Jobs)
    requires JobsEvolve(runs, a, b) && JobsEvolve(runs, b, c)
    ensures JobsEvolve(runs, a, c)
  {
    forall j | j in a ensures j in c && JobEvolves(Resumable(runs, a[j]), a[j], c[j]) {
      assert JobEvolves(Resumable(runs, a[j]), a[j], b[j]);
      assert JobEvolves(Resumable(runs, b[j]), b[j], c[j]);
    }
  }

  /** Rows that exist stay as they are while runs are inserted. */
  predicate Extends(db: Db, db': Db) {
    && (forall r :: r in db.runs ==> r in db'.runs && db'.runs[r] == db.runs[r])
    && (forall j :: j in db.jobs ==> j in db'.jobs && db'.jobs[j] == db.jobs[j])
    && db'.waves == db.waves
  }

  lemma InsertRunExtends(db: Db, w: WaveId, plan: RunPlan, ids: seq<JobId>)
    requires CanInsertRun(db, plan, ids)
    ensures Extends(db, InsertRun(db, w, plan, ids))
  {
    var run := Run(w, plan.repo, plan.sha0, RunRunning, 1, plan.resumes);
    InsertPlans(db.jobs, plan.id, run, plan.jobs, ids);
  }

  lemma {:induction false} InsertRunsExtend(db: Db, w: WaveId, plans: seq<RunPlan>, ids: seq<seq<JobId>>)
    requires |plans| == |ids| && InsertRuns(db, w, plans, ids).Some?
    ensures Extends(db, InsertRuns(db, w, plans, ids).value)
    decreases plans
  {
    if plans != [] {
      var db1 := InsertRun(db, w, plans[0], ids[0]);
      InsertRunExtends(db, w, plans[0], ids[0]);
      InsertRunsExtend(db1, w, plans[1..], ids[1..]);
    }
  }

  lemma CreateEvolves(db: Db, w: WaveId, plans: seq<RunPlan>, ids: seq<seq<JobId>>)
    requires |plans| == |ids|
    ensures Evolves(db, CreateWaveTx(db, w, plans, ids))
  {
    var db1 := db.(waves := db.waves[w := Wave(WaveStarted)]);
    if plans != [] && w !in db.waves && InsertRuns(db1, w, plans, ids).Some? {
      InsertRunsExtend(db1, w, plans, ids);
    }
  }

  lemma FullRestartEvolves(db: Db, arg: RestartArgs, ids: seq<JobId>)
    requires CanRestart(db, arg)
    ensures Evolves(db, FullRestartTx(db, arg, ids))
  {
    if CanPlan(db.jobs, arg.jobs, ids) {
      var run := db.runs[arg.run];
      FullRestartJobs(db.runs, db.jobs, arg.run, NextAttempt(run, arg.resumes),
                      JobsOfAttempt(db.jobs, arg.run, run.attempt), arg.jobs, ids);
    }
  }

  lemma FullRestartJobs(runs: Runs, jobs: Jobs, r: RunId, run: Run, cancelled: set<JobId>, plans: seq<JobPlan>,
                        ids: seq<JobId>)
    requires CanPlan(jobs, plans, ids)
    ensures JobsEvolve(runs, jobs, InsertFrom(CancelJobs(jobs, cancelled), r, run, plans, ids, 0))
  {
    InsertPlans(CancelJobs(jobs, cancelled), r, run, plans, ids);
  }

  lemma ResumedEvolves(runs: Runs, jobs: Jobs, jobs': Jobs, chain: seq<JobId>, f: nat)
    requires forall k :: 0 <= k < |chain| ==> chain[k] in jobs
    requires ResumableAt(jobs, chain, f) && Resumed(jobs, jobs', chain, f)
    ensures JobsEvolve(runs, jobs, jobs')
  {
    forall j | j in jobs ensures j in jobs' && JobEvolves(Resumable(runs, jobs[j]), jobs[j], jobs'[j]) {
      if k :| f <= k < |chain| && chain[k] == j {
        assert k > f ==> NeverRan(jobs[chain[k]]);
      }
    }
  }

  lemma ResumeRowsEvolve(runs: Runs, jobs: Jobs, ch: Chains, r: RunId, attempt: nat, chain: seq<JobId>, f: nat)
    requires Chained(jobs, ch) && CompleteChain(jobs, r, attempt, chain) && f <= |chain| && ResumableAt(jobs, chain, f)
    ensures JobsEvolve(runs, jobs, ResumeRows(jobs, chain, f, |chain|))
  {
    ResumeRowsResumed(jobs, ch, r, attempt, chain, f);
    ResumedEvolves(runs, jobs, ResumeRows(jobs, chain, f, |chain|), chain, f);
  }

  lemma ResumeEvolves(db: Db, ch: Chains, arg: RestartArgs, chain: seq<JobId>)
    requires Chained(db.jobs, ch) && CanRestart(db, arg) && CanResume(db, arg, chain)
    ensures Evolves(db, ResumeTx(db, arg, chain))
  {
    ResumeRowsEvolve(db.runs, db.jobs, ch, arg.run, db.runs[arg.run].attempt, chain, FirstUnfinished(db.jobs, chain));
  }

  lemma RestartEvolves(db: Db, ch: Chains, arg: RestartArgs, ids: seq<JobId>, chain: seq<JobId>)
    requires Chained(db.jobs, ch)
    ensures Evolves(db, RestartTx(db, arg, ids, chain))
  {
    if CanRestart(db, arg) {
      if !arg.fromFailed {
        FullRestartEvolves(db, arg, ids);
      } else if CanResume(db, arg, chain) {
        ResumeEvolves(db, ch, arg, chain);
      }
    }
  }

  lemma LaunchEvolves(db: Db, ch: Chains, e: Launch)
    requires Chained(db.jobs, ch)
    ensures Evolves(db, LaunchTx(db, e))
  {
    match e
    case CreateWave(w, plans, ids) => if |plans| == |ids| { CreateEvolves(db, w, plans, ids); }
    case Restart(arg, ids, chain) => RestartEvolves(db, ch, arg, ids, chain);
  }

  lemma ApplyEvolves(s: Sys, ch: Chains, e: Event)
    requires Chained(s.db.jobs, ch)
    ensures Evolves(s.db, Apply(s, e).db) && s.claims <= Apply(s, e).claims
  {
    match e
    case OnLaunch(l) => LaunchEvolves(s.db, ch, l);
    case OnWork(w) => WorkEvolves(s.db, w);
    case OnStop(c) => StopEvolves(s.db, c);
    case OnOutside(o) => OutsideEvolves(s.db, o);
    case Deliver(_, _, _, _, locked) => if Sendable(s, e) { CompleteEvolves(s.db, Message(e), locked); }
  }

  lemma StepEvolves(run: seq<Event>, n: nat)
    requires n < |run|
    ensures Evolves(At(run, n).db, At(run, n + 1).db) && At(run, n).claims <= At(run, n + 1).claims
  {
    var ch := ReachableWith(run, n);
    ApplyEvolves(At(run, n), ch, run[n]);
  }
}
