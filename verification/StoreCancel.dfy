/** Cancellation is permanent: only a restart revives a run, and nothing revives a cancelled wave. */
module StoreCancel {
  import opened Wrappers
  import opened StoreModel
  import opened StoreInvariant
  import opened StoreSteps
  import opened StoreInsert
  import opened StoreRestart
  import opened StoreRuns
  import opened StoreEvolution
  import opened StoreTheorems

  predicate NoActiveJob(jobs: Jobs, r: RunId) {
    forall j :: j in jobs && jobs[j].run == r ==> Settled(jobs[j].status)
  }

  lemma WorkQuiet(db: Db, e: Work, r: RunId)
    requires NoActiveJob(db.jobs, r)
    ensures NoActiveJob(WorkTx(db, e).jobs, r)
  {
  }

  lemma StopQuiet(db: Db, e: Stop, r: RunId)
    requires NoActiveJob(db.jobs, r)
    ensures NoActiveJob(StopTx(db, e).jobs, r)
  {
  }

  lemma CompleteRowsQuiet(jobs: Jobs, j: JobId, status: JobStatus, shaOut: string, r: RunId)
    requires NoActiveJob(jobs, r) && j in jobs && jobs[j].status.Running?
    ensures NoActiveJob(CompleteRows(jobs, j, status, shaOut), r)
  {
  }

  lemma CompleteQuiet(db: Db, c: Completion, locked: bool, r: RunId)
    requires NoActiveJob(db.jobs, r)
    ensures NoActiveJob(CompleteTx(db, c, locked).jobs, r)
  {
    if Accepts(db, c) {
      CompleteRowsQuiet(db.jobs, c.job, c.status, c.shaOut, r);
    }
  }

  // ---------------------------------------------------------------- new rows

  /** New jobs belong to new runs, and new runs to the wave `w`. */
  predicate OnlyNewRuns(db: Db, db': Db, w: WaveId) {
    && (forall j :: j in db'.jobs && j !in db.jobs ==> db'.jobs[j].run !in db.runs)
    && (forall r :: r in db'.runs && r !in db.runs ==> db'.runs[r].wave == w)
  }

  lemma InsertRunNew(db: Db, w: WaveId, plan: RunPlan, ids: seq<JobId>)
    requires CanInsertRun(db, plan, ids)
    ensures Extends(db, InsertRun(db, w, plan, ids)) && OnlyNewRuns(db, InsertRun(db, w, plan, ids), w)
  {
    var run := Run(w, plan.repo, plan.sha0, RunRunning, 1, plan.resumes);
    InsertRunExtends(db, w, plan, ids);
    InsertPlans(db.jobs, plan.id, run, plan.jobs, ids);
    var jobs' := InsertRun(db, w, plan, ids).jobs;
    forall j | j in jobs' && j !in db.jobs ensures jobs'[j].run == plan.id {
      var i :| 0 <= i < |ids| && ids[i] == j;
    }
  }

  lemma {:induction false} InsertRunsNew(db: Db, w: WaveId, plans: seq<RunPlan>, ids: seq<seq<JobId>>)
    requires |plans| == |ids| && InsertRuns(db, w, plans, ids).Some?
    ensures Extends(db, InsertRuns(db, w, plans, ids).value) && OnlyNewRuns(db, InsertRuns(db, w, plans, ids).value, w)
    decreases plans
  {
    if plans != [] {
      InsertRunNew(db, w, plans[0], ids[0]);
      InsertRunsNew(InsertRun(db, w, plans[0], ids[0]), w, plans[1..], ids[1..]);
    }
  }

  lemma CreateQuiet(db: Db, w: WaveId, plans: seq<RunPlan>, ids: seq<seq<JobId>>, r: RunId)
    requires NoActiveJob(db.jobs, r) && r in db.runs && |plans| == |ids|
    ensures NoActiveJob(CreateWaveTx(db, w, plans, ids).jobs, r)
  {
    var db1 := db.(waves := db.waves[w := Wave(WaveStarted)]);
    if plans != [] && w !in db.waves && InsertRuns(db1, w, plans, ids).Some? {
      InsertRunsNew(db1, w, plans, ids);
    }
  }

  lemma InsertOtherQuiet(jobs: Jobs, q: RunId, run: Run, plans: seq<JobPlan>, ids: seq<JobId>, r: RunId)
    requires NoActiveJob(jobs, r) && q != r && CanPlan(jobs, plans, ids)
    ensures NoActiveJob(InsertFrom(jobs, q, run, plans, ids, 0), r)
  {
    InsertPlans(jobs, q, run, plans, ids);
    var jobs' := InsertFrom(jobs, q, run, plans, ids, 0);
    forall j | j in jobs' && j !in jobs ensures jobs'[j].run == q {
      var i :| 0 <= i < |ids| && ids[i] == j;
    }
  }

  lemma ResumeOtherQuiet(jobs: Jobs, q: RunId, attempt: nat, chain: seq<JobId>, f: nat, r: RunId)
    requires NoActiveJob(jobs, r) && q != r && CompleteChain(jobs, q, attempt, chain) && f <= |chain|
    ensures NoActiveJob(ResumeRows(jobs, chain, f, |chain|), r)
  {
    var jobs' := ResumeRows(jobs, chain, f, |chain|);
    forall j | j in jobs' && jobs'[j].run == r ensures Settled(jobs'[j].status) {
      assert j !in chain[f..];
    }
  }

  lemma RestartOtherQuiet(db: Db, arg: RestartArgs, ids: seq<JobId>, chain: seq<JobId>, r: RunId)
    requires NoActiveJob(db.jobs, r) && (arg.run == r ==> !Restarts(db, arg, ids, chain))
    ensures NoActiveJob(RestartTx(db, arg, ids, chain).jobs, r)
  {
    if Restarts(db, arg, ids, chain) {
      var run := db.runs[arg.run];
      if arg.fromFailed {
        ResumeOtherQuiet(db.jobs, arg.run, run.attempt, chain, FirstUnfinished(db.jobs, chain), r);
      } else {
        var settled := CancelJobs(db.jobs, JobsOfAttempt(db.jobs, arg.run, run.attempt));
        assert NoActiveJob(settled, r) && CanPlan(settled, arg.jobs, ids);
        InsertOtherQuiet(settled, arg.run, NextAttempt(run, arg.resumes), arg.jobs, ids, r);
      }
    }
  }

  lemma StepQuiet(run: seq<Event>, n: nat, r: RunId)
    requires n < |run| && r in At(run, n).db.runs && NoActiveJob(At(run, n).db.jobs, r) && !RestartsRun(run, n, r)
    ensures NoActiveJob(At(run, n + 1).db.jobs, r)
  {
    var s, e := At(run, n), run[n];
    match e
    case OnLaunch(CreateWave(w, plans, ids)) => if |plans| == |ids| { CreateQuiet(s.db, w, plans, ids, r); }
    case OnLaunch(Restart(arg, ids, chain)) => RestartOtherQuiet(s.db, arg, ids, chain, r);
    case OnWork(w) => WorkQuiet(s.db, w, r);
    case OnStop(c) => StopQuiet(s.db, c, r);
    case OnOutside(o) =>
    case Deliver(_, _, _, _, locked) => if Sendable(s, e) { CompleteQuiet(s.db, Message(e), locked, r); }
  }

  /** A run without active jobs has none until it is restarted. */
  lemma {:induction false} QuietUntilRestart(run: seq<Event>, m: nat, n: nat, r: RunId)
    requires m <= n <= |run| && r in At(run, m).db.runs && NoActiveJob(At(run, m).db.jobs, r)
    requires forall i :: m <= i < n ==> !RestartsRun(run, i, r)
    ensures r in At(run, n).db.runs && NoActiveJob(At(run, n).db.jobs, r)
    decreases n
  {
    if m < n {
      QuietUntilRestart(run, m, n - 1, r);
      ExecutionsMoveOn(run, n - 1, n, r);
      StepQuiet(run, n - 1, r);
    }
  }

  predicate Inactive(db: Db, r: RunId) {
    r in db.runs && !ActiveRun(db.runs[r].status)
  }

  /** Only a restart makes a run active again. */
  lemma StepInactive(run: seq<Event>, n: nat, r: RunId)
    requires n < |run| && Inactive(At(run, n).db, r) && !RestartsRun(run, n, r)
    ensures Inactive(At(run, n + 1).db, r)
  {
    var s, e := At(run, n), run[n];
    if e.OnLaunch? && e.launch.CreateWave? && |e.launch.plans| == |e.launch.ids| {
      var l := e.launch;
      var started := s.db.(waves := s.db.waves[l.wave := Wave(WaveStarted)]);
      if InsertRuns(started, l.wave, l.plans, l.ids).Some? { InsertRunsExtend(started, l.wave, l.plans, l.ids); }
    }
  }

  lemma {:induction false} InactiveUntilRestart(run: seq<Event>, m: nat, n: nat, r: RunId)
    requires m <= n <= |run| && Inactive(At(run, m).db, r)
    requires forall i :: m <= i < n ==> !RestartsRun(run, i, r)
    ensures Inactive(At(run, n).db, r)
    decreases n
  {
    hide Inactive;
    if m < n {
      InactiveUntilRestart(run, m, n - 1, r);
      StepInactive(run, n - 1, r);
    }
  }

  /**
    After CancelRun the run is not active, and none of its jobs is created, queued or running, in any later state
    before a restart of the run.
   */
  lemma CancelRunIsPermanent(run: seq<Event>, i: nat, n: nat, r: RunId)
    requires i < n <= |run| && run[i] == OnStop(CancelRun(r)) && r in At(run, i).db.runs
    requires forall m :: i < m < n ==> !RestartsRun(run, m, r)
    ensures NoActiveJob(At(run, n).db.jobs, r) && Inactive(At(run, n).db, r)
  {
    assert NoActiveJob(At(run, i + 1).db.jobs, r) && Inactive(At(run, i + 1).db, r);
    QuietUntilRestart(run, i + 1, n, r);
    InactiveUntilRestart(run, i + 1, n, r);
  }

  // ---------------------------------------------------------------- waves

  predicate Stopped(db: Db, w: WaveId) {
    w in db.waves && db.waves[w].status.WaveCancelled?
  }

  lemma StoppedStep(run: seq<Event>, n: nat, w: WaveId)
    requires n < |run| && Stopped(At(run, n).db, w)
    ensures Stopped(At(run, n + 1).db, w)
  {
    StepEvolves(run, n);
  }

  /** A cancelled wave stays cancelled; none of its runs is restarted and none of its jobs is claimed any more. */
  lemma {:induction false} CancelledWaveIsFinal(run: seq<Event>, m: nat, n: nat, w: WaveId)
    requires m <= n <= |run| && Stopped(At(run, m).db, w)
    ensures Stopped(At(run, n).db, w)
    ensures n < |run| ==> forall r :: r in At(run, n).db.runs && At(run, n).db.runs[r].wave == w ==>
      !RestartsRun(run, n, r)
    ensures n < |run| && Grants(At(run, n).db, run[n]) ==>
      At(run, n).db.runs[At(run, n).db.jobs[run[n].work.job].run].wave != w
    decreases n
  {
    if m < n {
      CancelledWaveIsFinal(run, m, n - 1, w);
      StoppedStep(run, n - 1, w);
    }
  }

  /** Runs join a wave only when the wave is created. */
  lemma NoNewRun(run: seq<Event>, n: nat, w: WaveId, r: RunId)
    requires n < |run| && w in At(run, n).db.waves
    requires r in At(run, n + 1).db.runs && At(run, n + 1).db.runs[r].wave == w
    ensures r in At(run, n).db.runs && At(run, n).db.runs[r].wave == w
  {
    StepEvolves(run, n);
    var s, e := At(run, n), run[n];
    if e.OnLaunch? && e.launch.CreateWave? && |e.launch.plans| == |e.launch.ids| {
      var l := e.launch;
      var db1 := s.db.(waves := s.db.waves[l.wave := Wave(WaveStarted)]);
      if l.plans != [] && l.wave !in s.db.waves && InsertRuns(db1, l.wave, l.plans, l.ids).Some? {
        InsertRunsNew(db1, l.wave, l.plans, l.ids);
      }
    } else if r in s.db.runs {
      assert RunEvolves(s.db.runs[r], At(run, n + 1).db.runs[r]);
    }
  }

  predicate WaveQuiet(db: Db, w: WaveId) {
    forall r :: r in db.runs && db.runs[r].wave == w ==> NoActiveJob(db.jobs, r)
  }

  predicate WaveInactive(db: Db, w: WaveId) {
    forall r :: r in db.runs && db.runs[r].wave == w ==> Inactive(db, r)
  }

  /** Cancelling a started wave settles every run in it and every job of these runs, for good. */
  lemma {:induction false} CancelWaveIsPermanent(run: seq<Event>, i: nat, n: nat, w: WaveId)
    requires i < n <= |run| && run[i] == OnStop(CancelWave(w))
    requires w in At(run, i).db.waves && !At(run, i).db.waves[w].status.WaveFinished?
    ensures Stopped(At(run, n).db, w) && WaveQuiet(At(run, n).db, w) && WaveInactive(At(run, n).db, w)
    decreases n
  {
    if n == i + 1 {
      WaveCancelQuiet(At(run, i).db, w);
    } else {
      CancelWaveIsPermanent(run, i, n - 1, w);
      StoppedStep(run, n - 1, w);
      CancelledWaveIsFinal(run, n - 1, n - 1, w);
      forall r | r in At(run, n).db.runs && At(run, n).db.runs[r].wave == w
        ensures NoActiveJob(At(run, n).db.jobs, r) && Inactive(At(run, n).db, r)
      {
        NoNewRun(run, n - 1, w, r);
        StepQuiet(run, n - 1, r);
        StepInactive(run, n - 1, r);
      }
    }
  }

  lemma WaveCancelQuiet(db: Db, w: WaveId)
    requires w in db.waves && !db.waves[w].status.WaveFinished?
    ensures Stopped(WaveCancelTx(db, w), w) && WaveQuiet(WaveCancelTx(db, w), w) && WaveInactive(WaveCancelTx(db, w), w)
  {
  }
}
