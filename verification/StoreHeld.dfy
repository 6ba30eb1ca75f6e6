/** The node that runs a job holds the claim with which it can report, in every reachable state. */
module StoreHeld {
  import opened Wrappers
  import opened StoreModel
  import opened StoreInvariant
  import opened StoreSteps
  import opened StoreRestart
  import opened StoreRuns
  import opened StoreTheorems
  import opened StoreWaiting
  import opened StoreEffects
  import opened StoreLaunches

  /** The node of the job was given its claim in the current execution of the run. */
  predicate HeldBy(s: Sys, j: JobId)
    requires j in s.db.jobs
  {
    var job := s.db.jobs[j];
    && job.node.Some? && job.run in s.db.runs
    && Claim(j, job.node.value, job.run, job.attempt, s.db.runs[job.run].resumes) in s.claims
  }

  predicate Held(s: Sys) {
    forall j :: j in s.db.jobs && s.db.jobs[j].status.Running? ==> HeldBy(s, j)
  }

  /** The job was already running, on the same node and in the same execution. */
  predicate StillRuns(db: Db, db': Db, j: JobId)
    requires j in db'.jobs
  {
    var job := db'.jobs[j];
    && j in db.jobs && db.jobs[j].status.Running? && db.jobs[j].node == job.node && SameAttempt(db.jobs[j], job)
    && (job.run in db.runs ==> job.run in db'.runs && db'.runs[job.run].resumes == db.runs[job.run].resumes)
  }

  /** Only jobs that were running are. */
  predicate NoNewRunning(db: Db, db': Db) {
    forall j :: j in db'.jobs && db'.jobs[j].status.Running? ==> StillRuns(db, db', j)
  }

  lemma HeldKept(s: Sys, s': Sys)
    requires Held(s) && s'.claims == s.claims && NoNewRunning(s.db, s'.db)
    ensures Held(s')
  {
    forall j | j in s'.db.jobs && s'.db.jobs[j].status.Running? ensures HeldBy(s', j) {
      assert StillRuns(s.db, s'.db, j) && HeldBy(s, j);
    }
  }

  lemma ClaimHolds(s: Sys, ch: Chains, n: NodeId, j: JobId)
    requires Held(s) && InvWith(s.db, ch) && Claimable(s.db, n, j)
    ensures Held(Sys(Claimed(s.db, n, j), s.claims + {ClaimOf(s.db, n, j)}))
  {
    AlwaysCurrent(s.db, ch, j);
    hide InvWith;
    var s' := Sys(Claimed(s.db, n, j), s.claims + {ClaimOf(s.db, n, j)});
    forall x | x in s'.db.jobs && s'.db.jobs[x].status.Running? ensures HeldBy(s', x) {
      assert x != j ==> HeldBy(s, x);
    }
  }

  lemma {:induction false} CreateRuns(db: Db, w: WaveId, plans: seq<RunPlan>, ids: seq<seq<JobId>>, db': Db)
    requires |plans| == |ids| && AllAdded(db, db', w, plans, ids)
    ensures NoNewRunning(db, db')
  {
    forall j | j in db'.jobs && j !in db.jobs ensures !db'.jobs[j].status.Running? {
      var k :| 0 <= k < |ids| && j in ids[k];
      assert RunAdded(db', w, plans[k], ids[k]);
      var i :| 0 <= i < |ids[k]| && ids[k][i] == j;
      assert RowOf(db'.jobs[ids[k][i]], plans[k].id, 1, plans[k].sha0, plans[k].jobs, ids[k], i);
    }
  }

  lemma FullRestartRuns(db: Db, ch: Chains, arg: RestartArgs, ids: seq<JobId>)
    requires InvWith(db, ch) && CanRestart(db, arg) && CanPlan(db.jobs, arg.jobs, ids)
    ensures NoNewRunning(db, FullRestartTx(db, arg, ids))
  {
    hide InvWith, ChainReplaced, FreshIds, RepoBusy, InsertFrom;
    FullRestartRows(db, ch, arg, ids);
    var run := db.runs[arg.run];
    ReplacedRuns(db, FullRestartTx(db, arg, ids), arg.run, run.attempt + 1, run.sha0, arg.jobs, ids);
  }

  lemma ReplacedRuns(db: Db, db': Db, r: RunId, attempt: nat, sha0: string, plans: seq<JobPlan>, ids: seq<JobId>)
    requires ChainReplaced(db.jobs, db'.jobs, r, attempt, sha0, plans, ids)
    requires forall q :: q in db.runs ==> q in db'.runs && (q != r ==> db'.runs[q] == db.runs[q])
    ensures NoNewRunning(db, db')
  {
    forall j | j in db'.jobs && j !in db.jobs ensures !db'.jobs[j].status.Running? {
      var i :| 0 <= i < |ids| && ids[i] == j;
      assert RowOf(db'.jobs[ids[i]], r, attempt, sha0, plans, ids, i);
    }
  }

  lemma ResumeRuns(db: Db, ch: Chains, arg: RestartArgs, c: seq<JobId>)
    requires InvWith(db, ch) && CanRestart(db, arg) && CanResume(db, arg, c)
    ensures NoNewRunning(db, ResumeTx(db, arg, c))
  {
    hide ResumeTx, CanResume, ChainGoesOn, InvWith, RepoBusy, Claimable, Able, NoNewRunning;
    var f := ResumeGoesOn(db, ch, arg, c);
    ResumedRuns(db, ch, ResumeTx(db, arg, c), arg.run, c, f);
  }

  /** Nothing of the run is running: what came before succeeded, and older attempts are settled. */
  lemma ResumedRuns(db: Db, ch: Chains, db': Db, r: RunId, c: seq<JobId>, f: nat)
    requires InvWith(db, ch) && ChainGoesOn(db.jobs, db'.jobs, c, f) && r in db.runs
    requires GoesOn(db, db', r, db.runs[r].attempt, db.runs[r].resumes + 1)
    requires forall x :: x in db.jobs && db.jobs[x].run == r && db.jobs[x].attempt == db.runs[r].attempt ==> x in c
    ensures NoNewRunning(db, db')
  {
    hide Chained, Shaped, Complete, Seeded, Short, Fed, OneOwner, Owned, Waved, OneRunPerRepo;
    forall j | j in c ensures !db'.jobs[j].status.Running? {
      var i :| 0 <= i < |c| && c[i] == j;
      if i < f && j !in c[f..] { assert db'.jobs[j] == db.jobs[j]; }
    }
    forall j | j in db.jobs && db.jobs[j].run == r ensures !db'.jobs[j].status.Running? {
      if j !in c { OldOne(db, r, j); }
    }
  }

  lemma OldOne(db: Db, r: RunId, j: JobId)
    requires Placed(db.runs, db.jobs) && OldSettled(db.runs, db.jobs)
    requires j in db.jobs && r in db.runs && db.jobs[j].run == r && db.jobs[j].attempt != db.runs[r].attempt
    ensures Settled(db.jobs[j].status)
  {
  }

  lemma LaunchRuns(db: Db, ch: Chains, e: Launch)
    requires InvWith(db, ch)
    ensures NoNewRunning(db, LaunchTx(db, e))
  {
    hide InvWith, FullRestartTx, ResumeTx, CanResume, InsertRuns, AllAdded, AllFit, FreshIds, RepoBusy;
    match e
    case CreateWave(w, plans, ids) =>
      if |plans| == |ids| {
        var started := db.(waves := db.waves[w := Wave(WaveStarted)]);
        InsertRunsExactly(started, w, plans, ids);
        if InsertRuns(started, w, plans, ids).Some? {
          CreateRuns(started, w, plans, ids, InsertRuns(started, w, plans, ids).value);
        }
      }
    case Restart(arg, ids, chain) =>
      if CanRestart(db, arg) {
        if !arg.fromFailed {
          if CanPlan(db.jobs, arg.jobs, ids) { FullRestartRuns(db, ch, arg, ids); } else { KeptRuns(db, arg, ids); }
        } else if CanResume(db, arg, chain) {
          ResumeRuns(db, ch, arg, chain);
        }
      }
  }

  lemma KeptRuns(db: Db, arg: RestartArgs, ids: seq<JobId>)
    requires CanRestart(db, arg) && !CanPlan(db.jobs, arg.jobs, ids)
    ensures FullRestartTx(db, arg, ids) == db
  {
  }

  lemma CompleteRuns(db: Db, m: Completion, nextLocked: bool)
    ensures NoNewRunning(db, CompleteTx(db, m, nextLocked))
  {
  }

  lemma StopRuns(db: Db, e: Stop)
    ensures NoNewRunning(db, StopTx(db, e))
  {
  }

  lemma OutsideRuns(db: Db, e: Outside)
    ensures NoNewRunning(db, OutsideTx(db, e))
  {
  }

  lemma WorkRuns(db: Db, e: Work)
    requires !e.ClaimJob?
    ensures NoNewRunning(db, WorkTx(db, e))
  {
  }

  lemma ApplyHolds(s: Sys, ch: Chains, e: Event)
    requires Held(s) && InvWith(s.db, ch)
    ensures Held(Apply(s, e))
  {
    hide Held, InvWith, LaunchTx, StopTx, OutsideTx, CompleteTx, NoNewRunning, Claimable;
    match e
    case OnLaunch(l) =>
      LaunchRuns(s.db, ch, l);
      HeldKept(s, Apply(s, e));
    case OnWork(w) =>
      if Grants(s.db, e) {
        ClaimHolds(s, ch, w.node, w.job);
      } else if w.ClaimJob? {
        assert Apply(s, e) == s;
      } else {
        WorkRuns(s.db, w);
        HeldKept(s, Apply(s, e));
      }
    case OnStop(c) =>
      StopRuns(s.db, c);
      HeldKept(s, Apply(s, e));
    case OnOutside(o) =>
      OutsideRuns(s.db, o);
      HeldKept(s, Apply(s, e));
    case Deliver(_, _, _, _, locked) =>
      if Sendable(s, e) {
        CompleteRuns(s.db, Message(e), locked);
        HeldKept(s, Apply(s, e));
      }
  }

  /** In every reachable state each running job is held by the node it runs on. */
  lemma {:induction false} AlwaysHeld(run: seq<Event>, n: nat)
    requires n <= |run|
    ensures Held(At(run, n))
  {
    hide Apply, InvWith;
    if n > 0 {
      hide Held;
      AlwaysHeld(run, n - 1);
      var ch := ReachableWith(run, n - 1);
      ApplyHolds(At(run, n - 1), ch, run[n - 1]);
    }
  }

  /** The claim of the node that has the job, in the current execution of the run. */
  function ClaimFor(db: Db, j: JobId): Claim
    requires j in db.jobs && db.jobs[j].node.Some? && db.jobs[j].run in db.runs
  {
    var job := db.jobs[j];
    Claim(j, job.node.value, job.run, job.attempt, db.runs[job.run].resumes)
  }

  lemma RunningHeld(run: seq<Event>, n: nat, j: JobId)
    requires n <= |run| && j in At(run, n).db.jobs && At(run, n).db.jobs[j].status.Running?
    ensures var db := At(run, n).db;
            && db.jobs[j].node.Some? && db.jobs[j].run in db.runs && ClaimFor(db, j) in At(run, n).claims
            && db.jobs[j].attempt == db.runs[db.jobs[j].run].attempt
  {
    AlwaysHeld(run, n);
    assert HeldBy(At(run, n), j);
    var ch := ReachableWith(run, n);
    AlwaysCurrent(At(run, n).db, ch, j);
  }

  /**
    The node that runs a job can end it: a report with its claim is applied, whatever happened since the claim. Only
    the success of a job with a successor asks for more: a canonical input and an output.
   */
  lemma RunningCanReport(run: seq<Event>, n: nat, j: JobId, result: JobStatus, sha: string, locked: bool)
    requires n <= |run| && j in At(run, n).db.jobs && At(run, n).db.jobs[j].status == Running
    ensures At(run, n).db.jobs[j].node.Some? && At(run, n).db.jobs[j].run in At(run, n).db.runs
    ensures var c, job := ClaimFor(At(run, n).db, j), At(run, n).db.jobs[j];
            Applied(run[..n] + [Deliver(c, c.resumes, result, sha, locked)], n) <==>
              && result in {Success, Fail, Error, Cancelled}
              && (result == Success && job.next != None ==> CanonicalSha(job.shaIn) && sha != "")
  {
    hide CanonicalSha, At;
    RunningHeld(run, n, j);
    var c := ClaimFor(At(run, n).db, j);
    SameStart(run, n, Deliver(c, c.resumes, result, sha, locked));
  }

  /**
    A report is applied exactly when it carries its claim's resume count, the run is still in the execution of the
    claim, the job still runs on the node that reports, and the reported result can be applied.
   */
  lemma AppliedExactly(run: seq<Event>, i: nat)
    requires i < |run| && run[i].Deliver? && run[i].claim in At(run, i).claims
    ensures var db, e, c := At(run, i).db, run[i], run[i].claim;
            Applied(run, i) <==>
              && e.resume == c.resumes && SameExecution(db, c) && c.job in db.jobs
              && db.jobs[c.job].status == Running && db.jobs[c.job].node == Some(c.node)
              && e.result in {Success, Fail, Error, Cancelled}
              && (e.result == Success && db.jobs[c.job].next != None ==>
                    CanonicalSha(db.jobs[c.job].shaIn) && e.shaOut != "")
  {
    hide At, CanonicalSha;
    var c := run[i].claim;
    var k := ClaimOrigin(run, i, c);
    ClaimStaysBehind(run, k, i, c);
    if Applied(run, i) { AppliedNow(At(run, i).db, c, Message(run[i])); }
  }

  /** A report that is not applied changes nothing. */
  lemma RefusedReport(run: seq<Event>, i: nat)
    requires i < |run| && run[i].Deliver? && !Applied(run, i)
    ensures At(run, i + 1) == At(run, i)
  {
  }

  lemma {:induction false} SameStart(run: seq<Event>, n: nat, e: Event)
    requires n <= |run|
    ensures At(run[..n] + [e], n) == At(run, n)
  {
    SamePrefix(run, run[..n] + [e], n);
  }

  lemma {:induction false} SamePrefix(a: seq<Event>, b: seq<Event>, n: nat)
    requires n <= |a| && n <= |b| && forall i :: 0 <= i < n ==> a[i] == b[i]
    ensures At(a, n) == At(b, n)
  {
    hide Apply;
    if n > 0 { SamePrefix(a, b, n - 1); }
  }
}
