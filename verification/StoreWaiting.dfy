/**
  What waits stays ready: behind an active job every job is created, and a job that has not run is as it was planned
  or reset. This is a second invariant, kept by every event, from which progress follows.
 */
module StoreWaiting {
  import opened Wrappers
  import opened StoreModel
  import opened StoreInvariant
  import opened StoreSteps
  import opened StoreInsert
  import opened StoreRestart
  import opened StoreRuns

  /** The successor of an active job is created. */
  predicate Behind(jobs: Jobs, j: JobId)
    requires j in jobs
  {
    ActiveJob(jobs[j].status) && jobs[j].next.Some? && jobs[j].next.value in jobs ==>
      jobs[jobs[j].next.value].status.Created?
  }

  /**
    An active job has no output; one that waits has not started, and has a node only if its run was resumed. The empty
    node id never has a job.
   */
  predicate Ready(runs: Runs, job: Job) {
    && (ActiveJob(job.status) ==> job.shaOut == "")
    && (job.status.Created? || job.status.Queued? ==> !job.started)
    && (job.status.Created? ==> job.node.None?)
    && (job.status.Queued? && job.node.Some? ==> job.run in runs && runs[job.run].resumes > 0)
    && job.node != Some(NO_NODE)
  }

  predicate Waiting(runs: Runs, jobs: Jobs) {
    forall j :: j in jobs ==> Behind(jobs, j) && Ready(runs, jobs[j])
  }

  // ---------------------------------------------------------------- what the walk along next ids visits

  lemma {:induction false} WalkIsSuffix(jobs: Jobs, k: Key, c: seq<JobId>, i: nat, seen: set<JobId>)
    requires IsChain(jobs, k, c) && i <= |c| && forall m :: i <= m < |c| ==> c[m] !in seen
    ensures Walk(jobs, k.run, k.attempt, if i < |c| then Some(c[i]) else None, seen) == Elements(c[i..])
    decreases |c| - i
  {
    if i < |c| {
      assert LinkAt(jobs, c, i);
      WalkIsSuffix(jobs, k, c, i + 1, seen + {c[i]});
      assert c[i..] == [c[i]] + c[i + 1..];
      assert Elements(c[i..]) == {c[i]} + Elements(c[i + 1..]);
    }
  }

  /** After job `i` of a chain the walk visits exactly the jobs behind it. */
  lemma WalkBehind(jobs: Jobs, k: Key, c: seq<JobId>, i: nat)
    requires IsChain(jobs, k, c) && i < |c|
    ensures Walk(jobs, k.run, k.attempt, jobs[c[i]].next, {}) == Elements(c[i + 1..])
  {
    assert LinkAt(jobs, c, i);
    WalkIsSuffix(jobs, k, c, i + 1, {});
  }

  // ---------------------------------------------------------------- single transactions

  lemma ClaimWaits(db: Db, n: NodeId, j: JobId)
    requires Waiting(db.runs, db.jobs) && Claimable(db, n, j)
    ensures Waiting(db.runs, Claimed(db, n, j).jobs)
  {
    var jobs' := Claimed(db, n, j).jobs;
    forall x | x in jobs' ensures Behind(jobs', x) && Ready(db.runs, jobs'[x]) {
      assert Behind(db.jobs, x) && Ready(db.runs, db.jobs[x]);
    }
  }

  lemma UnclaimWaits(db: Db, n: NodeId, j: JobId)
    requires Waiting(db.runs, db.jobs)
    ensures Waiting(db.runs, Unclaimed(db, n, j).jobs)
  {
    var jobs' := Unclaimed(db, n, j).jobs;
    forall x | x in jobs' ensures Behind(jobs', x) && Ready(db.runs, jobs'[x]) {
      assert Behind(db.jobs, x) && Ready(db.runs, db.jobs[x]);
    }
  }

  lemma PromoteWaits(runs: Runs, jobs: Jobs, j: JobId)
    requires Waiting(runs, jobs)
    ensures Waiting(runs, Promoted(jobs, j))
  {
    var jobs' := Promoted(jobs, j);
    forall x | x in jobs' ensures Behind(jobs', x) && Ready(runs, jobs'[x]) {
      assert Behind(jobs, x) && Ready(runs, jobs[x]);
    }
  }

  /** With a job its predecessor is in the set, unless that is settled. */
  predicate FromTheFront(jobs: Jobs, ids: set<JobId>) {
    forall p :: p in jobs && ActiveJob(jobs[p].status) && jobs[p].next.Some? && jobs[p].next.value in ids ==> p in ids
  }

  lemma CancelWaits(runs: Runs, jobs: Jobs, ids: set<JobId>)
    requires Waiting(runs, jobs) && FromTheFront(jobs, ids)
    ensures Waiting(runs, CancelJobs(jobs, ids))
  {
    var jobs' := CancelJobs(jobs, ids);
    forall x | x in jobs' ensures Behind(jobs', x) && Ready(runs, jobs'[x]) {
      assert Behind(jobs, x) && Ready(runs, jobs[x]);
    }
  }

  /** Links stay within an attempt, so whole attempts and runs are cancelled from the front. */
  lemma LinksWithin(jobs: Jobs, ch: Chains, p: JobId)
    requires Chained(jobs, ch) && p in jobs && jobs[p].next.Some?
    ensures jobs[p].next.value in jobs && SameAttempt(jobs[p], jobs[jobs[p].next.value])
  {
    UniquePredecessor(jobs, ch, p, p);
  }

  lemma AttemptFromTheFront(jobs: Jobs, ch: Chains, r: RunId, attempt: nat)
    requires Chained(jobs, ch)
    ensures FromTheFront(jobs, JobsOfAttempt(jobs, r, attempt)) && FromTheFront(jobs, JobsOfRun(jobs, r))
  {
    forall p | p in jobs && jobs[p].next.Some?
      ensures jobs[p].next.value in jobs && SameAttempt(jobs[p], jobs[jobs[p].next.value])
    {
      LinksWithin(jobs, ch, p);
    }
  }

  lemma RunsFromTheFront(jobs: Jobs, ch: Chains, rs: set<RunId>)
    requires Chained(jobs, ch)
    ensures FromTheFront(jobs, JobsOfRuns(jobs, rs))
  {
    forall p | p in jobs && jobs[p].next.Some?
      ensures jobs[p].next.value in jobs && SameAttempt(jobs[p], jobs[jobs[p].next.value])
    {
      LinksWithin(jobs, ch, p);
    }
  }

  lemma BehindFromTheFront(jobs: Jobs, ch: Chains, k: Key, i: nat)
    requires Chained(jobs, ch) && k in ch && i < |ch[k]| && Settled(jobs[ch[k][i]].status)
    ensures FromTheFront(jobs, Elements(ch[k][i + 1..]))
  {
    var c := ch[k];
    assert IsChain(jobs, k, c);
    forall p | p in jobs && ActiveJob(jobs[p].status) && jobs[p].next.Some? && jobs[p].next.value in c[i + 1..]
      ensures p in c[i + 1..]
    {
      var m :| i < m < |c| && c[m] == jobs[p].next.value;
      assert LinkAt(jobs, c, m - 1);
      UniquePredecessor(jobs, ch, p, c[m - 1]);
      assert c[i + 1..][m - 1 - (i + 1)] == p;
    }
  }

  lemma CompleteRowsWait(runs: Runs, jobs: Jobs, j: JobId, status: JobStatus, shaOut: string)
    requires Waiting(runs, jobs) && j in jobs && jobs[j].status.Running? && Settled(status)
    ensures Waiting(runs, CompleteRows(jobs, j, status, shaOut))
  {
    var jobs' := CompleteRows(jobs, j, status, shaOut);
    forall x | x in jobs' ensures Behind(jobs', x) && Ready(runs, jobs'[x]) {
      assert Behind(jobs, x) && Ready(runs, jobs[x]);
    }
  }

  lemma CompleteWaits(db: Db, ch: Chains, m: Completion, nextLocked: bool)
    requires InvWith(db, ch) && Waiting(db.runs, db.jobs)
    ensures Waiting(db.runs, CompleteTx(db, m, nextLocked).jobs)
  {
    hide Waiting, CompleteRows;
    if Accepts(db, m) {
      var jobs := CompleteRows(db.jobs, m.job, m.status, m.shaOut);
      CompleteRowsWait(db.runs, db.jobs, m.job, m.status, m.shaOut);
      CompleteRowsInv(db.runs, db.jobs, ch, m.job, m.status, m.shaOut);
      DoneRow(db.jobs, m.job, m.status, m.shaOut);
      var job := jobs[m.job];
      if job.status.Success? {
        if job.next.Some? { PromoteWaits(db.runs, jobs, job.next.value); }
      } else {
        var k := Key(job.run, job.attempt);
        assert IsChain(jobs, k, ch[k]);
        var i := IndexIn(ch[k], m.job);
        WalkBehind(jobs, k, ch[k], i);
        BehindFromTheFront(jobs, ch, k, i);
        CancelWaits(db.runs, jobs, Elements(ch[k][i + 1..]));
      }
    }
  }

  /** The completed row has the reported status. */
  lemma DoneRow(jobs: Jobs, j: JobId, status: JobStatus, shaOut: string)
    requires j in jobs
    ensures var rows := CompleteRows(jobs, j, status, shaOut);
            j in rows && rows[j].status == status && rows[j].next == jobs[j].next && SameAttempt(rows[j], jobs[j])
  {
  }

  // ---------------------------------------------------------------- runs and new chains

  predicate SameResumes(runs: Runs, runs': Runs) {
    forall r :: r in runs ==> r in runs' && runs'[r].resumes == runs[r].resumes
  }

  lemma RunsWait(runs: Runs, runs': Runs, jobs: Jobs)
    requires Waiting(runs, jobs) && SameResumes(runs, runs')
    ensures Waiting(runs', jobs)
  {
    forall x | x in jobs ensures Behind(jobs, x) && Ready(runs', jobs[x]) {
      assert Behind(jobs, x) && Ready(runs, jobs[x]);
    }
  }

  /** The run of a queued job keeps its resumes, or more of them. */
  predicate ResumesKept(runs: Runs, runs': Runs, jobs: Jobs) {
    forall j :: j in jobs && jobs[j].status.Queued? && jobs[j].run in runs && runs[jobs[j].run].resumes > 0 ==>
      jobs[j].run in runs' && runs'[jobs[j].run].resumes > 0
  }

  lemma ReadyKept(runs: Runs, runs': Runs, jobs: Jobs)
    requires Waiting(runs, jobs) && ResumesKept(runs, runs', jobs)
    ensures Waiting(runs', jobs)
  {
    forall x | x in jobs ensures Behind(jobs, x) && Ready(runs', jobs[x]) {
      assert Behind(jobs, x) && Ready(runs, jobs[x]);
    }
  }

  lemma PlannedWaits(runs: Runs, jobs: Jobs, jobs': Jobs, ch: Chains, r: RunId, run: Run, plans: seq<JobPlan>,
                     ids: seq<JobId>)
    requires Waiting(runs, jobs) && Chained(jobs, ch) && Planned(jobs, jobs', r, run, plans, ids)
    ensures Waiting(runs, jobs')
  {
    forall x | x in jobs' ensures Behind(jobs', x) && Ready(runs, jobs'[x]) {
      if x in jobs {
        assert Behind(jobs, x) && Ready(runs, jobs[x]);
        if jobs[x].next.Some? { LinksWithin(jobs, ch, x); }
      } else {
        var i :| 0 <= i < |ids| && ids[i] == x;
        assert jobs'[ids[i]] == PlannedJob(r, run, plans, ids, i);
        if i + 1 < |ids| { assert jobs'[ids[i + 1]] == PlannedJob(r, run, plans, ids, i + 1); }
      }
    }
  }

  lemma InsertRunWaits(db: Db, ch: Chains, w: WaveId, plan: RunPlan, ids: seq<JobId>)
    requires JobInv(db.runs, db.jobs, ch) && Waiting(db.runs, db.jobs) && CanInsertRun(db, plan, ids)
    ensures var db' := InsertRun(db, w, plan, ids); Waiting(db'.runs, db'.jobs)
  {
    hide Waiting;
    var db' := InsertRun(db, w, plan, ids);
    InsertPlans(db.jobs, plan.id, db'.runs[plan.id], plan.jobs, ids);
    PlannedWaits(db.runs, db.jobs, db'.jobs, ch, plan.id, db'.runs[plan.id], plan.jobs, ids);
    RunsWait(db.runs, db'.runs, db'.jobs);
  }

  lemma {:induction false} InsertRunsWait(db: Db, ch: Chains, w: WaveId, plans: seq<RunPlan>, ids: seq<seq<JobId>>)
    requires |plans| == |ids| && InvWith(db, ch) && w in db.waves && Waiting(db.runs, db.jobs)
    requires InsertRuns(db, w, plans, ids).Some?
    ensures var db' := InsertRuns(db, w, plans, ids).value; Waiting(db'.runs, db'.jobs)
    decreases plans
  {
    hide Waiting;
    if plans != [] {
      InsertRunWaits(db, ch, w, plans[0], ids[0]);
      var ch' := InsertRunInv(db, ch, w, plans[0], ids[0]);
      InsertRunsWait(InsertRun(db, w, plans[0], ids[0]), ch', w, plans[1..], ids[1..]);
    }
  }

  lemma CreateWaits(db: Db, ch: Chains, w: WaveId, plans: seq<RunPlan>, ids: seq<seq<JobId>>)
    requires |plans| == |ids| && InvWith(db, ch) && Waiting(db.runs, db.jobs)
    ensures var db' := CreateWaveTx(db, w, plans, ids); Waiting(db'.runs, db'.jobs)
  {
    hide Waiting;
    var started := db.(waves := db.waves[w := Wave(WaveStarted)]);
    if plans != [] && w !in db.waves && InsertRuns(started, w, plans, ids).Some? {
      InsertRunsWait(started, ch, w, plans, ids);
    }
  }

  // ---------------------------------------------------------------- restarts

  lemma FullRestartWaits(db: Db, ch: Chains, arg: RestartArgs, ids: seq<JobId>)
    requires InvWith(db, ch) && Waiting(db.runs, db.jobs) && CanRestart(db, arg)
    ensures var db' := FullRestartTx(db, arg, ids); Waiting(db'.runs, db'.jobs)
  {
    hide Waiting;
    if CanPlan(db.jobs, arg.jobs, ids) {
      var run := db.runs[arg.run];
      var next := NextAttempt(run, arg.resumes);
      var ended := JobsOfAttempt(db.jobs, arg.run, run.attempt);
      var settled := CancelJobs(db.jobs, ended);
      AttemptFromTheFront(db.jobs, ch, arg.run, run.attempt);
      CancelWaits(db.runs, db.jobs, ended);
      CancelInv(db.runs, db.jobs, ch, ended);
      CancelSettles(db.runs, db.jobs, arg.run);
      ReadyKept(db.runs, db.runs[arg.run := next], settled);
      InsertPlans(settled, arg.run, next, arg.jobs, ids);
      var jobs' := FullRestartTx(db, arg, ids).jobs;
      PlannedWaits(db.runs[arg.run := next], settled, jobs', ch, arg.run, next, arg.jobs, ids);
    }
  }

  lemma ResumedWait(runs: Runs, jobs: Jobs, jobs': Jobs, ch: Chains, k: Key, f: nat)
    requires Waiting(runs, jobs) && Chained(jobs, ch) && k in ch && k.run in runs && runs[k.run].resumes > 0
    requires f < |ch[k]| && Resumed(jobs, jobs', ch[k], f)
    requires f > 0 ==> Settled(jobs[ch[k][f - 1]].status)
    requires forall i :: f < i < |ch[k]| ==> jobs[ch[k][i]].node.None?
    ensures Waiting(runs, jobs')
  {
    var c := ch[k];
    assert IsChain(jobs, k, c);
    forall x | x in jobs' ensures Behind(jobs', x) && Ready(runs, jobs'[x]) {
      assert Behind(jobs, x) && Ready(runs, jobs[x]);
      if x in c[f..] {
        var i :| f <= i < |c| && c[i] == x;
        assert jobs'[x] == ResumedJob(jobs[x], i == f);
        if jobs[x].next.Some? { ResetNext(jobs, jobs', ch, k, f, x); }
      } else {
        forall i | f <= i < |c| ensures c[i] != x { assert c[f..][i - f] == c[i]; }
        if ActiveJob(jobs[x].status) && jobs[x].next.Some? {
          forall i | f <= i < |c| ensures c[i] != jobs[x].next.value { KeptNext(jobs, ch, k, f, x, i); }
        }
      }
    }
  }

  lemma SuffixFromTheFront(jobs: Jobs, ch: Chains, k: Key, f: nat)
    requires Chained(jobs, ch) && k in ch && f < |ch[k]| && (f > 0 ==> Settled(jobs[ch[k][f - 1]].status))
    ensures FromTheFront(jobs, Elements(ch[k][f..]))
  {
    if f > 0 {
      BehindFromTheFront(jobs, ch, k, f - 1);
    } else {
      assert IsChain(jobs, k, ch[k]);
      assert ch[k][0..] == ch[k];
      assert JobsOfAttempt(jobs, k.run, k.attempt) == Elements(ch[k]);
      AttemptFromTheFront(jobs, ch, k.run, k.attempt);
    }
  }

  lemma ResetNext(jobs: Jobs, jobs': Jobs, ch: Chains, k: Key, f: nat, x: JobId)
    requires Chained(jobs, ch) && k in ch && f < |ch[k]| && Resumed(jobs, jobs', ch[k], f)
    requires x in ch[k][f..] && jobs[x].next.Some?
    ensures jobs[x].next.value in jobs && jobs'[jobs[x].next.value].status.Created?
  {
    var c := ch[k];
    assert IsChain(jobs, k, c);
    var i :| f <= i < |c| && c[i] == x;
    assert LinkAt(jobs, c, i);
    assert jobs'[c[i + 1]] == ResumedJob(jobs[c[i + 1]], false);
  }

  lemma KeptNext(jobs: Jobs, ch: Chains, k: Key, f: nat, x: JobId, i: nat)
    requires Chained(jobs, ch) && k in ch && f <= i < |ch[k]| && (f > 0 ==> Settled(jobs[ch[k][f - 1]].status))
    requires x in jobs && x !in ch[k][f..] && ActiveJob(jobs[x].status) && jobs[x].next.Some?
    ensures jobs[x].next.value != ch[k][i]
  {
    SuffixFromTheFront(jobs, ch, k, f);
    hide Chained;
    assert ch[k][f..][i - f] == ch[k][i];
    assert x !in Elements(ch[k][f..]);
  }

  /** What the acceptance of a resume says of the chain. */
  lemma ResumeAccepted(db: Db, arg: RestartArgs, chain: seq<JobId>)
    requires CanRestart(db, arg) && CanResume(db, arg, chain)
    ensures forall i :: 0 <= i < |chain| ==> chain[i] in db.jobs
    ensures var f := FirstUnfinished(db.jobs, chain);
            && f < |chain| && Retryable(db.jobs[chain[f]])
            && (forall i :: 0 <= i < f ==> db.jobs[chain[i]].status.Success?)
            && (forall i :: f < i < |chain| ==> NeverRan(db.jobs[chain[i]]))
            && CompleteChain(db.jobs, arg.run, db.runs[arg.run].attempt, chain)
  {
  }

  lemma ResumeWaits(db: Db, ch: Chains, arg: RestartArgs, chain: seq<JobId>)
    requires InvWith(db, ch) && Waiting(db.runs, db.jobs) && CanRestart(db, arg) && CanResume(db, arg, chain)
    ensures var db' := ResumeTx(db, arg, chain); Waiting(db'.runs, db'.jobs)
  {
    hide Waiting, Chained, Shaped, Complete, Seeded, Resumed, ResumeRows, CompleteChain, ResumableAt, PlanFor;
    ResumeAccepted(db, arg, chain);
    var db', f := ResumeTx(db, arg, chain), FirstUnfinished(db.jobs, chain);
    ResumeRowsResumed(db.jobs, ch, arg.run, db.runs[arg.run].attempt, chain, f);
    ReadyKept(db.runs, db'.runs, db.jobs);
    ResumedWait(db'.runs, db.jobs, db'.jobs, ch, Key(arg.run, db.runs[arg.run].attempt), f);
  }

  // ---------------------------------------------------------------- every reachable state

  lemma LaunchWaits(db: Db, ch: Chains, e: Launch)
    requires InvWith(db, ch) && Waiting(db.runs, db.jobs)
    ensures Waiting(LaunchTx(db, e).runs, LaunchTx(db, e).jobs)
  {
    hide Waiting, InvWith;
    match e
    case CreateWave(w, plans, ids) => if |plans| == |ids| { CreateWaits(db, ch, w, plans, ids); }
    case Restart(arg, ids, chain) =>
      if CanRestart(db, arg) {
        if !arg.fromFailed {
          FullRestartWaits(db, ch, arg, ids);
        } else if CanResume(db, arg, chain) {
          ResumeWaits(db, ch, arg, chain);
        }
      }
  }

  lemma WorkWaits(db: Db, ch: Chains, e: Work)
    requires InvWith(db, ch) && Waiting(db.runs, db.jobs)
    ensures Waiting(WorkTx(db, e).runs, WorkTx(db, e).jobs)
  {
    hide Waiting;
    match e
    case ClaimJob(n, j) => if Claimable(db, n, j) { ClaimWaits(db, n, j); }
    case UnclaimJob(n, j) => UnclaimWaits(db, n, j);
    case PromoteJob(j) => PromoteWaits(db.runs, db.jobs, j);
    case CancelAttempt(r, a) =>
      AttemptFromTheFront(db.jobs, ch, r, a);
      CancelWaits(db.runs, db.jobs, JobsOfAttempt(db.jobs, r, a));
  }

  lemma StopWaits(db: Db, ch: Chains, e: Stop)
    requires InvWith(db, ch) && Waiting(db.runs, db.jobs)
    ensures Waiting(StopTx(db, e).runs, StopTx(db, e).jobs)
  {
    hide Waiting, CancelJobs, FromTheFront, Shaped, Complete, Seeded, Short, Fed, OneOwner, Owned, OneRunPerRepo;
    match e
    case CancelRun(r) =>
      AttemptFromTheFront(db.jobs, ch, r, 0);
      CancelWaits(db.runs, db.jobs, JobsOfRun(db.jobs, r));
      RunsWait(db.runs, StopTx(db, e).runs, CancelJobs(db.jobs, JobsOfRun(db.jobs, r)));
    case CancelWave(w) =>
      var ids := JobsOfRuns(db.jobs, RunsOfWave(db.runs, w));
      RunsFromTheFront(db.jobs, ch, RunsOfWave(db.runs, w));
      CancelWaits(db.runs, db.jobs, ids);
      RunsWait(db.runs, StopTx(db, e).runs, CancelJobs(db.jobs, ids));
  }

  lemma ApplyWaits(s: Sys, ch: Chains, e: Event)
    requires InvWith(s.db, ch) && Waiting(s.db.runs, s.db.jobs)
    ensures Waiting(Apply(s, e).db.runs, Apply(s, e).db.jobs)
  {
    hide Waiting, InvWith, LaunchTx, WorkTx, StopTx, CompleteTx;
    match e
    case OnLaunch(l) => LaunchWaits(s.db, ch, l);
    case OnWork(w) => WorkWaits(s.db, ch, w);
    case OnStop(c) => StopWaits(s.db, ch, c);
    case OnOutside(o) => RunsWait(s.db.runs, OutsideTx(s.db, o).runs, s.db.jobs);
    case Deliver(_, _, _, _, locked) =>
      if Sendable(s, e) {
        CompleteWaits(s.db, ch, Message(e), locked);
        SameRuns(s.db, Message(e), locked);
      }
  }

  lemma SameRuns(db: Db, m: Completion, nextLocked: bool)
    ensures CompleteTx(db, m, nextLocked) == db.(jobs := CompleteTx(db, m, nextLocked).jobs)
  {
  }

  lemma EmptyWaits()
    ensures Waiting(EMPTY_DB.runs, EMPTY_DB.jobs)
  {
  }

  /** In every reachable state what waits is ready. */
  lemma {:induction false} AlwaysWaiting(run: seq<Event>, n: nat)
    requires n <= |run|
    ensures Waiting(At(run, n).db.runs, At(run, n).db.jobs)
  {
    hide Apply, Waiting, InvWith;
    if n == 0 {
      EmptyWaits();
    } else {
      AlwaysWaiting(run, n - 1);
      var ch := ReachableWith(run, n - 1);
      ApplyWaits(At(run, n - 1), ch, run[n - 1]);
    }
  }
}
