/** An attempt never gets stuck: while its front job is active, workers can bring the whole chain to success. */
module StoreProgress {
  import opened Wrappers
  import opened StoreModel
  import opened StoreInvariant
  import opened StoreSteps
  import opened StoreInsert
  import opened StoreRestart
  import opened StoreRuns
  import opened StoreEvolution
  import opened StoreTheorems
  import opened StoreFinished
  import opened StoreWaiting
  import opened StoreEffects
  import opened StoreLaunches
  import opened StoreHeld

  /** `c` is the chain of the run's current attempt, all of it. */
  predicate CurrentChain(db: Db, r: RunId, c: seq<JobId>) {
    && r in db.runs && IsChain(db.jobs, Key(r, db.runs[r].attempt), c)
    && forall j :: j in db.jobs && db.jobs[j].run == r && db.jobs[j].attempt == db.runs[r].attempt ==> j in c
  }

  /** The run goes on in a started wave, and node `n` may take the jobs of its attempt. */
  predicate Underway(db: Db, r: RunId, n: NodeId) {
    && r in db.runs && db.runs[r].status == RunRunning
    && db.runs[r].wave in db.waves && db.waves[db.runs[r].wave] == Wave(WaveStarted)
    && Able(db, n) && FreeFor(db, r, db.runs[r].attempt, n)
  }

  /** Everything before position `p` succeeded; the job at `p` is active. */
  predicate FrontAt(jobs: Jobs, c: seq<JobId>, p: nat) {
    && p < |c| && (forall i :: 0 <= i < |c| ==> c[i] in jobs)
    && (forall i :: 0 <= i < p ==> jobs[c[i]].status == Success)
    && ActiveJob(jobs[c[p]].status)
  }

  /** The job's success can be applied: it is the last one or has a canonical input. */
  predicate CanSucceed(jobs: Jobs, c: seq<JobId>, p: nat)
    requires p < |c| && c[p] in jobs
  {
    p == |c| - 1 || CanonicalSha(jobs[c[p]].shaIn)
  }

  predicate OnFront(db: Db, r: RunId, n: NodeId, c: seq<JobId>, p: nat) {
    CurrentChain(db, r, c) && Underway(db, r, n) && FrontAt(db.jobs, c, p) && CanSucceed(db.jobs, c, p)
  }

  /** Only jobs of `c` were written. */
  predicate Within(db: Db, db': Db, c: seq<JobId>) {
    OnlyJobs(db, db') && SameBut(db.jobs, db'.jobs, Elements(c))
  }

  /** The job at the front is as it was, except for its status, its node and its start. */
  predicate Moved(db: Db, db': Db, c: seq<JobId>, p: nat, n: NodeId)
    requires p < |c| && c[p] in db.jobs
  {
    && OnlyJobs(db, db') && SameBut(db.jobs, db'.jobs, {c[p]}) && c[p] in db'.jobs
    && ActiveJob(db'.jobs[c[p]].status) && (db'.jobs[c[p]].node in {db.jobs[c[p]].node, Some(n)})
    && db'.jobs[c[p]] == db.jobs[c[p]].(status := db'.jobs[c[p]].status, node := db'.jobs[c[p]].node,
                                        started := db'.jobs[c[p]].started)
  }

  lemma StillChain(jobs: Jobs, jobs': Jobs, key: Key, c: seq<JobId>)
    requires IsChain(jobs, key, c) && SameSkeleton(jobs, jobs')
    ensures IsChain(jobs', key, c)
  {
    forall i | 0 <= i < |c| ensures LinkAt(jobs', c, i) { assert LinkAt(jobs, c, i); }
  }

  lemma MovedFront(db: Db, db': Db, r: RunId, n: NodeId, c: seq<JobId>, p: nat)
    requires OnFront(db, r, n, c, p) && Moved(db, db', c, p, n)
    ensures OnFront(db', r, n, c, p) && Within(db, db', c)
  {
    StillChain(db.jobs, db'.jobs, Key(r, db.runs[r].attempt), c);
  }

  // ---------------------------------------------------------------- one job

  /** What workers do to an attempt: queue its jobs, claim them for `n`, report their success. */
  predicate Worker(e: Event, n: NodeId) {
    || (e.OnWork? && e.work.PromoteJob?)
    || (e.OnWork? && e.work.ClaimJob? && e.work.node == n)
    || (e.Deliver? && e.claim.node == n && e.result == Success)
  }

  lemma FrontQueues(db: Db, ch: Chains, r: RunId, n: NodeId, c: seq<JobId>, p: nat)
    requires InvWith(db, ch) && OnFront(db, r, n, c, p) && db.jobs[c[p]].status.Created?
    ensures Moved(db, db.(jobs := Promoted(db.jobs, c[p])), c, p, n) && Promoted(db.jobs, c[p])[c[p]].status.Queued?
  {
    forall q | q in db.jobs && db.jobs[q].next == Some(c[p]) ensures db.jobs[q].status.Success? {
      InFront(db, ch, Key(r, db.runs[r].attempt), c, p, q);
    }
  }

  /** The predecessor of a job is the one before it in the chain. */
  lemma InFront(db: Db, ch: Chains, key: Key, c: seq<JobId>, p: nat, q: JobId)
    requires InvWith(db, ch) && IsChain(db.jobs, key, c) && p < |c| && q in db.jobs && db.jobs[q].next == Some(c[p])
    requires forall j :: j in db.jobs && db.jobs[j].run == key.run && db.jobs[j].attempt == key.attempt ==> j in c
    ensures p > 0 && q == c[p - 1]
  {
    hide Shaped, Complete, Seeded, Short, Fed, OneOwner, Owned, OneRunPerRepo, Placed, OldSettled, Waved, Chained;
    LinksWithin(db.jobs, ch, q);
    var i := IndexIn(c, q);
    assert LinkAt(db.jobs, c, i);
  }

  lemma FrontClaims(db: Db, r: RunId, n: NodeId, c: seq<JobId>, p: nat)
    requires OnFront(db, r, n, c, p) && db.jobs[c[p]].status.Queued?
    ensures Claimable(db, n, c[p]) && Moved(db, Claimed(db, n, c[p]), c, p, n)
  {
  }

  /** The front job can be brought to run on the node. */
  lemma {:induction false} BringToRun(run: seq<Event>, r: RunId, n: NodeId, c: seq<JobId>, p: nat)
      returns (later: seq<Event>)
    requires OnFront(At(run, |run|).db, r, n, c, p)
    ensures forall e :: e in later ==> Worker(e, n)
    ensures var db, db' := At(run, |run|).db, Then(run, later).db;
            OnFront(db', r, n, c, p) && db'.jobs[c[p]].status.Running? && Within(db, db', c)
    decreases StepsToRun(At(run, |run|).db.jobs[c[p]].status)
  {
    hide OnFront, Moved, InvWith, Claimable, Within;
    var db := At(run, |run|).db;
    AFront(db, r, n, c, p);
    ThenNone(run);
    if db.jobs[c[p]].status.Running? {
      later := [];
      NothingWritten(db, c);
    } else {
      var e := OnWork(if db.jobs[c[p]].status.Created? then PromoteJob(c[p]) else ClaimJob(n, c[p]));
      var ch := ReachableWith(run, |run|);
      ThenMore(run, [], e);
      assert run + ([] + [e]) == run + [e];
      var db1 := At(run + [e], |run + [e]|).db;
      FrontStep(db, ch, r, n, c, p, db1);
      MovedFront(db, db1, r, n, c, p);
      var rest := BringToRun(run + [e], r, n, c, p);
      later := [e] + rest;
      assert run + later == run + [e] + rest;
      WithinTrans(db, db1, Then(run, later).db, c);
    }
  }

  function StepsToRun(s: JobStatus): nat {
    match s
    case Created => 2
    case Queued => 1
    case _ => 0
  }

  lemma AFront(db: Db, r: RunId, n: NodeId, c: seq<JobId>, p: nat)
    requires OnFront(db, r, n, c, p)
    ensures p < |c| && c[p] in db.jobs && ActiveJob(db.jobs[c[p]].status)
  {
  }

  lemma NothingWritten(db: Db, c: seq<JobId>)
    ensures Within(db, db, c)
  {
  }

  lemma WithinTrans(a: Db, b: Db, d: Db, c: seq<JobId>)
    requires Within(a, b, c) && Within(b, d, c)
    ensures Within(a, d, c)
  {
  }

  lemma FrontStep(db: Db, ch: Chains, r: RunId, n: NodeId, c: seq<JobId>, p: nat, db1: Db)
    requires InvWith(db, ch) && OnFront(db, r, n, c, p) && !db.jobs[c[p]].status.Running?
    requires db1 == WorkTx(db, if db.jobs[c[p]].status.Created? then PromoteJob(c[p]) else ClaimJob(n, c[p]))
    ensures Moved(db, db1, c, p, n)
    ensures if db.jobs[c[p]].status.Created? then db1.jobs[c[p]].status.Queued? else db1.jobs[c[p]].status.Running?
  {
    hide InvWith, OnFront, Moved, Claimable;
    AFront(db, r, n, c, p);
    if db.jobs[c[p]].status.Created? {
      FrontQueues(db, ch, r, n, c, p);
    } else {
      FrontClaims(db, r, n, c, p);
    }
  }

  const SHA := seq(40, _ => '0')

  lemma CanonicalExists()
    ensures CanonicalSha(SHA)
  {
  }

  /** After its success the job's successor is at the front, or all jobs succeeded. */
  lemma FrontMovesOn(db: Db, db': Db, r: RunId, n: NodeId, c: seq<JobId>, p: nat, sha: string)
    requires OnFront(db, r, n, c, p) && CanonicalSha(sha) && OnlyJobs(db, db')
    requires MovedOn(db.jobs, db'.jobs, c[p], sha, false)
    ensures CurrentChain(db', r, c) && Within(db, db', c)
    ensures if p + 1 < |c| then OnFront(db', r, n, c, p + 1) else AllSucceeded(db', r)
  {
    hide CanonicalSha;
    assert LinkAt(db.jobs, c, p);
    RowsMoveOn(db.jobs, db'.jobs, Key(r, db.runs[r].attempt), c, p, sha);
    hide MovedOn, IsChain;
  }

  lemma RowsMoveOn(jobs: Jobs, jobs': Jobs, key: Key, c: seq<JobId>, p: nat, sha: string)
    requires IsChain(jobs, key, c) && FrontAt(jobs, c, p) && MovedOn(jobs, jobs', c[p], sha, false)
    ensures IsChain(jobs', key, c) && SameSkeleton(jobs, jobs') && SameBut(jobs, jobs', Elements(c))
    ensures forall j :: j in jobs ==> jobs'[j].node == jobs[j].node
    ensures forall i :: 0 <= i <= p ==> jobs'[c[i]].status == Success
    ensures p + 1 < |c| ==> jobs'[c[p + 1]].status == Queued && jobs'[c[p + 1]].shaIn == sha
  {
    assert LinkAt(jobs, c, p);
    StillChain(jobs, jobs', key, c);
    forall i | 0 <= i < p ensures jobs'[c[i]].status == Success {
      assert c[i] != c[p] && (p + 1 < |c| ==> c[i] != c[p + 1]);
    }
  }

  /** Every job of the run's attempt succeeded. */
  predicate AllSucceeded(db: Db, r: RunId) {
    && r in db.runs
    && forall j :: j in db.jobs && db.jobs[j].run == r && db.jobs[j].attempt == db.runs[r].attempt ==>
         db.jobs[j].status == Success
  }

  lemma FrontReports(run: seq<Event>, r: RunId, n: NodeId, c: seq<JobId>, p: nat) returns (e: Event)
    requires OnFront(At(run, |run|).db, r, n, c, p) && At(run, |run|).db.jobs[c[p]].status.Running?
    ensures Worker(e, n)
    ensures var db, db' := At(run, |run|).db, At(run + [e], |run| + 1).db;
            && Within(db, db', c) && CurrentChain(db', r, c)
            && if p + 1 < |c| then OnFront(db', r, n, c, p + 1) else AllSucceeded(db', r)
  {
    hide MovedOn, CanonicalSha, Applied, Within, AllSucceeded;
    var db := At(run, |run|).db;
    assert LinkAt(db.jobs, c, p);
    CanonicalExists();
    RunningCanReport(run, |run|, c[p], Success, SHA, false);
    var claim := ClaimFor(db, c[p]);
    e := Deliver(claim, claim.resumes, Success, SHA, false);
    assert run[..|run|] == run;
    AtPrefix(run, [e], |run|);
    SuccessMovesOn(run + [e], |run|);
    FrontMovesOn(db, At(run + [e], |run| + 1).db, r, n, c, p, SHA);
  }

  // ---------------------------------------------------------------- the whole chain

  /**
    While the front job of a run's chain is active and its success can be applied, the node that may take the jobs
    brings the whole chain to success, and touches nothing but the chain.
   */
  lemma {:induction false} NeverStuck(run: seq<Event>, r: RunId, n: NodeId, c: seq<JobId>, p: nat)
      returns (later: seq<Event>)
    requires OnFront(At(run, |run|).db, r, n, c, p)
    ensures forall e :: e in later ==> Worker(e, n)
    ensures AllSucceeded(Then(run, later).db, r) && CurrentChain(Then(run, later).db, r, c)
    ensures Within(At(run, |run|).db, Then(run, later).db, c)
    decreases |c| - p
  {
    hide OnFront, AllSucceeded, Within, Apply, CurrentChain;
    AFront(At(run, |run|).db, r, n, c, p);
    var first := BringToRun(run, r, n, c, p);
    var e := FrontReports(run + first, r, n, c, p);
    var sofar := first + [e];
    assert run + sofar == run + first + [e];
    WithinTrans(At(run, |run|).db, Then(run, first).db, Then(run, sofar).db, c);
    later := sofar;
    if p + 1 < |c| {
      var rest := NeverStuck(run + sofar, r, n, c, p + 1);
      later := sofar + rest;
      assert run + later == run + sofar + rest;
      WithinTrans(At(run, |run|).db, Then(run, sofar).db, Then(run, later).db, c);
    }
  }

  // ---------------------------------------------------------------- the exact condition

  /** A job whose success will never be applied: it has a successor, and its final input is not canonical. */
  predicate Doomed(jobs: Jobs, j: JobId) {
    && j in jobs && !jobs[j].status.Success? && jobs[j].next.Some? && !CanonicalSha(jobs[j].shaIn)
    && forall q :: q in jobs && jobs[q].next == Some(j) ==> jobs[q].status.Success?
  }

  /** The job's success and input are as they were, and no new job points to it. */
  predicate Unfed(jobs: Jobs, jobs': Jobs, j: JobId) {
    && j in jobs' && !jobs'[j].status.Success? && j in jobs && jobs'[j].shaIn == jobs[j].shaIn
    && forall q :: q in jobs' && jobs'[q].next == Some(j) ==> q in jobs && jobs[q].next == Some(j)
  }

  lemma DoomedKept(db: Db, db': Db, j: JobId)
    requires Doomed(db.jobs, j) && Unfed(db.jobs, db'.jobs, j) && Evolves(db, db')
    ensures Doomed(db'.jobs, j)
  {
    hide CanonicalSha;
    assert JobEvolves(Resumable(db.runs, db.jobs[j]), db.jobs[j], db'.jobs[j]);
    forall q | q in db'.jobs && db'.jobs[q].next == Some(j) ensures db'.jobs[q].status.Success? {
      assert JobEvolves(Resumable(db.runs, db.jobs[q]), db.jobs[q], db'.jobs[q]);
    }
  }

  lemma CreateUnfed(db: Db, db': Db, w: WaveId, plans: seq<RunPlan>, ids: seq<seq<JobId>>, j: JobId)
    requires |plans| == |ids| && AllAdded(db, db', w, plans, ids) && AllFit(db, plans, ids) && Doomed(db.jobs, j)
    ensures Unfed(db.jobs, db'.jobs, j)
  {
    hide CanonicalSha;
    forall q | q in db'.jobs && q !in db.jobs ensures db'.jobs[q].next != Some(j) {
      var k :| 0 <= k < |ids| && q in ids[k];
      assert RunAdded(db', w, plans[k], ids[k]) && Fits(db, plans[k], ids[k]);
      var i :| 0 <= i < |ids[k]| && ids[k][i] == q;
      assert RowOf(db'.jobs[ids[k][i]], plans[k].id, 1, plans[k].sha0, plans[k].jobs, ids[k], i);
    }
  }

  lemma ReplacedUnfed(jobs: Jobs, jobs': Jobs, r: RunId, attempt: nat, sha0: string, plans: seq<JobPlan>,
                      ids: seq<JobId>, j: JobId)
    requires ChainReplaced(jobs, jobs', r, attempt, sha0, plans, ids) && Doomed(jobs, j)
    ensures Unfed(jobs, jobs', j)
  {
    hide CanonicalSha;
    forall q | q in jobs' && q !in jobs ensures jobs'[q].next != Some(j) {
      var i :| 0 <= i < |ids| && ids[i] == q;
      assert RowOf(jobs'[ids[i]], r, attempt, sha0, plans, ids, i);
    }
  }

  lemma ResumedUnfed(jobs: Jobs, jobs': Jobs, key: Key, c: seq<JobId>, f: nat, j: JobId)
    requires ChainGoesOn(jobs, jobs', c, f) && IsChain(jobs, key, c) && Doomed(jobs, j)
    requires CanonicalSha(jobs[c[f]].shaIn)
    ensures Unfed(jobs, jobs', j)
  {
    hide CanonicalSha;
    forall i | f <= i < |c| ensures c[i] != j {
      if i > f {
        assert LinkAt(jobs, c, i - 1);
        assert i - 1 > f ==> CreatedAgain(jobs[c[i - 1]], jobs'[c[i - 1]]);
      }
    }
    forall q | q in jobs' ensures jobs'[q].next == jobs[q].next {
      if q in c[f..] { var i :| f <= i < |c| && c[i] == q; }
    }
  }

  lemma CompletedUnfed(db: Db, m: Completion, nextLocked: bool, j: JobId)
    requires Doomed(db.jobs, j)
    ensures Unfed(db.jobs, CompleteTx(db, m, nextLocked).jobs, j)
  {
    hide CanonicalSha;
  }

  lemma StopUnfed(db: Db, e: Stop, j: JobId)
    requires Doomed(db.jobs, j)
    ensures Unfed(db.jobs, StopTx(db, e).jobs, j)
  {
    hide CanonicalSha;
  }

  lemma WorkUnfed(db: Db, e: Work, j: JobId)
    requires Doomed(db.jobs, j)
    ensures Unfed(db.jobs, WorkTx(db, e).jobs, j)
  {
    hide CanonicalSha;
  }

  lemma LaunchUnfed(db: Db, ch: Chains, e: Launch, j: JobId)
    requires InvWith(db, ch) && Doomed(db.jobs, j)
    ensures Unfed(db.jobs, LaunchTx(db, e).jobs, j)
  {
    hide CanonicalSha, InvWith, InsertRuns, AllAdded, AllFit, CanResume, ResumeTx, FullRestartTx, ChainGoesOn, RepoBusy;
    hide FreshIds, ChainReplaced, Claimable;
    match e
    case CreateWave(w, plans, ids) =>
      if |plans| == |ids| {
        var started := db.(waves := db.waves[w := Wave(WaveStarted)]);
        InsertRunsExactly(started, w, plans, ids);
        if InsertRuns(started, w, plans, ids).Some? {
          CreateUnfed(started, InsertRuns(started, w, plans, ids).value, w, plans, ids, j);
        }
      }
    case Restart(arg, ids, chain) =>
      if CanRestart(db, arg) && !arg.fromFailed {
        if CanPlan(db.jobs, arg.jobs, ids) {
          FullRestartRows(db, ch, arg, ids);
          var jobs', run := FullRestartTx(db, arg, ids).jobs, db.runs[arg.run];
          ReplacedUnfed(db.jobs, jobs', arg.run, run.attempt + 1, run.sha0, arg.jobs, ids, j);
        } else {
          KeptRuns(db, arg, ids);
        }
      } else if CanRestart(db, arg) && CanResume(db, arg, chain) {
        ResumeUnfed(db, ch, arg, chain, j);
      }
  }

  lemma ResumeUnfed(db: Db, ch: Chains, arg: RestartArgs, c: seq<JobId>, j: JobId)
    requires InvWith(db, ch) && CanRestart(db, arg) && CanResume(db, arg, c) && Doomed(db.jobs, j)
    ensures Unfed(db.jobs, ResumeTx(db, arg, c).jobs, j)
  {
    hide CanonicalSha, InvWith, CanResume, ResumeTx, RepoBusy, Doomed, Unfed, ChainGoesOn;
    var f := ResumeGoesOn(db, ch, arg, c);
    CanonicalFront(db, arg, c, f);
    ResumedUnfed(db.jobs, ResumeTx(db, arg, c).jobs, Key(arg.run, db.runs[arg.run].attempt), c, f, j);
  }

  lemma CanonicalFront(db: Db, arg: RestartArgs, c: seq<JobId>, f: nat)
    requires CanRestart(db, arg) && CanResume(db, arg, c) && ChainGoesOn(db.jobs, ResumeTx(db, arg, c).jobs, c, f)
    ensures CanonicalSha(db.jobs[c[f]].shaIn)
  {
    hide CanonicalSha, ResumeTx;
    ResumeAccepted(db, arg, c);
    assert f == FirstUnfinished(db.jobs, c);
  }

  lemma StepUnfed(s: Sys, ch: Chains, e: Event, j: JobId)
    requires InvWith(s.db, ch) && Doomed(s.db.jobs, j)
    ensures Unfed(s.db.jobs, Apply(s, e).db.jobs, j)
  {
    hide InvWith, LaunchTx, WorkTx, StopTx, CompleteTx, CanonicalSha;
    match e
    case OnLaunch(l) => LaunchUnfed(s.db, ch, l, j);
    case OnWork(w) => WorkUnfed(s.db, w, j);
    case OnStop(c) => StopUnfed(s.db, c, j);
    case OnOutside(_) =>
    case Deliver(_, _, _, _, locked) => if Sendable(s, e) { CompletedUnfed(s.db, Message(e), locked, j); }
  }

  /** A doomed job never succeeds, whatever happens. */
  lemma {:induction false} NeverSucceeds(run: seq<Event>, m: nat, n: nat, j: JobId)
    requires m <= n <= |run| && Doomed(At(run, m).db.jobs, j)
    ensures Doomed(At(run, n).db.jobs, j)
    decreases n
  {
    hide Doomed, Unfed, InvWith, Apply, Evolves;
    if m < n {
      NeverSucceeds(run, m, n - 1, j);
      var ch := ReachableWith(run, n - 1);
      StepUnfed(At(run, n - 1), ch, run[n - 1], j);
      StepEvolves(run, n - 1);
      DoomedKept(At(run, n - 1).db, At(run, n).db, j);
    }
  }

  predicate Succeeded(jobs: Jobs, j: JobId) { j in jobs && jobs[j].status == Success }

  /**
    The front job of a chain can still succeed if and only if it is the last one or its input is a canonical commit:
    a success with a successor is refused for any other input, and no later event changes the input.
   */
  lemma FinishesExactly(run: seq<Event>, r: RunId, n: NodeId, c: seq<JobId>, p: nat)
    requires var db := At(run, |run|).db; CurrentChain(db, r, c) && Underway(db, r, n) && FrontAt(db.jobs, c, p)
    ensures (exists later :: Succeeded(Then(run, later).db.jobs, c[p])) <==> CanSucceed(At(run, |run|).db.jobs, c, p)
  {
    hide At, CurrentChain, Underway, CanSucceed;
    if CanSucceed(At(run, |run|).db.jobs, c, p) {
      var later := FrontSucceeds(run, r, n, c, p);
    } else {
      forall later ensures !Succeeded(Then(run, later).db.jobs, c[p]) {
        FrontNever(run, later, r, c, p);
      }
    }
  }

  lemma FrontSucceeds(run: seq<Event>, r: RunId, n: NodeId, c: seq<JobId>, p: nat) returns (later: seq<Event>)
    requires OnFront(At(run, |run|).db, r, n, c, p)
    ensures Succeeded(Then(run, later).db.jobs, c[p])
  {
    hide At;
    later := NeverStuck(run, r, n, c, p);
  }

  lemma FrontNever(run: seq<Event>, later: seq<Event>, r: RunId, c: seq<JobId>, p: nat)
    requires var db := At(run, |run|).db; CurrentChain(db, r, c) && FrontAt(db.jobs, c, p) && !CanSucceed(db.jobs, c, p)
    ensures !Succeeded(Then(run, later).db.jobs, c[p])
  {
    hide At, InvWith, CurrentChain, CanSucceed;
    var ch := ReachableWith(run, |run|);
    FrontDoomed(At(run, |run|).db, ch, r, c, p);
    AtPrefix(run, later, |run|);
    NeverSucceeds(run + later, |run|, |run + later|, c[p]);
  }

  lemma FrontDoomed(db: Db, ch: Chains, r: RunId, c: seq<JobId>, p: nat)
    requires InvWith(db, ch) && CurrentChain(db, r, c) && FrontAt(db.jobs, c, p) && !CanSucceed(db.jobs, c, p)
    ensures Doomed(db.jobs, c[p])
  {
    hide CanonicalSha;
    assert LinkAt(db.jobs, c, p);
    forall q | q in db.jobs && db.jobs[q].next == Some(c[p]) ensures db.jobs[q].status.Success? {
      InFront(db, ch, Key(r, db.runs[r].attempt), c, p, q);
    }
  }
}
