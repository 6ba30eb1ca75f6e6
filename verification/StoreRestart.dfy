/** Restarting a run, as a new attempt or from its failed job, keeps the invariant. */
module StoreRestart {
  import opened Wrappers
  import opened StoreModel
  import opened StoreInvariant
  import opened StoreSteps
  import opened StoreInsert

  // ---------------------------------------------------------------- full restart

  lemma CancelSettles(runs: Runs, jobs: Jobs, r: RunId)
    requires Placed(runs, jobs) && OldSettled(runs, jobs) && r in runs
    ensures var jobs' := CancelJobs(jobs, JobsOfAttempt(jobs, r, runs[r].attempt));
            forall j :: j in jobs' && jobs'[j].run == r ==> Settled(jobs'[j].status)
  {
  }

  lemma FullRestartInv(db: Db, ch: Chains, arg: RestartArgs, ids: seq<JobId>) returns (ch': Chains)
    requires InvWith(db, ch) && CanRestart(db, arg)
    ensures InvWith(FullRestartTx(db, arg, ids), ch')
  {
    ch' := ch;
    if CanPlan(db.jobs, arg.jobs, ids) {
      var run := db.runs[arg.run];
      var next := NextAttempt(run, arg.resumes);
      var settled := CancelJobs(db.jobs, JobsOfAttempt(db.jobs, arg.run, run.attempt));
      CancelInv(db.runs, db.jobs, ch, JobsOfAttempt(db.jobs, arg.run, run.attempt));
      CancelSettles(db.runs, db.jobs, arg.run);
      InsertInv(db.runs, settled, ch, arg.run, next, arg.jobs, ids);
      OneMoreRun(db.runs, arg.run, next);
      ch' := ch[Key(arg.run, next.attempt) := ids];
    }
  }

  // ---------------------------------------------------------------- the chain of an attempt is unique

  function Elements(c: seq<JobId>): set<JobId> {
    set j | j in c
  }

  lemma {:induction false} DistinctCard(c: seq<JobId>)
    requires forall i, m :: 0 <= i < m < |c| ==> c[i] != c[m]
    ensures |Elements(c)| == |c|
  {
    if c != [] {
      DistinctCard(c[1..]);
      assert Elements(c) == Elements(c[1..]) + {c[0]};
    }
  }

  /** Walking back from the end, any complete chain of an attempt visits the same jobs. */
  lemma {:induction false} SameFromTheEnd(jobs: Jobs, k: Key, c: seq<JobId>, chain: seq<JobId>, t: nat)
    requires IsChain(jobs, k, c) && t < |c| && t < |chain|
    requires forall i :: 0 <= i < |chain| ==> chain[i] in c
    requires Linked(jobs, chain)
    ensures chain[|chain| - 1 - t] == c[|c| - 1 - t]
  {
    var n := |chain| - 1 - t;
    var i := IndexIn(c, chain[n]);
    assert LinkAt(jobs, c, i) && LinkAt(jobs, chain, n);
    if t > 0 {
      SameFromTheEnd(jobs, k, c, chain, t - 1);
    }
  }

  lemma AttemptCovered(jobs: Jobs, ch: Chains, k: Key)
    requires Chained(jobs, ch) && k in ch
    ensures |JobsOfAttempt(jobs, k.run, k.attempt)| == |ch[k]|
    ensures forall j :: j in JobsOfAttempt(jobs, k.run, k.attempt) ==> j in ch[k]
  {
    assert IsChain(jobs, k, ch[k]);
    assert JobsOfAttempt(jobs, k.run, k.attempt) == Elements(ch[k]);
    DistinctCard(ch[k]);
  }

  lemma ChainUnique(jobs: Jobs, ch: Chains, r: RunId, attempt: nat, chain: seq<JobId>)
    requires Chained(jobs, ch) && CompleteChain(jobs, r, attempt, chain)
    ensures Key(r, attempt) in ch && ch[Key(r, attempt)] == chain
  {
    var k := Key(r, attempt);
    assert chain[0] in JobsOfAttempt(jobs, r, attempt);
    assert k in ch;
    AttemptCovered(jobs, ch, k);
    SameChains(jobs, k, ch[k], chain);
  }

  lemma SameChains(jobs: Jobs, k: Key, c: seq<JobId>, chain: seq<JobId>)
    requires IsChain(jobs, k, c) && |chain| == |c|
    requires forall i :: 0 <= i < |chain| ==> chain[i] in c
    requires Linked(jobs, chain)
    ensures c == chain
  {
    forall i | 0 <= i < |c| ensures chain[i] == c[i] {
      SameFromTheEnd(jobs, k, c, chain, |c| - 1 - i);
    }
  }

  // ---------------------------------------------------------------- resume from the failed job

  /** `chain[f..]` is reset, everything else is as it was. */
  predicate Resumed(jobs: Jobs, jobs': Jobs, chain: seq<JobId>, f: nat)
    requires forall k :: 0 <= k < |chain| ==> chain[k] in jobs
  {
    && jobs'.Keys == jobs.Keys
    && (forall k :: f <= k < |chain| ==> jobs'[chain[k]] == ResumedJob(jobs[chain[k]], k == f))
    && (forall j :: j in jobs && (forall k :: f <= k < |chain| ==> chain[k] != j) ==> jobs'[j] == jobs[j])
  }

  lemma RowsResumed(jobs: Jobs, chain: seq<JobId>, f: nat)
    requires f <= |chain|
    requires forall k :: 0 <= k < |chain| ==> chain[k] in jobs
    requires forall a, b :: 0 <= a < b < |chain| ==> chain[a] != chain[b]
    ensures Resumed(jobs, ResumeRows(jobs, chain, f, |chain|), chain, f)
  {
    forall k | f <= k < |chain| ensures chain[k] in chain[f..] { assert chain[f..][k - f] == chain[k]; }
    forall j | j in jobs && (forall k :: f <= k < |chain| ==> chain[k] != j) ensures j !in chain[f..] { }
  }

  lemma ResumeRowsResumed(jobs: Jobs, ch: Chains, r: RunId, attempt: nat, chain: seq<JobId>, f: nat)
    requires Chained(jobs, ch) && CompleteChain(jobs, r, attempt, chain) && f <= |chain|
    ensures Key(r, attempt) in ch && ch[Key(r, attempt)] == chain
    ensures Resumed(jobs, ResumeRows(jobs, chain, f, |chain|), chain, f)
  {
    ChainUnique(jobs, ch, r, attempt, chain);
    assert IsChain(jobs, Key(r, attempt), chain);
    RowsResumed(jobs, chain, f);
  }

  lemma ResumedShape(jobs: Jobs, jobs': Jobs, chain: seq<JobId>, f: nat)
    requires forall k :: 0 <= k < |chain| ==> chain[k] in jobs
    requires forall a, b :: 0 <= a < b < |chain| ==> chain[a] != chain[b]
    requires ResumableAt(jobs, chain, f) && Resumed(jobs, jobs', chain, f)
    ensures Shape(jobs', chain)
  {
    forall i, m | 0 <= i < m < |chain| ensures InOrder(jobs'[chain[i]], jobs'[chain[m]]) {
      if i >= f { assert NeverRan(jobs[chain[m]]); }
    }
  }

  lemma ResumedShaped(jobs: Jobs, jobs': Jobs, ch: Chains, k: Key, f: nat)
    requires Chained(jobs, ch) && Chained(jobs', ch) && Shaped(jobs, ch) && k in ch
    requires forall i :: 0 <= i < |ch[k]| ==> ch[k][i] in jobs
    requires ResumableAt(jobs, ch[k], f) && Resumed(jobs, jobs', ch[k], f)
    ensures Shaped(jobs', ch)
  {
    assert IsChain(jobs, k, ch[k]);
    forall q | q in ch ensures Shape(jobs', ch[q]) {
      if q == k {
        ResumedShape(jobs, jobs', ch[k], f);
      } else {
        assert IsChain(jobs, q, ch[q]) && Shape(jobs, ch[q]);
        assert forall i :: 0 <= i < |ch[q]| ==> jobs'[ch[q][i]] == jobs[ch[q][i]];
        forall i, m | 0 <= i < m < |ch[q]| ensures InOrder(jobs'[ch[q][i]], jobs'[ch[q][m]]) {
          assert InOrder(jobs[ch[q][i]], jobs[ch[q][m]]);
        }
      }
    }
  }

  /** No job outside the reset suffix points into it, except at its first job. */
  lemma SuffixEntry(jobs: Jobs, ch: Chains, k: Key, f: nat, j: JobId)
    requires Chained(jobs, ch) && k in ch && f < |ch[k]| && j in jobs && jobs[j].next.Some?
    requires forall i :: f <= i < |ch[k]| ==> ch[k][i] != j
    ensures forall i :: f < i < |ch[k]| ==> ch[k][i] != jobs[j].next.value
  {
    var c := ch[k];
    assert IsChain(jobs, k, c);
    forall i | f < i < |c| ensures c[i] != jobs[j].next.value {
      assert LinkAt(jobs, c, i - 1);
      if c[i] == jobs[j].next.value { UniquePredecessor(jobs, ch, c[i - 1], j); }
    }
  }

  lemma ResumedInputs(jobs: Jobs, jobs': Jobs, chain: seq<JobId>, f: nat, n: JobId)
    requires forall k :: 0 <= k < |chain| ==> chain[k] in jobs
    requires Resumed(jobs, jobs', chain, f) && n in jobs
    requires forall i :: f < i < |chain| ==> chain[i] != n
    ensures jobs'[n].shaIn == jobs[n].shaIn
  {
    if f < |chain| ==> chain[f] != n {
      assert forall i :: f <= i < |chain| ==> chain[i] != n;
    }
  }

  lemma ResumedShort(jobs: Jobs, jobs': Jobs, chain: seq<JobId>, f: nat)
    requires forall k :: 0 <= k < |chain| ==> chain[k] in jobs
    requires Resumed(jobs, jobs', chain, f) && Short(jobs)
    ensures Short(jobs')
    ensures forall j :: j in jobs && jobs'[j].shaOut != "" ==>
              jobs'[j].shaOut == jobs[j].shaOut && forall i :: f <= i < |chain| ==> chain[i] != j
  {
    forall j | j in jobs
      ensures jobs'[j].shaIn8 == Sha8(jobs'[j].shaIn) && jobs'[j].shaOut8 == Sha8(jobs'[j].shaOut)
      ensures jobs'[j].shaOut != "" ==>
        jobs'[j].shaOut == jobs[j].shaOut && forall i :: f <= i < |chain| ==> chain[i] != j
    {
      if i :| f <= i < |chain| && chain[i] == j { }
    }
  }

  lemma ResumedFed(jobs: Jobs, jobs': Jobs, ch: Chains, k: Key, f: nat)
    requires Chained(jobs, ch) && Short(jobs) && Fed(jobs) && k in ch && SameSkeleton(jobs, jobs')
    requires forall i :: 0 <= i < |ch[k]| ==> ch[k][i] in jobs
    requires f < |ch[k]| && Resumed(jobs, jobs', ch[k], f)
    ensures Short(jobs') && Fed(jobs')
  {
    ResumedShort(jobs, jobs', ch[k], f);
    forall j, n | j in jobs' && n in jobs' && jobs'[j].next == Some(n) && jobs'[j].shaOut != ""
      ensures jobs'[n].shaIn == jobs'[j].shaOut
    {
      SuffixEntry(jobs, ch, k, f, j);
      ResumedInputs(jobs, jobs', ch[k], f, n);
    }
  }

  lemma ResumedSeeded(runs: Runs, jobs: Jobs, jobs': Jobs, ch: Chains, k: Key, f: nat)
    requires Chained(jobs, ch) && Chained(jobs', ch) && Seeded(runs, jobs, ch) && k in ch
    requires forall i :: 0 <= i < |ch[k]| ==> ch[k][i] in jobs
    requires f < |ch[k]| && Resumed(jobs, jobs', ch[k], f)
    ensures Seeded(runs, jobs', ch)
  {
    forall q | q in ch ensures q.run in runs && jobs'[ch[q][0]].shaIn == runs[q.run].sha0 {
      HeadOutside(jobs, ch, k, q, f);
      ResumedInputs(jobs, jobs', ch[k], f, ch[q][0]);
    }
  }

  lemma HeadOutside(jobs: Jobs, ch: Chains, k: Key, q: Key, f: nat)
    requires Chained(jobs, ch) && k in ch && q in ch
    ensures ch[q][0] in jobs && forall i :: f < i < |ch[k]| ==> ch[k][i] != ch[q][0]
  {
    assert IsChain(jobs, k, ch[k]) && IsChain(jobs, q, ch[q]);
  }

  lemma ResumedSkeleton(jobs: Jobs, jobs': Jobs, chain: seq<JobId>, f: nat)
    requires forall k :: 0 <= k < |chain| ==> chain[k] in jobs
    requires Resumed(jobs, jobs', chain, f) && Owned(jobs)
    ensures SameSkeleton(jobs, jobs') && NoNewNode(jobs, jobs') && Owned(jobs')
  {
    forall j | j in jobs
      ensures && jobs'[j].run == jobs[j].run && jobs'[j].attempt == jobs[j].attempt && jobs'[j].next == jobs[j].next
              && jobs'[j].node == jobs[j].node && (jobs'[j].status == jobs[j].status || ActiveJob(jobs'[j].status))
    {
      if k :| f <= k < |chain| && chain[k] == j { }
    }
  }

  lemma ResumedPlaced(runs: Runs, jobs: Jobs, jobs': Jobs, chain: seq<JobId>, f: nat, r: RunId)
    requires r in runs && Placed(runs, jobs) && OldSettled(runs, jobs) && SameSkeleton(jobs, jobs')
    requires forall k :: 0 <= k < |chain| ==>
      chain[k] in jobs && jobs[chain[k]].run == r && jobs[chain[k]].attempt == runs[r].attempt
    requires Resumed(jobs, jobs', chain, f)
    ensures Placed(runs, jobs') && OldSettled(runs, jobs')
  {
    forall j | j in jobs' && jobs'[j].attempt < runs[jobs'[j].run].attempt ensures Settled(jobs'[j].status) {
      assert forall k :: f <= k < |chain| ==> chain[k] != j;
    }
  }

  lemma ResumedInv(runs: Runs, jobs: Jobs, jobs': Jobs, ch: Chains, r: RunId, f: nat)
    requires JobInv(runs, jobs, ch) && r in runs && Key(r, runs[r].attempt) in ch
    requires var c := ch[Key(r, runs[r].attempt)];
             && (forall i :: 0 <= i < |c| ==> c[i] in jobs)
             && ResumableAt(jobs, c, f) && Resumed(jobs, jobs', c, f)
    ensures JobInv(runs, jobs', ch)
  {
    var k := Key(r, runs[r].attempt);
    assert IsChain(jobs, k, ch[k]);
    ResumedSkeleton(jobs, jobs', ch[k], f);
    ResumedPlaced(runs, jobs, jobs', ch[k], f, r);
    ChainedKept(jobs, jobs', ch);
    OneOwnerKept(jobs, jobs');
    ResumedShaped(jobs, jobs', ch, k, f);
    ResumedFed(jobs, jobs', ch, k, f);
    ResumedSeeded(runs, jobs, jobs', ch, k, f);
  }

  lemma ResumeRowsInv(runs: Runs, jobs: Jobs, ch: Chains, r: RunId, chain: seq<JobId>, f: nat)
    requires JobInv(runs, jobs, ch) && r in runs && CompleteChain(jobs, r, runs[r].attempt, chain)
    requires f <= |chain| && ResumableAt(jobs, chain, f)
    ensures JobInv(runs, ResumeRows(jobs, chain, f, |chain|), ch)
  {
    ResumeRowsResumed(jobs, ch, r, runs[r].attempt, chain, f);
    ResumedInv(runs, jobs, ResumeRows(jobs, chain, f, |chain|), ch, r, f);
  }

  /** Setting a run back to running keeps the invariant while no other run of its repository is active. */
  lemma ReactivateInv(db: Db, ch: Chains, r: RunId, run: Run, waves: map<WaveId, Wave>, jobs: Jobs)
    requires Waved(db) && OneRunPerRepo(db.runs) && JobInv(db.runs, jobs, ch)
    requires r in db.runs && run == db.runs[r].(status := run.status, resumes := run.resumes)
    requires !RepoBusy(db.runs, run.repo) && waves.Keys == db.waves.Keys
    ensures InvWith(Db(waves, db.runs[r := run], jobs, db.nodes), ch)
  {
    RunStatusInv(db.runs, db.runs[r := run], jobs, ch);
    OneMoreRun(db.runs, r, run);
  }

  lemma ResumeJobsInv(db: Db, ch: Chains, arg: RestartArgs, chain: seq<JobId>)
    requires JobInv(db.runs, db.jobs, ch) && CanRestart(db, arg) && CanResume(db, arg, chain)
    ensures JobInv(db.runs, ResumeTx(db, arg, chain).jobs, ch)
  {
    ResumeRowsInv(db.runs, db.jobs, ch, arg.run, chain, FirstUnfinished(db.jobs, chain));
  }

  lemma ResumeRunInv(db: Db, ch: Chains, arg: RestartArgs, chain: seq<JobId>)
    requires Waved(db) && OneRunPerRepo(db.runs) && CanRestart(db, arg) && CanResume(db, arg, chain)
    requires JobInv(db.runs, ResumeTx(db, arg, chain).jobs, ch)
    ensures InvWith(ResumeTx(db, arg, chain), ch)
  {
    var db' := ResumeTx(db, arg, chain);
    ReactivateInv(db, ch, arg.run, db'.runs[arg.run], db'.waves, db'.jobs);
  }

  lemma ResumeInv(db: Db, ch: Chains, arg: RestartArgs, chain: seq<JobId>)
    requires InvWith(db, ch) && CanRestart(db, arg) && CanResume(db, arg, chain)
    ensures InvWith(ResumeTx(db, arg, chain), ch)
  {
    ResumeJobsInv(db, ch, arg, chain);
    ResumeRunInv(db, ch, arg, chain);
  }

  /** Restarting a run keeps the invariant, whether it starts an attempt, resumes one or is refused. */
  lemma RestartInv(db: Db, ch: Chains, arg: RestartArgs, ids: seq<JobId>, chain: seq<JobId>) returns (ch': Chains)
    requires InvWith(db, ch)
    ensures InvWith(RestartTx(db, arg, ids, chain), ch')
  {
    ch' := ch;
    if CanRestart(db, arg) {
      if !arg.fromFailed {
        ch' := FullRestartInv(db, ch, arg, ids);
      } else if CanResume(db, arg, chain) {
        ResumeInv(db, ch, arg, chain);
      }
    }
  }
}
