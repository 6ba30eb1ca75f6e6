/** Creating a chain, for a new run or for the next attempt of a run, keeps the invariant. */
module StoreInsert {
  import opened Wrappers
  import opened StoreModel
  import opened StoreInvariant
  import opened StoreSteps

  /** `jobs'` is `jobs` with the planned chain `ids` added. */
  predicate Planned(jobs: Jobs, jobs': Jobs, r: RunId, run: Run, plans: seq<JobPlan>, ids: seq<JobId>) {
    && 0 < |plans| == |ids| && FreshIds(jobs, ids)
    && (forall j :: j in jobs' ==> j in jobs || j in ids)
    && (forall j :: j in jobs ==> j in jobs' && jobs'[j] == jobs[j])
    && (forall i :: 0 <= i < |ids| ==> ids[i] in jobs' && jobs'[ids[i]] == PlannedJob(r, run, plans, ids, i))
  }

  /** `rows` is `jobs` with the rows of `ids[i..]` added. */
  predicate PlannedFrom(jobs: Jobs, rows: Jobs, r: RunId, run: Run, plans: seq<JobPlan>, ids: seq<JobId>, i: nat)
    requires i <= |plans| == |ids|
  {
    && (forall j :: j in rows ==> j in jobs || j in ids[i..])
    && (forall j :: j in jobs ==> j in rows && rows[j] == jobs[j])
    && (forall k {:trigger PlannedAt(rows, r, run, plans, ids, k)} :: i <= k < |ids| ==>
         PlannedAt(rows, r, run, plans, ids, k))
  }

  predicate PlannedAt(rows: Jobs, r: RunId, run: Run, plans: seq<JobPlan>, ids: seq<JobId>, k: nat)
    requires k < |plans| == |ids|
  {
    ids[k] in rows && rows[ids[k]] == PlannedJob(r, run, plans, ids, k)
  }

  lemma PlannedNext(jobs: Jobs, rows: Jobs, r: RunId, run: Run, plans: seq<JobPlan>, ids: seq<JobId>, i: nat)
    requires i < |plans| == |ids| && FreshIds(jobs, ids) && PlannedFrom(jobs, rows, r, run, plans, ids, i + 1)
    ensures PlannedFrom(jobs, rows[ids[i] := PlannedJob(r, run, plans, ids, i)], r, run, plans, ids, i)
  {
    hide PlannedJob;
    var rows' := rows[ids[i] := PlannedJob(r, run, plans, ids, i)];
    assert ids[i..] == [ids[i]] + ids[i + 1..];
    forall k | i <= k < |ids| ensures PlannedAt(rows', r, run, plans, ids, k) {
      if k > i { assert PlannedAt(rows, r, run, plans, ids, k); }
    }
  }

  /** The tail-first insertion adds exactly the planned rows; every row it points to is already there. */
  lemma {:induction false} Inserted(jobs: Jobs, r: RunId, run: Run, plans: seq<JobPlan>, ids: seq<JobId>, i: nat)
    requires i <= |plans| == |ids| && FreshIds(jobs, ids)
    ensures PlannedFrom(jobs, InsertFrom(jobs, r, run, plans, ids, i), r, run, plans, ids, i)
    decreases |plans| - i
  {
    if i < |plans| {
      Inserted(jobs, r, run, plans, ids, i + 1);
      PlannedNext(jobs, InsertFrom(jobs, r, run, plans, ids, i + 1), r, run, plans, ids, i);
    }
  }

  lemma InsertPlans(jobs: Jobs, r: RunId, run: Run, plans: seq<JobPlan>, ids: seq<JobId>)
    requires CanPlan(jobs, plans, ids)
    ensures Planned(jobs, InsertFrom(jobs, r, run, plans, ids, 0), r, run, plans, ids)
  {
    Inserted(jobs, r, run, plans, ids, 0);
    assert ids[0..] == ids;
    var rows := InsertFrom(jobs, r, run, plans, ids, 0);
    forall i | 0 <= i < |ids| ensures ids[i] in rows && rows[ids[i]] == PlannedJob(r, run, plans, ids, i) {
      assert PlannedAt(rows, r, run, plans, ids, i);
    }
  }

  /** No job of `jobs` belongs to the attempt that gets the chain. */
  predicate NewAttempt(jobs: Jobs, r: RunId, attempt: nat) {
    forall j :: j in jobs ==> jobs[j].run != r || jobs[j].attempt != attempt
  }

  lemma PlannedOwners(jobs: Jobs, jobs': Jobs, r: RunId, run: Run, plans: seq<JobPlan>, ids: seq<JobId>)
    requires Planned(jobs, jobs', r, run, plans, ids) && Owned(jobs) && OneOwner(jobs)
    ensures Owned(jobs') && OneOwner(jobs')
  {
    forall j | j in jobs' && j !in jobs ensures jobs'[j].node.None? && !OnNode(jobs'[j].status) {
      var i :| 0 <= i < |ids| && ids[i] == j;
    }
    forall a, b | a in jobs' && b in jobs' && SameAttempt(jobs'[a], jobs'[b]) && jobs'[a].node.Some? &&
      jobs'[b].node.Some?
      ensures jobs'[a].node == jobs'[b].node
    {
      assert SameAttempt(jobs[a], jobs[b]);
    }
  }

  lemma PlannedChain(jobs: Jobs, jobs': Jobs, r: RunId, run: Run, plans: seq<JobPlan>, ids: seq<JobId>)
    requires Planned(jobs, jobs', r, run, plans, ids)
    ensures IsChain(jobs', Key(r, run.attempt), ids) && Shape(jobs', ids)
    ensures jobs'[ids[0]].shaIn == run.sha0
  {
  }

  lemma OldChain(jobs: Jobs, jobs': Jobs, k: Key, c: seq<JobId>)
    requires forall j :: j in jobs ==> j in jobs' && jobs'[j] == jobs[j]
    requires IsChain(jobs, k, c) && Shape(jobs, c)
    ensures IsChain(jobs', k, c) && Shape(jobs', c) && jobs'[c[0]] == jobs[c[0]]
  {
    forall i, m | 0 <= i < m < |c| ensures InOrder(jobs'[c[i]], jobs'[c[m]]) {
      assert InOrder(jobs[c[i]], jobs[c[m]]);
    }
    forall i | 0 <= i < |c| ensures LinkAt(jobs', c, i) { assert LinkAt(jobs, c, i); }
  }

  lemma PlannedChained(jobs: Jobs, jobs': Jobs, ch: Chains, r: RunId, run: Run, plans: seq<JobPlan>, ids: seq<JobId>)
    requires Planned(jobs, jobs', r, run, plans, ids) && Chained(jobs, ch) && Shaped(jobs, ch)
    requires NewAttempt(jobs, r, run.attempt)
    ensures var ch' := ch[Key(r, run.attempt) := ids]; Chained(jobs', ch') && Shaped(jobs', ch')
  {
    var ch' := ch[Key(r, run.attempt) := ids];
    PlannedChain(jobs, jobs', r, run, plans, ids);
    forall k | k in ch' ensures IsChain(jobs', k, ch'[k]) && Shape(jobs', ch'[k]) {
      if k != Key(r, run.attempt) {
        assert IsChain(jobs, k, ch[k]) && Shape(jobs, ch[k]);
        OldChain(jobs, jobs', k, ch[k]);
      }
    }
    forall j | j in jobs'
      ensures Key(jobs'[j].run, jobs'[j].attempt) in ch' && j in ch'[Key(jobs'[j].run, jobs'[j].attempt)]
    {
      if j !in jobs {
        var i :| 0 <= i < |ids| && ids[i] == j;
      }
    }
  }

  lemma PlannedShas(jobs: Jobs, jobs': Jobs, ch: Chains, r: RunId, run: Run, plans: seq<JobPlan>, ids: seq<JobId>)
    requires Planned(jobs, jobs', r, run, plans, ids) && Chained(jobs, ch) && Short(jobs) && Fed(jobs)
    ensures Short(jobs') && Fed(jobs')
  {
    forall j | j in jobs' && j !in jobs
      ensures jobs'[j].shaIn8 == Sha8(jobs'[j].shaIn) && jobs'[j].shaOut == jobs'[j].shaOut8 == ""
    {
      var i :| 0 <= i < |ids| && ids[i] == j;
    }
    forall j, n | j in jobs' && n in jobs' && jobs'[j].next == Some(n) && jobs'[j].shaOut != ""
      ensures jobs'[n].shaIn == jobs'[j].shaOut
    {
      UniquePredecessor(jobs, ch, j, j);
    }
  }

  /** `run` starts its next attempt, or its first one. */
  predicate NextRun(runs: Runs, r: RunId, run: Run) {
    if r in runs then run.attempt == runs[r].attempt + 1 && run.sha0 == runs[r].sha0 else run.attempt == 1
  }

  lemma PlannedPlaced(runs: Runs, jobs: Jobs, jobs': Jobs, r: RunId, run: Run, plans: seq<JobPlan>, ids: seq<JobId>)
    requires Planned(jobs, jobs', r, run, plans, ids) && Placed(runs, jobs) && OldSettled(runs, jobs)
    requires NextRun(runs, r, run)
    requires forall j :: j in jobs && jobs[j].run == r ==> Settled(jobs[j].status)
    ensures Placed(runs[r := run], jobs') && OldSettled(runs[r := run], jobs')
  {
    forall j | j in jobs' && j !in jobs ensures jobs'[j].run == r && jobs'[j].attempt == run.attempt {
      var i :| 0 <= i < |ids| && ids[i] == j;
    }
  }

  lemma NextComplete(runs: Runs, ch: Chains, r: RunId, run: Run, ids: seq<JobId>)
    requires Complete(runs, ch) && NextRun(runs, r, run)
    ensures Complete(runs[r := run], ch[Key(r, run.attempt) := ids])
  {
  }

  lemma PlannedSeeded(runs: Runs, jobs: Jobs, jobs': Jobs, ch: Chains, r: RunId, run: Run, plans: seq<JobPlan>,
                      ids: seq<JobId>)
    requires Planned(jobs, jobs', r, run, plans, ids) && Chained(jobs, ch) && Shaped(jobs, ch) && Seeded(runs, jobs, ch)
    requires NextRun(runs, r, run)
    requires Chained(jobs', ch[Key(r, run.attempt) := ids])
    ensures Seeded(runs[r := run], jobs', ch[Key(r, run.attempt) := ids])
  {
    var ch' := ch[Key(r, run.attempt) := ids];
    PlannedChain(jobs, jobs', r, run, plans, ids);
    forall k | k in ch' ensures k.run in runs[r := run] && jobs'[ch'[k][0]].shaIn == runs[r := run][k.run].sha0 {
      if k != Key(r, run.attempt) {
        assert IsChain(jobs, k, ch[k]) && Shape(jobs, ch[k]);
        OldChain(jobs, jobs', k, ch[k]);
      }
    }
  }

  lemma NextNewAttempt(runs: Runs, jobs: Jobs, r: RunId, run: Run)
    requires Placed(runs, jobs) && NextRun(runs, r, run)
    ensures NewAttempt(jobs, r, run.attempt)
  {
  }

  lemma InsertInv(runs: Runs, jobs: Jobs, ch: Chains, r: RunId, run: Run, plans: seq<JobPlan>, ids: seq<JobId>)
    requires JobInv(runs, jobs, ch) && NextRun(runs, r, run) && CanPlan(jobs, plans, ids)
    requires forall j :: j in jobs && jobs[j].run == r ==> Settled(jobs[j].status)
    ensures JobInv(runs[r := run], InsertFrom(jobs, r, run, plans, ids, 0), ch[Key(r, run.attempt) := ids])
  {
    var jobs' := InsertFrom(jobs, r, run, plans, ids, 0);
    InsertPlans(jobs, r, run, plans, ids);
    NextNewAttempt(runs, jobs, r, run);
    PlannedOwners(jobs, jobs', r, run, plans, ids);
    PlannedChained(jobs, jobs', ch, r, run, plans, ids);
    PlannedShas(jobs, jobs', ch, r, run, plans, ids);
    PlannedPlaced(runs, jobs, jobs', r, run, plans, ids);
    NextComplete(runs, ch, r, run, ids);
    PlannedSeeded(runs, jobs, jobs', ch, r, run, plans, ids);
  }

  // ---------------------------------------------------------------- creating a wave

  lemma InsertRunInv(db: Db, ch: Chains, w: WaveId, plan: RunPlan, ids: seq<JobId>) returns (ch': Chains)
    requires InvWith(db, ch) && w in db.waves && CanInsertRun(db, plan, ids)
    ensures InvWith(InsertRun(db, w, plan, ids), ch')
    ensures InsertRun(db, w, plan, ids).waves == db.waves
  {
    var run := Run(w, plan.repo, plan.sha0, RunRunning, 1, plan.resumes);
    InsertInv(db.runs, db.jobs, ch, plan.id, run, plan.jobs, ids);
    ch' := ch[Key(plan.id, 1) := ids];
    OneMoreRun(db.runs, plan.id, run);
  }

  lemma OneMoreRun(runs: Runs, r: RunId, run: Run)
    requires OneRunPerRepo(runs) && !RepoBusy(runs, run.repo)
    ensures OneRunPerRepo(runs[r := run])
  {
    var runs' := runs[r := run];
    forall a, b | a in runs' && b in runs' && a != b ensures !Rivals(runs'[a], runs'[b]) {
      if a != r && b != r { assert !Rivals(runs[a], runs[b]); }
      assert a == r && ActiveRun(runs'[b].status) && runs[b].repo == run.repo ==> RepoBusy(runs, run.repo);
      assert b == r && ActiveRun(runs'[a].status) && runs[a].repo == run.repo ==> RepoBusy(runs, run.repo);
    }
  }

  lemma {:induction false} InsertRunsInv(db: Db, ch: Chains, w: WaveId, plans: seq<RunPlan>, ids: seq<seq<JobId>>)
    returns (ch': Chains)
    requires InvWith(db, ch) && w in db.waves && |plans| == |ids| && InsertRuns(db, w, plans, ids).Some?
    ensures InvWith(InsertRuns(db, w, plans, ids).value, ch')
    decreases plans
  {
    if plans == [] {
      ch' := ch;
    } else {
      var ch1 := InsertRunInv(db, ch, w, plans[0], ids[0]);
      ch' := InsertRunsInv(InsertRun(db, w, plans[0], ids[0]), ch1, w, plans[1..], ids[1..]);
    }
  }

  /** Creating a wave with its runs and chains keeps the invariant, whether it commits or rolls back. */
  lemma CreateWaveInv(db: Db, ch: Chains, w: WaveId, plans: seq<RunPlan>, ids: seq<seq<JobId>>) returns (ch': Chains)
    requires InvWith(db, ch) && |plans| == |ids|
    ensures InvWith(CreateWaveTx(db, w, plans, ids), ch')
  {
    ch' := ch;
    if plans != [] && w !in db.waves {
      var db1 := db.(waves := db.waves[w := Wave(WaveStarted)]);
      if InsertRuns(db1, w, plans, ids).Some? {
        ch' := InsertRunsInv(db1, ch, w, plans, ids);
      }
    }
  }
}
