/**
  What every transaction keeps: the jobs of an attempt form one chain that has succeeded up to one job and
  has not started after it, one node owns an attempt, commit ids are threaded along the chain, and a
  repository has at most one active run.
 */
module StoreInvariant {
  import opened Wrappers
  import opened StoreModel

  datatype Key = Key(run: RunId, attempt: nat)
  type Chains = map<Key, seq<JobId>>

  predicate Settled(s: JobStatus) { !ActiveJob(s) }

  /** Statuses that only a job on a node can have. */
  predicate OnNode(s: JobStatus) { s.Running? || s.Success? || s.Fail? || s.Error? }

  /** A job that waits behind an unfinished one. */
  predicate Idle(job: Job) {
    (job.status.Created? || job.status.Cancelled?) && job.node.None? && !job.started && job.shaOut == ""
  }

  // ---------------------------------------------------------------- the invariant

  predicate Placed(runs: Runs, jobs: Jobs) {
    forall j :: j in jobs ==> jobs[j].run in runs && 1 <= jobs[j].attempt <= runs[jobs[j].run].attempt
  }

  predicate OldSettled(runs: Runs, jobs: Jobs) {
    forall j :: j in jobs && jobs[j].run in runs && jobs[j].attempt < runs[jobs[j].run].attempt ==>
      Settled(jobs[j].status)
  }

  predicate Owned(jobs: Jobs) {
    forall j :: j in jobs && OnNode(jobs[j].status) ==> jobs[j].node.Some?
  }

  predicate SameAttempt(a: Job, b: Job) { a.run == b.run && a.attempt == b.attempt }

  predicate OneOwner(jobs: Jobs) {
    forall a, b {:trigger SameAttempt(jobs[a], jobs[b])} ::
      (a in jobs && b in jobs && SameAttempt(jobs[a], jobs[b]) && jobs[a].node.Some? && jobs[b].node.Some?)
      ==> jobs[a].node == jobs[b].node
  }

  predicate Members(jobs: Jobs, k: Key, c: seq<JobId>) {
    && |c| > 0
    && (forall i :: 0 <= i < |c| ==> c[i] in jobs && jobs[c[i]].run == k.run && jobs[c[i]].attempt == k.attempt)
    && (forall i, m :: 0 <= i < m < |c| ==> c[i] != c[m])
  }

  /** A job has succeeded or the later one still waits. */
  predicate InOrder(earlier: Job, later: Job) { earlier.status.Success? || Idle(later) }

  /** Everything before a job that does not wait has succeeded. */
  predicate Shape(jobs: Jobs, c: seq<JobId>)
    requires forall i :: 0 <= i < |c| ==> c[i] in jobs
  {
    forall i, m {:trigger InOrder(jobs[c[i]], jobs[c[m]])} :: 0 <= i < m < |c| ==> InOrder(jobs[c[i]], jobs[c[m]])
  }

  predicate IsChain(jobs: Jobs, k: Key, c: seq<JobId>) {
    Members(jobs, k, c) && Linked(jobs, c)
  }

  predicate Chained(jobs: Jobs, ch: Chains) {
    && (forall k :: k in ch ==> IsChain(jobs, k, ch[k]))
    && (forall j :: j in jobs ==> Key(jobs[j].run, jobs[j].attempt) in ch && j in ch[Key(jobs[j].run, jobs[j].attempt)])
  }

  predicate Shaped(jobs: Jobs, ch: Chains)
    requires Chained(jobs, ch)
  {
    forall k :: k in ch ==> Shape(jobs, ch[k])
  }

  /** Every attempt of every run has its chain, and no other chain exists. */
  predicate Complete(runs: Runs, ch: Chains) {
    && (forall r, a :: r in runs && 1 <= a <= runs[r].attempt ==> Key(r, a) in ch)
    && (forall k :: k in ch ==> k.run in runs && 1 <= k.attempt <= runs[k.run].attempt)
    && (forall r :: r in runs ==> 1 <= runs[r].attempt)
  }

  predicate Short(jobs: Jobs) {
    forall j :: j in jobs ==> jobs[j].shaIn8 == Sha8(jobs[j].shaIn) && jobs[j].shaOut8 == Sha8(jobs[j].shaOut)
  }

  predicate Fed(jobs: Jobs) {
    forall j, n {:trigger jobs[j].next, jobs[n].shaIn} ::
      (j in jobs && n in jobs && jobs[j].next == Some(n) && jobs[j].shaOut != "") ==> jobs[n].shaIn == jobs[j].shaOut
  }

  predicate Seeded(runs: Runs, jobs: Jobs, ch: Chains)
    requires Chained(jobs, ch)
  {
    forall k :: k in ch ==> k.run in runs && jobs[ch[k][0]].shaIn == runs[k.run].sha0
  }

  predicate Rivals(a: Run, b: Run) {
    ActiveRun(a.status) && ActiveRun(b.status) && a.repo == b.repo
  }

  predicate OneRunPerRepo(runs: Runs) {
    forall a, b {:trigger Rivals(runs[a], runs[b])} :: a in runs && b in runs && a != b ==> !Rivals(runs[a], runs[b])
  }

  predicate Waved(db: Db) {
    forall r :: r in db.runs ==> db.runs[r].wave in db.waves
  }

  /** The part of the invariant about jobs, for the chains `ch`. */
  predicate JobInv(runs: Runs, jobs: Jobs, ch: Chains) {
    && Placed(runs, jobs) && OldSettled(runs, jobs) && Owned(jobs) && OneOwner(jobs)
    && Chained(jobs, ch) && Shaped(jobs, ch) && Complete(runs, ch)
    && Short(jobs) && Fed(jobs) && Seeded(runs, jobs, ch)
  }

  predicate InvWith(db: Db, ch: Chains) {
    Waved(db) && OneRunPerRepo(db.runs) && JobInv(db.runs, db.jobs, ch)
  }

  // ---------------------------------------------------------------- updates in place

  /** The columns no statement changes once a job exists. */
  predicate SameSkeleton(jobs: Jobs, jobs': Jobs) {
    && jobs'.Keys == jobs.Keys
    && forall j :: j in jobs ==> && jobs'[j].run == jobs[j].run && jobs'[j].attempt == jobs[j].attempt
                                 && jobs'[j].next == jobs[j].next
  }

  lemma ChainedKept(jobs: Jobs, jobs': Jobs, ch: Chains)
    requires Chained(jobs, ch) && SameSkeleton(jobs, jobs')
    ensures Chained(jobs', ch)
  {
    forall k | k in ch ensures IsChain(jobs', k, ch[k]) {
      assert IsChain(jobs, k, ch[k]);
      forall i | 0 <= i < |ch[k]| ensures LinkAt(jobs', ch[k], i) { assert LinkAt(jobs, ch[k], i); }
    }
  }

  /** A job never turns back from success, from waiting or from a final status. */
  predicate Forward(a: Job, b: Job) {
    && (a.status.Success? ==> b.status.Success?)
    && (Idle(a) ==> Idle(b))
    && (Settled(a.status) ==> Settled(b.status))
    && (OnNode(b.status) ==> b.node.Some?)
  }

  predicate Onward(jobs: Jobs, jobs': Jobs) {
    SameSkeleton(jobs, jobs') && forall j :: j in jobs ==> Forward(jobs[j], jobs'[j])
  }

  /** Nodes are kept or forgotten, never assigned. */
  predicate NoNewNode(jobs: Jobs, jobs': Jobs) {
    jobs'.Keys == jobs.Keys && forall j :: j in jobs ==> jobs'[j].node == jobs[j].node || jobs'[j].node.None?
  }

  predicate SameShas(jobs: Jobs, jobs': Jobs) {
    && jobs'.Keys == jobs.Keys
    && forall j :: j in jobs ==> && jobs'[j].shaIn == jobs[j].shaIn && jobs'[j].shaOut == jobs[j].shaOut
                                 && jobs'[j].shaIn8 == jobs[j].shaIn8 && jobs'[j].shaOut8 == jobs[j].shaOut8
  }

  lemma ShasKept(runs: Runs, jobs: Jobs, jobs': Jobs, ch: Chains)
    requires Chained(jobs, ch) && Chained(jobs', ch) && SameSkeleton(jobs, jobs') && SameShas(jobs, jobs')
    requires Short(jobs) && Fed(jobs) && Seeded(runs, jobs, ch)
    ensures Short(jobs') && Fed(jobs') && Seeded(runs, jobs', ch)
  {
    forall k | k in ch ensures k.run in runs && jobs'[ch[k][0]].shaIn == runs[k.run].sha0 {
      assert IsChain(jobs, k, ch[k]);
      assert ch[k][0] in jobs;
    }
  }

  lemma ShapedKept(jobs: Jobs, jobs': Jobs, ch: Chains)
    requires Chained(jobs, ch) && Chained(jobs', ch) && Shaped(jobs, ch) && Onward(jobs, jobs')
    ensures Shaped(jobs', ch)
  {
    forall k | k in ch ensures Shape(jobs', ch[k]) {
      assert IsChain(jobs, k, ch[k]) && Shape(jobs, ch[k]);
      forall i, m | 0 <= i < m < |ch[k]| ensures InOrder(jobs'[ch[k][i]], jobs'[ch[k][m]]) {
        assert InOrder(jobs[ch[k][i]], jobs[ch[k][m]]);
        assert Forward(jobs[ch[k][i]], jobs'[ch[k][i]]) && Forward(jobs[ch[k][m]], jobs'[ch[k][m]]);
      }
    }
  }

  lemma OneOwnerKept(jobs: Jobs, jobs': Jobs)
    requires OneOwner(jobs) && SameSkeleton(jobs, jobs') && NoNewNode(jobs, jobs')
    ensures OneOwner(jobs')
  {
    forall a, b | a in jobs' && b in jobs' && SameAttempt(jobs'[a], jobs'[b]) && jobs'[a].node.Some? &&
      jobs'[b].node.Some?
      ensures jobs'[a].node == jobs'[b].node
    {
      assert SameAttempt(jobs[a], jobs[b]);
    }
  }

  lemma PlacedKept(runs: Runs, jobs: Jobs, jobs': Jobs)
    requires Placed(runs, jobs) && OldSettled(runs, jobs) && Owned(jobs) && Onward(jobs, jobs')
    ensures Placed(runs, jobs') && OldSettled(runs, jobs') && Owned(jobs')
  {
    forall j | j in jobs'
      ensures OnNode(jobs'[j].status) ==> jobs'[j].node.Some?
      ensures jobs'[j].run in runs && jobs'[j].attempt < runs[jobs'[j].run].attempt ==> Settled(jobs'[j].status)
    {
      assert Forward(jobs[j], jobs'[j]);
    }
  }

  /** The whole job invariant survives an update that moves jobs forward and keeps owners and commit ids in order. */
  lemma OnwardInv(runs: Runs, jobs: Jobs, jobs': Jobs, ch: Chains)
    requires JobInv(runs, jobs, ch) && Onward(jobs, jobs') && OneOwner(jobs')
    requires Short(jobs') && Fed(jobs') && (Chained(jobs', ch) ==> Seeded(runs, jobs', ch))
    ensures JobInv(runs, jobs', ch)
  {
    ChainedKept(jobs, jobs', ch);
    ShapedKept(jobs, jobs', ch);
    PlacedKept(runs, jobs, jobs');
  }

  /** An update that assigns no node and touches no commit id. */
  predicate Quiet(jobs: Jobs, jobs': Jobs) {
    Onward(jobs, jobs') && NoNewNode(jobs, jobs') && SameShas(jobs, jobs')
  }

  lemma QuietInv(runs: Runs, jobs: Jobs, jobs': Jobs, ch: Chains)
    requires JobInv(runs, jobs, ch) && Quiet(jobs, jobs')
    ensures JobInv(runs, jobs', ch)
  {
    ChainedKept(jobs, jobs', ch);
    OneOwnerKept(jobs, jobs');
    ShasKept(runs, jobs, jobs', ch);
    OnwardInv(runs, jobs, jobs', ch);
  }

  lemma CancelQuiet(jobs: Jobs, ids: set<JobId>)
    requires Owned(jobs)
    ensures Quiet(jobs, CancelJobs(jobs, ids))
  {
  }

  lemma CancelInv(runs: Runs, jobs: Jobs, ch: Chains, ids: set<JobId>)
    requires JobInv(runs, jobs, ch)
    ensures JobInv(runs, CancelJobs(jobs, ids), ch)
  {
    CancelQuiet(jobs, ids);
    QuietInv(runs, jobs, CancelJobs(jobs, ids), ch);
  }
}
