/** Each transaction keeps the invariant. */
module StoreSteps {
  import opened Wrappers
  import opened StoreModel
  import opened StoreInvariant

  // ---------------------------------------------------------------- chain facts

  function IndexIn(c: seq<JobId>, j: JobId): (i: nat)
    requires j in c
    ensures i < |c| && c[i] == j
  {
    if c[0] == j then 0 else 1 + IndexIn(c[1..], j)
  }

  /** A job has at most one predecessor, and the successor of a job heads no chain. */
  lemma UniquePredecessor(jobs: Jobs, ch: Chains, p: JobId, q: JobId)
    requires Chained(jobs, ch) && p in jobs && q in jobs && jobs[p].next.Some? && jobs[p].next == jobs[q].next
    ensures p == q
    ensures jobs[p].next.value != p && jobs[p].next.value in jobs && SameAttempt(jobs[p], jobs[jobs[p].next.value])
    ensures forall k :: k in ch ==> ch[k][0] != jobs[p].next.value
  {
    var n := jobs[p].next.value;
    var kp, kq := Key(jobs[p].run, jobs[p].attempt), Key(jobs[q].run, jobs[q].attempt);
    assert IsChain(jobs, kp, ch[kp]) && IsChain(jobs, kq, ch[kq]);
    var i, m := IndexIn(ch[kp], p), IndexIn(ch[kq], q);
    assert LinkAt(jobs, ch[kp], i) && LinkAt(jobs, ch[kq], m);
    assert kp == kq;
    forall k | k in ch ensures ch[k][0] != n {
      assert IsChain(jobs, k, ch[k]);
      assert ch[k][0] == n ==> k == kp;
    }
  }

  // ---------------------------------------------------------------- claim and unclaim

  lemma ClaimOnward(db: Db, n: NodeId, j: JobId)
    requires Owned(db.jobs) && Claimable(db, n, j)
    ensures Onward(db.jobs, Claimed(db, n, j).jobs) && SameShas(db.jobs, Claimed(db, n, j).jobs)
  {
  }

  lemma ClaimOneOwner(db: Db, n: NodeId, j: JobId)
    requires OneOwner(db.jobs) && Claimable(db, n, j)
    ensures OneOwner(Claimed(db, n, j).jobs)
  {
    var jobs, jobs' := db.jobs, Claimed(db, n, j).jobs;
    forall a, b | a in jobs' && b in jobs' && SameAttempt(jobs'[a], jobs'[b]) && jobs'[a].node.Some? &&
      jobs'[b].node.Some?
      ensures jobs'[a].node == jobs'[b].node
    {
      assert SameAttempt(jobs[a], jobs[b]);
    }
  }

  lemma ClaimJobInv(runs: Runs, jobs: Jobs, jobs': Jobs, ch: Chains)
    requires JobInv(runs, jobs, ch) && Onward(jobs, jobs') && SameShas(jobs, jobs') && OneOwner(jobs')
    ensures JobInv(runs, jobs', ch)
  {
    ChainedKept(jobs, jobs', ch);
    ShasKept(runs, jobs, jobs', ch);
    OnwardInv(runs, jobs, jobs', ch);
  }

  lemma ClaimInv(db: Db, ch: Chains, n: NodeId, j: JobId)
    requires InvWith(db, ch) && Claimable(db, n, j)
    ensures InvWith(Claimed(db, n, j), ch)
  {
    ClaimOnward(db, n, j);
    ClaimOneOwner(db, n, j);
    ClaimJobInv(db.runs, db.jobs, Claimed(db, n, j).jobs, ch);
  }

  lemma UnclaimQuiet(db: Db, n: NodeId, j: JobId)
    requires Owned(db.jobs)
    ensures Quiet(db.jobs, Unclaimed(db, n, j).jobs)
  {
  }

  lemma UnclaimInv(db: Db, ch: Chains, n: NodeId, j: JobId)
    requires InvWith(db, ch)
    ensures InvWith(Unclaimed(db, n, j), ch)
  {
    UnclaimQuiet(db, n, j);
    QuietInv(db.runs, db.jobs, Unclaimed(db, n, j).jobs, ch);
  }

  // ---------------------------------------------------------------- completion

  lemma CompleteRowsOnward(jobs: Jobs, j: JobId, status: JobStatus, shaOut: string)
    requires Owned(jobs) && j in jobs && jobs[j].status.Running? && Settled(status)
    ensures var jobs' := CompleteRows(jobs, j, status, shaOut); Onward(jobs, jobs') && NoNewNode(jobs, jobs')
  {
  }

  lemma CompleteRowsFed(jobs: Jobs, j: JobId, status: JobStatus, shaOut: string)
    requires j in jobs && Short(jobs) && Fed(jobs) && jobs[j].next != Some(j)
    requires forall p :: p in jobs && jobs[p].next.Some? && jobs[p].next == jobs[j].next ==> p == j
    ensures var jobs' := CompleteRows(jobs, j, status, shaOut); Short(jobs') && Fed(jobs')
  {
  }

  /** Only a job that heads no chain gets another input commit. */
  lemma SeededKept(runs: Runs, jobs: Jobs, jobs': Jobs, ch: Chains, fed: Option<JobId>)
    requires Chained(jobs, ch) && Chained(jobs', ch) && Seeded(runs, jobs, ch)
    requires forall x :: x in jobs ==> x in jobs' && (jobs'[x].shaIn == jobs[x].shaIn || fed == Some(x))
    requires fed.Some? ==> forall k :: k in ch ==> ch[k][0] != fed.value
    ensures Seeded(runs, jobs', ch)
  {
    forall k | k in ch ensures k.run in runs && jobs'[ch[k][0]].shaIn == runs[k.run].sha0 {
      assert IsChain(jobs, k, ch[k]);
      assert ch[k][0] in jobs;
    }
  }

  lemma CompleteRowsInputs(jobs: Jobs, j: JobId, status: JobStatus, shaOut: string)
    requires j in jobs
    ensures var jobs' := CompleteRows(jobs, j, status, shaOut);
            forall x :: x in jobs ==> x in jobs' && (jobs'[x].shaIn == jobs[x].shaIn || jobs[j].next == Some(x))
  {
  }

  lemma OnlyPredecessor(jobs: Jobs, ch: Chains, j: JobId)
    requires Chained(jobs, ch) && j in jobs
    ensures jobs[j].next != Some(j)
    ensures forall p :: p in jobs && jobs[p].next.Some? && jobs[p].next == jobs[j].next ==> p == j
    ensures jobs[j].next.Some? ==> forall k :: k in ch ==> ch[k][0] != jobs[j].next.value
  {
    if jobs[j].next.Some? { UniquePredecessor(jobs, ch, j, j); }
    forall p | p in jobs && jobs[p].next.Some? && jobs[p].next == jobs[j].next ensures p == j {
      UniquePredecessor(jobs, ch, p, j);
    }
  }

  lemma CompleteRowsInv(runs: Runs, jobs: Jobs, ch: Chains, j: JobId, status: JobStatus, shaOut: string)
    requires JobInv(runs, jobs, ch) && j in jobs && jobs[j].status.Running? && Settled(status)
    ensures JobInv(runs, CompleteRows(jobs, j, status, shaOut), ch)
  {
    var jobs' := CompleteRows(jobs, j, status, shaOut);
    CompleteRowsOnward(jobs, j, status, shaOut);
    ChainedKept(jobs, jobs', ch);
    OneOwnerKept(jobs, jobs');
    OnlyPredecessor(jobs, ch, j);
    CompleteRowsFed(jobs, j, status, shaOut);
    CompleteRowsInputs(jobs, j, status, shaOut);
    SeededKept(runs, jobs, jobs', ch, jobs[j].next);
    OnwardInv(runs, jobs, jobs', ch);
  }

  /** Queueing an unblocked job keeps the shape: its predecessors have succeeded and its successors wait. */
  lemma PromoteShape(jobs: Jobs, k: Key, c: seq<JobId>, j: JobId)
    requires IsChain(jobs, k, c) && Shape(jobs, c) && Unblocked(jobs, j)
    ensures Members(Promoted(jobs, j), k, c) && Shape(Promoted(jobs, j), c)
  {
    var jobs' := Promoted(jobs, j);
    forall i, m | 0 <= i < m < |c| ensures InOrder(jobs'[c[i]], jobs'[c[m]]) {
      assert InOrder(jobs[c[i]], jobs[c[m]]);
      if c[m] == j {
        assert LinkAt(jobs, c, m - 1);
        assert jobs[c[m - 1]].status.Success?;
        assert i < m - 1 ==> InOrder(jobs[c[i]], jobs[c[m - 1]]);
      }
    }
  }

  lemma PromoteShaped(jobs: Jobs, ch: Chains, j: JobId)
    requires Chained(jobs, ch) && Shaped(jobs, ch) && Unblocked(jobs, j)
    ensures Chained(Promoted(jobs, j), ch) && Shaped(Promoted(jobs, j), ch)
  {
    var jobs' := Promoted(jobs, j);
    ChainedKept(jobs, jobs', ch);
    forall k | k in ch ensures Shape(jobs', ch[k]) {
      assert IsChain(jobs, k, ch[k]);
      PromoteShape(jobs, k, ch[k], j);
    }
  }

  lemma PromoteQuiet(jobs: Jobs, j: JobId)
    requires Owned(jobs) && Unblocked(jobs, j)
    ensures var jobs' := Promoted(jobs, j);
            SameSkeleton(jobs, jobs') && NoNewNode(jobs, jobs') && SameShas(jobs, jobs') && Owned(jobs')
  {
  }

  lemma PromotePlaced(runs: Runs, jobs: Jobs, j: JobId)
    requires Placed(runs, jobs) && OldSettled(runs, jobs)
    ensures Placed(runs, Promoted(jobs, j)) && OldSettled(runs, Promoted(jobs, j))
  {
  }

  lemma PromoteInv(runs: Runs, jobs: Jobs, ch: Chains, j: JobId)
    requires JobInv(runs, jobs, ch)
    ensures JobInv(runs, Promoted(jobs, j), ch)
  {
    if Unblocked(jobs, j) {
      PromoteShaped(jobs, ch, j);
      PromoteQuiet(jobs, j);
      PromotePlaced(runs, jobs, j);
      OneOwnerKept(jobs, Promoted(jobs, j));
      ShasKept(runs, jobs, Promoted(jobs, j), ch);
    }
  }

  lemma CompleteInv(db: Db, ch: Chains, c: Completion, nextLocked: bool)
    requires InvWith(db, ch)
    ensures InvWith(CompleteTx(db, c, nextLocked), ch)
  {
    if Accepts(db, c) {
      CompleteRowsInv(db.runs, db.jobs, ch, c.job, c.status, c.shaOut);
      var jobs := CompleteRows(db.jobs, c.job, c.status, c.shaOut);
      var job := jobs[c.job];
      if !job.status.Success? {
        CancelInv(db.runs, jobs, ch, Walk(jobs, job.run, job.attempt, job.next, {}));
      } else if job.next.Some? && !nextLocked {
        PromoteInv(db.runs, jobs, ch, job.next.value);
      }
    }
  }

  // ---------------------------------------------------------------- cancellation

  /** Runs may settle; none becomes active. */
  predicate RunsSettle(runs: Runs, runs': Runs) {
    && runs'.Keys == runs.Keys
    && forall r :: r in runs ==> && runs'[r].attempt == runs[r].attempt && runs'[r].sha0 == runs[r].sha0
                                 && runs'[r].repo == runs[r].repo && runs'[r].wave == runs[r].wave
                                 && (ActiveRun(runs'[r].status) ==> ActiveRun(runs[r].status))
  }

  lemma RunsSettleInv(runs: Runs, runs': Runs, jobs: Jobs, ch: Chains)
    requires OneRunPerRepo(runs) && JobInv(runs, jobs, ch) && RunsSettle(runs, runs')
    ensures OneRunPerRepo(runs') && JobInv(runs', jobs, ch)
  {
    RunStatusInv(runs, runs', jobs, ch);
    forall a, b | a in runs' && b in runs' && a != b ensures !Rivals(runs'[a], runs'[b]) {
      assert !Rivals(runs[a], runs[b]);
    }
  }

  lemma RunStatusInv(runs: Runs, runs': Runs, jobs: Jobs, ch: Chains)
    requires JobInv(runs, jobs, ch) && runs'.Keys == runs.Keys
    requires forall r :: r in runs ==> runs'[r].attempt == runs[r].attempt && runs'[r].sha0 == runs[r].sha0
    ensures JobInv(runs', jobs, ch)
  {
  }

  lemma RunCancelInv(db: Db, ch: Chains, r: RunId)
    requires InvWith(db, ch)
    ensures InvWith(RunCancelTx(db, r), ch)
  {
    if r in db.runs {
      var db' := RunCancelTx(db, r);
      CancelInv(db.runs, db.jobs, ch, JobsOfRun(db.jobs, r));
      RunsSettleInv(db.runs, db'.runs, db'.jobs, ch);
    }
  }

  lemma WaveCancelInv(db: Db, ch: Chains, w: WaveId)
    requires InvWith(db, ch)
    ensures InvWith(WaveCancelTx(db, w), ch)
  {
    if w in db.waves {
      var db' := WaveCancelTx(db, w);
      CancelInv(db.runs, db.jobs, ch, JobsOfRuns(db.jobs, RunsOfWave(db.runs, w)));
      RunsSettleInv(db.runs, db'.runs, db'.jobs, ch);
    }
  }
}
