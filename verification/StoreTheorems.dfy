/** The promises of the store, over every run of events. */
module StoreTheorems {
  import opened Wrappers
  import opened StoreModel
  import opened StoreInvariant
  import opened StoreSteps
  import opened StoreRestart
  import opened StoreRuns
  import opened StoreEvolution

  // ---------------------------------------------------------------- chain shape

  predicate Live(s: JobStatus) { s.Queued? || s.Running? }

  /**
    In every reachable state the jobs of each attempt form one chain along next_id: jobs that succeeded, then one
    job in any status, then jobs that never started. In an attempt that is not the latest every job is final.
   */
  lemma ChainShape(run: seq<Event>, n: nat, r: RunId, attempt: nat) returns (c: seq<JobId>, pivot: nat)
    requires n <= |run|
    requires r in At(run, n).db.runs && 1 <= attempt <= At(run, n).db.runs[r].attempt
    ensures var db := At(run, n).db;
            && IsChain(db.jobs, Key(r, attempt), c) && pivot < |c|
            && (forall j :: j in db.jobs && db.jobs[j].run == r && db.jobs[j].attempt == attempt ==> j in c)
            && (forall i :: 0 <= i < pivot ==> db.jobs[c[i]].status.Success?)
            && (forall i :: pivot < i < |c| ==> Idle(db.jobs[c[i]]))
            && (attempt < db.runs[r].attempt ==> forall i :: 0 <= i < |c| ==> Settled(db.jobs[c[i]].status))
  {
    var ch := ReachableWith(run, n);
    c, pivot := ShapeOf(At(run, n).db, ch, r, attempt);
  }

  lemma ShapeOf(db: Db, ch: Chains, r: RunId, attempt: nat) returns (c: seq<JobId>, pivot: nat)
    requires InvWith(db, ch) && r in db.runs && 1 <= attempt <= db.runs[r].attempt
    ensures IsChain(db.jobs, Key(r, attempt), c) && pivot < |c|
    ensures forall j :: j in db.jobs && db.jobs[j].run == r && db.jobs[j].attempt == attempt ==> j in c
    ensures forall i :: 0 <= i < pivot ==> db.jobs[c[i]].status.Success?
    ensures forall i :: pivot < i < |c| ==> Idle(db.jobs[c[i]])
    ensures attempt < db.runs[r].attempt ==> forall i :: 0 <= i < |c| ==> Settled(db.jobs[c[i]].status)
  {
    c := ch[Key(r, attempt)];
    assert IsChain(db.jobs, Key(r, attempt), c) && Shape(db.jobs, c);
    pivot := FirstUnfinished(db.jobs, c);
    if pivot == |c| { pivot := |c| - 1; }
    forall i | pivot < i < |c| ensures Idle(db.jobs[c[i]]) {
      assert InOrder(db.jobs[c[pivot]], db.jobs[c[i]]);
    }
  }

  /** Behind a job that is queued or running nothing is. */
  lemma OneLiveInChain(jobs: Jobs, c: seq<JobId>)
    requires (forall i :: 0 <= i < |c| ==> c[i] in jobs) && Shape(jobs, c)
    ensures forall i, m :: 0 <= i < m < |c| ==> !(Live(jobs[c[i]].status) && Live(jobs[c[m]].status))
  {
    forall i, m | 0 <= i < m < |c| ensures !(Live(jobs[c[i]].status) && Live(jobs[c[m]].status)) {
      assert InOrder(jobs[c[i]], jobs[c[m]]);
    }
  }

  lemma OneLiveIn(db: Db, ch: Chains, a: JobId, b: JobId)
    requires InvWith(db, ch) && a in db.jobs && b in db.jobs && db.jobs[a].run == db.jobs[b].run
    requires Live(db.jobs[a].status) && Live(db.jobs[b].status)
    ensures a == b
  {
    var k := Key(db.jobs[a].run, db.jobs[a].attempt);
    assert db.jobs[a].attempt == db.runs[k.run].attempt && db.jobs[b].attempt == db.runs[k.run].attempt;
    assert IsChain(db.jobs, k, ch[k]) && Shape(db.jobs, ch[k]);
    var i, m := IndexIn(ch[k], a), IndexIn(ch[k], b);
    OneLiveInChain(db.jobs, ch[k]);
  }

  /** At most one job of a run is queued or running. */
  lemma OneLiveJob(run: seq<Event>, n: nat, a: JobId, b: JobId)
    requires n <= |run|
    requires var jobs := At(run, n).db.jobs;
             a in jobs && b in jobs && jobs[a].run == jobs[b].run && Live(jobs[a].status) && Live(jobs[b].status)
    ensures a == b
  {
    var ch := ReachableWith(run, n);
    OneLiveIn(At(run, n).db, ch, a, b);
  }

  /** No repository ever has two active runs. */
  lemma OneActiveRun(run: seq<Event>, n: nat, a: RunId, b: RunId)
    requires n <= |run|
    requires var runs := At(run, n).db.runs;
             && a in runs && b in runs && runs[a].repo == runs[b].repo
             && ActiveRun(runs[a].status) && ActiveRun(runs[b].status)
    ensures a == b
  {
    var ch := ReachableWith(run, n);
    assert a != b ==> !Rivals(At(run, n).db.runs[a], At(run, n).db.runs[b]);
  }

  // ---------------------------------------------------------------- commit threading

  /** Commit ids run along every chain, from the commit of the run to the output of the last job. */
  lemma CommitThreading(run: seq<Event>, n: nat, r: RunId, attempt: nat) returns (c: seq<JobId>)
    requires n <= |run|
    requires r in At(run, n).db.runs && 1 <= attempt <= At(run, n).db.runs[r].attempt
    ensures var db := At(run, n).db;
            && IsChain(db.jobs, Key(r, attempt), c)
            && (forall j :: j in db.jobs && db.jobs[j].run == r && db.jobs[j].attempt == attempt ==> j in c)
            && Threaded(db.jobs, c, db.runs[r].sha0)
  {
    var ch := ReachableWith(run, n);
    c := ThreadedChain(At(run, n).db, ch, r, attempt);
  }

  /** The first eight characters, or all of them. */
  predicate ShortOf(short: string, sha: string) {
    short <= sha && |short| == if |sha| < 8 then |sha| else 8
  }

  /** The first job starts from `sha0`, a job's output is its successor's input, short columns are prefixes. */
  predicate Threaded(jobs: Jobs, c: seq<JobId>, sha0: string)
    requires forall i :: 0 <= i < |c| ==> c[i] in jobs
  {
    && (c != [] ==> jobs[c[0]].shaIn == sha0)
    && (forall i, m :: 0 <= i < |c| && m == i + 1 < |c| && jobs[c[i]].shaOut != "" ==>
         jobs[c[m]].shaIn == jobs[c[i]].shaOut)
    && (forall i :: 0 <= i < |c| ==>
          ShortOf(jobs[c[i]].shaIn8, jobs[c[i]].shaIn) && ShortOf(jobs[c[i]].shaOut8, jobs[c[i]].shaOut))
  }

  lemma ChainThreads(jobs: Jobs, c: seq<JobId>, sha0: string)
    requires (forall i :: 0 <= i < |c| ==> c[i] in jobs) && Linked(jobs, c) && Short(jobs) && Fed(jobs)
    requires c != [] ==> jobs[c[0]].shaIn == sha0
    ensures Threaded(jobs, c, sha0)
  {
    forall i, m | 0 <= i < |c| && m == i + 1 < |c| && jobs[c[i]].shaOut != ""
      ensures jobs[c[m]].shaIn == jobs[c[i]].shaOut
    {
      assert LinkAt(jobs, c, i);
    }
  }

  lemma ThreadedChain(db: Db, ch: Chains, r: RunId, attempt: nat) returns (c: seq<JobId>)
    requires InvWith(db, ch) && r in db.runs && 1 <= attempt <= db.runs[r].attempt
    ensures IsChain(db.jobs, Key(r, attempt), c) && Threaded(db.jobs, c, db.runs[r].sha0)
    ensures forall j :: j in db.jobs && db.jobs[j].run == r && db.jobs[j].attempt == attempt ==> j in c
  {
    hide Threaded, Fed, Short, Placed, Owned, OneOwner, OldSettled, Shaped;
    c := ch[Key(r, attempt)];
    assert IsChain(db.jobs, Key(r, attempt), c);
    ChainThreads(db.jobs, c, db.runs[r].sha0);
  }

  // ---------------------------------------------------------------- execution fence

  predicate SameExecution(db: Db, c: Claim) {
    c.run in db.runs && db.runs[c.run].attempt == c.attempt && db.runs[c.run].resumes == c.resumes
  }

  /** A claim names a job of its run and attempt, and its execution is not in the future. */
  predicate ClaimBehind(db: Db, c: Claim) {
    && c.job in db.jobs && db.jobs[c.job].run == c.run && db.jobs[c.job].attempt == c.attempt && c.run in db.runs
    && NotLater(c.attempt, c.resumes, db.runs[c.run].attempt, db.runs[c.run].resumes)
  }

  lemma ClaimBehindKept(db: Db, db': Db, c: Claim)
    requires Evolves(db, db') && ClaimBehind(db, c)
    ensures ClaimBehind(db', c)
  {
    assert RunEvolves(db.runs[c.run], db'.runs[c.run]);
    assert JobEvolves(Resumable(db.runs, db.jobs[c.job]), db.jobs[c.job], db'.jobs[c.job]);
  }

  /** A job can only be claimed in the current attempt of its run. */
  lemma GrantBehind(db: Db, ch: Chains, n: NodeId, j: JobId)
    requires InvWith(db, ch) && Claimable(db, n, j)
    ensures ClaimBehind(db, ClaimOf(db, n, j)) && SameExecution(db, ClaimOf(db, n, j))
  {
  }

  /** The event of `run` that granted claim `c`, before position `n`. */
  predicate GrantedAt(run: seq<Event>, k: nat, c: Claim)
    requires k < |run|
  {
    Grants(At(run, k).db, run[k]) && c == ClaimOf(At(run, k).db, run[k].work.node, run[k].work.job)
  }

  lemma {:induction false} ClaimOrigin(run: seq<Event>, n: nat, c: Claim) returns (k: nat)
    requires n <= |run| && c in At(run, n).claims
    ensures k < n && GrantedAt(run, k, c)
  {
    if c in At(run, n - 1).claims {
      k := ClaimOrigin(run, n - 1, c);
    } else {
      k := n - 1;
    }
  }

  /** From its grant on, a claim is behind the state. */
  lemma {:induction false} ClaimStaysBehind(run: seq<Event>, k: nat, n: nat, c: Claim)
    requires k <= n <= |run| && k < |run| && GrantedAt(run, k, c)
    ensures ClaimBehind(At(run, n).db, c)
  {
    if n == k {
      GrantedBehind(run, k, c);
    } else {
      ClaimStaysBehind(run, k, n - 1, c);
      BehindNext(run, n - 1, c);
    }
  }

  lemma GrantedBehind(run: seq<Event>, k: nat, c: Claim)
    requires k < |run| && GrantedAt(run, k, c)
    ensures ClaimBehind(At(run, k).db, c)
  {
    var ch := ReachableWith(run, k);
    GrantBehind(At(run, k).db, ch, run[k].work.node, run[k].work.job);
  }

  lemma BehindNext(run: seq<Event>, n: nat, c: Claim)
    requires n < |run| && ClaimBehind(At(run, n).db, c)
    ensures ClaimBehind(At(run, n + 1).db, c)
  {
    StepEvolves(run, n);
    ClaimBehindKept(At(run, n).db, At(run, n + 1).db, c);
  }

  predicate Applied(run: seq<Event>, i: nat)
    requires i < |run|
  {
    run[i].Deliver? && Sendable(At(run, i), run[i]) && Accepts(At(run, i).db, Message(run[i]))
  }

  predicate RestartsRun(run: seq<Event>, m: nat, r: RunId)
    requires m < |run|
  {
    && run[m].OnLaunch? && run[m].launch.Restart? && run[m].launch.arg.run == r
    && Restarts(At(run, m).db, run[m].launch.arg, run[m].launch.newIds, run[m].launch.chain)
  }

  /** (attempt, resume count) of a run never goes back. */
  lemma {:induction false} ExecutionsMoveOn(run: seq<Event>, m: nat, n: nat, r: RunId)
    requires m <= n <= |run| && r in At(run, m).db.runs
    ensures r in At(run, n).db.runs
    ensures var a, b := At(run, m).db.runs[r], At(run, n).db.runs[r];
      NotLater(a.attempt, a.resumes, b.attempt, b.resumes)
    decreases n
  {
    if m < n {
      ExecutionsMoveOn(run, m, n - 1, r);
      StepEvolves(run, n - 1);
      assert RunEvolves(At(run, n - 1).db.runs[r], At(run, n).db.runs[r]);
    }
  }

  lemma AppliedNow(db: Db, c: Claim, m: Completion)
    requires ClaimBehind(db, c) && m.job == c.job && (m.resume == c.resumes || m.resume == 0)
    requires Fenced(db, m.job, m.resume)
    ensures SameExecution(db, c)
  {
  }

  lemma RestartMovesOn(run: seq<Event>, m: nat, r: RunId)
    requires m < |run| && RestartsRun(run, m, r)
    ensures r in At(run, m).db.runs && r in At(run, m + 1).db.runs
    ensures var a, b := At(run, m).db.runs[r], At(run, m + 1).db.runs[r];
      !NotLater(b.attempt, b.resumes, a.attempt, a.resumes)
  {
  }

  /**
    The execution fence: whatever was delayed or repeated, a completion is applied only in the execution in which
    its job was claimed. The run was restarted at no point between the claim and the completion.
   */
  lemma ExecutionFence(run: seq<Event>, i: nat) returns (k: nat)
    requires i < |run| && Applied(run, i)
    ensures k < i && GrantedAt(run, k, run[i].claim)
    ensures forall m :: k <= m <= i ==> SameExecution(At(run, m).db, run[i].claim)
    ensures forall m :: k < m < i ==> !RestartsRun(run, m, run[i].claim.run)
  {
    var c := run[i].claim;
    k := ClaimOrigin(run, i, c);
    ClaimStaysBehind(run, k, i, c);
    AppliedNow(At(run, i).db, c, Message(run[i]));
    forall m | k <= m <= i ensures SameExecution(At(run, m).db, c) {
      ClaimStaysBehind(run, k, m, c);
      ExecutionsMoveOn(run, m, i, c.run);
    }
    forall m | k < m < i ensures !RestartsRun(run, m, c.run) {
      assert SameExecution(At(run, m).db, c) && SameExecution(At(run, m + 1).db, c);
      if RestartsRun(run, m, c.run) { RestartMovesOn(run, m, c.run); }
    }
  }

  // ---------------------------------------------------------------- node ownership

  /** Two jobs of one attempt that have a node have the same node. */
  lemma OwnersAgree(run: seq<Event>, n: nat, a: JobId, b: JobId)
    requires n <= |run|
    requires var jobs := At(run, n).db.jobs;
             a in jobs && b in jobs && SameAttempt(jobs[a], jobs[b]) && jobs[a].node.Some? && jobs[b].node.Some?
    ensures At(run, n).db.jobs[a].node == At(run, n).db.jobs[b].node
  {
    var ch := ReachableWith(run, n);
  }

  predicate AnchoredBy(db: Db, r: RunId, node: NodeId, j: JobId) {
    && r in db.runs && j in db.jobs && db.jobs[j].run == r && db.jobs[j].attempt == db.runs[r].attempt
    && db.jobs[j].node == Some(node) && (db.jobs[j].status.Success? || db.runs[r].resumes > 0)
  }

  /** Some job of the current attempt succeeded on `node`, or the run was resumed on `node`. */
  ghost predicate Anchored(db: Db, r: RunId, node: NodeId) {
    exists j :: AnchoredBy(db, r, node, j)
  }

  lemma AnchorKept(db: Db, db': Db, r: RunId, node: NodeId, j: JobId)
    requires Evolves(db, db') && AnchoredBy(db, r, node, j) && r in db'.runs
    requires db'.runs[r].attempt == db.runs[r].attempt
    ensures AnchoredBy(db', r, node, j)
  {
    assert RunEvolves(db.runs[r], db'.runs[r]);
    assert JobEvolves(Resumable(db.runs, db.jobs[j]), db.jobs[j], db'.jobs[j]);
  }

  /** A successful job anchors its attempt. */
  lemma SuccessAnchors(run: seq<Event>, n: nat, j: JobId)
    requires n <= |run| && j in At(run, n).db.jobs && At(run, n).db.jobs[j].status.Success?
    requires At(run, n).db.jobs[j].run in At(run, n).db.runs
    requires At(run, n).db.jobs[j].attempt == At(run, n).db.runs[At(run, n).db.jobs[j].run].attempt
    ensures At(run, n).db.jobs[j].node.Some?
    ensures Anchored(At(run, n).db, At(run, n).db.jobs[j].run, At(run, n).db.jobs[j].node.value)
  {
    var ch := ReachableWith(run, n);
    var db := At(run, n).db;
    assert db.jobs[j].node.Some?;
    assert AnchoredBy(db, db.jobs[j].run, db.jobs[j].node.value, j);
  }

  /** Resuming a run anchors it at the node of its failed job. */
  lemma ResumeAnchors(run: seq<Event>, m: nat, r: RunId) returns (node: NodeId)
    requires m < |run| && RestartsRun(run, m, r) && run[m].launch.arg.fromFailed
    ensures Anchored(At(run, m + 1).db, r, node)
    ensures var db, chain := At(run, m).db, run[m].launch.chain;
            CanResume(db, run[m].launch.arg, chain) &&
              db.jobs[chain[FirstUnfinished(db.jobs, chain)]].node == Some(node)
  {
    var l := run[m].launch;
    var ch := ReachableWith(run, m);
    node := ResumedAnchor(At(run, m).db, ch, l.arg, l.chain);
    assert At(run, m + 1).db == LaunchTx(At(run, m).db, l);
  }

  lemma ResumedAnchor(db: Db, ch: Chains, arg: RestartArgs, chain: seq<JobId>) returns (node: NodeId)
    requires InvWith(db, ch) && CanRestart(db, arg) && CanResume(db, arg, chain)
    ensures Anchored(ResumeTx(db, arg, chain), arg.run, node)
    ensures db.jobs[chain[FirstUnfinished(db.jobs, chain)]].node == Some(node)
  {
    var f := FirstUnfinished(db.jobs, chain);
    node := db.jobs[chain[f]].node.value;
    ResumeRowsResumed(db.jobs, ch, arg.run, db.runs[arg.run].attempt, chain, f);
    assert AnchoredBy(ResumeTx(db, arg, chain), arg.run, node, chain[f]);
  }

  /**
    Once anchored, an attempt has one owner for good: until the next attempt starts, every job of the attempt that
    has a node has this one, through every unclaim, claim, cancellation and resume.
   */
  lemma {:induction false} OwnerIsPermanent(run: seq<Event>, m: nat, n: nat, r: RunId, node: NodeId)
    requires m <= n <= |run| && Anchored(At(run, m).db, r, node)
    requires r in At(run, n).db.runs && At(run, n).db.runs[r].attempt == At(run, m).db.runs[r].attempt
    ensures Anchored(At(run, n).db, r, node)
    ensures forall j :: j in At(run, n).db.jobs && At(run, n).db.jobs[j].run == r && At(run, n).db.jobs[j].node.Some?
                        && At(run, n).db.jobs[j].attempt == At(run, n).db.runs[r].attempt
                        ==> At(run, n).db.jobs[j].node == Some(node)
    decreases n
  {
    if m < n {
      ExecutionsMoveOn(run, m, n - 1, r);
      ExecutionsMoveOn(run, n - 1, n, r);
      OwnerIsPermanent(run, m, n - 1, r, node);
      StepEvolves(run, n - 1);
      var j :| AnchoredBy(At(run, n - 1).db, r, node, j);
      AnchorKept(At(run, n - 1).db, At(run, n).db, r, node, j);
    }
    AnchorOwns(run, n, r, node);
  }

  lemma AnchorOwns(run: seq<Event>, n: nat, r: RunId, node: NodeId)
    requires n <= |run| && Anchored(At(run, n).db, r, node)
    ensures forall j :: j in At(run, n).db.jobs && At(run, n).db.jobs[j].run == r && At(run, n).db.jobs[j].node.Some?
                        && At(run, n).db.jobs[j].attempt == At(run, n).db.runs[r].attempt
                        ==> At(run, n).db.jobs[j].node == Some(node)
  {
    var jobs := At(run, n).db.jobs;
    var i :| AnchoredBy(At(run, n).db, r, node, i);
    forall j | j in jobs && jobs[j].run == r && jobs[j].node.Some? && jobs[j].attempt == At(run, n).db.runs[r].attempt
      ensures jobs[j].node == Some(node)
    {
      OwnersAgree(run, n, i, j);
    }
  }
}
