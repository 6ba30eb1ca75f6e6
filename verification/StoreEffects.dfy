/** What an accepted event does to every row, over every run of events. */
module StoreEffects {
  import opened Wrappers
  import opened StoreModel
  import opened StoreInvariant
  import opened StoreSteps
  import opened StoreInsert
  import opened StoreRestart
  import opened StoreRuns
  import opened StoreEvolution
  import opened StoreTheorems
  import opened StoreWaiting

  /** Every job other than `ids` is as it was, and none was added. */
  predicate SameBut(jobs: Jobs, jobs': Jobs, ids: set<JobId>) {
    jobs'.Keys == jobs.Keys && forall j :: j in jobs && j !in ids ==> jobs'[j] == jobs[j]
  }

  /** Waves, runs and nodes are as they were. */
  predicate OnlyJobs(db: Db, db': Db) {
    db'.waves == db.waves && db'.runs == db.runs && db'.nodes == db.nodes
  }

  // ---------------------------------------------------------------- claims

  /** The job is queued in a running run of a started wave. */
  predicate Offered(db: Db, j: JobId) {
    && j in db.jobs && db.jobs[j].status == Queued
    && db.jobs[j].run in db.runs && db.runs[db.jobs[j].run].status == RunRunning
    && db.runs[db.jobs[j].run].wave in db.waves && db.waves[db.runs[db.jobs[j].run].wave].status == WaveStarted
  }

  /** The node is known, takes work and has a name. */
  predicate Able(db: Db, n: NodeId) {
    n in db.nodes && db.nodes[n] == Node(false) && n != NO_NODE
  }

  /** No other node has a job of the attempt. */
  predicate FreeFor(db: Db, r: RunId, attempt: nat, n: NodeId) {
    forall o :: o in db.jobs && db.jobs[o].run == r && db.jobs[o].attempt == attempt ==>
      db.jobs[o].node == None || db.jobs[o].node == Some(n)
  }

  /** A node is granted a job exactly when the job is offered, the node is able and the attempt is free for it. */
  lemma GrantedExactly(run: seq<Event>, i: nat)
    requires i < |run| && run[i].OnWork? && run[i].work.ClaimJob?
    ensures var db, n, j := At(run, i).db, run[i].work.node, run[i].work.job;
            Grants(db, run[i]) <==>
            Able(db, n) && Offered(db, j) && FreeFor(db, db.jobs[j].run, db.jobs[j].attempt, n)
  {
  }

  /** A granted job runs on the node; nothing else changes. */
  lemma ClaimTakes(run: seq<Event>, i: nat)
    requires i < |run| && Grants(At(run, i).db, run[i])
    ensures var db, db', n, j := At(run, i).db, At(run, i + 1).db, run[i].work.node, run[i].work.job;
            && j in db'.jobs && db'.jobs[j] == db.jobs[j].(status := Running, node := Some(n), started := true)
            && SameBut(db.jobs, db'.jobs, {j}) && OnlyJobs(db, db')
            && Claim(j, n, db.jobs[j].run, db.jobs[j].attempt, db.runs[db.jobs[j].run].resumes) in At(run, i + 1).claims
  {
    hide Waiting;
    var ch := ReachableWith(run, i);
    AlwaysCurrent(At(run, i).db, ch, run[i].work.job);
  }

  /** A queued job belongs to the latest attempt. */
  lemma AlwaysCurrent(db: Db, ch: Chains, j: JobId)
    requires InvWith(db, ch) && j in db.jobs && ActiveJob(db.jobs[j].status)
    ensures db.jobs[j].run in db.runs && db.jobs[j].attempt == db.runs[db.jobs[j].run].attempt
  {
  }

  /** A node that was drained is granted nothing until it is undrained. */
  lemma {:induction false} DrainedClaimsNothing(run: seq<Event>, i: nat, m: nat, n: NodeId)
    requires i < m < |run| && run[i] == OnOutside(SetNode(n, true))
    requires forall k :: i < k < m ==> run[k] != OnOutside(SetNode(n, false))
    ensures !(Grants(At(run, m).db, run[m]) && run[m].work.node == n)
  {
    StaysDrained(run, i, m, n);
  }

  lemma {:induction false} StaysDrained(run: seq<Event>, i: nat, m: nat, n: NodeId)
    requires i < m <= |run| && run[i] == OnOutside(SetNode(n, true))
    requires forall k :: i < k < m ==> run[k] != OnOutside(SetNode(n, false))
    ensures n in At(run, m).db.nodes && At(run, m).db.nodes[n].drained
    decreases m
  {
    hide Apply;
    if m > i + 1 {
      StaysDrained(run, i, m - 1, n);
      NodesStep(At(run, m - 1), run[m - 1], n);
    } else {
      NodesStep(At(run, i), run[i], n);
    }
  }

  lemma NodesStep(s: Sys, e: Event, n: NodeId)
    ensures e == OnOutside(SetNode(n, true)) ==> n in Apply(s, e).db.nodes && Apply(s, e).db.nodes[n].drained
    ensures !(e.OnOutside? && e.outside.SetNode? && e.outside.node == n) && n in s.db.nodes ==>
      n in Apply(s, e).db.nodes && Apply(s, e).db.nodes[n] == s.db.nodes[n]
  {
    if e.OnLaunch? && e.launch.CreateWave? && |e.launch.plans| == |e.launch.ids| {
      CreateKeepsNodes(s.db, e.launch.wave, e.launch.plans, e.launch.ids);
    }
  }

  lemma {:induction false} InsertKeepsNodes(db: Db, w: WaveId, plans: seq<RunPlan>, ids: seq<seq<JobId>>)
    requires |plans| == |ids| && InsertRuns(db, w, plans, ids).Some?
    ensures InsertRuns(db, w, plans, ids).value.nodes == db.nodes
    decreases plans
  {
    if plans != [] { InsertKeepsNodes(InsertRun(db, w, plans[0], ids[0]), w, plans[1..], ids[1..]); }
  }

  lemma CreateKeepsNodes(db: Db, w: WaveId, plans: seq<RunPlan>, ids: seq<seq<JobId>>)
    requires |plans| == |ids|
    ensures CreateWaveTx(db, w, plans, ids).nodes == db.nodes
  {
    var started := db.(waves := db.waves[w := Wave(WaveStarted)]);
    if InsertRuns(started, w, plans, ids).Some? { InsertKeepsNodes(started, w, plans, ids); }
  }

  /** An accepted unclaim queues the job again, and the node can claim it again while it is able and the run goes on. */
  lemma UnclaimReturns(run: seq<Event>, i: nat, n: NodeId, j: JobId)
    requires i < |run| && run[i] == OnWork(UnclaimJob(n, j)) && Unclaimable(At(run, i).db, n, j)
    ensures var db, db' := At(run, i).db, At(run, i + 1).db;
            && SameBut(db.jobs, db'.jobs, {j}) && OnlyJobs(db, db') && At(run, i + 1).claims == At(run, i).claims
            && j in db'.jobs && db.jobs[j].run in db.runs
            && db'.jobs[j] == db.jobs[j].(status := Queued, started := false,
                                          node := if db.runs[db.jobs[j].run].resumes > 0 then Some(n) else None)
            && (Able(db', n) && Offered(db', j) ==> Claimable(db', n, j))
  {
    var ch := ReachableWith(run, i);
    var db, db' := At(run, i).db, At(run, i + 1).db;
    forall o | o in db'.jobs && db'.jobs[o].run == db'.jobs[j].run && db'.jobs[o].attempt == db'.jobs[j].attempt
               && db'.jobs[o].node.Some?
      ensures db'.jobs[o].node.value == n
    {
      assert SameAttempt(db.jobs[o], db.jobs[j]);
    }
  }

  /** A claim that is returned at once leaves no trace in the rows, except that a resumed run keeps its node. */
  lemma UnclaimUndoesClaim(run: seq<Event>, i: nat, n: NodeId, j: JobId)
    requires i + 1 < |run| && run[i] == OnWork(ClaimJob(n, j)) && Grants(At(run, i).db, run[i])
    requires run[i + 1] == OnWork(UnclaimJob(n, j))
    ensures var db := At(run, i).db;
            At(run, i + 2).db ==
            if db.runs[db.jobs[j].run].resumes > 0 then db.(jobs := db.jobs[j := db.jobs[j].(node := Some(n))]) else db
  {
    AlwaysWaiting(run, i);
    var db := At(run, i).db;
    assert Ready(db.runs, db.jobs[j]);
    assert At(run, i + 1).db == Claimed(db, n, j);
    assert At(run, i + 2).db == Unclaimed(Claimed(db, n, j), n, j);
    assert db.jobs[j := db.jobs[j]] == db.jobs;
  }

  // ---------------------------------------------------------------- completions

  /** The row of a completed job: the reported status, and the reported commit if there is one. */
  predicate Reported(before: Job, after: Job, status: JobStatus, shaOut: string) {
    && after.status == status
    && (if shaOut == "" then after.shaOut == before.shaOut else after.shaOut == shaOut)
    && after == before.(status := status, shaOut := after.shaOut, shaOut8 := after.shaOut8)
  }

  /** The job is the only one in front of its successor, which is created. */
  predicate Leads(jobs: Jobs, j: JobId)
    requires j in jobs
  {
    jobs[j].next.Some? ==>
      && jobs[j].next.value in jobs && jobs[j].next.value != j
      && jobs[jobs[j].next.value].status == Created
      && forall p :: p in jobs && jobs[p].next == jobs[j].next ==> p == j
  }

  lemma ActiveLeads(db: Db, ch: Chains, j: JobId)
    requires InvWith(db, ch) && Waiting(db.runs, db.jobs) && j in db.jobs && ActiveJob(db.jobs[j].status)
    ensures Leads(db.jobs, j) && db.jobs[j].shaOut == ""
  {
    assert Behind(db.jobs, j) && Ready(db.runs, db.jobs[j]);
    OnlyPredecessor(db.jobs, ch, j);
    if db.jobs[j].next.Some? { LinksWithin(db.jobs, ch, j); }
  }

  /** After a success: the row, its successor's row, and nothing else. */
  predicate MovedOn(jobs: Jobs, jobs': Jobs, j: JobId, shaOut: string, nextLocked: bool) {
    && j in jobs && j in jobs' && Reported(jobs[j], jobs'[j], Success, shaOut)
    && SameBut(jobs, jobs', {j} + if jobs[j].next.Some? then {jobs[j].next.value} else {})
    && (jobs[j].next.Some? ==>
          var n := jobs[j].next.value;
          && n in jobs && jobs[n].status == Created
          && jobs'[n] == jobs[n].(status := if nextLocked then Created else Queued,
                                  shaIn := shaOut, shaIn8 := Sha8(shaOut)))
  }

  lemma SuccessRows(jobs: Jobs, j: JobId, shaOut: string, nextLocked: bool)
    requires j in jobs && Leads(jobs, j) && (jobs[j].next.Some? ==> shaOut != "")
    ensures var rows := CompleteRows(jobs, j, Success, shaOut);
            j in rows && MovedOn(jobs, AfterCompletion(rows, j, nextLocked), j, shaOut, nextLocked)
  {
    var rows := CompleteRows(jobs, j, Success, shaOut);
    if jobs[j].next.Some? { assert Unblocked(rows, jobs[j].next.value); }
  }

  /**
    An applied success queues the job's successor and gives it the reported commit; a successor whose row is locked
    is given the commit and stays created. Nothing else changes.
   */
  lemma SuccessMovesOn(run: seq<Event>, i: nat)
    requires i < |run| && Applied(run, i) && run[i].result == Success
    ensures var db, db' := At(run, i).db, At(run, i + 1).db;
            OnlyJobs(db, db') && MovedOn(db.jobs, db'.jobs, run[i].claim.job, run[i].shaOut, run[i].nextLocked)
  {
    hide InvWith, Waiting, MovedOn, CompleteRows, AfterCompletion, Leads;
    var ch := ReachableWith(run, i);
    AlwaysWaiting(run, i);
    ActiveLeads(At(run, i).db, ch, run[i].claim.job);
    SuccessRows(At(run, i).db.jobs, run[i].claim.job, run[i].shaOut, run[i].nextLocked);
  }

  /** After a failure: the row, everything behind it in the chain `c` cancelled, and nothing else. */
  predicate StoppedAt(jobs: Jobs, jobs': Jobs, j: JobId, status: JobStatus, shaOut: string, c: seq<JobId>, p: nat) {
    && j in jobs && j in jobs' && p < |c| && c[p] == j
    && IsChain(jobs, Key(jobs[j].run, jobs[j].attempt), c)
    && (forall x :: x in jobs && SameAttempt(jobs[x], jobs[j]) ==> x in c)
    && Reported(jobs[j], jobs'[j], status, shaOut)
    && (forall k :: p < k < |c| ==> c[k] in jobs' && jobs'[c[k]].status == Cancelled)
    && SameBut(jobs, jobs', Elements(c[p..]))
  }

  /** Every job behind an active one is created. */
  lemma {:induction false} CreatedBehind(db: Db, c: seq<JobId>, key: Key, p: nat, k: nat)
    requires Waiting(db.runs, db.jobs) && IsChain(db.jobs, key, c) && p < k < |c| && ActiveJob(db.jobs[c[p]].status)
    ensures db.jobs[c[k]].status == Created
    decreases k
  {
    if k > p + 1 { CreatedBehind(db, c, key, p, k - 1); }
    assert LinkAt(db.jobs, c, k - 1) && Behind(db.jobs, c[k - 1]);
  }

  lemma RowsChained(jobs: Jobs, j: JobId, status: JobStatus, shaOut: string, key: Key, c: seq<JobId>)
    requires j in jobs && IsChain(jobs, key, c)
    ensures var rows := CompleteRows(jobs, j, status, shaOut);
            && j in rows && IsChain(rows, key, c) && rows.Keys == jobs.Keys
            && forall x :: x in jobs && x != j ==> rows[x].status == jobs[x].status
  {
    var rows := CompleteRows(jobs, j, status, shaOut);
    forall i | 0 <= i < |c| ensures LinkAt(rows, c, i) { assert LinkAt(jobs, c, i); }
  }

  lemma FailureRows(jobs: Jobs, j: JobId, status: JobStatus, shaOut: string, nextLocked: bool, c: seq<JobId>, p: nat)
    requires j in jobs && status != Success && p < |c| && c[p] == j && jobs[j].next != Some(j)
    requires IsChain(jobs, Key(jobs[j].run, jobs[j].attempt), c)
    requires forall x :: x in jobs && SameAttempt(jobs[x], jobs[j]) ==> x in c
    requires forall k :: p < k < |c| ==> jobs[c[k]].status == Created
    ensures var rows := CompleteRows(jobs, j, status, shaOut);
            j in rows && StoppedAt(jobs, AfterCompletion(rows, j, nextLocked), j, status, shaOut, c, p)
  {
    var rows, key := CompleteRows(jobs, j, status, shaOut), Key(jobs[j].run, jobs[j].attempt);
    RowsChained(jobs, j, status, shaOut, key, c);
    DoneRow(jobs, j, status, shaOut);
    WalkBehind(rows, key, c, p);
    assert LinkAt(jobs, c, p);
    forall k | p <= k < |c| ensures c[k] in Elements(c[p..]) { assert c[p..][k - p] == c[k]; }
    forall k | p < k < |c| ensures c[k] in Elements(c[p + 1..]) { assert c[p + 1..][k - p - 1] == c[k]; }
    forall x | x in Elements(c[p + 1..]) ensures x != j && x in Elements(c[p..]) {
      var k :| 0 <= k < |c[p + 1..]| && c[p + 1..][k] == x;
      assert c[p + 1 + k] == x;
    }
  }

  /**
    After an applied completion that is no success every job behind it in the chain is cancelled, and nothing else
    changes.
   */
  lemma FailureStops(run: seq<Event>, i: nat) returns (c: seq<JobId>, p: nat)
    requires i < |run| && Applied(run, i) && run[i].result != Success
    ensures var db, db' := At(run, i).db, At(run, i + 1).db;
            OnlyJobs(db, db') && StoppedAt(db.jobs, db'.jobs, run[i].claim.job, run[i].result, run[i].shaOut, c, p)
  {
    hide Waiting, StoppedAt, CompleteRows, AfterCompletion, Leads;
    var db, j := At(run, i).db, run[i].claim.job;
    var ch := ReachableWith(run, i);
    AlwaysWaiting(run, i);
    c, p := PlaceInChain(db, ch, j);
    hide InvWith;
    FailureRows(db.jobs, j, run[i].result, run[i].shaOut, run[i].nextLocked, c, p);
  }

  lemma PlaceInChain(db: Db, ch: Chains, j: JobId) returns (c: seq<JobId>, p: nat)
    requires InvWith(db, ch) && Waiting(db.runs, db.jobs) && j in db.jobs && ActiveJob(db.jobs[j].status)
    ensures p < |c| && c[p] == j && db.jobs[j].next != Some(j)
    ensures IsChain(db.jobs, Key(db.jobs[j].run, db.jobs[j].attempt), c)
    ensures forall x :: x in db.jobs && SameAttempt(db.jobs[x], db.jobs[j]) ==> x in c
    ensures forall k :: p < k < |c| ==> db.jobs[c[k]].status == Created
  {
    hide Waiting;
    var key := Key(db.jobs[j].run, db.jobs[j].attempt);
    c := ch[key];
    assert IsChain(db.jobs, key, c);
    p := IndexIn(c, j);
    OnlyPredecessor(db.jobs, ch, j);
    forall k | p < k < |c| ensures db.jobs[c[k]].status == Created { CreatedBehind(db, c, key, p, k); }
  }
}
