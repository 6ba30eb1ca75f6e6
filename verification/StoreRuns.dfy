/**
  Whole runs of the control plane. An event is one transaction, one message from a node, or one action of the
  surrounding code; an event that is refused changes nothing. Claims are never forgotten, so that the completion
  of a claimed job can arrive late, more than once, or never.
 */
module StoreRuns {
  import opened StoreModel
  import opened StoreInvariant
  import opened StoreSteps
  import opened StoreInsert
  import opened StoreRestart

  /** What a node was given: the job, and the attempt and resume count of the run at that moment. */
  datatype Claim = Claim(job: JobId, node: NodeId, run: RunId, attempt: nat, resumes: nat)

  /** Requests that create chains or reuse them. */
  datatype Launch =
    | CreateWave(wave: WaveId, plans: seq<RunPlan>, ids: seq<seq<JobId>>)
    | Restart(arg: RestartArgs, newIds: seq<JobId>, chain: seq<JobId>)

  /** Row transitions of single attempts. Cancelling an attempt is what stale-node recovery does. */
  datatype Work =
    | ClaimJob(node: NodeId, job: JobId)
    | UnclaimJob(node: NodeId, job: JobId)
    | PromoteJob(job: JobId)
    | CancelAttempt(run: RunId, attempt: nat)

  datatype Stop =
    | CancelRun(run: RunId)
    | CancelWave(wave: WaveId)

  /** What surrounding code does to runs, waves and nodes. */
  datatype Outside =
    | SettleRun(run: RunId, runStatus: RunStatus)
    | SetWave(wave: WaveId, waveStatus: WaveStatus)
    | SetNode(node: NodeId, drained: bool)

  datatype Event =
    | OnLaunch(launch: Launch)
    | OnWork(work: Work)
    | OnStop(stop: Stop)
    | OnOutside(outside: Outside)
    | Deliver(claim: Claim, resume: nat, result: JobStatus, shaOut: string, nextLocked: bool)

  datatype Sys = Sys(db: Db, claims: set<Claim>)

  function ClaimOf(db: Db, n: NodeId, j: JobId): Claim
    requires Claimable(db, n, j)
  {
    var run := db.runs[db.jobs[j].run];
    Claim(j, n, db.jobs[j].run, run.attempt, run.resumes)
  }

  /** A completion carries the resume count of its claim, or zero when the sender leaves it out. */
  predicate Sendable(s: Sys, e: Event)
    requires e.Deliver?
  {
    e.claim in s.claims && (e.resume == e.claim.resumes || e.resume == 0)
  }

  function Message(e: Event): Completion
    requires e.Deliver?
  {
    Completion(e.claim.job, e.claim.node, e.resume, e.result, e.shaOut)
  }

  function LaunchTx(db: Db, e: Launch): Db {
    match e
    case CreateWave(w, plans, ids) => if |plans| == |ids| then CreateWaveTx(db, w, plans, ids) else db
    case Restart(arg, ids, chain) => RestartTx(db, arg, ids, chain)
  }

  function WorkTx(db: Db, e: Work): Db {
    match e
    case ClaimJob(n, j) => if Claimable(db, n, j) then Claimed(db, n, j) else db
    case UnclaimJob(n, j) => Unclaimed(db, n, j)
    case PromoteJob(j) => db.(jobs := Promoted(db.jobs, j))
    case CancelAttempt(r, a) => db.(jobs := CancelJobs(db.jobs, JobsOfAttempt(db.jobs, r, a)))
  }

  function StopTx(db: Db, e: Stop): Db {
    match e
    case CancelRun(r) => RunCancelTx(db, r)
    case CancelWave(w) => WaveCancelTx(db, w)
  }

  /** Surrounding code only settles runs, and never brings a cancelled wave back. */
  function OutsideTx(db: Db, e: Outside): Db {
    match e
    case SettleRun(r, st) =>
      if r in db.runs && !ActiveRun(st) then db.(runs := db.runs[r := db.runs[r].(status := st)]) else db
    case SetWave(w, st) =>
      if w in db.waves && !db.waves[w].status.WaveCancelled? then db.(waves := db.waves[w := Wave(st)]) else db
    case SetNode(n, drained) => db.(nodes := db.nodes[n := Node(drained)])
  }

  predicate Grants(db: Db, e: Event) {
    e.OnWork? && e.work.ClaimJob? && Claimable(db, e.work.node, e.work.job)
  }

  function Apply(s: Sys, e: Event): Sys {
    match e
    case OnLaunch(l) => s.(db := LaunchTx(s.db, l))
    case OnWork(w) =>
      Sys(WorkTx(s.db, w), if Grants(s.db, e) then s.claims + {ClaimOf(s.db, w.node, w.job)} else s.claims)
    case OnStop(c) => s.(db := StopTx(s.db, c))
    case OnOutside(o) => s.(db := OutsideTx(s.db, o))
    case Deliver(_, _, _, _, locked) => if Sendable(s, e) then s.(db := CompleteTx(s.db, Message(e), locked)) else s
  }

  /** The state after the first `n` events of `run`, from an empty database. */
  function At(run: seq<Event>, n: nat): Sys
    requires n <= |run|
  {
    if n == 0 then Sys(EMPTY_DB, {}) else Apply(At(run, n - 1), run[n - 1])
  }

  // ---------------------------------------------------------------- every reachable state

  lemma WorkInv(db: Db, ch: Chains, e: Work)
    requires InvWith(db, ch)
    ensures InvWith(WorkTx(db, e), ch)
  {
    match e
    case ClaimJob(n, j) => if Claimable(db, n, j) { ClaimInv(db, ch, n, j); }
    case UnclaimJob(n, j) => UnclaimInv(db, ch, n, j);
    case PromoteJob(j) => PromoteInv(db.runs, db.jobs, ch, j);
    case CancelAttempt(r, a) => CancelInv(db.runs, db.jobs, ch, JobsOfAttempt(db.jobs, r, a));
  }

  lemma SettleRunInv(db: Db, ch: Chains, r: RunId, st: RunStatus)
    requires InvWith(db, ch) && r in db.runs && !ActiveRun(st)
    ensures InvWith(db.(runs := db.runs[r := db.runs[r].(status := st)]), ch)
  {
    RunsSettleInv(db.runs, db.runs[r := db.runs[r].(status := st)], db.jobs, ch);
  }

  lemma SameRowsInv(db: Db, db': Db, ch: Chains)
    requires InvWith(db, ch) && db'.runs == db.runs && db'.jobs == db.jobs && db'.waves.Keys == db.waves.Keys
    ensures InvWith(db', ch)
  {
  }

  lemma StopInv(db: Db, ch: Chains, e: Stop)
    requires InvWith(db, ch)
    ensures InvWith(StopTx(db, e), ch)
  {
    match e
    case CancelRun(r) => RunCancelInv(db, ch, r);
    case CancelWave(w) => WaveCancelInv(db, ch, w);
  }

  lemma OutsideInv(db: Db, ch: Chains, e: Outside)
    requires InvWith(db, ch)
    ensures InvWith(OutsideTx(db, e), ch)
  {
    match e
    case SettleRun(r, st) => if r in db.runs && !ActiveRun(st) { SettleRunInv(db, ch, r, st); }
    case SetWave(w, st) => if w in db.waves { SameRowsInv(db, db.(waves := db.waves[w := Wave(st)]), ch); }
    case SetNode(n, drained) => SameRowsInv(db, db.(nodes := db.nodes[n := Node(drained)]), ch);
  }

  lemma LaunchInv(db: Db, ch: Chains, e: Launch) returns (ch': Chains)
    requires InvWith(db, ch)
    ensures InvWith(LaunchTx(db, e), ch')
  {
    ch' := ch;
    match e
    case CreateWave(w, plans, ids) => if |plans| == |ids| { ch' := CreateWaveInv(db, ch, w, plans, ids); }
    case Restart(arg, ids, chain) => ch' := RestartInv(db, ch, arg, ids, chain);
  }

  lemma ApplyInv(s: Sys, ch: Chains, e: Event) returns (ch': Chains)
    requires InvWith(s.db, ch)
    ensures InvWith(Apply(s, e).db, ch')
  {
    hide InvWith, LaunchTx, WorkTx, StopTx, OutsideTx, CompleteTx;
    ch' := ch;
    match e
    case OnLaunch(l) => ch' := LaunchInv(s.db, ch, l);
    case OnWork(w) => WorkInv(s.db, ch, w);
    case OnStop(c) => StopInv(s.db, ch, c);
    case OnOutside(o) => OutsideInv(s.db, ch, o);
    case Deliver(_, _, _, _, locked) => if Sendable(s, e) { CompleteInv(s.db, ch, Message(e), locked); }
  }

  lemma EmptyInv()
    ensures InvWith(EMPTY_DB, map[])
  {
  }

  lemma {:induction false} ReachableWith(run: seq<Event>, n: nat) returns (ch: Chains)
    requires n <= |run|
    ensures InvWith(At(run, n).db, ch)
  {
    hide InvWith, Apply;
    if n == 0 {
      EmptyInv();
      ch := map[];
    } else {
      ch := ReachableWith(run, n - 1);
      ch := ApplyInv(At(run, n - 1), ch, run[n - 1]);
    }
  }
}
