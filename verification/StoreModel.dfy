/**
  The rows of the control-plane database and the SQL statements that change them,
  one function per statement. A transaction that fails leaves every row as it was.

  Identifiers are natural numbers, ordered as the database orders its text keys.
  Node 0 stands for the empty node id, which no claim accepts.
 */
module StoreModel {
  import opened Wrappers

  type WaveId = nat
  type RunId = nat
  type JobId = nat
  type NodeId = nat
  type RepoId = nat

  const NO_NODE: NodeId := 0

  datatype WaveStatus = WaveStarted | WaveFinished | WaveCancelled
  datatype RunStatus = RunQueued | RunRunning | RunSuccess | RunFail | RunCancelled
  datatype JobStatus = Created | Queued | Running | Success | Fail | Error | Cancelled

  datatype Node = Node(drained: bool)
  datatype Wave = Wave(status: WaveStatus)
  datatype Run = Run(wave: WaveId, repo: RepoId, sha0: string, status: RunStatus, attempt: nat, resumes: nat)
  datatype Job = Job(run: RunId, attempt: nat, name: string, kind: nat, next: Option<JobId>,
                     status: JobStatus, node: Option<NodeId>, started: bool,
                     shaIn: string, shaIn8: string, shaOut: string, shaOut8: string)

  type Jobs = map<JobId, Job>
  type Runs = map<RunId, Run>

  datatype Db = Db(waves: map<WaveId, Wave>, runs: Runs, jobs: Jobs, nodes: map<NodeId, Node>)

  const EMPTY_DB := Db(map[], map[], map[], map[])

  predicate ActiveRun(s: RunStatus) { s.RunQueued? || s.RunRunning? }

  predicate ActiveJob(s: JobStatus) { s.Created? || s.Queued? || s.Running? }

  /** SUBSTRING(sha, 1, 8). */
  function Sha8(sha: string): string {
    if |sha| <= 8 then sha else sha[..8]
  }

  /** A commit id in the canonical form: forty lower-case hexadecimal digits. */
  predicate CanonicalSha(sha: string) {
    |sha| == 40 && forall i :: 0 <= i < 40 ==> '0' <= sha[i] <= '9' || 'a' <= sha[i] <= 'f'
  }

  // ---------------------------------------------------------------- planned chains

  datatype JobPlan = JobPlan(name: string, kind: nat)
  datatype RunPlan = RunPlan(id: RunId, repo: RepoId, sha0: string, resumes: nat, jobs: seq<JobPlan>)

  /** The row that createPlannedJobs inserts for position `i` of a chain. */
  function PlannedJob(r: RunId, run: Run, plans: seq<JobPlan>, ids: seq<JobId>, i: nat): Job
    requires i < |plans| == |ids|
  {
    var shaIn := if i == 0 then run.sha0 else "";
    Job(r, run.attempt, plans[i].name, plans[i].kind,
        if i + 1 < |ids| then Some(ids[i + 1]) else None,
        if i == 0 then Queued else Created, None, false, shaIn, Sha8(shaIn), "", "")
  }

  /** Rows after positions `i..` have been inserted, the last position first. */
  function InsertFrom(jobs: Jobs, r: RunId, run: Run, plans: seq<JobPlan>, ids: seq<JobId>, i: nat): Jobs
    requires i <= |plans| == |ids|
    decreases |plans| - i
  {
    if i == |plans| then jobs
    else InsertFrom(jobs, r, run, plans, ids, i + 1)[ids[i] := PlannedJob(r, run, plans, ids, i)]
  }

  /** Job ids are generated by the caller and rejected by the primary key when they are taken. */
  predicate FreshIds(jobs: Jobs, ids: seq<JobId>) {
    && (forall i :: 0 <= i < |ids| ==> ids[i] !in jobs)
    && (forall i, k :: 0 <= i < k < |ids| ==> ids[i] != ids[k])
  }

  predicate CanPlan(jobs: Jobs, plans: seq<JobPlan>, ids: seq<JobId>) {
    0 < |plans| == |ids| && FreshIds(jobs, ids)
  }

  // ---------------------------------------------------------------- repository guard

  predicate RepoBusy(runs: Runs, repo: RepoId) {
    exists r :: r in runs && runs[r].repo == repo && ActiveRun(runs[r].status)
  }

  // ---------------------------------------------------------------- claims

  /** The eligibility condition of the claim query, for node `n` and job `j`. */
  predicate Claimable(db: Db, n: NodeId, j: JobId) {
    && n in db.nodes && !db.nodes[n].drained && n != NO_NODE
    && j in db.jobs && db.jobs[j].status.Queued?
    && (db.jobs[j].node.None? || db.jobs[j].node.value == n)
    && db.jobs[j].run in db.runs && db.runs[db.jobs[j].run].status.RunRunning?
    && db.runs[db.jobs[j].run].wave in db.waves && db.waves[db.runs[db.jobs[j].run].wave].status.WaveStarted?
    && forall o ::
         (o in db.jobs && db.jobs[o].run == db.jobs[j].run && db.jobs[o].attempt == db.jobs[j].attempt &&
           db.jobs[o].node.Some?)
         ==> db.jobs[o].node.value == n
  }

  function Claimed(db: Db, n: NodeId, j: JobId): Db
    requires Claimable(db, n, j)
  {
    db.(jobs := db.jobs[j := db.jobs[j].(status := Running, node := Some(n), started := true)])
  }

  predicate Unclaimable(db: Db, n: NodeId, j: JobId) {
    && n in db.nodes && n != NO_NODE
    && j in db.jobs && db.jobs[j].node == Some(n) && db.jobs[j].status.Running?
  }

  /** Unclaiming keeps the node of a resumed run and forgets it otherwise. */
  function Unclaimed(db: Db, n: NodeId, j: JobId): Db {
    if !Unclaimable(db, n, j) then db
    else
      var job := db.jobs[j];
      var resumed := job.run in db.runs && db.runs[job.run].resumes > 0;
      db.(jobs := db.jobs[j := job.(status := Queued, node := if resumed then job.node else None, started := false)])
  }

  // ---------------------------------------------------------------- cancellation

  function CancelledJob(job: Job): Job {
    if ActiveJob(job.status) then job.(status := Cancelled) else job
  }

  function CancelJobs(jobs: Jobs, ids: set<JobId>): Jobs {
    map j | j in jobs :: if j in ids then CancelledJob(jobs[j]) else jobs[j]
  }

  function JobsOfRun(jobs: Jobs, r: RunId): set<JobId> {
    set j | j in jobs && jobs[j].run == r
  }

  function JobsOfAttempt(jobs: Jobs, r: RunId, attempt: nat): set<JobId> {
    set j | j in jobs && jobs[j].run == r && jobs[j].attempt == attempt
  }

  function CancelledRun(run: Run): Run {
    if ActiveRun(run.status) then run.(status := RunCancelled) else run
  }

  function RunsOfWave(runs: Runs, w: WaveId): set<RunId> {
    set r | r in runs && runs[r].wave == w
  }

  function CancelRuns(runs: Runs, ids: set<RunId>): Runs {
    map r | r in runs :: if r in ids then CancelledRun(runs[r]) else runs[r]
  }

  /** CancelRun: an unknown run is an error and changes nothing. */
  function RunCancelTx(db: Db, r: RunId): Db {
    if r !in db.runs then db
    else db.(runs := CancelRuns(db.runs, {r}), jobs := CancelJobs(db.jobs, JobsOfRun(db.jobs, r)))
  }

  function JobsOfRuns(jobs: Jobs, rs: set<RunId>): set<JobId> {
    set j | j in jobs && jobs[j].run in rs
  }

  /** CancelWave: a finished wave keeps its status; its runs and jobs are cancelled all the same. */
  function WaveCancelTx(db: Db, w: WaveId): Db {
    if w !in db.waves then db
    else
      var rs := RunsOfWave(db.runs, w);
      Db(if db.waves[w].status.WaveStarted? then db.waves[w := Wave(WaveCancelled)] else db.waves,
         CancelRuns(db.runs, rs), CancelJobs(db.jobs, JobsOfRuns(db.jobs, rs)), db.nodes)
  }

  // ---------------------------------------------------------------- completion

  datatype Completion = Completion(job: JobId, node: NodeId, resume: nat, status: JobStatus, shaOut: string)

  /** The fence of WithJobExecution. */
  predicate Fenced(db: Db, j: JobId, resume: nat) {
    && j in db.jobs && db.jobs[j].run in db.runs
    && db.runs[db.jobs[j].run].resumes == resume
    && db.jobs[j].attempt == db.runs[db.jobs[j].run].attempt
  }

  /** Fence and callback checks: a completion that fails one of them changes nothing. */
  predicate Accepts(db: Db, c: Completion) {
    && Fenced(db, c.job, c.resume)
    && db.jobs[c.job].node == Some(c.node)
    && db.jobs[c.job].status.Running?
    && !ActiveJob(c.status)
    && (c.status.Success? && db.jobs[c.job].next.Some? ==> CanonicalSha(db.jobs[c.job].shaIn) && c.shaOut != "")
  }

  /** UpdateJobCompletion on the completed row. */
  function CompletedJob(job: Job, status: JobStatus, shaOut: string): Job {
    job.(status := status,
         shaOut := if shaOut == "" then job.shaOut else shaOut,
         shaOut8 := if shaOut == "" then job.shaOut8 else Sha8(shaOut))
  }

  /** UpdateJobCompletion on the successor row. */
  function FedJob(job: Job, shaOut: string): Job {
    if shaOut == "" then job else job.(shaIn := shaOut, shaIn8 := Sha8(shaOut))
  }

  function CompleteRows(jobs: Jobs, j: JobId, status: JobStatus, shaOut: string): Jobs
    requires j in jobs
  {
    var done := CompletedJob(jobs[j], status, shaOut);
    if done.next.Some? && done.next.value in jobs && done.next.value != j then
      jobs[j := done][done.next.value := FedJob(jobs[done.next.value], done.shaOut)]
    else
      jobs[j := done]
  }

  predicate Unblocked(jobs: Jobs, j: JobId) {
    && j in jobs && jobs[j].status.Created?
    && forall p :: p in jobs && jobs[p].next == Some(j) ==> jobs[p].status.Success?
  }

  function Promoted(jobs: Jobs, j: JobId): Jobs {
    if Unblocked(jobs, j) then jobs[j := jobs[j].(status := Queued)] else jobs
  }

  /** The jobs of one attempt that the walk along next_id visits, `seen` excluded. */
  function Walk(jobs: Jobs, r: RunId, attempt: nat, next: Option<JobId>, seen: set<JobId>): set<JobId>
    decreases jobs.Keys - seen
  {
    if next.None? || next.value in seen || next.value !in jobs
       || jobs[next.value].run != r || jobs[next.value].attempt != attempt
    then {}
    else {next.value} + Walk(jobs, r, attempt, jobs[next.value].next, seen + {next.value})
  }

  /** After a success the successor is queued, unless its row is locked; after a failure the rest is cancelled. */
  function AfterCompletion(jobs: Jobs, j: JobId, nextLocked: bool): Jobs
    requires j in jobs
  {
    var job := jobs[j];
    if job.status.Success? then
      if job.next.Some? && !nextLocked then Promoted(jobs, job.next.value) else jobs
    else
      CancelJobs(jobs, Walk(jobs, job.run, job.attempt, job.next, {}))
  }

  function CompleteTx(db: Db, c: Completion, nextLocked: bool): Db {
    if !Accepts(db, c) then db
    else db.(jobs := AfterCompletion(CompleteRows(db.jobs, c.job, c.status, c.shaOut), c.job, nextLocked))
  }

  // ---------------------------------------------------------------- creation

  function InsertRun(db: Db, w: WaveId, plan: RunPlan, ids: seq<JobId>): Db
    requires |plan.jobs| == |ids|
  {
    var run := Run(w, plan.repo, plan.sha0, RunRunning, 1, plan.resumes);
    db.(runs := db.runs[plan.id := run], jobs := InsertFrom(db.jobs, plan.id, run, plan.jobs, ids, 0))
  }

  predicate CanInsertRun(db: Db, plan: RunPlan, ids: seq<JobId>) {
    plan.id !in db.runs && !RepoBusy(db.runs, plan.repo) && CanPlan(db.jobs, plan.jobs, ids)
  }

  /** The runs of a wave are inserted in order; None when one of them is refused. */
  function InsertRuns(db: Db, w: WaveId, plans: seq<RunPlan>, ids: seq<seq<JobId>>): Option<Db>
    requires |plans| == |ids|
    decreases plans
  {
    if plans == [] then Some(db)
    else if !CanInsertRun(db, plans[0], ids[0]) then None
    else InsertRuns(InsertRun(db, w, plans[0], ids[0]), w, plans[1..], ids[1..])
  }

  function CreateWaveTx(db: Db, w: WaveId, plans: seq<RunPlan>, ids: seq<seq<JobId>>): Db
    requires |plans| == |ids|
  {
    if plans == [] || w in db.waves then db
    else match InsertRuns(db.(waves := db.waves[w := Wave(WaveStarted)]), w, plans, ids)
         case Some(created) => created
         case None => db
  }

  // ---------------------------------------------------------------- restart

  datatype RestartArgs = RestartArgs(run: RunId, expectedAttempt: nat, expectedResumes: nat, fromFailed: bool,
                                     resumes: nat, jobs: seq<JobPlan>)

  predicate CanRestart(db: Db, arg: RestartArgs) {
    && arg.run in db.runs && db.runs[arg.run].attempt == arg.expectedAttempt && !ActiveRun(db.runs[arg.run].status)
    && db.runs[arg.run].wave in db.waves && !db.waves[db.runs[arg.run].wave].status.WaveCancelled?
    && !RepoBusy(db.runs, db.runs[arg.run].repo)
  }

  function RevivedWave(wave: Wave): Wave {
    if wave.status.WaveFinished? then Wave(WaveStarted) else wave
  }

  function NextAttempt(run: Run, resumes: nat): Run {
    run.(attempt := run.attempt + 1, status := RunRunning, resumes := resumes)
  }

  /** A full restart: the current attempt is cancelled and a new chain is created under the next attempt. */
  function FullRestartTx(db: Db, arg: RestartArgs, ids: seq<JobId>): Db
    requires CanRestart(db, arg)
  {
    if !CanPlan(db.jobs, arg.jobs, ids) then db
    else
      var run := db.runs[arg.run];
      var next := NextAttempt(run, arg.resumes);
      var settled := CancelJobs(db.jobs, JobsOfAttempt(db.jobs, arg.run, run.attempt));
      Db(db.waves[run.wave := RevivedWave(db.waves[run.wave])], db.runs[arg.run := next],
         InsertFrom(settled, arg.run, next, arg.jobs, ids, 0), db.nodes)
  }

  /** The first position of `chain` that did not succeed, `|chain|` when there is none. */
  function FirstUnfinished(jobs: Jobs, chain: seq<JobId>): (f: nat)
    requires forall i :: 0 <= i < |chain| ==> chain[i] in jobs
    ensures f <= |chain|
    ensures forall i :: 0 <= i < f ==> jobs[chain[i]].status.Success?
    ensures f < |chain| ==> !jobs[chain[f]].status.Success?
  {
    if chain == [] || !jobs[chain[0]].status.Success? then 0
    else 1 + FirstUnfinished(jobs, chain[1..])
  }

  /** The job at position `i` points to the one after it; the last job points nowhere. */
  predicate LinkAt(jobs: Jobs, chain: seq<JobId>, i: nat)
    requires i < |chain| && chain[i] in jobs
  {
    jobs[chain[i]].next == if i + 1 < |chain| then Some(chain[i + 1]) else None
  }

  predicate Linked(jobs: Jobs, chain: seq<JobId>)
    requires forall i :: 0 <= i < |chain| ==> chain[i] in jobs
  {
    forall i {:trigger LinkAt(jobs, chain, i)} :: 0 <= i < |chain| ==> LinkAt(jobs, chain, i)
  }

  /** The link checks of failedJobSuffix on the list that ordering the jobs of an attempt returned. */
  predicate CompleteChain(jobs: Jobs, r: RunId, attempt: nat, chain: seq<JobId>) {
    && 0 < |chain| == |JobsOfAttempt(jobs, r, attempt)|
    && (forall i :: 0 <= i < |chain| ==> chain[i] in JobsOfAttempt(jobs, r, attempt))
    && Linked(jobs, chain)
  }

  predicate SingleOwner(jobs: Jobs, chain: seq<JobId>)
    requires forall i :: 0 <= i < |chain| ==> chain[i] in jobs
  {
    forall i, k ::
      (0 <= i < k < |chain| && jobs[chain[i]].node.Some? && jobs[chain[k]].node.Some? &&
        jobs[chain[i]].node.value != NO_NODE)
      ==> jobs[chain[i]].node == jobs[chain[k]].node
  }

  predicate Retryable(job: Job) {
    && (job.status.Fail? || job.status.Error?) && job.node.Some? && job.node.value != NO_NODE && CanonicalSha(job.shaIn)
  }

  predicate NeverRan(job: Job) {
    job.status.Cancelled? && !job.started && job.node.None?
  }

  /** The acceptance condition of failedJobSuffix for a chain whose first unfinished job is at `f`. */
  predicate ResumableAt(jobs: Jobs, chain: seq<JobId>, f: nat)
    requires forall i :: 0 <= i < |chain| ==> chain[i] in jobs
  {
    && f < |chain| && SingleOwner(jobs, chain)
    && (forall i :: 0 <= i < f ==> jobs[chain[i]].status.Success?)
    && Retryable(jobs[chain[f]])
    && (forall i :: f < i < |chain| ==> NeverRan(jobs[chain[i]]))
  }

  /** Whether the retry request names a step of the same kind for the job; the last plan of a name counts. */
  predicate PlanFor(plans: seq<JobPlan>, name: string, kind: nat) {
    exists i :: 0 <= i < |plans| && plans[i] == JobPlan(name, kind)
                && forall k :: i < k < |plans| ==> plans[k].name != name
  }

  function ResumedJob(job: Job, first: bool): Job {
    job.(status := if first then Queued else Created, started := false, shaOut := "", shaOut8 := "",
         shaIn := if first then job.shaIn else "", shaIn8 := if first then job.shaIn8 else "")
  }

  /** The rows of `chain[f..i]` reset for another execution. */
  function ResumeRows(jobs: Jobs, chain: seq<JobId>, f: nat, i: nat): Jobs
    requires f <= i <= |chain|
  {
    map j | j in jobs :: if j in chain[f..i] then ResumedJob(jobs[j], j == chain[f]) else jobs[j]
  }

  predicate CanResume(db: Db, arg: RestartArgs, chain: seq<JobId>)
    requires CanRestart(db, arg)
  {
    var run := db.runs[arg.run];
    && (run.status.RunFail? || run.status.RunCancelled?) && run.resumes == arg.expectedResumes
    && CompleteChain(db.jobs, arg.run, run.attempt, chain)
    && var f := FirstUnfinished(db.jobs, chain);
    && ResumableAt(db.jobs, chain, f)
    && forall i :: f <= i < |chain| ==> PlanFor(arg.jobs, db.jobs[chain[i]].name, db.jobs[chain[i]].kind)
  }

  /** A retry of the failed suffix in place: same attempt, same job ids, one more resume. */
  function ResumeTx(db: Db, arg: RestartArgs, chain: seq<JobId>): Db
    requires CanRestart(db, arg) && CanResume(db, arg, chain)
  {
    var run := db.runs[arg.run];
    Db(db.waves[run.wave := RevivedWave(db.waves[run.wave])],
       db.runs[arg.run := run.(status := RunRunning, resumes := arg.expectedResumes + 1)],
       ResumeRows(db.jobs, chain, FirstUnfinished(db.jobs, chain), |chain|), db.nodes)
  }

  /** RestartRun. `chain` is what ordering the jobs of the current attempt returned. */
  function RestartTx(db: Db, arg: RestartArgs, ids: seq<JobId>, chain: seq<JobId>): Db {
    if !CanRestart(db, arg) then db
    else if !arg.fromFailed then FullRestartTx(db, arg, ids)
    else if CanResume(db, arg, chain) then ResumeTx(db, arg, chain)
    else db
  }

  predicate Restarts(db: Db, arg: RestartArgs, ids: seq<JobId>, chain: seq<JobId>) {
    CanRestart(db, arg) && if arg.fromFailed then CanResume(db, arg, chain) else CanPlan(db.jobs, arg.jobs, ids)
  }
}
