/**
  Concurrency slots of a node as interleaved steps: claimers take permits, hand them to running jobs or give them
  back, and the idle sweep removes directories. `mu` is held by a sweep while it removes; every other step that
  needs it is atomic.
 */
module Slots {
  type SlotId = nat
  type JobId = nat
  type RunId = nat

  const MAX_CONCURRENCY := 64

  /** The semaphore's capacity for a configured concurrency. */
  function Capacity(configured: int): (c: nat)
    ensures 1 <= c <= MAX_CONCURRENCY
    ensures 1 <= configured <= MAX_CONCURRENCY ==> c == configured
    ensures configured < 1 ==> c == 1
    ensures configured > MAX_CONCURRENCY ==> c == MAX_CONCURRENCY
  {
    if configured < 1 then 1 else if configured > MAX_CONCURRENCY then MAX_CONCURRENCY else configured
  }

  /**
    A slot's life: the permit is taken, the maintenance lock is acquired and a claimer holds it, a job runs on it,
    the job has left the job table and is about to release it, and its permit has been returned.
   */
  datatype Phase = Taken | Held | Running(job: JobId) | Finishing | Released

  datatype Sweep = NotSweeping | Looking | Removing

  /** `permits` is the number of tokens in the semaphore, `jobs` the job table. */
  datatype State = State(capacity: nat, permits: nat, slots: map<SlotId, Phase>, jobs: map<JobId, RunId>, sweep: Sweep)

  datatype Step =
    | TakePermit(slot: SlotId)
    | LockFails(slot: SlotId)
    | LockSucceeds(slot: SlotId)
    | GiveBack(slot: SlotId)
    | Start(slot: SlotId, job: JobId, run: RunId)
    | Stop(run: RunId)
    | Finish(slot: SlotId)
    | Release(slot: SlotId)
    | SweepLook
    | SweepQuit
    | SweepEnter
    | SweepExit

  predicate Is(s: State, slot: SlotId, phase: Phase) {
    slot in s.slots && s.slots[slot] == phase
  }

  predicate Runs(s: State, slot: SlotId) {
    slot in s.slots && s.slots[slot].Running?
  }

  predicate Idle(s: State) {
    s.jobs == map[] && s.permits == 0
  }

  function Returned(s: State, slot: SlotId): State {
    s.(slots := s.slots[slot := Released], permits := if s.permits > 0 then s.permits - 1 else 0)
  }

  predicate Enabled(s: State, e: Step) {
    match e
    case TakePermit(k) => k !in s.slots && s.permits < s.capacity
    case LockFails(k) => Is(s, k, Taken)
    case LockSucceeds(k) => Is(s, k, Taken)
    case GiveBack(k) => Is(s, k, Held)
    case Start(k, job, _) => !s.sweep.Removing? && Is(s, k, Held) && job !in s.jobs
    case Stop(_) => !s.sweep.Removing?
    case Finish(k) => !s.sweep.Removing? && Runs(s, k)
    case Release(k) => Is(s, k, Finishing)
    case SweepLook => s.sweep.NotSweeping? && Idle(s)
    case SweepQuit => s.sweep.Looking?
    case SweepEnter => s.sweep.Looking? && Idle(s)
    case SweepExit => s.sweep.Removing?
  }

  function Effect(s: State, e: Step): State
    requires Enabled(s, e)
  {
    match e
    case TakePermit(k) => s.(slots := s.slots[k := Taken], permits := s.permits + 1)
    case LockFails(k) => Returned(s, k)
    case LockSucceeds(k) => s.(slots := s.slots[k := Held])
    case GiveBack(k) => Returned(s, k)
    case Start(k, job, run) => s.(slots := s.slots[k := Running(job)], jobs := s.jobs[job := run])
    case Stop(run) => s.(jobs := map j | j in s.jobs && s.jobs[j] != run :: s.jobs[j])
    case Finish(k) => s.(slots := s.slots[k := Finishing], jobs := s.jobs - {s.slots[k].job})
    case Release(k) => Returned(s, k)
    case SweepLook => s.(sweep := Looking)
    case SweepQuit => s.(sweep := NotSweeping)
    case SweepEnter => s.(sweep := Removing)
    case SweepExit => s.(sweep := NotSweeping)
  }

  function Apply(s: State, e: Step): State {
    if Enabled(s, e) then Effect(s, e) else s
  }

  function At(configured: int, run: seq<Step>, n: nat): State
    requires n <= |run|
  {
    if n == 0 then State(Capacity(configured), 0, map[], map[], NotSweeping)
      else Apply(At(configured, run, n - 1), run[n - 1])
  }

  // ---------------------------------------------------------------- invariant

  /** The slots whose permit has not been returned. */
  function Outstanding(slots: map<SlotId, Phase>): set<SlotId> {
    set k | k in slots && !slots[k].Released?
  }

  ghost predicate Counted(s: State) {
    s.permits == |Outstanding(s.slots)| <= s.capacity
  }

  /** A job runs in the slot or has just finished in it. */
  predicate Active(phase: Phase) {
    phase.Running? || phase.Finishing?
  }

  ghost predicate QuietSweep(s: State) {
    s.sweep.Removing? ==> forall k :: k in s.slots ==> !Active(s.slots[k])
  }

  ghost predicate Inv(s: State) {
    Counted(s) && QuietSweep(s)
  }

  lemma PhaseChange(slots: map<SlotId, Phase>, k: SlotId, phase: Phase)
    requires k in slots && !slots[k].Released?
    ensures phase.Released? ==> |Outstanding(slots[k := phase])| == |Outstanding(slots)| - 1
    ensures !phase.Released? ==> Outstanding(slots[k := phase]) == Outstanding(slots)
  {
    assert k in Outstanding(slots);
    assert phase.Released? ==> Outstanding(slots[k := phase]) == Outstanding(slots) - {k};
    assert !phase.Released? ==> Outstanding(slots[k := phase]) == Outstanding(slots);
  }

  lemma NewSlot(slots: map<SlotId, Phase>, k: SlotId)
    requires k !in slots
    ensures |Outstanding(slots[k := Taken])| == |Outstanding(slots)| + 1
  {
    assert Outstanding(slots[k := Taken]) == Outstanding(slots) + {k};
  }

  lemma StepCounts(s: State, e: Step)
    requires Counted(s)
    ensures Counted(Apply(s, e))
  {
    if Enabled(s, e) {
      match e
      case TakePermit(k) => NewSlot(s.slots, k);
      case LockFails(k) => PhaseChange(s.slots, k, Released);
      case LockSucceeds(k) => PhaseChange(s.slots, k, Held);
      case GiveBack(k) => PhaseChange(s.slots, k, Released);
      case Start(k, job, _) => PhaseChange(s.slots, k, Running(job));
      case Finish(k) => PhaseChange(s.slots, k, Finishing);
      case Release(k) => PhaseChange(s.slots, k, Released);
      case _ =>
    }
  }

  lemma IdleRunsNothing(s: State)
    requires Counted(s) && s.permits == 0
    ensures forall k :: k in s.slots ==> !Active(s.slots[k])
  {
    forall k | k in s.slots ensures !Active(s.slots[k]) {
      assert k in Outstanding(s.slots) <==> !s.slots[k].Released?;
    }
  }

  lemma StepInv(s: State, e: Step)
    requires Inv(s)
    ensures Inv(Apply(s, e))
  {
    StepCounts(s, e);
    if s.permits == 0 { IdleRunsNothing(s); }
  }

  lemma {:induction false} InvAlways(configured: int, run: seq<Step>, n: nat)
    requires n <= |run|
    ensures Inv(At(configured, run, n)) && At(configured, run, n).capacity == Capacity(configured)
  {
    if n > 0 {
      InvAlways(configured, run, n - 1);
      StepInv(At(configured, run, n - 1), run[n - 1]);
    } else {
      assert Outstanding(map[]) == {};
    }
  }

  // ---------------------------------------------------------------- main results

  /** The tokens in the semaphore are exactly the slots not yet returned, never more than the capacity. */
  lemma PermitsAreSlots(configured: int, run: seq<Step>, n: nat)
    requires n <= |run|
    ensures var s := At(configured, run, n);
            s.permits == |Outstanding(s.slots)| <= Capacity(configured) <= MAX_CONCURRENCY
  {
    InvAlways(configured, run, n);
  }

  /** While a sweep removes directories no job runs and none has just finished, whatever is interleaved with it. */
  lemma SweepNeverOverlaps(configured: int, run: seq<Step>, n: nat, k: SlotId)
    requires n <= |run| && At(configured, run, n).sweep.Removing?
    ensures k in At(configured, run, n).slots ==> !Active(At(configured, run, n).slots[k])
  {
    InvAlways(configured, run, n);
  }

  /** How often the permit of slot `k` was taken and returned in the first `n` steps. */
  function Takes(configured: int, run: seq<Step>, n: nat, k: SlotId): nat
    requires n <= |run|
  {
    if n == 0 then 0
    else
      var taken := run[n - 1] == TakePermit(k) && Enabled(At(configured, run, n - 1), run[n - 1]);
      Takes(configured, run, n - 1, k) + if taken then 1 else 0
  }

  predicate ReturnsPermit(s: State, e: Step, k: SlotId) {
    Enabled(s, e) && (e == LockFails(k) || e == GiveBack(k) || e == Release(k))
  }

  function Returns(configured: int, run: seq<Step>, n: nat, k: SlotId): nat
    requires n <= |run|
  {
    if n == 0 then 0
    else Returns(configured, run, n - 1, k) + if ReturnsPermit(At(configured, run, n - 1), run[n - 1], k) then 1 else 0
  }

  lemma StepOfSlot(s: State, e: Step, k: SlotId)
    ensures k in Apply(s, e).slots <==> k in s.slots || (e == TakePermit(k) && Enabled(s, e))
    ensures k in s.slots && s.slots[k].Released? ==> Is(Apply(s, e), k, Released) && !ReturnsPermit(s, e, k)
    ensures k in s.slots && !s.slots[k].Released? ==> (Is(Apply(s, e), k, Released) <==> ReturnsPermit(s, e, k))
    ensures k !in s.slots ==> !ReturnsPermit(s, e, k) && !Is(Apply(s, e), k, Released)
    ensures k in s.slots ==> !(e == TakePermit(k) && Enabled(s, e))
  {
  }

  /**
    Over every interleaving a slot's permit is taken once and returned at most once, by the failed admission, the
    claimer or the finished job, and it is returned exactly when the slot has reached the end of its life.
   */
  lemma {:induction false} ReturnedExactlyOnce(configured: int, run: seq<Step>, n: nat, k: SlotId)
    requires n <= |run|
    ensures Takes(configured, run, n, k) == if k in At(configured, run, n).slots then 1 else 0
    ensures Returns(configured, run, n, k) == if Is(At(configured, run, n), k, Released) then 1 else 0
  {
    if n > 0 {
      ReturnedExactlyOnce(configured, run, n - 1, k);
      StepOfSlot(At(configured, run, n - 1), run[n - 1], k);
    }
  }

  /** A slot that is due to be released never blocks: its token is in the semaphore. */
  lemma ReleaseNeverBlocks(configured: int, run: seq<Step>, n: nat, k: SlotId)
    requires n <= |run| && k in At(configured, run, n).slots && !At(configured, run, n).slots[k].Released?
    ensures At(configured, run, n).permits > 0
  {
    InvAlways(configured, run, n);
    assert k in Outstanding(At(configured, run, n).slots);
  }

  // ---------------------------------------------------------------- every permit can come back

  function Rank(phase: Phase): nat {
    match phase
    case Taken => 0
    case Held => 1
    case Running(_) => 2
    case Finishing => 3
    case Released => 4
  }

  /** A step that whoever owns slot `k` takes with it. */
  predicate OwnStep(e: Step, k: SlotId) {
    || e == LockFails(k) || e == LockSucceeds(k) || e == GiveBack(k)
    || (e.Start? && e.slot == k) || e == Finish(k) || e == Release(k)
  }

  lemma StepRank(s: State, e: Step, k: SlotId)
    requires k in s.slots
    ensures k in Apply(s, e).slots && Rank(s.slots[k]) <= Rank(Apply(s, e).slots[k])
    ensures OwnStep(e, k) && Enabled(s, e) ==> Rank(s.slots[k]) < Rank(Apply(s, e).slots[k])
    ensures !OwnStep(e, k) ==> Apply(s, e).slots[k] == s.slots[k]
  {
  }

  /** A slot only moves forward through its phases. */
  lemma {:induction false} PhasesMoveForward(configured: int, run: seq<Step>, n: nat, m: nat, k: SlotId)
    requires n <= m <= |run| && k in At(configured, run, n).slots
    ensures k in At(configured, run, m).slots
    ensures Rank(At(configured, run, n).slots[k]) <= Rank(At(configured, run, m).slots[k])
    decreases m
  {
    hide Apply, Rank;
    if n < m {
      PhasesMoveForward(configured, run, n, m - 1, k);
      StepRank(At(configured, run, m - 1), run[m - 1], k);
    }
  }

  /** In every reachable state the owner of a slot that is not released has a step it can take, sweep or not. */
  lemma OwnerCanMove(configured: int, run: seq<Step>, n: nat, k: SlotId) returns (e: Step)
    requires n <= |run| && k in At(configured, run, n).slots && !At(configured, run, n).slots[k].Released?
    ensures OwnStep(e, k) && Enabled(At(configured, run, n), e)
  {
    InvAlways(configured, run, n);
    match At(configured, run, n).slots[k]
    case Taken => e := LockFails(k);
    case Held => e := GiveBack(k);
    case Running(_) => e := Finish(k);
    case Finishing => e := Release(k);
  }

  /** How many steps the owner of slot `k` has taken with it among the first `n`. */
  function Moves(configured: int, run: seq<Step>, n: nat, k: SlotId): nat
    requires n <= |run|
  {
    if n == 0 then 0
    else
      var moved := OwnStep(run[n - 1], k) && Enabled(At(configured, run, n - 1), run[n - 1]);
      Moves(configured, run, n - 1, k) + if moved then 1 else 0
  }

  /** Four steps of its owner release a slot: no owner that goes on can keep a permit. */
  lemma {:induction false} FourMovesRelease(configured: int, run: seq<Step>, n: nat, k: SlotId)
    requires n <= |run|
    ensures k !in At(configured, run, n).slots ==> Moves(configured, run, n, k) == 0
    ensures k in At(configured, run, n).slots ==> Moves(configured, run, n, k) <= Rank(At(configured, run, n).slots[k])
    ensures Moves(configured, run, n, k) >= 4 ==> Is(At(configured, run, n), k, Released)
  {
    hide Apply;
    if n > 0 {
      FourMovesRelease(configured, run, n - 1, k);
      var s := At(configured, run, n - 1);
      if k in s.slots {
        StepRank(s, run[n - 1], k);
      } else {
        StepOfSlot(s, run[n - 1], k);
        NoMoveYet(s, run[n - 1], k);
      }
    }
  }

  lemma NoMoveYet(s: State, e: Step, k: SlotId)
    requires k !in s.slots
    ensures !(OwnStep(e, k) && Enabled(s, e))
  {
  }

  lemma {:induction false} AtPrefix(configured: int, run: seq<Step>, more: seq<Step>, n: nat)
    requires n <= |run|
    ensures At(configured, run + more, n) == At(configured, run, n)
  {
    hide Apply;
    if n > 0 { AtPrefix(configured, run, more, n - 1); }
  }

  /** From every reachable state every permit can be returned by steps of its owner alone. */
  lemma {:induction false} EveryPermitComesBack(configured: int, run: seq<Step>, k: SlotId) returns (more: seq<Step>)
    requires k in At(configured, run, |run|).slots
    ensures |more| <= 4 - Rank(At(configured, run, |run|).slots[k])
    ensures forall i :: 0 <= i < |more| ==> OwnStep(more[i], k)
    ensures Is(At(configured, run + more, |run + more|), k, Released)
    decreases 4 - Rank(At(configured, run, |run|).slots[k])
  {
    hide Apply;
    more := [];
    assert run + [] == run;
    if !At(configured, run, |run|).slots[k].Released? {
      var e := OwnerCanMove(configured, run, |run|, k);
      AtPrefix(configured, run, [e], |run|);
      StepRank(At(configured, run, |run|), e, k);
      var rest := EveryPermitComesBack(configured, run + [e], k);
      more := [e] + rest;
      assert run + more == run + [e] + rest;
    }
  }

  // ---------------------------------------------------------------- the job table

  /** Step `i` starts job `j` of run `r`. */
  predicate StartsJob(configured: int, run: seq<Step>, i: nat, j: JobId, r: RunId)
    requires i < |run|
  {
    run[i].Start? && run[i].job == j && run[i].run == r && Enabled(At(configured, run, i), run[i])
  }

  /** Step `i` takes job `j` of run `r` out of the table: its run is stopped, or the job finishes. */
  predicate EndsJob(configured: int, run: seq<Step>, i: nat, j: JobId, r: RunId)
    requires i < |run|
  {
    && Enabled(At(configured, run, i), run[i])
    && (run[i] == Stop(r) || (run[i].Finish? && Is(At(configured, run, i), run[i].slot, Running(j))))
  }

  predicate InTable(s: State, j: JobId, r: RunId) {
    j in s.jobs && s.jobs[j] == r
  }

  lemma TableStep(configured: int, run: seq<Step>, n: nat, j: JobId, r: RunId)
    requires n < |run|
    ensures InTable(At(configured, run, n + 1), j, r) <==>
      StartsJob(configured, run, n, j, r)
      || (InTable(At(configured, run, n), j, r) && !EndsJob(configured, run, n, j, r))
  {
  }

  /** The table holds exactly the jobs that were started and neither stopped nor finished since. */
  lemma {:induction false} TableExactly(configured: int, run: seq<Step>, n: nat, j: JobId, r: RunId)
    requires n <= |run|
    ensures InTable(At(configured, run, n), j, r) <==>
      exists i :: 0 <= i < n && StartsJob(configured, run, i, j, r)
                  && forall m :: i < m < n ==> !EndsJob(configured, run, m, j, r)
  {
    hide StartsJob, EndsJob, Apply;
    if n > 0 {
      TableExactly(configured, run, n - 1, j, r);
      TableStep(configured, run, n - 1, j, r);
    } else {
      assert At(configured, run, 0).jobs == map[];
    }
  }

  /** Every job in the table runs in a slot. */
  ghost predicate JobsInSlots(s: State) {
    forall j :: j in s.jobs ==> exists k :: Is(s, k, Running(j))
  }

  lemma StepInSlots(s: State, e: Step)
    requires JobsInSlots(s)
    ensures JobsInSlots(Apply(s, e))
  {
    var s' := Apply(s, e);
    forall j | j in s'.jobs ensures exists k :: Is(s', k, Running(j)) {
      if e.Start? && Enabled(s, e) && j == e.job {
        assert Is(s', e.slot, Running(j));
      } else {
        var k :| Is(s, k, Running(j));
        assert Is(s', k, Running(j));
      }
    }
  }

  lemma {:induction false} InSlotsAlways(configured: int, run: seq<Step>, n: nat)
    requires n <= |run|
    ensures JobsInSlots(At(configured, run, n))
  {
    hide Apply;
    if n > 0 {
      InSlotsAlways(configured, run, n - 1);
      StepInSlots(At(configured, run, n - 1), run[n - 1]);
    }
  }

  /** A sweep may enter exactly when every permit is back: then no job is in the table either. */
  lemma IdleExactly(configured: int, run: seq<Step>, n: nat)
    requires n <= |run|
    ensures Idle(At(configured, run, n)) <==> Outstanding(At(configured, run, n).slots) == {}
  {
    var s := At(configured, run, n);
    InvAlways(configured, run, n);
    InSlotsAlways(configured, run, n);
    forall j | j in s.jobs ensures Outstanding(s.slots) != {} {
      var k :| Is(s, k, Running(j));
      assert k in Outstanding(s.slots);
    }
  }

  /** When no sweep is under way and every permit is back, a sweep goes through and leaves everything as it was. */
  lemma IdleSweeps(configured: int, run: seq<Step>)
    requires At(configured, run, |run|).sweep.NotSweeping? && Outstanding(At(configured, run, |run|).slots) == {}
    ensures At(configured, run + [SweepLook, SweepEnter], |run| + 2) == At(configured, run, |run|).(sweep := Removing)
    ensures At(configured, run + [SweepLook, SweepEnter, SweepExit], |run| + 3) == At(configured, run, |run|)
  {
    IdleExactly(configured, run, |run|);
    var two, three := [SweepLook, SweepEnter], [SweepLook, SweepEnter, SweepExit];
    AtPrefix(configured, run, two, |run|);
    AtPrefix(configured, run, three, |run|);
    assert At(configured, run + two, |run| + 1).sweep == Looking;
    assert At(configured, run + three, |run| + 1).sweep == Looking;
    assert At(configured, run + three, |run| + 2).sweep == Removing;
  }

  // ---------------------------------------------------------------- the controller and a claim, as programs

  /** What the world answers along a claim. */
  datatype Answers = Answers(admitted: bool, lockAcquired: bool, clientReady: bool, requestSent: bool, status: nat,
                             decoded: bool, specParsed: bool, chainValid: bool)

  class Controller {
    const capacity: nat
    var permits: nat
    var slots: map<SlotId, Phase>
    var jobs: map<JobId, RunId>
    var sweep: Sweep

    ghost function View(): State
      reads this
    {
      State(capacity, permits, slots, jobs, sweep)
    }

    constructor (configured: int)
      ensures View() == State(Capacity(configured), 0, map[], map[], NotSweeping)
    {
      capacity, permits, slots, jobs, sweep := Capacity(configured), 0, map[], map[], NotSweeping;
    }

    /**
      A permit and the maintenance lock, or neither. Waiting for a permit ends when there is one, or with the
      context, which admits nothing.
     */
    method AcquireSlot(k: SlotId, admitted: bool, lockAcquired: bool) returns (ok: bool)
      requires Inv(View()) && k !in slots && (admitted ==> permits < capacity)
      modifies this`permits, this`slots
      ensures Inv(View()) && ok == (admitted && lockAcquired)
      ensures !admitted ==> View() == old(View())
      ensures admitted ==>
        View() == Apply(Apply(old(View()), TakePermit(k)), if lockAcquired then LockSucceeds(k) else LockFails(k))
    {
      if !admitted {
        return false;
      }
      StepInv(View(), TakePermit(k));
      StepInv(Apply(View(), TakePermit(k)), if lockAcquired then LockSucceeds(k) else LockFails(k));
      permits, slots := permits + 1, slots[k := Taken];
      if !lockAcquired {
        permits, slots := permits - 1, slots[k := Released];
        return false;
      }
      slots := slots[k := Held];
      return true;
    }

    method ReleaseSlot(k: SlotId)
      requires Inv(View()) && (Is(View(), k, Held) || Is(View(), k, Finishing))
      modifies this`permits, this`slots
      ensures Inv(View()) && View() == Returned(old(View()), k)
    {
      assert k in Outstanding(slots);
      PhaseChange(slots, k, Released);
      permits, slots := permits - 1, slots[k := Released];
    }

    /** Refuses a job that is in the table already; otherwise the slot belongs to the job. */
    method StartRun(k: SlotId, job: JobId, run: RunId) returns (ok: bool)
      requires Inv(View()) && Is(View(), k, Held) && !sweep.Removing?
      modifies this`slots, this`jobs
      ensures Inv(View()) && ok == (job !in old(jobs)) && View() == Apply(old(View()), Start(k, job, run))
    {
      StepInv(View(), Start(k, job, run));
      if job in jobs {
        return false;
      }
      jobs, slots := jobs[job := run], slots[k := Running(job)];
      return true;
    }

    /**
      One claim. On every path the slot is either handed to the started job or its permit is returned, so that
      nothing but a started job is left holding a permit.
     */
    method ClaimAndExecute(k: SlotId, a: Answers, job: JobId, run: RunId) returns (claimed: bool, failed: bool)
      requires Inv(View()) && k !in slots && (a.admitted ==> permits < capacity) && !sweep.Removing?
      modifies this`permits, this`slots, this`jobs
      ensures Inv(View())
      ensures slots == if !a.admitted then old(slots)
        else old(slots)[k := if claimed && !failed then Running(job) else Released]
      ensures permits == old(permits) + if claimed && !failed then 1 else 0
      ensures claimed && !failed <==>
        && a.admitted && a.lockAcquired && a.clientReady && a.requestSent && a.status == 200 && a.decoded &&
             a.specParsed && a.chainValid
        && job !in old(jobs)
      ensures jobs == if claimed && !failed then old(jobs)[job := run] else old(jobs)
    {
      var acquired := AcquireSlot(k, a.admitted, a.lockAcquired);
      if !acquired {
        return false, true;
      }
      var slotHeld := true;
      if !a.clientReady || !a.requestSent {
        claimed, failed := false, true;
      } else if a.status == 204 {
        claimed, failed := false, false;
      } else if a.status != 200 || !a.decoded {
        claimed, failed := false, true;
      } else if !a.specParsed || !a.chainValid {
        claimed, failed := true, true;
      } else {
        var started := StartRun(k, job, run);
        claimed, failed := true, !started;
        if started {
          slotHeld := false;
        }
      }
      if slotHeld {
        ReleaseSlot(k);
      }
    }
  }
}
