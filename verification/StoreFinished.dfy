/** Cancelling a wave is permanent exactly when the wave is not finished yet, or has no run. */
module StoreFinished {
  import opened Wrappers
  import opened StoreModel
  import opened StoreInvariant
  import opened StoreSteps
  import opened StoreRuns
  import opened StoreEvolution
  import opened StoreTheorems
  import opened StoreCancel

  // ---------------------------------------------------------------- a run of a finished wave comes back

  lemma {:induction false} UnusedIn(ids: set<JobId>) returns (j: JobId)
    ensures forall id :: id in ids ==> id < j
  {
    j := 0;
    if ids != {} {
      var id :| id in ids;
      var k := UnusedIn(ids - {id});
      j := if k > id then k else id + 1;
      assert forall x :: x in ids ==> x == id || x in ids - {id};
    }
  }

  /** The request for a full restart of `r` with a single job. */
  function Request(db: Db, r: RunId): RestartArgs
    requires r in db.runs
  {
    RestartArgs(r, db.runs[r].attempt, 0, false, 0, [JobPlan("", 0)])
  }

  predicate Startable(db: Db, r: RunId) {
    && r in db.runs && !ActiveRun(db.runs[r].status) && !RepoBusy(db.runs, db.runs[r].repo)
    && db.runs[r].wave in db.waves && !db.waves[db.runs[r].wave].status.WaveCancelled?
  }

  /** The restart is accepted and queues a job of the run. */
  lemma RestartQueues(db: Db, r: RunId, j: JobId)
    requires Startable(db, r) && j !in db.jobs
    ensures Restarts(db, Request(db, r), [j], [])
    ensures var db' := RestartTx(db, Request(db, r), [j], []);
            r in db'.runs && db'.runs[r].wave == db.runs[r].wave && !NoActiveJob(db'.jobs, r)
  {
    var arg := Request(db, r);
    var run := db.runs[r];
    var next := NextAttempt(run, 0);
    var settled := CancelJobs(db.jobs, JobsOfAttempt(db.jobs, r, run.attempt));
    var rows := InsertFrom(settled, r, next, arg.jobs, [j], 0);
    assert InsertFrom(settled, r, next, arg.jobs, [j], 1) == settled;
    assert rows == settled[j := PlannedJob(r, next, arg.jobs, [j], 0)];
    assert RestartTx(db, arg, [j], []).jobs == rows && rows[j].run == r && rows[j].status.Queued?;
  }

  /** The only active run of the repository is settled, after which `r` can start. */
  lemma SettledFirst(db: Db, ch: Chains, r: RunId, q: RunId)
    requires InvWith(db, ch) && r in db.runs && q in db.runs && r != q
    requires !ActiveRun(db.runs[r].status) && db.runs[r].wave in db.waves
    requires !db.waves[db.runs[r].wave].status.WaveCancelled?
    requires db.runs[q].repo == db.runs[r].repo && ActiveRun(db.runs[q].status)
    ensures Startable(OutsideTx(db, SettleRun(q, RunCancelled)), r)
  {
    var db' := OutsideTx(db, SettleRun(q, RunCancelled));
    forall x | x in db'.runs && db'.runs[x].repo == db.runs[r].repo ensures !ActiveRun(db'.runs[x].status) {
      if x != q { assert !Rivals(db.runs[x], db.runs[q]); }
    }
  }

  /** The events that bring `r` back: settle the run in its way, if there is one, and restart. */
  lemma ComesBack(db: Db, ch: Chains, r: RunId) returns (settle: seq<Event>, restart: Event, db1: Db)
    requires InvWith(db, ch) && r in db.runs && !ActiveRun(db.runs[r].status)
    requires db.runs[r].wave in db.waves && !db.waves[db.runs[r].wave].status.WaveCancelled?
    ensures |settle| <= 1 && (settle == [] ==> db1 == db)
    ensures settle != [] ==> settle[0].OnOutside? && db1 == OutsideTx(db, settle[0].outside)
    ensures restart.OnLaunch? && restart.launch.Restart? && restart.launch.arg.run == r
    ensures Restarts(db1, restart.launch.arg, restart.launch.newIds, restart.launch.chain)
    ensures var db2 := LaunchTx(db1, restart.launch);
            r in db2.runs && db2.runs[r].wave == db.runs[r].wave && !NoActiveJob(db2.jobs, r)
  {
    settle, db1 := [], db;
    if RepoBusy(db.runs, db.runs[r].repo) {
      var q :| q in db.runs && db.runs[q].repo == db.runs[r].repo && ActiveRun(db.runs[q].status);
      SettledFirst(db, ch, r, q);
      settle, db1 := [OnOutside(SettleRun(q, RunCancelled))], OutsideTx(db, SettleRun(q, RunCancelled));
    }
    var j := UnusedIn(db1.jobs.Keys);
    RestartQueues(db1, r, j);
    restart := OnLaunch(Restart(Request(db1, r), [j], []));
  }

  // ---------------------------------------------------------------- continuations of a run

  lemma {:induction false} AtPrefix(run: seq<Event>, later: seq<Event>, n: nat)
    requires n <= |run|
    ensures At(run + later, n) == At(run, n)
  {
    hide Apply;
    if n > 0 { AtPrefix(run, later, n - 1); }
  }

  /** The state after `later` on top of `run`. */
  function Then(run: seq<Event>, later: seq<Event>): Sys {
    At(run + later, |run + later|)
  }

  lemma ThenNone(run: seq<Event>)
    ensures Then(run, []) == At(run, |run|)
  {
    assert run + [] == run;
  }

  lemma ThenMore(run: seq<Event>, later: seq<Event>, e: Event)
    ensures Then(run, later + [e]) == Apply(Then(run, later), e)
  {
    var all := run + (later + [e]);
    assert all == run + later + [e];
    AtPrefix(run + later, [e], |run + later|);
  }

  /** After cancelling a finished wave with a run there are later events that make a job of the wave active again. */
  lemma FinishedWaveComesBack(run: seq<Event>, w: WaveId, r: RunId) returns (later: seq<Event>)
    requires run != [] && run[|run| - 1] == OnStop(CancelWave(w))
    requires var db := At(run, |run| - 1).db;
             w in db.waves && db.waves[w].status.WaveFinished? && r in db.runs && db.runs[r].wave == w
    ensures !WaveQuiet(Then(run, later).db, w)
  {
    hide WaveCancelTx, OutsideTx, LaunchTx;
    var db := At(run, |run|).db;
    CancelledFinished(At(run, |run| - 1).db, w, r);
    var ch := ReachableWith(run, |run|);
    var settle, restart, db1 := ComesBack(db, ch, r);
    ThenNone(run);
    if settle != [] {
      ThenMore(run, [], settle[0]);
      assert [] + [settle[0]] == settle;
    }
    later := settle + [restart];
    ThenMore(run, settle, restart);
  }

  lemma CancelledFinished(db: Db, w: WaveId, r: RunId)
    requires w in db.waves && db.waves[w].status.WaveFinished? && r in db.runs && db.runs[r].wave == w
    ensures var db' := WaveCancelTx(db, w);
            && r in db'.runs && db'.runs[r].wave == w && !ActiveRun(db'.runs[r].status)
            && w in db'.waves && db'.waves[w].status.WaveFinished?
  {
  }

  // ---------------------------------------------------------------- the exact condition

  predicate NoRunOf(db: Db, w: WaveId) {
    forall r :: r in db.runs ==> db.runs[r].wave != w
  }

  /** A wave that exists and has no run never gets one. */
  lemma {:induction false} StaysEmpty(run: seq<Event>, m: nat, n: nat, w: WaveId)
    requires m <= n <= |run| && w in At(run, m).db.waves && NoRunOf(At(run, m).db, w)
    ensures w in At(run, n).db.waves && NoRunOf(At(run, n).db, w)
    decreases n
  {
    if m < n {
      StaysEmpty(run, m, n - 1, w);
      WaveStays(run, n - 1, w);
      forall r | r in At(run, n).db.runs ensures At(run, n).db.runs[r].wave != w {
        if At(run, n).db.runs[r].wave == w { NoNewRun(run, n - 1, w, r); }
      }
    }
  }

  lemma WaveStays(run: seq<Event>, n: nat, w: WaveId)
    requires n < |run| && w in At(run, n).db.waves
    ensures w in At(run, n + 1).db.waves
  {
    StepEvolves(run, n);
  }

  lemma QuietLater(run: seq<Event>, later: seq<Event>, w: WaveId)
    requires run != [] && run[|run| - 1] == OnStop(CancelWave(w)) && w in At(run, |run| - 1).db.waves
    requires var db := At(run, |run| - 1).db; !db.waves[w].status.WaveFinished? || NoRunOf(db, w)
    ensures WaveQuiet(Then(run, later).db, w)
  {
    hide Apply, NoActiveJob, Stopped;
    var all := run + later;
    AtPrefix(run, later, |run| - 1);
    if At(run, |run| - 1).db.waves[w].status.WaveFinished? {
      StaysEmpty(all, |run| - 1, |all|, w);
    } else {
      CancelWaveIsPermanent(all, |run| - 1, |all|, w);
    }
  }

  /**
    After a cancel of the wave none of its jobs is active in any later state, whatever happens, if and only if the
    wave was not finished at the cancel or has no run: a finished wave keeps its status and its runs can restart.
   */
  lemma CancelWaveIsExact(run: seq<Event>, w: WaveId)
    requires run != [] && run[|run| - 1] == OnStop(CancelWave(w)) && w in At(run, |run| - 1).db.waves
    ensures (forall later :: WaveQuiet(Then(run, later).db, w)) <==>
      (!At(run, |run| - 1).db.waves[w].status.WaveFinished? || NoRunOf(At(run, |run| - 1).db, w))
  {
    var db := At(run, |run| - 1).db;
    if !db.waves[w].status.WaveFinished? || NoRunOf(db, w) {
      forall later ensures WaveQuiet(Then(run, later).db, w) {
        QuietLater(run, later, w);
      }
    } else {
      var r :| r in db.runs && db.runs[r].wave == w;
      var later := FinishedWaveComesBack(run, w, r);
    }
  }
}
