/** What the repository guard lets through: transactions that meet no rival complete, and runs keep their rows. */
module GuardProgress {
  import opened RepoGuard

  // ---------------------------------------------------------------- a transaction without rivals completes

  /** Item `i` of the plan will pass its check and its insert. */
  predicate Passes(s: State, t: TxId, i: nat)
    requires t in s.txs && i < |s.txs[t].plan|
  {
    var tx := s.txs[t];
    var item := tx.plan[i];
    && (forall r :: r in s.runs && s.runs[r].repo == item.repo ==> !s.runs[r].active)
    && (forall k :: 0 <= k < i ==> tx.plan[k].repo != item.repo)
    && if tx.restart then item.run in s.runs
       else
         && item.repo in s.repos && item.run !in s.runs && (forall k :: 0 <= k < i ==> tx.plan[k].run != item.run)
         && forall u, k :: u in s.txs && u != t && 0 <= k < |s.txs[u].plan| ==> s.txs[u].plan[k].run != item.run
  }

  /** No other transaction holds a lock that `t` still wants, and everything it has not inserted will pass. */
  predicate Unrivalled(s: State, t: TxId) {
    && t in s.txs && s.txs[t].got <= |s.txs[t].wants| && s.txs[t].done <= |s.txs[t].plan|
    && (s.txs[t].checked ==> Locked(s.txs[t]) && s.txs[t].done < |s.txs[t].plan|)
    && (forall i, u :: s.txs[t].got <= i < |s.txs[t].wants| && u in s.txs && u != t ==>
          !Holds(s.txs, u, s.txs[t].wants[i]))
    && (forall i :: s.txs[t].done <= i < |s.txs[t].plan| ==> Passes(s, t, i))
  }

  /** What is left to do before the commit. */
  function Left(tx: Tx): nat
    requires tx.got <= |tx.wants| && tx.done <= |tx.plan| && (tx.checked ==> tx.done < |tx.plan|)
  {
    |tx.wants| - tx.got + 2 * (|tx.plan| - tx.done) - if tx.checked then 1 else 0
  }

  /** Everything but the progress of `t` is the same. */
  predicate SameElse(s: State, s': State, t: TxId) {
    && s'.repos == s.repos && s'.runs == s.runs && t in s.txs && t in s'.txs
    && s'.txs == s.txs[t := s'.txs[t]]
    && s'.txs[t].plan == s.txs[t].plan && s'.txs[t].wants == s.txs[t].wants && s'.txs[t].restart == s.txs[t].restart
  }

  lemma StillPasses(s: State, s': State, t: TxId, i: nat)
    requires SameElse(s, s', t) && i < |s.txs[t].plan| && Passes(s, t, i)
    ensures Passes(s', t, i)
  {
    forall u | u in s'.txs && u != t ensures s'.txs[u].plan == s.txs[u].plan { }
  }

  lemma StillUnrivalled(s: State, s': State, t: TxId)
    requires Unrivalled(s, t) && SameElse(s, s', t)
    requires var tx, tx' := s.txs[t], s'.txs[t];
             && tx.got <= tx'.got <= |tx.wants| && tx.done <= tx'.done <= |tx.plan|
             && (tx'.checked ==> Locked(tx') && tx'.done < |tx'.plan|)
    ensures Unrivalled(s', t)
  {
    forall u, lock | u in s.txs && u != t ensures Holds(s'.txs, u, lock) <==> Holds(s.txs, u, lock) { }
    forall i | s'.txs[t].done <= i < |s.txs[t].plan| ensures Passes(s', t, i) { StillPasses(s, s', t, i); }
  }

  /** The next step of a transaction without rivals is enabled, and there is less left to do after it. */
  lemma NextStep(s: State, t: TxId) returns (e: Event)
    requires Unrivalled(s, t) && Left(s.txs[t]) > 0
    ensures e in {Acquire(t), Check(t), Insert(t)} && Enabled(s, e)
    ensures Unrivalled(Apply(s, e), t) && SameElse(s, Apply(s, e), t) && Left(Apply(s, e).txs[t]) < Left(s.txs[t])
  {
    var tx := s.txs[t];
    if tx.got < |tx.wants| {
      e := Acquire(t);
    } else if tx.checked {
      e := Insert(t);
      assert Passes(s, t, tx.done);
      InsertPasses(s, t);
    } else {
      e := Check(t);
      assert Passes(s, t, tx.done);
    }
    StillUnrivalled(s, Apply(s, e), t);
  }

  lemma InsertPasses(s: State, t: TxId)
    requires Unrivalled(s, t) && s.txs[t].done < |s.txs[t].plan| && Passes(s, t, s.txs[t].done)
    ensures CanInsert(s, s.txs[t])
  {
  }

  /** The state after `steps` on top of `s`. */
  function After(s: State, steps: seq<Event>): State
    decreases |steps|
  {
    if steps == [] then s else After(Apply(s, steps[0]), steps[1..])
  }

  lemma {:induction false} AfterIsAt(repos: set<RepoId>, run: seq<Event>, steps: seq<Event>)
    ensures At(repos, run + steps, |run + steps|) == After(At(repos, run, |run|), steps)
    decreases |steps|
  {
    if steps == [] {
      assert run + steps == run;
    } else {
      assert run + steps == run + [steps[0]] + steps[1..];
      SamePrefix(repos, run, [steps[0]], |run|);
      AfterIsAt(repos, run + [steps[0]], steps[1..]);
    }
  }

  lemma {:induction false} SamePrefix(repos: set<RepoId>, run: seq<Event>, more: seq<Event>, n: nat)
    requires n <= |run|
    ensures At(repos, run + more, n) == At(repos, run, n)
  {
    hide Apply;
    if n > 0 { SamePrefix(repos, run, more, n - 1); }
  }

  /** A transaction without rivals commits its whole plan by its own steps alone. */
  lemma {:induction false} Completes(s: State, t: TxId) returns (steps: seq<Event>)
    requires Unrivalled(s, t)
    ensures forall i :: 0 <= i < |steps| ==> steps[i] in {Acquire(t), Check(t), Insert(t), Commit(t)}
    ensures After(s, steps) == State(s.repos, Activated(s.runs, s.txs[t].plan), s.txs - {t})
    decreases Left(s.txs[t])
  {
    hide Unrivalled, Apply, Enabled;
    Bounds(s, t);
    if Left(s.txs[t]) == 0 {
      steps := [Commit(t)];
      CommitsNow(s, t);
    } else {
      var e := NextStep(s, t);
      var rest := Completes(Apply(s, e), t);
      steps := [e] + rest;
      assert steps[1..] == rest;
      assert Apply(s, e).txs - {t} == s.txs - {t};
    }
  }

  lemma Bounds(s: State, t: TxId)
    requires Unrivalled(s, t)
    ensures t in s.txs && s.txs[t].got <= |s.txs[t].wants| && s.txs[t].done <= |s.txs[t].plan|
    ensures s.txs[t].checked ==> s.txs[t].done < |s.txs[t].plan|
  {
  }

  lemma CommitsNow(s: State, t: TxId)
    requires Unrivalled(s, t) && Left(s.txs[t]) == 0
    ensures After(s, [Commit(t)]) == State(s.repos, Activated(s.runs, s.txs[t].plan), s.txs - {t})
  {
    assert [Commit(t)][1..] == [];
  }

  // ---------------------------------------------------------------- requests

  /** Nobody holds `lock`. */
  predicate Unheld(s: State, lock: Lock) {
    forall u :: u in s.txs ==> !Holds(s.txs, u, lock)
  }

  /** The rows of the plan and nothing else, all active. */
  ghost predicate Created(runs: map<RunId, RunRec>, runs': map<RunId, RunRec>, plan: seq<Item>) {
    && (forall i :: 0 <= i < |plan| ==> plan[i].run in runs' && runs'[plan[i].run] == RunRec(plan[i].repo, true))
    && (forall r :: r in runs && (forall i :: 0 <= i < |plan| ==> plan[i].run != r) ==>
          r in runs' && runs'[r] == runs[r])
    && (forall r :: r in runs' && r !in runs ==> exists i :: 0 <= i < |plan| && plan[i].run == r)
  }

  lemma {:induction false} NotPlanned(runs: map<RunId, RunRec>, plan: seq<Item>, r: RunId)
    requires forall i :: 0 <= i < |plan| ==> plan[i].run != r
    ensures r in Activated(runs, plan) <==> r in runs
    ensures r in runs ==> Activated(runs, plan)[r] == runs[r]
  {
    if plan != [] { NotPlanned(runs, plan[..|plan| - 1], r); }
  }

  lemma {:induction false} PlannedRow(runs: map<RunId, RunRec>, plan: seq<Item>, i: nat)
    requires i < |plan| && forall k :: i < k < |plan| ==> plan[k].run != plan[i].run
    ensures plan[i].run in Activated(runs, plan)
    ensures Activated(runs, plan)[plan[i].run] == RunRec(plan[i].repo, true)
  {
    if i < |plan| - 1 { PlannedRow(runs, plan[..|plan| - 1], i); }
  }

  lemma ActivatedCreates(runs: map<RunId, RunRec>, plan: seq<Item>)
    requires forall i, k :: 0 <= i < k < |plan| ==> plan[i].run != plan[k].run
    ensures Created(runs, Activated(runs, plan), plan)
  {
    hide Activated;
    forall i | 0 <= i < |plan|
      ensures plan[i].run in Activated(runs, plan) && Activated(runs, plan)[plan[i].run] == RunRec(plan[i].repo, true)
    {
      PlannedRow(runs, plan, i);
    }
    forall r | forall i :: 0 <= i < |plan| ==> plan[i].run != r
      ensures (r in Activated(runs, plan) <==> r in runs) && (r in runs ==> Activated(runs, plan)[r] == runs[r])
    {
      NotPlanned(runs, plan, r);
    }
  }

  /** A plan of new runs on known, free and distinct repositories. */
  predicate Plannable(s: State, plan: seq<Item>) {
    && (forall i :: 0 <= i < |plan| ==> plan[i].repo in s.repos && plan[i].run !in s.runs)
    && (forall i, r :: 0 <= i < |plan| && r in s.runs && s.runs[r].repo == plan[i].repo ==> !s.runs[r].active)
    && (forall i, k :: 0 <= i < k < |plan| ==> plan[i].run != plan[k].run && plan[i].repo != plan[k].repo)
    && (forall i, u, k :: 0 <= i < |plan| && u in s.txs && 0 <= k < |s.txs[u].plan| ==>
          s.txs[u].plan[k].run != plan[i].run)
  }

  lemma CreateUnrivalled(s: State, t: TxId, plan: seq<Item>, locks: seq<Lock>)
    requires t !in s.txs && Plannable(s, plan) && LockQuery(s.repos, plan, locks)
    requires forall i :: 0 <= i < |locks| ==> Unheld(s, locks[i])
    ensures Unrivalled(Apply(s, BeginCreate(t, plan, locks)), t)
  {
    var s' := Apply(s, BeginCreate(t, plan, locks));
    forall i, u | 0 <= i < |locks| && u in s'.txs && u != t ensures !Holds(s'.txs, u, locks[i]) {
      assert Unheld(s, locks[i]);
      assert !Holds(s.txs, u, locks[i]);
    }
    forall i | 0 <= i < |plan| ensures Passes(s', t, i) {
      forall u, k | u in s'.txs && u != t && 0 <= k < |s'.txs[u].plan| ensures s'.txs[u].plan[k].run != plan[i].run {
        assert s'.txs[u] == s.txs[u];
      }
    }
  }

  /**
    In every state, a request for new runs on known and free repositories whose rows nobody has locked can be carried
    out: each of its runs becomes active, and every other run and transaction is as it was.
   */
  lemma CreateCompletes(repos: set<RepoId>, run: seq<Event>, t: TxId, plan: seq<Item>, locks: seq<Lock>)
      returns (steps: seq<Event>)
    requires var s := At(repos, run, |run|);
             && t !in s.txs && Plannable(s, plan) && LockQuery(s.repos, plan, locks)
             && forall i :: 0 <= i < |locks| ==> Unheld(s, locks[i])
    ensures var s, s' := At(repos, run, |run|), At(repos, run + steps, |run + steps|);
            s'.repos == s.repos && s'.txs == s.txs && Created(s.runs, s'.runs, plan)
  {
    hide At, After, Plannable, LockQuery, Created, Holds;
    steps := CreateGoesThrough(At(repos, run, |run|), t, plan, locks);
    AfterIsAt(repos, run, steps);
  }

  lemma CreateGoesThrough(s: State, t: TxId, plan: seq<Item>, locks: seq<Lock>) returns (steps: seq<Event>)
    requires t !in s.txs && Plannable(s, plan) && LockQuery(s.repos, plan, locks)
    requires forall i :: 0 <= i < |locks| ==> Unheld(s, locks[i])
    ensures var s' := After(s, steps); s'.repos == s.repos && s'.txs == s.txs && Created(s.runs, s'.runs, plan)
  {
    hide Unrivalled, Created, Unheld;
    var begin := BeginCreate(t, plan, locks);
    CreateUnrivalled(s, t, plan, locks);
    var rest := Completes(Apply(s, begin), t);
    steps := [begin] + rest;
    assert steps[1..] == rest;
    ActivatedCreates(s.runs, plan);
  }

  lemma RestartUnrivalled(s: State, t: TxId, r: RunId)
    requires t !in s.txs && r in s.runs && Unheld(s, RunRow(r)) && Unheld(s, RepoRow(s.runs[r].repo))
    requires forall q :: q in s.runs && s.runs[q].repo == s.runs[r].repo ==> !s.runs[q].active
    ensures Unrivalled(Apply(s, BeginRestart(t, r)), t)
  {
    var s' := Apply(s, BeginRestart(t, r));
    forall i, u | 0 <= i < |s'.txs[t].wants| && u in s'.txs && u != t ensures !Holds(s'.txs, u, s'.txs[t].wants[i]) {
      assert s'.txs[t].wants[i] in {RunRow(r), RepoRow(s.runs[r].repo)};
      assert !Holds(s.txs, u, s'.txs[t].wants[i]);
    }
    assert Passes(s', t, 0);
  }

  /** Likewise a restart of a run on a free repository: the run becomes active, and nothing else changes. */
  lemma RestartCompletes(repos: set<RepoId>, run: seq<Event>, t: TxId, r: RunId) returns (steps: seq<Event>)
    requires var s := At(repos, run, |run|);
             && t !in s.txs && r in s.runs && Unheld(s, RunRow(r)) && Unheld(s, RepoRow(s.runs[r].repo))
             && forall q :: q in s.runs && s.runs[q].repo == s.runs[r].repo ==> !s.runs[q].active
    ensures At(repos, run + steps, |run + steps|) ==
      At(repos, run, |run|).(runs := At(repos, run, |run|).runs[r := RunRec(At(repos, run, |run|).runs[r].repo, true)])
  {
    var s := At(repos, run, |run|);
    RestartUnrivalled(s, t, r);
    var rest := Completes(Apply(s, BeginRestart(t, r)), t);
    steps := [BeginRestart(t, r)] + rest;
    assert steps[1..] == rest;
    AfterIsAt(repos, run, steps);
    OneItem(s.runs, Item(r, s.runs[r].repo));
    assert s.txs[t := Apply(s, BeginRestart(t, r)).txs[t]] - {t} == s.txs;
  }

  lemma OneItem(runs: map<RunId, RunRec>, item: Item)
    ensures Activated(runs, [item]) == runs[item.run := RunRec(item.repo, true)]
  {
    assert [item][..0] == [];
  }

  /** An abort gives up the transaction and its locks and leaves no trace of it. */
  lemma AbortLeavesNothing(repos: set<RepoId>, run: seq<Event>, n: nat, t: TxId)
    requires n < |run| && run[n] == Abort(t)
    ensures var s, s' := At(repos, run, n), At(repos, run, n + 1);
            && s'.repos == s.repos && s'.runs == s.runs && t !in s'.txs
            && forall u :: u != t ==> (u in s'.txs <==> u in s.txs) && (u in s.txs ==> s'.txs[u] == s.txs[u])
  {
  }

  /** A run that settles frees its repository and changes nothing else. */
  lemma SettleFrees(repos: set<RepoId>, run: seq<Event>, n: nat, r: RunId)
    requires n < |run| && run[n] == Settle(r) && r in At(repos, run, n).runs
    ensures var s, s' := At(repos, run, n), At(repos, run, n + 1);
            && s'.repos == s.repos && s'.txs == s.txs && s'.runs.Keys == s.runs.Keys
            && s'.runs[r] == RunRec(s.runs[r].repo, false)
            && forall q :: q in s.runs && q != r ==> s'.runs[q] == s.runs[q]
  {
  }

  // ---------------------------------------------------------------- what rows and locks keep

  /** A restart asks first for the row of the one run it is for. */
  predicate AsksForRun(tx: Tx) {
    tx.restart ==> |tx.plan| == 1 && tx.wants != [] && tx.wants[0] == RunRow(tx.plan[0].run)
  }

  lemma {:induction false} AsksAlways(repos: set<RepoId>, run: seq<Event>, n: nat, t: TxId)
    requires n <= |run| && t in At(repos, run, n).txs
    ensures AsksForRun(At(repos, run, n).txs[t])
  {
    if n > 0 {
      if t in At(repos, run, n - 1).txs { AsksAlways(repos, run, n - 1, t); }
    }
  }

  /** Two restarts of one run never both hold a lock: they are carried out one after the other. */
  lemma RestartsTakeTurns(repos: set<RepoId>, run: seq<Event>, n: nat, t: TxId, u: TxId)
    requires n <= |run|
    requires var txs := At(repos, run, n).txs;
             && t in txs && u in txs && txs[t].restart && txs[u].restart && txs[t].got > 0 && txs[u].got > 0
             && txs[t].plan == txs[u].plan
    ensures t == u
  {
    LocksAlways(repos, run, n);
    AsksAlways(repos, run, n, t);
    AsksAlways(repos, run, n, u);
    var txs := At(repos, run, n).txs;
    var lock := RunRow(txs[t].plan[0].run);
    assert txs[t].wants[..txs[t].got][0] == lock && txs[u].wants[..txs[u].got][0] == lock;
    assert Holds(txs, t, lock) && Holds(txs, u, lock);
  }

  /** A restart is for a run that exists; a create has inserted runs that do not exist yet. */
  predicate OwnRows(s: State, tx: Tx) {
    && tx.done <= |tx.plan|
    && forall i :: 0 <= i < |tx.plan| ==>
         if tx.restart then tx.plan[i].run in s.runs && s.runs[tx.plan[i].run].repo == tx.plan[i].repo
         else i < tx.done ==> tx.plan[i].run !in s.runs
  }

  /** No two creates have inserted the same run. */
  predicate Disjoint(a: Tx, b: Tx) {
    !a.restart && !b.restart ==>
      forall i, k :: 0 <= i < a.done && i < |a.plan| && 0 <= k < b.done && k < |b.plan| ==>
        a.plan[i].run != b.plan[k].run
  }

  ghost predicate Rows(s: State) {
    && (forall t :: t in s.txs ==> OwnRows(s, s.txs[t]))
    && (forall t, u :: t in s.txs && u in s.txs && t != u ==> Disjoint(s.txs[t], s.txs[u]))
  }

  /** Every run that exists keeps its repository. */
  predicate SameRepos(runs: map<RunId, RunRec>, runs': map<RunId, RunRec>) {
    forall r :: r in runs ==> r in runs' && runs'[r].repo == runs[r].repo
  }

  lemma CommitKeeps(s: State, t: TxId)
    requires Rows(s) && Enabled(s, Commit(t))
    ensures Rows(Apply(s, Commit(t))) && SameRepos(s.runs, Apply(s, Commit(t)).runs)
  {
    var s', plan := Apply(s, Commit(t)), s.txs[t].plan;
    assert OwnRows(s, s.txs[t]);
    forall r | r in s.runs ensures r in s'.runs && s'.runs[r].repo == s.runs[r].repo {
      ActivatedKeys(s.runs, plan, r);
      ActivatedRows(s.runs, plan, r);
    }
    forall u | u in s'.txs ensures OwnRows(s', s'.txs[u]) {
      var tx := s.txs[u];
      assert OwnRows(s, tx) && Disjoint(tx, s.txs[t]);
      forall i | 0 <= i < tx.done && !tx.restart ensures tx.plan[i].run !in s'.runs {
        ActivatedRows(s.runs, plan, tx.plan[i].run);
      }
    }
  }

  lemma {:induction false} ActivatedKeys(runs: map<RunId, RunRec>, plan: seq<Item>, r: RunId)
    requires r in runs
    ensures r in Activated(runs, plan)
  {
    if plan != [] { ActivatedKeys(runs, plan[..|plan| - 1], r); }
  }

  lemma InsertKeeps(s: State, t: TxId)
    requires Rows(s) && Enabled(s, Insert(t))
    ensures Rows(Apply(s, Insert(t)))
  {
    var s' := Apply(s, Insert(t));
    assert OwnRows(s, s.txs[t]);
    forall u | u in s.txs && u != t ensures Disjoint(s'.txs[t], s.txs[u]) && Disjoint(s.txs[u], s'.txs[t]) {
      assert Disjoint(s.txs[t], s.txs[u]);
    }
    forall u | u in s'.txs ensures OwnRows(s', s'.txs[u]) { assert OwnRows(s, s.txs[u]); }
  }

  lemma StepKeeps(s: State, e: Event)
    requires Rows(s)
    ensures Rows(Apply(s, e)) && SameRepos(s.runs, Apply(s, e).runs)
  {
    if Enabled(s, e) {
      match e
      case Commit(t) => CommitKeeps(s, t);
      case Insert(t) => InsertKeeps(s, t);
      case Settle(_) => OthersKeep(s, e);
      case Abort(_) => OthersKeep(s, e);
      case AddRepo(_) => OthersKeep(s, e);
      case _ => OwnStepKeeps(s, e);
    }
  }

  lemma OthersKeep(s: State, e: Event)
    requires Rows(s) && Enabled(s, e) && (e.Settle? || e.Abort? || e.AddRepo?)
    ensures Rows(Apply(s, e)) && SameRepos(s.runs, Apply(s, e).runs)
  {
    hide Disjoint;
    var s' := Apply(s, e);
    forall u | u in s'.txs ensures OwnRows(s', s'.txs[u]) { assert OwnRows(s, s.txs[u]); }
  }

  lemma OwnStepKeeps(s: State, e: Event)
    requires Rows(s) && Enabled(s, e) && (e.BeginCreate? || e.BeginRestart? || e.Acquire? || e.Check?)
    ensures Rows(Apply(s, e)) && Apply(s, e).runs == s.runs
  {
    var s', t := Apply(s, e), e.tx;
    forall u | u in s'.txs ensures OwnRows(s', s'.txs[u]) { if u != t { assert OwnRows(s, s.txs[u]); } }
    forall u | u in s'.txs && u != t ensures Disjoint(s'.txs[t], s'.txs[u]) && Disjoint(s'.txs[u], s'.txs[t]) {
      if t in s.txs { assert Disjoint(s.txs[t], s.txs[u]) && Disjoint(s.txs[u], s.txs[t]); }
    }
  }

  lemma {:induction false} RowsAlways(repos: set<RepoId>, run: seq<Event>, n: nat)
    requires n <= |run|
    ensures Rows(At(repos, run, n))
  {
    hide Apply;
    if n > 0 {
      hide Rows;
      RowsAlways(repos, run, n - 1);
      StepKeeps(At(repos, run, n - 1), run[n - 1]);
    }
  }

  /** A run that exists never loses its row, and the row never moves to another repository. */
  lemma {:induction false} RunsKeepTheirRepository(repos: set<RepoId>, run: seq<Event>, m: nat, n: nat)
    requires m <= n <= |run|
    ensures SameRepos(At(repos, run, m).runs, At(repos, run, n).runs)
    decreases n
  {
    hide Apply, Rows;
    if m < n {
      RunsKeepTheirRepository(repos, run, m, n - 1);
      RowsAlways(repos, run, n - 1);
      StepKeeps(At(repos, run, n - 1), run[n - 1]);
    }
  }
}
