/**
  The repository guard at lock granularity. Transactions that create or restart runs take row locks one at a
  time, look for an active run, insert, and commit, interleaved freely with each other and with runs settling.
 */
module RepoGuard {
  type TxId = nat
  type RunId = nat
  type RepoId = nat

  /** A restart locks its run row first; repository rows follow in id order. */
  datatype Lock = RunRow(run: RunId) | RepoRow(repo: RepoId)

  datatype Item = Item(run: RunId, repo: RepoId)

  /**
    A transaction wants `wants` in that order and holds the first `got` of them. It has inserted the first
    `done` runs of `plan`; `checked` says that the next one passed the active-run check.
   */
  datatype Tx = Tx(restart: bool, wants: seq<Lock>, got: nat, plan: seq<Item>, done: nat, checked: bool)

  datatype RunRec = RunRec(repo: RepoId, active: bool)

  /** Committed repositories and runs, and the transactions under way. */
  datatype State = State(repos: set<RepoId>, runs: map<RunId, RunRec>, txs: map<TxId, Tx>)

  datatype Event =
    | BeginCreate(tx: TxId, plan: seq<Item>, locks: seq<Lock>)
    | BeginRestart(tx: TxId, run: RunId)
    | Acquire(tx: TxId)
    | Check(tx: TxId)
    | Insert(tx: TxId)
    | Commit(tx: TxId)
    | Abort(tx: TxId)
    | Settle(run: RunId)
    | AddRepo(repo: RepoId)

  // ---------------------------------------------------------------- steps

  predicate Before(a: Lock, b: Lock) {
    match (a, b)
    case (RunRow(r), RunRow(q)) => r < q
    case (RunRow(_), RepoRow(_)) => true
    case (RepoRow(_), RunRow(_)) => false
    case (RepoRow(x), RepoRow(y)) => x < y
  }

  predicate Ascending(locks: seq<Lock>) {
    forall i, k :: 0 <= i < k < |locks| ==> Before(locks[i], locks[k])
  }

  predicate Names(plan: seq<Item>, x: RepoId) {
    exists i :: 0 <= i < |plan| && plan[i].repo == x
  }

  /** The lock query returns the rows that exist among the named ones, in id order. */
  predicate LockQuery(repos: set<RepoId>, plan: seq<Item>, locks: seq<Lock>) {
    && Ascending(locks)
    && (forall i :: 0 <= i < |locks| ==> locks[i].RepoRow? && locks[i].repo in repos && Names(plan, locks[i].repo))
    && (forall i :: 0 <= i < |plan| && plan[i].repo in repos ==> RepoRow(plan[i].repo) in locks)
  }

  predicate Holds(txs: map<TxId, Tx>, t: TxId, lock: Lock) {
    t in txs && txs[t].got <= |txs[t].wants| && lock in txs[t].wants[..txs[t].got]
  }

  predicate Locked(tx: Tx) {
    tx.got == |tx.wants|
  }

  /** An active run on `x` that the transaction can see: committed, or inserted by itself. */
  predicate Busy(s: State, tx: Tx, x: RepoId) {
    || (exists r :: r in s.runs && s.runs[r].repo == x && s.runs[r].active)
    || (exists i :: 0 <= i < tx.done && i < |tx.plan| && tx.plan[i].repo == x)
  }

  /** Whether some transaction has an uncommitted row for `r`. */
  predicate Pending(txs: map<TxId, Tx>, r: RunId) {
    exists t, i :: t in txs && 0 <= i < txs[t].done && i < |txs[t].plan| && txs[t].plan[i].run == r
  }

  predicate CanInsert(s: State, tx: Tx)
    requires tx.done < |tx.plan|
  {
    var item := tx.plan[tx.done];
    if tx.restart then item.run in s.runs
    else item.repo in s.repos && item.run !in s.runs && !Pending(s.txs, item.run)
  }

  function Activated(runs: map<RunId, RunRec>, plan: seq<Item>): map<RunId, RunRec> {
    if plan == [] then runs
    else Activated(runs, plan[..|plan| - 1])[plan[|plan| - 1].run := RunRec(plan[|plan| - 1].repo, true)]
  }

  predicate Enabled(s: State, e: Event) {
    match e
    case BeginCreate(t, plan, locks) => t !in s.txs && LockQuery(s.repos, plan, locks)
    case BeginRestart(t, r) => t !in s.txs && r in s.runs
    case Acquire(t) =>
      && t in s.txs && s.txs[t].got < |s.txs[t].wants|
      && forall u :: u in s.txs && u != t ==> !Holds(s.txs, u, s.txs[t].wants[s.txs[t].got])
    case Check(t) =>
      && t in s.txs && Locked(s.txs[t]) && !s.txs[t].checked && s.txs[t].done < |s.txs[t].plan|
      && !Busy(s, s.txs[t], s.txs[t].plan[s.txs[t].done].repo)
    case Insert(t) =>
      t in s.txs && s.txs[t].checked && s.txs[t].done < |s.txs[t].plan| && CanInsert(s, s.txs[t])
    case Commit(t) => t in s.txs && Locked(s.txs[t]) && s.txs[t].done == |s.txs[t].plan|
    case Abort(t) => t in s.txs
    case Settle(r) => r in s.runs
    case AddRepo(x) => true
  }

  function Effect(s: State, e: Event): State
    requires Enabled(s, e)
  {
    match e
    case BeginCreate(t, plan, locks) => s.(txs := s.txs[t := Tx(false, locks, 0, plan, 0, false)])
    case BeginRestart(t, r) =>
      var locks := [RunRow(r)] + if s.runs[r].repo in s.repos then [RepoRow(s.runs[r].repo)] else [];
      s.(txs := s.txs[t := Tx(true, locks, 0, [Item(r, s.runs[r].repo)], 0, false)])
    case Acquire(t) => s.(txs := s.txs[t := s.txs[t].(got := s.txs[t].got + 1)])
    case Check(t) => s.(txs := s.txs[t := s.txs[t].(checked := true)])
    case Insert(t) => s.(txs := s.txs[t := s.txs[t].(done := s.txs[t].done + 1, checked := false)])
    case Commit(t) => s.(runs := Activated(s.runs, s.txs[t].plan), txs := s.txs - {t})
    case Abort(t) => s.(txs := s.txs - {t})
    case Settle(r) => s.(runs := s.runs[r := s.runs[r].(active := false)])
    case AddRepo(x) => s.(repos := s.repos + {x})
  }

  function Apply(s: State, e: Event): State {
    if Enabled(s, e) then Effect(s, e) else s
  }

  function At(repos: set<RepoId>, run: seq<Event>, n: nat): State
    requires n <= |run|
  {
    if n == 0 then State(repos, map[], map[]) else Apply(At(repos, run, n - 1), run[n - 1])
  }

  // ---------------------------------------------------------------- locks and deadlock

  /** Locks are held by at most one transaction and every transaction takes them upwards. */
  ghost predicate LockInv(txs: map<TxId, Tx>) {
    && (forall t :: t in txs ==> txs[t].got <= |txs[t].wants| && Ascending(txs[t].wants))
    && (forall t, u, lock {:trigger Holds(txs, t, lock), Holds(txs, u, lock)} ::
          Holds(txs, t, lock) && Holds(txs, u, lock) ==> t == u)
  }

  lemma FewerLocks(txs: map<TxId, Tx>, txs': map<TxId, Tx>)
    requires LockInv(txs)
    requires forall t :: t in txs' ==> txs'[t].got <= |txs'[t].wants| && Ascending(txs'[t].wants)
    requires forall t :: t in txs' && txs'[t].got > 0 ==>
      t in txs && txs[t].wants == txs'[t].wants && txs[t].got == txs'[t].got
    ensures LockInv(txs')
  {
    forall t, lock | Holds(txs', t, lock) ensures Holds(txs, t, lock) {
      assert txs'[t].wants[..txs'[t].got] == txs[t].wants[..txs[t].got];
    }
  }

  lemma OneMoreLock(txs: map<TxId, Tx>, t: TxId)
    requires LockInv(txs) && t in txs && txs[t].got < |txs[t].wants|
    requires forall u :: u in txs && u != t ==> !Holds(txs, u, txs[t].wants[txs[t].got])
    ensures LockInv(txs[t := txs[t].(got := txs[t].got + 1)])
  {
    var n := txs[t].got;
    var txs' := txs[t := txs[t].(got := n + 1)];
    assert txs[t].wants[..n + 1] == txs[t].wants[..n] + [txs[t].wants[n]];
    assert forall u, lock :: Holds(txs', u, lock) ==> Holds(txs, u, lock) || (u == t && lock == txs[t].wants[n]);
  }

  lemma LockStep(s: State, e: Event)
    requires LockInv(s.txs)
    ensures LockInv(Apply(s, e).txs)
  {
    if e.Acquire? {
      if Enabled(s, e) { OneMoreLock(s.txs, e.tx); }
    } else {
      FewerLocks(s.txs, Apply(s, e).txs);
    }
  }

  lemma {:induction false} LocksAlways(repos: set<RepoId>, run: seq<Event>, n: nat)
    requires n <= |run|
    ensures LockInv(At(repos, run, n).txs)
  {
    if n > 0 {
      LocksAlways(repos, run, n - 1);
      LockStep(At(repos, run, n - 1), run[n - 1]);
    }
  }

  /** `t` is blocked on a lock that `u` holds. */
  predicate WaitsFor(txs: map<TxId, Tx>, t: TxId, u: TxId) {
    t in txs && txs[t].got < |txs[t].wants| && t != u && Holds(txs, u, txs[t].wants[txs[t].got])
  }

  predicate Blocked(txs: map<TxId, Tx>, t: TxId) {
    t in txs && txs[t].got < |txs[t].wants|
  }

  function Wanted(txs: map<TxId, Tx>, t: TxId): Lock
    requires Blocked(txs, t)
  {
    txs[t].wants[txs[t].got]
  }

  lemma WaitingClimbs(txs: map<TxId, Tx>, t: TxId, u: TxId, v: TxId)
    requires LockInv(txs) && WaitsFor(txs, t, u) && WaitsFor(txs, u, v)
    ensures Before(Wanted(txs, t), Wanted(txs, u))
  {
  }

  ghost predicate Waits(txs: map<TxId, Tx>, path: seq<TxId>) {
    forall i :: 0 <= i < |path| - 1 ==> WaitsFor(txs, path[i], path[i + 1])
  }

  lemma {:induction false} PathClimbs(txs: map<TxId, Tx>, path: seq<TxId>)
    requires LockInv(txs) && |path| >= 3 && Waits(txs, path)
    ensures Blocked(txs, path[0]) && Blocked(txs, path[|path| - 2])
    ensures Before(Wanted(txs, path[0]), Wanted(txs, path[|path| - 2]))
  {
    assert WaitsFor(txs, path[0], path[1]);
    assert WaitsFor(txs, path[|path| - 3], path[|path| - 2]) && WaitsFor(txs, path[|path| - 2], path[|path| - 1]);
    var front := path[..|path| - 1];
    WaitingClimbs(txs, path[|path| - 3], path[|path| - 2], path[|path| - 1]);
    if |path| > 3 {
      assert Waits(txs, front) by {
        forall i | 0 <= i < |front| - 1 ensures WaitsFor(txs, front[i], front[i + 1]) {
          assert WaitsFor(txs, path[i], path[i + 1]);
        }
      }
      PathClimbs(txs, front);
    }
  }

  /** The wait-for graph never has a cycle, of any length, in any reachable state. */
  lemma NoDeadlock(repos: set<RepoId>, run: seq<Event>, n: nat, path: seq<TxId>)
    requires n <= |run| && |path| >= 2
    requires Waits(At(repos, run, n).txs, path)
    ensures path[0] != path[|path| - 1]
  {
    var txs := At(repos, run, n).txs;
    LocksAlways(repos, run, n);
    assert WaitsFor(txs, path[0], path[1]);
    if path[0] == path[|path| - 1] {
      var longer := path + [path[1]];
      forall i | 0 <= i < |longer| - 1 ensures WaitsFor(txs, longer[i], longer[i + 1]) {
        if i < |path| - 1 { assert WaitsFor(txs, path[i], path[i + 1]); }
      }
      PathClimbs(txs, longer);
    }
  }

  // ---------------------------------------------------------------- one active run per repository

  ghost predicate FreeRepo(runs: map<RunId, RunRec>, x: RepoId) {
    forall r :: r in runs && runs[r].repo == x ==> !runs[r].active
  }

  /** What the transaction knows to be free: the repositories of its inserted runs and of a checked one. */
  predicate Guarded(tx: Tx, i: int) {
    0 <= i < |tx.plan| && (i < tx.done || (i == tx.done && tx.checked))
  }

  /** A transaction has locked every repository it names before it looks, and what it found free stays free. */
  ghost predicate TxInv(repos: set<RepoId>, runs: map<RunId, RunRec>, tx: Tx) {
    && tx.done <= |tx.plan|
    && (forall i :: 0 <= i < |tx.plan| ==> tx.plan[i].repo in repos && RepoRow(tx.plan[i].repo) in tx.wants)
    && (tx.done > 0 || tx.checked ==> Locked(tx))
    && (forall i :: Guarded(tx, i) ==> FreeRepo(runs, tx.plan[i].repo))
    && (forall i, k :: Guarded(tx, i) && Guarded(tx, k) && i < k ==> tx.plan[i].repo != tx.plan[k].repo)
  }

  ghost predicate AtMostOne(runs: map<RunId, RunRec>) {
    forall r, q :: r in runs && q in runs && runs[r].active && runs[q].active && runs[r].repo == runs[q].repo ==> r == q
  }

  ghost predicate Inv(s: State) {
    && LockInv(s.txs) && AtMostOne(s.runs)
    && (forall r :: r in s.runs ==> s.runs[r].repo in s.repos)
    && (forall t :: t in s.txs ==> TxInv(s.repos, s.runs, s.txs[t]))
  }

  /** The transaction names only repositories that exist when it starts. */
  predicate NamesKnown(s: State, e: Event) {
    e.BeginCreate? ==> forall i :: 0 <= i < |e.plan| ==> e.plan[i].repo in s.repos
  }

  lemma {:induction false} ActivatedRows(runs: map<RunId, RunRec>, plan: seq<Item>, r: RunId)
    ensures r in Activated(runs, plan) ==>
      || (r in runs && Activated(runs, plan)[r] == runs[r])
      || exists i :: 0 <= i < |plan| && plan[i].run == r && Activated(runs, plan)[r] == RunRec(plan[i].repo, true)
  {
    if plan != [] {
      var front := plan[..|plan| - 1];
      ActivatedRows(runs, front, r);
      assert plan[|plan| - 1].run == r || forall i :: 0 <= i < |front| ==> front[i] == plan[i];
    }
  }

  /** Committing a fully inserted plan keeps one active run per repository. */
  lemma CommitOne(repos: set<RepoId>, runs: map<RunId, RunRec>, tx: Tx)
    requires AtMostOne(runs) && TxInv(repos, runs, tx) && tx.done == |tx.plan|
    ensures AtMostOne(Activated(runs, tx.plan))
  {
    var runs' := Activated(runs, tx.plan);
    forall r, q | r in runs' && q in runs' && runs'[r].active && runs'[q].active && runs'[r].repo == runs'[q].repo
      ensures r == q
    {
      ActivatedRows(runs, tx.plan, r);
      ActivatedRows(runs, tx.plan, q);
      assert forall i :: 0 <= i < |tx.plan| ==> Guarded(tx, i);
    }
  }

  /** Another transaction's free repositories are not touched: it holds their locks. */
  lemma CommitOthers(s: State, t: TxId, u: TxId)
    requires Inv(s) && t in s.txs && u in s.txs && t != u && Locked(s.txs[t])
    ensures TxInv(s.repos, Activated(s.runs, s.txs[t].plan), s.txs[u])
  {
    var tx, other := s.txs[t], s.txs[u];
    forall i | Guarded(other, i) ensures FreeRepo(Activated(s.runs, tx.plan), other.plan[i].repo) {
      var x := other.plan[i].repo;
      assert Holds(s.txs, u, RepoRow(x)) by { assert other.wants[..other.got] == other.wants; }
      forall k | 0 <= k < |tx.plan| ensures tx.plan[k].repo != x {
        assert Holds(s.txs, t, RepoRow(tx.plan[k].repo)) by { assert tx.wants[..tx.got] == tx.wants; }
      }
      forall r | r in Activated(s.runs, tx.plan) && Activated(s.runs, tx.plan)[r].repo == x
        ensures !Activated(s.runs, tx.plan)[r].active
      {
        ActivatedRows(s.runs, tx.plan, r);
      }
    }
  }

  lemma CommitStep(s: State, t: TxId)
    requires Inv(s) && Enabled(s, Commit(t))
    ensures Inv(Apply(s, Commit(t)))
  {
    LockStep(s, Commit(t));
    CommitOne(s.repos, s.runs, s.txs[t]);
    forall u | u in s.txs && u != t ensures TxInv(s.repos, Activated(s.runs, s.txs[t].plan), s.txs[u]) {
      CommitOthers(s, t, u);
    }
    forall r | r in Activated(s.runs, s.txs[t].plan) ensures Activated(s.runs, s.txs[t].plan)[r].repo in s.repos {
      ActivatedRows(s.runs, s.txs[t].plan, r);
    }
  }

  lemma CheckStep(s: State, t: TxId)
    requires Inv(s) && Enabled(s, Check(t))
    ensures TxInv(s.repos, s.runs, s.txs[t].(checked := true))
  {
    var tx, tx' := s.txs[t], s.txs[t].(checked := true);
    assert forall i :: Guarded(tx', i) ==> Guarded(tx, i) || i == tx.done;
    assert FreeRepo(s.runs, tx.plan[tx.done].repo);
    assert forall i :: 0 <= i < tx.done ==> tx.plan[i].repo != tx.plan[tx.done].repo;
  }

  lemma InsertStep(s: State, t: TxId)
    requires Inv(s) && Enabled(s, Insert(t))
    ensures TxInv(s.repos, s.runs, s.txs[t].(done := s.txs[t].done + 1, checked := false))
  {
    var tx, tx' := s.txs[t], s.txs[t].(done := s.txs[t].done + 1, checked := false);
    assert forall i :: Guarded(tx', i) ==> Guarded(tx, i);
  }

  lemma SettleStep(repos: set<RepoId>, runs: map<RunId, RunRec>, tx: Tx, r: RunId)
    requires TxInv(repos, runs, tx) && r in runs
    ensures TxInv(repos, runs[r := runs[r].(active := false)], tx)
  {
    forall i | Guarded(tx, i) ensures FreeRepo(runs[r := runs[r].(active := false)], tx.plan[i].repo) {
      assert FreeRepo(runs, tx.plan[i].repo);
    }
  }

  lemma BeginStep(s: State, e: Event)
    requires Inv(s) && NamesKnown(s, e) && (e.BeginCreate? || e.BeginRestart?) && Enabled(s, e)
    ensures TxInv(s.repos, s.runs, Apply(s, e).txs[e.tx])
  {
  }

  lemma AcquireStep(s: State, t: TxId)
    requires Inv(s) && Enabled(s, Acquire(t))
    ensures TxInv(s.repos, s.runs, s.txs[t].(got := s.txs[t].got + 1))
  {
    var tx' := s.txs[t].(got := s.txs[t].got + 1);
    assert forall i :: !Guarded(tx', i);
  }

  lemma OwnStep(s: State, e: Event)
    requires Inv(s) && NamesKnown(s, e) && Enabled(s, e)
    requires e.BeginCreate? || e.BeginRestart? || e.Acquire? || e.Check? || e.Insert?
    ensures TxInv(s.repos, s.runs, Apply(s, e).txs[e.tx])
  {
    match e
    case Acquire(t) => AcquireStep(s, t);
    case Check(t) => CheckStep(s, t);
    case Insert(t) => InsertStep(s, t);
    case _ => BeginStep(s, e);
  }

  /** Everything but a commit. */
  lemma OtherStep(s: State, e: Event)
    requires Inv(s) && NamesKnown(s, e) && !e.Commit? && Enabled(s, e)
    ensures Inv(Apply(s, e))
  {
    LockStep(s, e);
    if e.Settle? {
      forall t | t in s.txs ensures TxInv(s.repos, Apply(s, e).runs, s.txs[t]) {
        SettleStep(s.repos, s.runs, s.txs[t], e.run);
      }
    } else if !e.AddRepo? && !e.Abort? {
      OwnStep(s, e);
    }
  }

  lemma InvStep(s: State, e: Event)
    requires Inv(s) && NamesKnown(s, e)
    ensures Inv(Apply(s, e))
  {
    if Enabled(s, e) {
      if e.Commit? { CommitStep(s, e.tx); } else { OtherStep(s, e); }
    }
  }

  lemma {:induction false} InvAlways(repos: set<RepoId>, run: seq<Event>, n: nat)
    requires n <= |run| && forall i :: 0 <= i < n ==> NamesKnown(At(repos, run, i), run[i])
    ensures Inv(At(repos, run, n))
  {
    if n > 0 {
      InvAlways(repos, run, n - 1);
      InvStep(At(repos, run, n - 1), run[n - 1]);
    }
  }

  // ---------------------------------------------------------------- main results

  /** Every creating transaction of the run names only repositories in `known`. */
  ghost predicate NamesOnly(run: seq<Event>, known: set<RepoId>) {
    forall i, k :: 0 <= i < |run| && run[i].BeginCreate? && 0 <= k < |run[i].plan| ==> run[i].plan[k].repo in known
  }

  lemma {:induction false} ReposGrow(repos: set<RepoId>, run: seq<Event>, n: nat)
    requires n <= |run|
    ensures repos <= At(repos, run, n).repos
  {
    if n > 0 { ReposGrow(repos, run, n - 1); }
  }

  lemma OneActiveRun(repos: set<RepoId>, known: set<RepoId>, run: seq<Event>, n: nat)
    requires n <= |run| && known <= repos && NamesOnly(run, known)
    ensures AtMostOne(At(repos, run, n).runs)
  {
    forall i | 0 <= i < n ensures NamesKnown(At(repos, run, i), run[i]) {
      ReposGrow(repos, run, i);
    }
    InvAlways(repos, run, n);
  }

  function RaceOn(x: RepoId): seq<Event> {
    [BeginCreate(1, [Item(1, x)], []), BeginCreate(2, [Item(2, x)], []), AddRepo(x),
     Check(1), Check(2), Insert(1), Insert(2), Commit(1), Commit(2)]
  }

  lemma RaceToInserts(repos: set<RepoId>, x: RepoId)
    requires x !in repos
    ensures At(repos, RaceOn(x), 5) ==
      State(repos + {x}, map[],
        map[1 := Tx(false, [], 0, [Item(1, x)], 0, true), 2 := Tx(false, [], 0, [Item(2, x)], 0, true)])
  {
    var run := RaceOn(x);
    assert At(repos, run, 1) == State(repos, map[], map[1 := Tx(false, [], 0, [Item(1, x)], 0, false)]);
    assert At(repos, run, 2) ==
      State(repos, map[],
        map[1 := Tx(false, [], 0, [Item(1, x)], 0, false), 2 := Tx(false, [], 0, [Item(2, x)], 0, false)]);
    assert At(repos, run, 4) ==
      State(repos + {x}, map[],
        map[1 := Tx(false, [], 0, [Item(1, x)], 0, true), 2 := Tx(false, [], 0, [Item(2, x)], 0, false)]);
  }

  /** A repository row that appears after both lock queries is locked by neither: two active runs result. */
  lemma UnknownRepositoryRaces(repos: set<RepoId>, x: RepoId)
    requires x !in repos
    ensures !AtMostOne(At(repos, RaceOn(x), |RaceOn(x)|).runs)
  {
    var run := RaceOn(x);
    RaceToInserts(repos, x);
    assert At(repos, run, 7) ==
      State(repos + {x}, map[],
        map[1 := Tx(false, [], 0, [Item(1, x)], 1, false), 2 := Tx(false, [], 0, [Item(2, x)], 1, false)]);
    assert Activated(map[], [Item(1, x)]) == map[1 := RunRec(x, true)];
    assert At(repos, run, 8) ==
      State(repos + {x}, map[1 := RunRec(x, true)], map[2 := Tx(false, [], 0, [Item(2, x)], 1, false)]);
    assert Activated(map[1 := RunRec(x, true)], [Item(2, x)]) == map[1 := RunRec(x, true), 2 := RunRec(x, true)];
    assert At(repos, run, 9).runs == map[1 := RunRec(x, true), 2 := RunRec(x, true)];
    assert 1 in At(repos, run, 9).runs && 2 in At(repos, run, 9).runs;
  }

  /**
    The guard holds over every schedule of transactions that name repositories in `known` exactly when all of
    these exist: the row lock protects only rows that are there when the lock query runs.
   */
  lemma GuardIsExact(repos: set<RepoId>, known: set<RepoId>)
    ensures (forall run, n :: 0 <= n <= |run| && NamesOnly(run, known) ==> AtMostOne(At(repos, run, n).runs)) <==>
      known <= repos
  {
    if known <= repos {
      forall run, n | 0 <= n <= |run| && NamesOnly(run, known) ensures AtMostOne(At(repos, run, n).runs) {
        OneActiveRun(repos, known, run, n);
      }
    } else {
      var x :| x in known && x !in repos;
      UnknownRepositoryRaces(repos, x);
      assert NamesOnly(RaceOn(x), known);
    }
  }
}
