/** Finding the suffix of a failed chain that a retry may run again. */
module ResumeSuffix {
  import opened Wrappers
  import opened StoreModel
  import opened StoreRestart
  import JobChain

  // ---------------------------------------------------------------- failedJobSuffix

  /** The check that the listed jobs are linked one to the next and end the chain. */
  method CheckLinks(jobs: Jobs, chain: seq<JobId>) returns (ok: bool)
    requires forall i :: 0 <= i < |chain| ==> chain[i] in jobs
    ensures ok == Linked(jobs, chain)
  {
    for i := 0 to |chain|
      invariant forall k :: 0 <= k < i ==> LinkAt(jobs, chain, k)
    {
      if i == |chain| - 1 {
        if jobs[chain[i]].next.Some? { assert !LinkAt(jobs, chain, i); return false; }
      } else if jobs[chain[i]].next.None? || jobs[chain[i]].next.value != chain[i + 1] {
        assert !LinkAt(jobs, chain, i);
        return false;
      }
    }
    return true;
  }

  /** `owner` is the last node seen in `chain[..i]`, the empty one before any. */
  predicate LastOwner(jobs: Jobs, chain: seq<JobId>, i: nat, owner: NodeId)
    requires i <= |chain| && forall k :: 0 <= k < |chain| ==> chain[k] in jobs
  {
    && (owner != NO_NODE ==> exists k :: 0 <= k < i && jobs[chain[k]].node == Some(owner))
    && (forall k :: 0 <= k < i && jobs[chain[k]].node.Some? && jobs[chain[k]].node.value != NO_NODE ==>
         jobs[chain[k]].node.value == owner)
  }

  /**
    The scan of failedJobSuffix: the position of the failed job, when everything before it succeeded, it is
    retryable, everything after it never ran, and the chain has one owner.
   */
  method ScanChain(jobs: Jobs, chain: seq<JobId>) returns (failed: Option<nat>)
    requires forall i :: 0 <= i < |chain| ==> chain[i] in jobs
    ensures failed.Some? ==> failed.value == FirstUnfinished(jobs, chain) && ResumableAt(jobs, chain, failed.value)
    ensures failed.None? ==> !ResumableAt(jobs, chain, FirstUnfinished(jobs, chain))
  {
    ghost var f := FirstUnfinished(jobs, chain);
    var found: Option<nat> := None;
    var owner := NO_NODE;
    for i := 0 to |chain|
      invariant LastOwner(jobs, chain, i, owner) && SingleOwner(jobs, chain[..i])
      invariant found == if i <= f then None else Some(f)
      invariant f < i ==> Retryable(jobs[chain[f]])
      invariant forall k :: f < k < i ==> NeverRan(jobs[chain[k]])
    {
      var job := jobs[chain[i]];
      if job.node.Some? {
        if owner != NO_NODE && owner != job.node.value {
          ForeignOwner(jobs, chain, i, owner);
          return None;
        }
        SameOwner(jobs, chain, i, owner);
        owner := job.node.value;
      } else {
        SingleOwnerNext(jobs, chain, i);
      }
      if found.None? && job.status.Success? {
        assert i < f;
        continue;
      }
      if found.None? {
        assert i == f;
        if !Retryable(job) {
          return None;
        }
        found := Some(i);
        continue;
      }
      if !NeverRan(job) {
        return None;
      }
    }
    assert chain[..|chain|] == chain;
    failed := found;
  }

  lemma ForeignOwner(jobs: Jobs, chain: seq<JobId>, i: nat, owner: NodeId)
    requires i < |chain| && forall k :: 0 <= k < |chain| ==> chain[k] in jobs
    requires LastOwner(jobs, chain, i, owner) && owner != NO_NODE
    requires jobs[chain[i]].node.Some? && jobs[chain[i]].node.value != owner
    ensures !SingleOwner(jobs, chain)
  {
  }

  lemma SingleOwnerNext(jobs: Jobs, chain: seq<JobId>, i: nat)
    requires i < |chain| && forall k :: 0 <= k < |chain| ==> chain[k] in jobs
    requires SingleOwner(jobs, chain[..i])
    requires jobs[chain[i]].node.None? ||
             forall k :: 0 <= k < i && jobs[chain[k]].node.Some? && jobs[chain[k]].node.value != NO_NODE
                         ==> jobs[chain[k]].node == jobs[chain[i]].node
    ensures SingleOwner(jobs, chain[..i + 1])
  {
    var c := chain[..i + 1];
    forall a, b | 0 <= a < b < |c| && jobs[c[a]].node.Some? && jobs[c[b]].node.Some? && jobs[c[a]].node.value != NO_NODE
      ensures jobs[c[a]].node == jobs[c[b]].node
    {
      if b < i { assert chain[..i][a] == c[a] && chain[..i][b] == c[b]; }
    }
  }

  lemma SameOwner(jobs: Jobs, chain: seq<JobId>, i: nat, owner: NodeId)
    requires i < |chain| && forall k :: 0 <= k < |chain| ==> chain[k] in jobs
    requires LastOwner(jobs, chain, i, owner) && SingleOwner(jobs, chain[..i])
    requires jobs[chain[i]].node.Some? && (owner == NO_NODE || owner == jobs[chain[i]].node.value)
    ensures SingleOwner(jobs, chain[..i + 1]) && LastOwner(jobs, chain, i + 1, jobs[chain[i]].node.value)
  {
    SingleOwnerNext(jobs, chain, i);
  }

  // ---------------------------------------------------------------- the link checks are enough

  /** Links alone rule out repetition: a repeated job would lead past the end of the chain. */
  lemma {:induction false} LinkedDistinct(jobs: Jobs, chain: seq<JobId>, i: nat, k: nat)
    requires forall m :: 0 <= m < |chain| ==> chain[m] in jobs
    requires Linked(jobs, chain) && i < k < |chain|
    ensures chain[i] != chain[k]
    decreases |chain| - k
  {
    assert LinkAt(jobs, chain, i) && LinkAt(jobs, chain, k);
    if k + 1 < |chain| {
      LinkedDistinct(jobs, chain, i + 1, k + 1);
    }
  }

  /** Whatever list ordering returns, the length and link checks make it a permutation of the attempt's jobs. */
  lemma CompleteChainCovers(jobs: Jobs, r: RunId, attempt: nat, chain: seq<JobId>)
    requires CompleteChain(jobs, r, attempt, chain)
    ensures forall i, k :: 0 <= i < k < |chain| ==> chain[i] != chain[k]
    ensures forall j :: j in JobsOfAttempt(jobs, r, attempt) <==> j in chain
  {
    forall i, k | 0 <= i < k < |chain| ensures chain[i] != chain[k] {
      LinkedDistinct(jobs, chain, i, k);
    }
    DistinctCard(chain);
    JobChain.SubsetSame(Elements(chain), JobsOfAttempt(jobs, r, attempt));
    forall j ensures j in JobsOfAttempt(jobs, r, attempt) <==> j in chain {
      assert j in Elements(chain) <==> j in chain;
    }
  }

  /** ListJobsByRunAttempt, in some order. */
  method ListJobs(jobs: Jobs, r: RunId, attempt: nat) returns (items: seq<JobChain.Item>)
    ensures JobChain.UniqueIds(items)
    ensures forall i :: 0 <= i < |items| ==> ItemOf(jobs, items[i]) && items[i].id in JobsOfAttempt(jobs, r, attempt)
    ensures forall j :: j in JobsOfAttempt(jobs, r, attempt) ==> JobChain.Item(j, jobs[j].next) in items
    ensures |items| == |JobsOfAttempt(jobs, r, attempt)|
  {
    items := [];
    var rest := JobsOfAttempt(jobs, r, attempt);
    while rest != {}
      invariant rest <= JobsOfAttempt(jobs, r, attempt)
      invariant JobChain.UniqueIds(items)
      invariant forall i :: 0 <= i < |items| ==>
        ItemOf(jobs, items[i]) && items[i].id in JobsOfAttempt(jobs, r, attempt) && items[i].id !in rest
      invariant forall j :: j in JobsOfAttempt(jobs, r, attempt) && j !in rest ==>
        JobChain.Item(j, jobs[j].next) in items
      invariant |items| + |rest| == |JobsOfAttempt(jobs, r, attempt)|
      decreases |rest|
    {
      var j :| j in rest;
      items := items + [JobChain.Item(j, jobs[j].next)];
      rest := rest - {j};
    }
  }

  predicate ItemOf(jobs: Jobs, item: JobChain.Item) {
    item.id in jobs && jobs[item.id].next == item.next
  }

  function ItemsOf(jobs: Jobs, chain: seq<JobId>): seq<JobChain.Item>
    requires forall i :: 0 <= i < |chain| ==> chain[i] in jobs
  {
    seq(|chain|, i requires 0 <= i < |chain| => JobChain.Item(chain[i], jobs[chain[i]].next))
  }

  function IdsOf(items: seq<JobChain.Item>): seq<JobId> {
    seq(|items|, i requires 0 <= i < |items| => items[i].id)
  }

  lemma ChainItems(jobs: Jobs, r: RunId, attempt: nat, items: seq<JobChain.Item>, chain: seq<JobId>)
    requires CompleteChain(jobs, r, attempt, chain) && |items| == |chain|
    requires forall j :: j in JobsOfAttempt(jobs, r, attempt) ==> JobChain.Item(j, jobs[j].next) in items
    ensures JobChain.OneChain(items, ItemsOf(jobs, chain)) && IdsOf(ItemsOf(jobs, chain)) == chain
  {
    var c := ItemsOf(jobs, chain);
    forall i, k | 0 <= i < k < |c| ensures c[i].id != c[k].id {
      LinkedDistinct(jobs, chain, i, k);
    }
    forall i | 0 <= i < |c| ensures JobChain.NextAt(c, i) {
      assert LinkAt(jobs, chain, i);
    }
    forall i | 0 <= i < |c| ensures c[i] in items {
      assert chain[i] in JobsOfAttempt(jobs, r, attempt);
    }
  }

  /** The jobs of an attempt along their links: the complete chain, when there is one. */
  method OrderedJobs(jobs: Jobs, r: RunId, attempt: nat) returns (chain: seq<JobId>)
    ensures |chain| == |JobsOfAttempt(jobs, r, attempt)|
    ensures forall i :: 0 <= i < |chain| ==> chain[i] in JobsOfAttempt(jobs, r, attempt)
    ensures forall c :: CompleteChain(jobs, r, attempt, c) ==> chain == c
  {
    var items := ListJobs(jobs, r, attempt);
    var ordered := JobChain.Order(items);
    chain := IdsOf(ordered);
    forall c | CompleteChain(jobs, r, attempt, c) ensures chain == c {
      ChainItems(jobs, r, attempt, items, c);
    }
  }

  /** A chain of the attempt whose failed suffix can be retried from position `f`. */
  ghost predicate ResumableChain(jobs: Jobs, r: RunId, attempt: nat, chain: seq<JobId>, f: nat) {
    CompleteChain(jobs, r, attempt, chain) && f < |chain| && f == FirstUnfinished(jobs, chain) &&
      ResumableAt(jobs, chain, f)
  }

  /**
    failedJobSuffix: finds the failed suffix of the chain exactly when the attempt is one complete chain that
    succeeded up to a retryable job and never ran after it.
   */
  method FailedJobSuffix(jobs: Jobs, r: RunId, attempt: nat) returns (ok: bool, chain: seq<JobId>, f: nat)
    ensures ok ==> ResumableChain(jobs, r, attempt, chain, f)
    ensures ok ==> forall j :: j in JobsOfAttempt(jobs, r, attempt) <==> j in chain
    ensures ok ==> forall i, k :: 0 <= i < k < |chain| ==> chain[i] != chain[k]
    ensures forall c :: CompleteChain(jobs, r, attempt, c) ==> chain == c
    ensures !ok ==> forall c, g :: !ResumableChain(jobs, r, attempt, c, g)
  {
    chain := OrderedJobs(jobs, r, attempt);
    f := 0;
    if |chain| == 0 {
      return false, chain, 0;
    }
    var linked := CheckLinks(jobs, chain);
    if !linked {
      return false, chain, 0;
    }
    CompleteChainCovers(jobs, r, attempt, chain);
    var failed := ScanChain(jobs, chain);
    if failed.None? {
      return false, chain, 0;
    }
    return true, chain, failed.value;
  }
}
