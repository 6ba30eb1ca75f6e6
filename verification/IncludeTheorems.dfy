/** The resolver against plain substitution, and what its cycle report means. */
module IncludeTheorems {
  import opened Wrappers
  import opened SpecTree
  import opened Includes
  import Pointer
  import RepoPaths
  import Text

  // ---------------------------------------------------------------- no include is left

  lemma {:induction false} FlatPaired(nodes: seq<Node>)
    requires |nodes| % 2 == 0
    ensures Flat(Paired(nodes)) == nodes
  {
    if nodes != [] { FlatPaired(nodes[2..]); }
  }

  lemma {:induction false} ResolvedLength(net: Net, nodes: seq<Node>, path: string, stack: seq<string>)
    requires Closed(net) && PartOf(net, nodes, path)
    ensures ResolveAll(net, nodes, path, stack).Ok? ==> |ResolveAll(net, nodes, path, stack).value| == |nodes|
    decreases |nodes|
  {
    if nodes != [] { ResolvedLength(net, nodes[1..], path, stack); }
  }

  lemma RebuiltParts(node: Node, parts: seq<Node>)
    requires |parts| == |Parts(node)|
    ensures Parts(Rebuilt(node, parts)) == parts && (!IsInclude(node) ==> !IsInclude(Rebuilt(node, parts)))
  {
    if node.Mapping? { FlatPaired(parts); }
  }

  lemma {:induction false} NoneLeftIn(net: Net, nodes: seq<Node>, path: string, stack: seq<string>)
    requires Closed(net) && PartOf(net, nodes, path)
    ensures ResolveAll(net, nodes, path, stack).Ok? ==> RawsOf(ResolveAll(net, nodes, path, stack).value) == {}
    decreases |Unvisited(net, stack)|, SizeOfItems(nodes), |nodes|
  {
    if nodes != [] && ResolveAll(net, nodes, path, stack).Ok? {
      NoneLeft(net, nodes[0], path, stack);
      NoneLeftIn(net, nodes[1..], path, stack);
    }
  }

  /** A successful resolution leaves no include anywhere in the tree. */
  lemma {:induction false} NoneLeft(net: Net, node: Node, path: string, stack: seq<string>)
    requires Closed(net) && path in net.docs && Raws(node) <= Raws(net.docs[path])
    ensures Resolve(net, node, path, stack).Ok? ==> Raws(Resolve(net, node, path, stack).value) == {}
    decreases |Unvisited(net, stack)|, Size(node), 0
  {
    if Resolve(net, node, path, stack).Ok? {
      if IsInclude(node) {
        var t := net.ref(path, node.value).value;
        FewerUnvisited(net, stack, Id(t));
        NoneLeft(net, net.load(t).value, t.file, stack + [Id(t)]);
      } else {
        PartsSmaller(node);
        ResolvedLength(net, Parts(node), path, stack);
        RebuiltParts(node, ResolveAll(net, Parts(node), path, stack).value);
        NoneLeftIn(net, Parts(node), path, stack);
      }
    }
  }

  // ---------------------------------------------------------------- a resolved tree is the substituted one

  /** An expansion is the resolved tree, or ran out of depth. */
  ghost predicate Agrees<T>(resolved: T, expanded: Option<T>, short: bool) {
    expanded == Some(resolved) || (expanded == None && short)
  }

  lemma {:induction false} ResolvesToExpansionOf(net: Net, nodes: seq<Node>, path: string, stack: seq<string>,
                                                 depth: nat)
    requires Closed(net) && PartOf(net, nodes, path)
    ensures ResolveAll(net, nodes, path, stack).Ok? ==>
      Agrees(ResolveAll(net, nodes, path, stack).value, ExpandAll(net, nodes, path, depth),
        depth < |Unvisited(net, stack)|)
    decreases |Unvisited(net, stack)|, SizeOfItems(nodes), |nodes| + 1
  {
    if nodes != [] && ResolveAll(net, nodes, path, stack).Ok? {
      ResolvesToExpansion(net, nodes[0], path, stack, depth);
      ResolvesToExpansionOf(net, nodes[1..], path, stack, depth);
    }
  }

  lemma {:induction false} IncludeToExpansion(net: Net, raw: string, path: string, stack: seq<string>, t: Target,
                                              depth: nat)
    requires Closed(net) && path in net.docs && raw in Raws(net.docs[path]) && net.ref(path, raw) == Some(t)
    requires net.load(t).Ok? && Id(t) !in stack && depth > 0
    ensures Resolve(net, Scalar(INCLUDE, raw), path, stack).Ok? ==>
      Agrees(Resolve(net, Scalar(INCLUDE, raw), path, stack).value, Expand(net, Scalar(INCLUDE, raw), path, depth),
             depth < |Unvisited(net, stack)|)
    decreases |Unvisited(net, stack)|, Size(Scalar(INCLUDE, raw)), 0
  {
    ResolveInclude(net, raw, path, stack, t);
    ExpandInclude(net, raw, path, t, depth);
    FewerUnvisited(net, stack, Id(t));
    ResolvesToExpansion(net, net.load(t).value, t.file, stack + [Id(t)], depth - 1);
  }

  lemma {:induction false} ResolvesToExpansion(net: Net, node: Node, path: string, stack: seq<string>, depth: nat)
    requires Closed(net) && path in net.docs && Raws(node) <= Raws(net.docs[path])
    ensures Resolve(net, node, path, stack).Ok? ==>
      Agrees(Resolve(net, node, path, stack).value, Expand(net, node, path, depth), depth < |Unvisited(net, stack)|)
    decreases |Unvisited(net, stack)|, Size(node), 1
  {
    if Resolve(net, node, path, stack).Ok? {
      if IsInclude(node) {
        var t := net.ref(path, node.value).value;
        if depth > 0 {
          IncludeToExpansion(net, node.value, path, stack, t, depth);
        } else {
          SomeUnvisited(net, path, node.value, stack);
        }
      } else {
        PartsSmaller(node);
        ResolvesToExpansionOf(net, Parts(node), path, stack, depth);
      }
    }
  }

  lemma SomeUnvisited(net: Net, path: string, raw: string, stack: seq<string>)
    requires path in net.docs && raw in Raws(net.docs[path]) && net.ref(path, raw).Some?
    requires Id(net.ref(path, raw).value) !in stack
    ensures |Unvisited(net, stack)| > 0
  {
    assert Id(net.ref(path, raw).value) in Unvisited(net, stack);
  }

  // ---------------------------------------------------------------- include chains

  /** What `a` selects refers to `b`. */
  ghost predicate Leads(net: Net, a: Target, b: Target) {
    net.load(a).Ok? && exists raw :: raw in Raws(net.load(a).value) && net.ref(a.file, raw) == Some(b)
  }

  ghost predicate Linked(net: Net, trail: seq<Target>) {
    forall i :: 0 <= i < |trail| - 1 ==> Leads(net, trail[i], trail[i + 1])
  }

  function Ids(trail: seq<Target>): seq<string> {
    seq(|trail|, i requires 0 <= i < |trail| => Id(trail[i]))
  }

  lemma {:induction false} ExpansionReachesOf(net: Net, nodes: seq<Node>, path: string, depth: nat, raw: string,
                                              b: Target)
    requires ExpandAll(net, nodes, path, depth).Some? && raw in RawsOf(nodes) && net.ref(path, raw) == Some(b)
    ensures depth > 0 && net.load(b).Ok? && Expand(net, net.load(b).value, b.file, depth - 1).Some?
    decreases SizeOfItems(nodes), |nodes|
  {
    if raw in Raws(nodes[0]) {
      ExpansionReaches(net, nodes[0], path, depth, raw, b);
    } else {
      ExpansionReachesOf(net, nodes[1..], path, depth, raw, b);
    }
  }

  lemma {:induction false} ExpansionReaches(net: Net, node: Node, path: string, depth: nat, raw: string, b: Target)
    requires Expand(net, node, path, depth).Some? && raw in Raws(node) && net.ref(path, raw) == Some(b)
    ensures depth > 0 && net.load(b).Ok? && Expand(net, net.load(b).value, b.file, depth - 1).Some?
    decreases Size(node), 0
  {
    if !IsInclude(node) {
      PartsSmaller(node);
      ExpansionReachesOf(net, Parts(node), path, depth, raw, b);
    }
  }

  /** An expansion that succeeds expands everything along a chain of includes, one level less at each link. */
  lemma {:induction false} ExpansionDescends(net: Net, trail: seq<Target>, i: nat, depth: nat)
    requires Linked(net, trail) && i < |trail| && net.load(trail[0]).Ok?
    requires Expand(net, net.load(trail[0]).value, trail[0].file, depth).Some?
    ensures i <= depth && net.load(trail[i]).Ok?
    ensures Expand(net, net.load(trail[i]).value, trail[i].file, depth - i).Some?
  {
    if i > 0 {
      ExpansionDescends(net, trail, i - 1, depth);
      LinkReaches(net, trail[i - 1], trail[i], depth - (i - 1));
    }
  }

  lemma LinkReaches(net: Net, a: Target, b: Target, depth: nat)
    requires Leads(net, a, b) && Expand(net, net.load(a).value, a.file, depth).Some?
    ensures depth > 0 && net.load(b).Ok? && Expand(net, net.load(b).value, b.file, depth - 1).Some?
  {
    var raw :| raw in Raws(net.load(a).value) && net.ref(a.file, raw) == Some(b);
    ExpansionReaches(net, net.load(a).value, a.file, depth, raw, b);
  }

  /** A closed chain of includes has no expansion of any depth. */
  lemma {:induction false} ClosedNeverExpands(net: Net, ring: seq<Target>, depth: nat)
    requires |ring| >= 2 && Linked(net, ring) && ring[0] == ring[|ring| - 1] && net.load(ring[0]).Ok?
    ensures Expand(net, net.load(ring[0]).value, ring[0].file, depth).None?
  {
    if Expand(net, net.load(ring[0]).value, ring[0].file, depth).Some? {
      var last := |ring| - 1;
      ExpansionDescends(net, ring, last, depth);
      ClosedNeverExpands(net, ring, depth - last);
    }
  }

  // ---------------------------------------------------------------- ids

  /** Equal ids on the trail mean equal targets. */
  ghost predicate NoClash(trail: seq<Target>) {
    forall i, k :: 0 <= i < k < |trail| && Id(trail[i]) == Id(trail[k]) ==> trail[i] == trail[k]
  }

  /** No chain of includes that goes on from `start` meets two targets with one id. */
  ghost predicate NoClashBelow(net: Net, start: seq<Target>) {
    forall trail :: start <= trail && Linked(net, trail) ==> NoClash(trail)
  }

  lemma NoClashDeeper(net: Net, trail: seq<Target>, t: Target)
    requires NoClashBelow(net, trail)
    ensures NoClashBelow(net, trail + [t])
  {
    forall full | trail + [t] <= full && Linked(net, full) ensures NoClash(full) {
      assert trail <= full;
    }
  }

  ghost predicate HashFree(net: Net) {
    forall path, raw :: net.ref(path, raw).Some? ==> Plain(net.ref(path, raw).value)
  }

  predicate Plain(t: Target) {
    '#' !in t.file
  }

  lemma HashInId(t: Target)
    requires Plain(t)
    ensures '#' in Id(t) <==> t.pointer != ""
  {
    if t.pointer != "" { assert Id(t)[|t.file|] == '#'; }
  }

  /** Ids tell targets apart as long as no file name holds a hash. */
  lemma IdInjective(a: Target, b: Target)
    requires Plain(a) && Plain(b) && Id(a) == Id(b)
    ensures a == b
  {
    HashInId(a);
    HashInId(b);
    if a.pointer != "" {
      var s := Id(a);
      assert s[|a.file|] == '#' && s[|b.file|] == '#';
      assert s[..|a.file|] == a.file && s[..|b.file|] == b.file;
      assert forall k :: 0 <= k < |a.file| ==> s[k] in a.file;
      assert forall k :: 0 <= k < |b.file| ==> s[k] in b.file;
      assert s[|a.file| + 1..] == a.pointer && s[|b.file| + 1..] == b.pointer;
    }
  }

  // ---------------------------------------------------------------- failures

  /** The resolver works on nodes of what the last target of the trail selected. */
  ghost predicate Working(net: Net, raws: set<string>, path: string, trail: seq<Target>) {
    && Closed(net) && trail != [] && Linked(net, trail) && trail[|trail| - 1].file == path && path in net.docs
    && net.load(trail[|trail| - 1]).Ok? && raws <= Raws(net.load(trail[|trail| - 1]).value) <= Raws(net.docs[path])
  }

  /** Following one more include. */
  lemma Deeper(net: Net, raw: string, path: string, trail: seq<Target>, t: Target)
    requires Working(net, {raw}, path, trail) && net.ref(path, raw) == Some(t)
    ensures Linked(net, trail + [t]) && Ids(trail + [t]) == Ids(trail) + [Id(t)]
    ensures net.load(t).Ok? ==> Working(net, Raws(net.load(t).value), t.file, trail + [t])
  {
    var more := trail + [t];
    assert Leads(net, trail[|trail| - 1], t);
    forall i | 0 <= i < |more| - 1 ensures Leads(net, more[i], more[i + 1]) {
      if i < |trail| - 1 { assert Leads(net, trail[i], trail[i + 1]); }
    }
  }

  /** The part of the trail from `i` on is linked too. */
  lemma LinkedFrom(net: Net, trail: seq<Target>, i: nat)
    requires Linked(net, trail) && i <= |trail|
    ensures Linked(net, trail[i..])
  {
    var tail := trail[i..];
    forall k | 0 <= k < |tail| - 1 ensures Leads(net, tail[k], tail[k + 1]) {
      assert Leads(net, trail[i + k], trail[i + k + 1]);
    }
  }

  /** An include that closes the trail has no expansion. */
  lemma CycleNeverExpands(net: Net, raw: string, path: string, trail: seq<Target>, t: Target, depth: nat)
    requires Working(net, {raw}, path, trail) && net.ref(path, raw) == Some(t)
    requires NoClashBelow(net, trail) && Id(t) in Ids(trail)
    ensures net.load(t).Ok? ==> Expand(net, net.load(t).value, t.file, depth).None?
  {
    Deeper(net, raw, path, trail, t);
    var i :| 0 <= i < |trail| && Ids(trail)[i] == Id(t);
    var full := trail + [t];
    assert NoClash(full) && full[i] == trail[i] && full[|trail|] == t;
    LinkedFrom(net, trail + [t], i);
    if net.load(t).Ok? { ClosedNeverExpands(net, (trail + [t])[i..], depth); }
  }

  lemma {:induction false} FailureNeverExpandsIn(net: Net, nodes: seq<Node>, path: string, trail: seq<Target>,
                                                 depth: nat)
    requires NoClashBelow(net, trail) && Working(net, RawsOf(nodes), path, trail)
    ensures ResolveAll(net, nodes, path, Ids(trail)).Err? ==> ExpandAll(net, nodes, path, depth).None?
    decreases |Unvisited(net, Ids(trail))|, SizeOfItems(nodes), |nodes| + 1
  {
    if nodes != [] {
      FailureNeverExpands(net, nodes[0], path, trail, depth);
      FailureNeverExpandsIn(net, nodes[1..], path, trail, depth);
    }
  }

  lemma {:induction false} IncludeNeverExpands(net: Net, node: Node, path: string, trail: seq<Target>, t: Target,
                                               depth: nat)
    requires IsInclude(node) && NoClashBelow(net, trail) && Working(net, {node.value}, path, trail)
    requires net.ref(path, node.value) == Some(t)
    ensures Resolve(net, node, path, Ids(trail)).Err? && net.load(t).Ok? ==>
      Expand(net, net.load(t).value, t.file, depth).None?
    decreases |Unvisited(net, Ids(trail))|, Size(node), 0
  {
    Deeper(net, node.value, path, trail, t);
    NoClashDeeper(net, trail, t);
    if Id(t) in Ids(trail) {
      CycleNeverExpands(net, node.value, path, trail, t, depth);
    } else if net.load(t).Ok? {
      FewerUnvisited(net, Ids(trail), Id(t));
      FailureNeverExpands(net, net.load(t).value, t.file, trail + [t], depth);
    }
  }

  /** Whatever the resolver refuses, plain substitution cannot expand at any depth. */
  lemma {:induction false} FailureNeverExpands(net: Net, node: Node, path: string, trail: seq<Target>, depth: nat)
    requires NoClashBelow(net, trail) && Working(net, Raws(node), path, trail)
    ensures Resolve(net, node, path, Ids(trail)).Err? ==> Expand(net, node, path, depth).None?
    decreases |Unvisited(net, Ids(trail))|, Size(node), 1
  {
    if !IsInclude(node) {
      PartsSmaller(node);
      FailureNeverExpandsIn(net, Parts(node), path, trail, depth);
    } else if net.ref(path, node.value).Some? && depth > 0 {
      IncludeNeverExpands(net, node, path, trail, net.ref(path, node.value).value, depth - 1);
    }
  }

  // ---------------------------------------------------------------- the cycle report

  /** `full` continues the trail and runs, from position `i`, through exactly the reported ids. */
  ghost predicate Reports(net: Net, trail: seq<Target>, ids: seq<string>, full: seq<Target>, i: nat) {
    && trail <= full && Linked(net, full) && i < |full| - 1
    && Ids(full)[i..] == ids && Id(full[i]) == Id(full[|full| - 1])
  }

  lemma ReportHere(net: Net, raw: string, path: string, trail: seq<Target>, t: Target)
    returns (full: seq<Target>, i: nat)
    requires Working(net, {raw}, path, trail) && net.ref(path, raw) == Some(t) && Id(t) in Ids(trail)
    ensures Reports(net, trail, CycleOf(Ids(trail), Id(t)), full, i)
  {
    Deeper(net, raw, path, trail, t);
    full, i := trail + [t], FirstOf(Ids(trail), Id(t));
  }

  lemma {:induction false} CycleReportIn(net: Net, nodes: seq<Node>, path: string, trail: seq<Target>)
    returns (full: seq<Target>, i: nat)
    requires Working(net, RawsOf(nodes), path, trail)
    requires ResolveAll(net, nodes, path, Ids(trail)).Err? && ResolveAll(net, nodes, path, Ids(trail)).failure.Cycle?
    ensures Reports(net, trail, ResolveAll(net, nodes, path, Ids(trail)).failure.ids, full, i)
    decreases |Unvisited(net, Ids(trail))|, SizeOfItems(nodes), |nodes|
  {
    if Resolve(net, nodes[0], path, Ids(trail)).Err? {
      full, i := CycleReport(net, nodes[0], path, trail);
    } else {
      full, i := CycleReportIn(net, nodes[1..], path, trail);
    }
  }

  /** A reported cycle is a chain of includes that exist, from the trail on, whose ends have the same id. */
  lemma {:induction false} CycleReport(net: Net, node: Node, path: string, trail: seq<Target>)
    returns (full: seq<Target>, i: nat)
    requires Working(net, Raws(node), path, trail)
    requires Resolve(net, node, path, Ids(trail)).Err? && Resolve(net, node, path, Ids(trail)).failure.Cycle?
    ensures Reports(net, trail, Resolve(net, node, path, Ids(trail)).failure.ids, full, i)
    decreases |Unvisited(net, Ids(trail))|, Size(node), 0
  {
    if !IsInclude(node) {
      PartsSmaller(node);
      full, i := CycleReportIn(net, Parts(node), path, trail);
    } else {
      var t := net.ref(path, node.value).value;
      Deeper(net, node.value, path, trail, t);
      if Id(t) in Ids(trail) {
        full, i := ReportHere(net, node.value, path, trail, t);
      } else {
        FewerUnvisited(net, Ids(trail), Id(t));
        full, i := CycleReport(net, net.load(t).value, t.file, trail + [t]);
      }
    }
  }

  // ---------------------------------------------------------------- other failures

  /** The include `raw` in a document of file `path` cannot be followed, for the reason `failure`. */
  predicate Fails(net: Net, path: string, raw: string, failure: Failure) {
    match net.ref(path, raw)
    case None => failure == BadReference(raw)
    case Some(t) => net.load(t) == Err(failure)
  }

  /** `full` continues the trail to a document that holds the failing include. */
  ghost predicate FailsAfter(net: Net, trail: seq<Target>, failure: Failure, full: seq<Target>, raw: string) {
    && full != [] && trail <= full && Linked(net, full) && net.load(full[|full| - 1]).Ok?
    && raw in Raws(net.load(full[|full| - 1]).value) && Fails(net, full[|full| - 1].file, raw, failure)
  }

  lemma {:induction false} FailureReportIn(net: Net, nodes: seq<Node>, path: string, trail: seq<Target>)
    returns (full: seq<Target>, raw: string)
    requires Working(net, RawsOf(nodes), path, trail)
    requires ResolveAll(net, nodes, path, Ids(trail)).Err? && !ResolveAll(net, nodes, path, Ids(trail)).failure.Cycle?
    ensures FailsAfter(net, trail, ResolveAll(net, nodes, path, Ids(trail)).failure, full, raw)
    decreases |Unvisited(net, Ids(trail))|, SizeOfItems(nodes), |nodes|
  {
    if Resolve(net, nodes[0], path, Ids(trail)).Err? {
      full, raw := FailureReport(net, nodes[0], path, trail);
    } else {
      full, raw := FailureReportIn(net, nodes[1..], path, trail);
    }
  }

  lemma {:induction false} FailureReport(net: Net, node: Node, path: string, trail: seq<Target>)
    returns (full: seq<Target>, raw: string)
    requires Working(net, Raws(node), path, trail)
    requires Resolve(net, node, path, Ids(trail)).Err? && !Resolve(net, node, path, Ids(trail)).failure.Cycle?
    ensures FailsAfter(net, trail, Resolve(net, node, path, Ids(trail)).failure, full, raw)
    decreases |Unvisited(net, Ids(trail))|, Size(node), 0
  {
    if !IsInclude(node) {
      PartsSmaller(node);
      full, raw := FailureReportIn(net, Parts(node), path, trail);
    } else if net.ref(path, node.value).None? || net.load(net.ref(path, node.value).value).Err? {
      full, raw := trail, node.value;
    } else {
      var t := net.ref(path, node.value).value;
      Deeper(net, node.value, path, trail, t);
      FewerUnvisited(net, Ids(trail), Id(t));
      full, raw := FailureReport(net, net.load(t).value, t.file, trail + [t]);
    }
  }

  // ---------------------------------------------------------------- what a successful resolution went through

  lemma {:induction false} ResolutionReachesIn(net: Net, nodes: seq<Node>, path: string, stack: seq<string>,
                                               raw: string, b: Target)
    requires Closed(net) && PartOf(net, nodes, path) && ResolveAll(net, nodes, path, stack).Ok?
    requires raw in RawsOf(nodes) && net.ref(path, raw) == Some(b)
    ensures Id(b) !in stack && net.load(b).Ok? && Resolve(net, net.load(b).value, b.file, stack + [Id(b)]).Ok?
    decreases SizeOfItems(nodes), |nodes|
  {
    if raw in Raws(nodes[0]) {
      ResolutionReaches(net, nodes[0], path, stack, raw, b);
    } else {
      ResolutionReachesIn(net, nodes[1..], path, stack, raw, b);
    }
  }

  /** A resolution that succeeds resolves whatever the node refers to, under an id that is new on its stack. */
  lemma {:induction false} ResolutionReaches(net: Net, node: Node, path: string, stack: seq<string>, raw: string,
                                             b: Target)
    requires Closed(net) && path in net.docs && Raws(node) <= Raws(net.docs[path])
    requires Resolve(net, node, path, stack).Ok?
    requires raw in Raws(node) && net.ref(path, raw) == Some(b)
    ensures Id(b) !in stack && net.load(b).Ok? && Resolve(net, net.load(b).value, b.file, stack + [Id(b)]).Ok?
    decreases Size(node), 0
  {
    if !IsInclude(node) {
      PartsSmaller(node);
      ResolutionReachesIn(net, Parts(node), path, stack, raw, b);
    }
  }

  /** Every target along a chain of includes from a resolved one was resolved below the ids before it. */
  lemma {:induction false} ResolutionDescends(net: Net, trail: seq<Target>, i: nat)
    requires Closed(net) && Linked(net, trail) && i < |trail| && net.load(trail[0]).Ok?
    requires Resolve(net, net.load(trail[0]).value, trail[0].file, Ids(trail[..1])).Ok?
    ensures net.load(trail[i]).Ok? && Resolve(net, net.load(trail[i]).value, trail[i].file, Ids(trail[..i + 1])).Ok?
    ensures i > 0 ==> Id(trail[i]) !in Ids(trail[..i])
  {
    if i > 0 {
      ResolutionDescends(net, trail, i - 1);
      assert Leads(net, trail[i - 1], trail[i]);
      var a := trail[i - 1];
      var raw :| raw in Raws(net.load(a).value) && net.ref(a.file, raw) == Some(trail[i]);
      ResolutionReaches(net, net.load(a).value, a.file, Ids(trail[..i]), raw, trail[i]);
      assert Ids(trail[..i + 1]) == Ids(trail[..i]) + [Id(trail[i])];
    }
  }

  lemma ResolvedNeverClashes(net: Net, first: Target)
    requires Closed(net) && net.load(first).Ok? && Resolve(net, net.load(first).value, first.file, [Id(first)]).Ok?
    ensures NoClashBelow(net, [first])
  {
    forall trail | [first] <= trail && Linked(net, trail) ensures NoClash(trail) {
      assert Ids(trail[..1]) == [Id(first)];
      forall i, k | 0 <= i < k < |trail| ensures Id(trail[i]) != Id(trail[k]) {
        ResolutionDescends(net, trail, k);
        assert Ids(trail[..k])[i] == Id(trail[i]);
      }
    }
  }

  // ---------------------------------------------------------------- failures other than cycles

  lemma {:induction false} BrokenNeverExpandsIn(net: Net, nodes: seq<Node>, path: string, stack: seq<string>,
                                                depth: nat)
    requires Closed(net) && PartOf(net, nodes, path)
    requires ResolveAll(net, nodes, path, stack).Err? && !ResolveAll(net, nodes, path, stack).failure.Cycle?
    ensures ExpandAll(net, nodes, path, depth).None?
    decreases |Unvisited(net, stack)|, SizeOfItems(nodes), |nodes|
  {
    if Resolve(net, nodes[0], path, stack).Err? {
      BrokenNeverExpands(net, nodes[0], path, stack, depth);
    } else {
      BrokenNeverExpandsIn(net, nodes[1..], path, stack, depth);
    }
  }

  /** A reference that cannot be read or followed cannot be substituted either. */
  lemma {:induction false} BrokenNeverExpands(net: Net, node: Node, path: string, stack: seq<string>, depth: nat)
    requires Closed(net) && path in net.docs && Raws(node) <= Raws(net.docs[path])
    requires Resolve(net, node, path, stack).Err? && !Resolve(net, node, path, stack).failure.Cycle?
    ensures Expand(net, node, path, depth).None?
    decreases |Unvisited(net, stack)|, Size(node), 0
  {
    if !IsInclude(node) {
      PartsSmaller(node);
      BrokenNeverExpandsIn(net, Parts(node), path, stack, depth);
    } else if net.ref(path, node.value).Some? && depth > 0 {
      var t := net.ref(path, node.value).value;
      if net.load(t).Ok? {
        FewerUnvisited(net, stack, Id(t));
        BrokenNeverExpands(net, net.load(t).value, t.file, stack + [Id(t)], depth - 1);
      }
    }
  }

  // ---------------------------------------------------------------- composing a specification

  function Compose(src: Source, root: string): Result<Node>
    requires root in src.files
  {
    NetClosed(src);
    Resolve(NetOf(src), src.files[root], root, [root])
  }

  /** The specification with its includes substituted, at most `depth` deep. */
  function Substituted(src: Source, root: string, depth: nat): Option<Node>
    requires root in src.files
  {
    Expand(NetOf(src), src.files[root], root, depth)
  }

  /** No chain of includes from the specification meets two targets with one id. */
  ghost predicate NoClashFrom(src: Source, root: string) {
    NoClashBelow(NetOf(src), [Target(root, "")])
  }

  lemma RootWorks(src: Source, root: string)
    requires root in src.files
    ensures Closed(NetOf(src)) && NetOf(src).load(Target(root, "")) == Ok(src.files[root])
    ensures Ids([Target(root, "")]) == [root] && Working(NetOf(src), Raws(src.files[root]), root, [Target(root, "")])
  {
    NetClosed(src);
  }

  lemma SubstitutionIsComposed(src: Source, root: string, depth: nat)
    requires root in src.files && NoClashFrom(src, root) && Substituted(src, root, depth).Some?
    ensures Compose(src, root) == Ok(Substituted(src, root, depth).value)
  {
    RootWorks(src, root);
    FailureNeverExpands(NetOf(src), src.files[root], root, [Target(root, "")], depth);
    ResolvesToExpansion(NetOf(src), src.files[root], root, [root], depth);
  }

  lemma ComposedIsSubstitution(src: Source, root: string)
    requires root in src.files && Compose(src, root).Ok?
    ensures exists depth :: Substituted(src, root, depth).Some?
    ensures NoClashFrom(src, root)
    ensures Raws(Compose(src, root).value) == {}
  {
    RootWorks(src, root);
    var deep := |Unvisited(NetOf(src), [root])|;
    ResolvesToExpansion(NetOf(src), src.files[root], root, [root], deep);
    assert Substituted(src, root, deep).Some?;
    ResolvedNeverClashes(NetOf(src), Target(root, ""));
    NoneLeft(NetOf(src), src.files[root], root, [root]);
  }

  /**
    Composition succeeds exactly when the includes can be substituted away and no include chain meets two targets
    with one id. It then gives that substitution, which holds no include: neither the cycle check nor the cache
    changes the result.
   */
  lemma ComposeIsSubstitution(src: Source, root: string)
    requires root in src.files
    ensures Compose(src, root).Ok? <==> (exists depth :: Substituted(src, root, depth).Some?) && NoClashFrom(src, root)
    ensures Compose(src, root).Ok? ==>
      forall depth :: Substituted(src, root, depth).Some? ==>
        Compose(src, root).value == Substituted(src, root, depth).value
    ensures Compose(src, root).Ok? ==> Raws(Compose(src, root).value) == {}
  {
    if Compose(src, root).Ok? { ComposedIsSubstitution(src, root); }
    forall depth: nat | NoClashFrom(src, root) && Substituted(src, root, depth).Some?
      ensures Compose(src, root) == Ok(Substituted(src, root, depth).value)
    {
      SubstitutionIsComposed(src, root, depth);
    }
  }

  /** A specification that can be substituted is refused, with a cycle that is none, exactly when two ids clash. */
  lemma ClashesReportCycles(src: Source, root: string, depth: nat)
    requires root in src.files && Substituted(src, root, depth).Some?
    ensures Compose(src, root).Err? <==> !NoClashFrom(src, root)
    ensures Compose(src, root).Err? ==> Compose(src, root).failure.Cycle?
  {
    ComposeIsSubstitution(src, root);
    if Compose(src, root).Err? && !Compose(src, root).failure.Cycle? {
      NetClosed(src);
      BrokenNeverExpands(NetOf(src), src.files[root], root, [root], depth);
    }
  }

  /**
    A reported cycle is a chain of includes that starts at the specification and whose ends have one id. Where no
    ids clash the chain closes on itself.
   */
  lemma CycleIsGenuine(src: Source, root: string) returns (full: seq<Target>, i: nat)
    requires root in src.files && Compose(src, root).Err? && Compose(src, root).failure.Cycle?
    ensures full != [] && full[0] == Target(root, "") && Linked(NetOf(src), full)
    ensures i < |full| - 1 && Ids(full)[i..] == Compose(src, root).failure.ids && Id(full[i]) == Id(full[|full| - 1])
    ensures NoClashFrom(src, root) ==> full[i] == full[|full| - 1]
  {
    RootWorks(src, root);
    full, i := CycleReport(NetOf(src), src.files[root], root, [Target(root, "")]);
    assert NoClashFrom(src, root) ==> NoClash(full);
  }

  /**
    Any other reported failure belongs to an include that a chain of includes from the specification leads to: its
    reference cannot be read, its file does not exist, or its pointer selects nothing.
   */
  lemma FailureIsGenuine(src: Source, root: string) returns (full: seq<Target>, raw: string)
    requires root in src.files && Compose(src, root).Err? && !Compose(src, root).failure.Cycle?
    ensures full != [] && full[0] == Target(root, "") && Linked(NetOf(src), full)
    ensures Load(src, full[|full| - 1]).Ok? && raw in Raws(Load(src, full[|full| - 1]).value)
    ensures var t, failure := ParseRef(src, full[|full| - 1].file, raw), Compose(src, root).failure;
            if t.None? then failure == BadReference(raw)
            else if t.value.file !in src.files then failure == Unreadable(t.value.file)
            else Pointer.Selected(src.files[t.value.file], t.value.pointer).None? && failure == BadFragment(t.value)
  {
    RootWorks(src, root);
    full, raw := FailureReport(NetOf(src), src.files[root], root, [Target(root, "")]);
  }

  // ---------------------------------------------------------------- file names without a hash

  /** No path that an include names holds a hash. */
  ghost predicate HashFreeFiles(src: Source, root: string) {
    '#' !in root && forall part, path :: src.resolve(part, path).Some? ==> '#' !in src.resolve(part, path).value
  }

  lemma HashFreeNet(src: Source, root: string)
    requires HashFreeFiles(src, root)
    ensures HashFree(NetOf(src))
  {
  }

  lemma PlainTrail(net: Net, trail: seq<Target>, i: nat)
    requires HashFree(net) && Linked(net, trail) && i < |trail| && Plain(trail[0])
    ensures Plain(trail[i])
  {
    if i > 0 { assert Leads(net, trail[i - 1], trail[i]); }
  }

  /** Without hashes in file names no ids clash. */
  lemma HashFreeNeverClashes(src: Source, root: string)
    requires HashFreeFiles(src, root)
    ensures NoClashFrom(src, root)
  {
    HashFreeNet(src, root);
    forall trail | [Target(root, "")] <= trail && Linked(NetOf(src), trail) ensures NoClash(trail) {
      forall i, k | 0 <= i < k < |trail| && Id(trail[i]) == Id(trail[k]) ensures trail[i] == trail[k] {
        PlainTrail(NetOf(src), trail, i);
        PlainTrail(NetOf(src), trail, k);
        IdInjective(trail[i], trail[k]);
      }
    }
  }

  /** So composition of such specifications is substitution, and a reported cycle is one. */
  lemma HashFreeComposition(src: Source, root: string)
    requires root in src.files && HashFreeFiles(src, root)
    ensures Compose(src, root).Ok? <==> exists depth :: Substituted(src, root, depth).Some?
  {
    HashFreeNeverClashes(src, root);
    ComposeIsSubstitution(src, root);
  }

  // ---------------------------------------------------------------- a directory whose name holds a hash

  lemma ResolveInclude(net: Net, raw: string, path: string, stack: seq<string>, t: Target)
    requires Closed(net) && path in net.docs && raw in Raws(net.docs[path])
    requires net.ref(path, raw) == Some(t) && net.load(t).Ok?
    ensures Id(t) in stack ==> Resolve(net, Scalar(INCLUDE, raw), path, stack) == Err(Cycle(CycleOf(stack, Id(t))))
    ensures Id(t) !in stack ==>
      Resolve(net, Scalar(INCLUDE, raw), path, stack) == Resolve(net, net.load(t).value, t.file, stack + [Id(t)])
  {
  }

  lemma ExpandInclude(net: Net, raw: string, path: string, t: Target, depth: nat)
    requires net.ref(path, raw) == Some(t) && net.load(t).Ok? && depth > 0
    ensures Expand(net, Scalar(INCLUDE, raw), path, depth) == Expand(net, net.load(t).value, t.file, depth - 1)
  {
  }

  /** Two includes in a row whose targets share an id. */
  lemma CollidingIds(net: Net, root: string, first: string, a: Target, second: string, b: Target, text: string)
    requires Closed(net) && root in net.docs && net.docs[root] == Scalar(INCLUDE, first)
    requires net.ref(root, first) == Some(a)
    requires net.load(a) == Ok(Scalar(INCLUDE, second)) && net.ref(a.file, second) == Some(b)
    requires net.load(b) == Ok(Scalar("", text)) && Id(a) == Id(b) && Id(a) != root
    ensures Resolve(net, net.docs[root], root, [root]) == Err(Cycle([Id(a), Id(a)]))
    ensures Expand(net, net.docs[root], root, 2) == Some(Scalar("", text))
  {
    ResolveInclude(net, first, root, [root], a);
    var stack := [root] + [Id(a)];
    assert stack[1] == Id(a);
    ResolveInclude(net, second, a.file, stack, b);
    assert CycleOf(stack, Id(b)) == [Id(a), Id(a)];
    ExpandInclude(net, first, root, a, 2);
    ExpandInclude(net, second, a.file, b, 1);
  }

  const SPEC := "/w/x#/.root-spec.yaml"

  /**
    A repository `/w` with a specification in the directory `x#`, a file `p` beside it that includes the fragment
    `/p` of the file `x` one directory up, and that file.
   */
  function HashSource(): Source {
    Source(map[SPEC := Scalar(INCLUDE, "p"), "/w/x#/p" := Scalar(INCLUDE, "../x#/p"),
               "/w/x" := Mapping([Entry(Scalar("", "p"), Scalar("", "v"))])],
           (part, path) => RepoPaths.Resolve(["w"], part, path))
  }

  lemma HashPaths()
    ensures RepoPaths.Resolve(["w"], "p", SPEC) == Some("/w/x#/p")
    ensures RepoPaths.Resolve(["w"], "../x", "/w/x#/p") == Some("/w/x")
  {
    hide RepoPaths.Resolve, RepoPaths.CleanSegment;
    SegmentsOfWitness();
    RepoPaths.Beside(["w"], ["w", "x#"], ".root-spec.yaml", "p");
    RepoPaths.OneUp(["w"], ["w"], "x#", "p", "x");
    WitnessNames();
    assert ["w", "x#"] + [".root-spec.yaml"] == ["w", "x#", ".root-spec.yaml"] &&
      ["w", "x#"] + ["p"] == ["w", "x#", "p"];
    assert ["w"] + ["x#"] + ["p"] == ["w", "x#", "p"] && ["w"] + ["x"] == ["w", "x"];
    assert "../" + "x" == "../x";
  }

  lemma SegmentsOfWitness()
    ensures RepoPaths.CleanSegment("w") && RepoPaths.CleanSegment("x#") && RepoPaths.CleanSegment("p")
    ensures RepoPaths.CleanSegment("x") && RepoPaths.CleanSegment(".root-spec.yaml")
  {
  }

  lemma WitnessNames()
    ensures RepoPaths.PathOf(["w", "x#", ".root-spec.yaml"]) == SPEC
    ensures RepoPaths.PathOf(["w", "x#", "p"]) == "/w/x#/p" && RepoPaths.PathOf(["w", "x"]) == "/w/x"
  {
    JoinTwo("w", "x");
    JoinTwo("x#", "p");
    JoinTwo("x#", ".root-spec.yaml");
    JoinMore("w", ["x#", "p"]);
    JoinMore("w", ["x#", ".root-spec.yaml"]);
  }

  lemma JoinTwo(a: string, b: string)
    ensures Text.Join([a, b], '/') == a + "/" + b
  {
    assert [a, b][1..] == [b];
  }

  lemma JoinMore(a: string, rest: seq<string>)
    requires rest != []
    ensures Text.Join([a] + rest, '/') == a + "/" + Text.Join(rest, '/')
  {
    assert ([a] + rest)[1..] == rest;
  }

  lemma HashTargets()
    ensures ParseRef(HashSource(), SPEC, "p") == Some(Target("/w/x#/p", ""))
    ensures ParseRef(HashSource(), "/w/x#/p", "../x#/p") == Some(Target("/w/x", "/p"))
  {
    hide ParseRef, RepoPaths.Resolve;
    HashPaths();
    ReadsReference(HashSource(), SPEC, "", "p", "", "", "/p", "");
    assert "" + "p" + "" == "p";
    ReadsReference(HashSource(), "/w/x#/p", "", "../x", "", "", "/p", "");
    assert "" + "../x" + "" + "#" + "" + "/p" + "" == "../x#/p";
  }

  lemma HashFiles()
    ensures var src := HashSource();
            && SPEC in src.files && src.files[SPEC] == Scalar(INCLUDE, "p")
            && Load(src, Target("/w/x#/p", "")) == Ok(Scalar(INCLUDE, "../x#/p"))
            && Id(Target("/w/x#/p", "")) == "/w/x#/p" == Id(Target("/w/x", "/p"))
  {
    assert SPEC != "/w/x#/p" && SPEC != "/w/x" by { assert |SPEC| == 21; }
    assert "/w/x" + "#" + "/p" == "/w/x#/p";
  }

  lemma FragmentOfX()
    ensures Load(HashSource(), Target("/w/x", "/p")) == Ok(Scalar("", "v"))
  {
    var doc := Mapping([Entry(Scalar("", "p"), Scalar("", "v"))]);
    assert HashSource().files["/w/x"] == doc;
    Pointer.SelectFollowsTokens(doc, ["p"]);
    assert Pointer.Render(["p"]) == "/p" by { assert Pointer.Escape("p") == "p"; }
    assert Pointer.Follow(Scalar("", "v"), []) == Some(Scalar("", "v"));
    assert KeyIndex(doc.entries, "p") == 0;
    assert ["p"][1..] == [];
  }

  /** In this repository a cycle is reported although the specification can be substituted: two ids clash. */
  lemma HashesCollide()
    ensures Compose(HashSource(), SPEC) == Err(Cycle(["/w/x#/p", "/w/x#/p"]))
    ensures Substituted(HashSource(), SPEC, 2) == Some(Scalar("", "v"))
  {
    hide ParseRef, Load, Id;
    HashTargets();
    HashFiles();
    FragmentOfX();
    NetClosed(HashSource());
    CollidingIds(NetOf(HashSource()), SPEC, "p", Target("/w/x#/p", ""), "../x#/p", Target("/w/x", "/p"), "v");
  }
}
