/**
  Composition as it happens. The specification's own tree is in the document cache while its includes are replaced
  one after the other, so a reference to the specification itself sees a tree that is partly resolved.
 */
module IncludeInPlace {
  import opened Wrappers
  import opened SpecTree
  import opened Includes
  import opened IncludeTheorems
  import Pointer
  import Text

  // ---------------------------------------------------------------- a tree with a hole

  /** A tree with one node missing: the nodes above it, and the parts on its left and its right. */
  datatype Place = Top | Below(up: Place, node: Node, done: seq<Node>, rest: seq<Node>)

  predicate Fits(place: Place) {
    place.Below? ==> |place.done| + 1 + |place.rest| == |Parts(place.node)| && Fits(place.up)
  }

  function Fill(place: Place, x: Node): Node {
    match place
    case Top => x
    case Below(up, node, done, rest) => Fill(up, Rebuilt(node, done + [x] + rest))
  }

  lemma PartRaws(node: Node, part: Node)
    requires part in Parts(node)
    ensures Raws(part) <= Raws(node)
  {
    RawsOfPart(Parts(node), part);
  }

  lemma {:induction false} FillRaws(place: Place, x: Node)
    requires Fits(place)
    ensures Raws(x) <= Raws(Fill(place, x))
  {
    if place.Below? {
      var parts := place.done + [x] + place.rest;
      RebuiltParts(place.node, parts);
      assert parts[|place.done|] == x;
      PartRaws(Rebuilt(place.node, parts), x);
      FillRaws(place.up, Rebuilt(place.node, parts));
    }
  }

  // ---------------------------------------------------------------- the walk over the specification

  /** The files while the specification's tree is `tree`. */
  function With(src: Source, root: string, tree: Node): Source {
    src.(files := src.files[root := tree])
  }

  /** What becomes of the node `n` of the specification when it is visited, everything left of it being resolved. */
  function Walk(src: Source, root: string, place: Place, n: Node): Result<Node>
    requires Fits(place)
    decreases Size(n), 0
  {
    PartsSmaller(n);
    if IsInclude(n) then
      FillRaws(place, n);
      NetClosed(With(src, root, Fill(place, n)));
      Resolve(NetOf(With(src, root, Fill(place, n))), n, root, [root])
    else
      match WalkAll(src, root, place, n, [], Parts(n))
      case Err(failure) => Err(failure)
      case Ok(parts) => Ok(Rebuilt(n, parts))
  }

  function WalkAll(src: Source, root: string, place: Place, n: Node, done: seq<Node>, rest: seq<Node>)
    : Result<seq<Node>>
    requires Fits(place) && |done| + |rest| == |Parts(n)|
    decreases SizeOfItems(rest), |rest|
  {
    if rest == [] then Ok(done)
    else match Walk(src, root, Below(place, n, done, rest[1..]), rest[0])
         case Err(failure) => Err(failure)
         case Ok(x) => WalkAll(src, root, place, n, done + [x], rest[1..])
  }

  function ComposeInPlace(src: Source, root: string): Result<Node>
    requires root in src.files
  {
    Walk(src, root, Top, src.files[root])
  }

  // ---------------------------------------------------------------- expansions

  /** Substituting the includes of the node, to some depth, gives `v`. */
  ghost predicate Means(net: Net, n: Node, path: string, v: Node) {
    exists depth: nat :: Expand(net, n, path, depth) == Some(v)
  }

  ghost predicate MeanAll(net: Net, nodes: seq<Node>, path: string, values: seq<Node>) {
    exists depth: nat :: ExpandAll(net, nodes, path, depth) == Some(values)
  }

  lemma {:induction false} ExpandAllMore(net: Net, nodes: seq<Node>, path: string, depth: nat, more: nat)
    requires depth <= more && ExpandAll(net, nodes, path, depth).Some?
    ensures ExpandAll(net, nodes, path, more) == ExpandAll(net, nodes, path, depth)
    decreases depth, SizeOfItems(nodes), |nodes|
  {
    if nodes != [] {
      ExpandMore(net, nodes[0], path, depth, more);
      ExpandAllMore(net, nodes[1..], path, depth, more);
    }
  }

  lemma {:induction false} ExpandMore(net: Net, n: Node, path: string, depth: nat, more: nat)
    requires depth <= more && Expand(net, n, path, depth).Some?
    ensures Expand(net, n, path, more) == Expand(net, n, path, depth)
    decreases depth, Size(n), 0
  {
    if IsInclude(n) {
      var t := net.ref(path, n.value).value;
      ExpandMore(net, net.load(t).value, t.file, depth - 1, more - 1);
    } else {
      PartsSmaller(n);
      ExpandAllMore(net, Parts(n), path, depth, more);
    }
  }

  lemma MeansOne(net: Net, n: Node, path: string, v: Node, depth: nat)
    requires Means(net, n, path, v) && Expand(net, n, path, depth).Some?
    ensures Expand(net, n, path, depth) == Some(v)
  {
    var other: nat :| Expand(net, n, path, other) == Some(v);
    if other <= depth {
      ExpandMore(net, n, path, other, depth);
    } else {
      ExpandMore(net, n, path, depth, other);
    }
  }

  lemma {:induction false} ExpandAllLength(net: Net, nodes: seq<Node>, path: string, depth: nat)
    requires ExpandAll(net, nodes, path, depth).Some?
    ensures |ExpandAll(net, nodes, path, depth).value| == |nodes|
    decreases |nodes|
  {
    if nodes != [] { ExpandAllLength(net, nodes[1..], path, depth); }
  }

  lemma {:induction false} ExpandAllClean(net: Net, nodes: seq<Node>, path: string, depth: nat)
    requires ExpandAll(net, nodes, path, depth).Some?
    ensures RawsOf(ExpandAll(net, nodes, path, depth).value) == {}
    decreases depth, SizeOfItems(nodes), |nodes|
  {
    if nodes != [] {
      ExpandClean(net, nodes[0], path, depth);
      ExpandAllClean(net, nodes[1..], path, depth);
    }
  }

  /** An expansion holds no include. */
  lemma {:induction false} ExpandClean(net: Net, n: Node, path: string, depth: nat)
    requires Expand(net, n, path, depth).Some?
    ensures Raws(Expand(net, n, path, depth).value) == {}
    decreases depth, Size(n), 0
  {
    if IsInclude(n) {
      var t := net.ref(path, n.value).value;
      ExpandClean(net, net.load(t).value, t.file, depth - 1);
    } else {
      PartsSmaller(n);
      ExpandAllClean(net, Parts(n), path, depth);
      ExpandAllLength(net, Parts(n), path, depth);
      RebuiltParts(n, ExpandAll(net, Parts(n), path, depth).value);
    }
  }

  lemma {:induction false} PairedFlat(entries: seq<Entry>)
    ensures Paired(Flat(entries)) == entries
  {
    if entries != [] {
      PairedFlat(entries[1..]);
      assert Flat(entries)[2..] == Flat(entries[1..]);
    }
  }

  lemma RebuiltSame(n: Node)
    ensures Rebuilt(n, Parts(n)) == n
  {
    if n.Mapping? { PairedFlat(n.entries); }
  }

  lemma {:induction false} CleanExpandsAll(net: Net, nodes: seq<Node>, path: string, depth: nat)
    requires RawsOf(nodes) == {}
    ensures ExpandAll(net, nodes, path, depth) == Some(nodes)
    decreases SizeOfItems(nodes), |nodes|
  {
    if nodes != [] {
      assert Raws(nodes[0]) <= RawsOf(nodes) && RawsOf(nodes[1..]) <= RawsOf(nodes);
      CleanExpands(net, nodes[0], path, depth);
      CleanExpandsAll(net, nodes[1..], path, depth);
      assert [nodes[0]] + nodes[1..] == nodes;
    }
  }

  /** A tree without includes is its own expansion. */
  lemma {:induction false} CleanExpands(net: Net, n: Node, path: string, depth: nat)
    requires Raws(n) == {}
    ensures Expand(net, n, path, depth) == Some(n)
    decreases Size(n), 0
  {
    if !IsInclude(n) {
      PartsSmaller(n);
      CleanExpandsAll(net, Parts(n), path, depth);
      RebuiltSame(n);
    }
  }

  // ---------------------------------------------------------------- partly resolved trees

  predicate SameHead(n: Node, m: Node) {
    match n
    case Scalar(_, _) => m == n
    case Sequence(_) => m.Sequence?
    case Mapping(_) => m.Mapping?
  }

  /** `m` is `n`, a tree of the file `root`, with some of its includes replaced by their expansions. */
  ghost predicate Partly(net: Net, root: string, n: Node, m: Node)
    decreases Size(n), 0
  {
    PartsSmaller(n);
    if IsInclude(n) then m == n || Means(net, n, root, m)
    else SameHead(n, m) && PartlyAll(net, root, Parts(n), Parts(m))
  }

  ghost predicate PartlyAll(net: Net, root: string, ns: seq<Node>, ms: seq<Node>)
    decreases SizeOfItems(ns), |ns|
  {
    && |ns| == |ms|
    && (ns != [] ==> Partly(net, root, ns[0], ms[0]) && PartlyAll(net, root, ns[1..], ms[1..]))
  }

  lemma {:induction false} PartlyAllAt(net: Net, root: string, ns: seq<Node>, ms: seq<Node>, i: nat)
    requires PartlyAll(net, root, ns, ms) && i < |ns|
    ensures Partly(net, root, ns[i], ms[i])
    decreases |ns|
  {
    if i > 0 { PartlyAllAt(net, root, ns[1..], ms[1..], i - 1); }
  }

  lemma {:induction false} PartlyAllJoin(net: Net, root: string, a: seq<Node>, b: seq<Node>, a': seq<Node>,
                                         b': seq<Node>)
    requires PartlyAll(net, root, a, a') && PartlyAll(net, root, b, b')
    ensures PartlyAll(net, root, a + b, a' + b')
    decreases |a|
  {
    hide Partly;
    if a == [] {
      assert a + b == b && a' + b' == b';
    } else {
      PartlyAllJoin(net, root, a[1..], b, a'[1..], b');
      assert (a + b)[1..] == a[1..] + b && (a' + b')[1..] == a'[1..] + b';
      assert (a + b)[0] == a[0] && (a' + b')[0] == a'[0];
    }
  }

  lemma {:induction false} AllPartlySelves(net: Net, root: string, ns: seq<Node>)
    ensures PartlyAll(net, root, ns, ns)
    decreases SizeOfItems(ns), |ns|
  {
    if ns != [] {
      PartlySelf(net, root, ns[0]);
      AllPartlySelves(net, root, ns[1..]);
    }
  }

  lemma {:induction false} PartlySelf(net: Net, root: string, n: Node)
    ensures Partly(net, root, n, n)
    decreases Size(n), 0
  {
    PartsSmaller(n);
    AllPartlySelves(net, root, Parts(n));
  }

  lemma {:induction false} MeanAllPartly(net: Net, root: string, ns: seq<Node>, depth: nat)
    requires ExpandAll(net, ns, root, depth).Some?
    ensures PartlyAll(net, root, ns, ExpandAll(net, ns, root, depth).value)
    decreases SizeOfItems(ns), |ns|
  {
    ExpandAllLength(net, ns, root, depth);
    if ns != [] {
      MeansPartly(net, root, ns[0], depth);
      MeanAllPartly(net, root, ns[1..], depth);
    }
  }

  lemma {:induction false} MeansPartly(net: Net, root: string, n: Node, depth: nat)
    requires Expand(net, n, root, depth).Some?
    ensures Partly(net, root, n, Expand(net, n, root, depth).value)
    decreases Size(n), 0
  {
    if !IsInclude(n) {
      PartsSmaller(n);
      MeanAllPartly(net, root, Parts(n), depth);
      ExpandAllLength(net, Parts(n), root, depth);
      RebuiltParts(n, ExpandAll(net, Parts(n), root, depth).value);
    }
  }

  lemma {:induction false} PartlyAllRaws(net: Net, root: string, ns: seq<Node>, ms: seq<Node>)
    requires PartlyAll(net, root, ns, ms)
    ensures RawsOf(ms) <= RawsOf(ns)
    decreases SizeOfItems(ns), |ns|
  {
    if ns != [] {
      PartlyRaws(net, root, ns[0], ms[0]);
      PartlyAllRaws(net, root, ns[1..], ms[1..]);
    }
  }

  /** Resolving only takes references away. */
  lemma {:induction false} PartlyRaws(net: Net, root: string, n: Node, m: Node)
    requires Partly(net, root, n, m)
    ensures Raws(m) <= Raws(n)
    decreases Size(n), 0
  {
    if IsInclude(n) {
      if m != n {
        var depth: nat :| Expand(net, n, root, depth) == Some(m);
        ExpandClean(net, n, root, depth);
      }
    } else {
      PartsSmaller(n);
      PartlyAllRaws(net, root, Parts(n), Parts(m));
    }
  }

  // ---------------------------------------------------------------- fragments of a partly resolved tree

  function TokensOf(pointer: string): seq<string> {
    if pointer == "" then [] else Pointer.Decoded(Text.Split(Pointer.TrimSlash(pointer), '/'))
  }

  /** Replacing the key, if it is an include, does not change whether it is the one that is looked up. */
  ghost predicate KeyKept(net: Net, root: string, key: Node, token: string) {
    IsInclude(key) ==> forall v :: Means(net, key, root, v) ==> (IsKey(v, token) <==> IsKey(key, token))
  }

  ghost predicate KeysKept(net: Net, root: string, n: Node, token: string) {
    n.Mapping? ==> forall i :: 0 <= i < |n.entries| ==> KeyKept(net, root, n.entries[i].key, token)
  }

  /** Following the tokens never goes through an include, and replacing keys does not change what they find. */
  ghost predicate Steady(net: Net, root: string, n: Node, tokens: seq<string>)
    decreases |tokens|
  {
    tokens != [] ==>
      && !IsInclude(n) && KeysKept(net, root, n, tokens[0])
      && (Pointer.PointerStep(n, tokens[0]).Some? ==>
            Steady(net, root, Pointer.PointerStep(n, tokens[0]).value, tokens[1..]))
  }

  lemma {:induction false} FlatAt(entries: seq<Entry>, i: nat)
    requires i < |entries|
    ensures Flat(entries)[2 * i] == entries[i].key && Flat(entries)[2 * i + 1] == entries[i].value
  {
    if i > 0 { FlatAt(entries[1..], i - 1); }
  }

  lemma EntriesPartly(net: Net, root: string, a: seq<Entry>, b: seq<Entry>, i: nat)
    requires PartlyAll(net, root, Flat(a), Flat(b)) && i < |a|
    ensures |a| == |b| && Partly(net, root, a[i].key, b[i].key) && Partly(net, root, a[i].value, b[i].value)
  {
    FlatAt(a, i);
    FlatAt(b, i);
    PartlyAllAt(net, root, Flat(a), Flat(b), 2 * i);
    PartlyAllAt(net, root, Flat(a), Flat(b), 2 * i + 1);
  }

  /** Keys that are kept are looked up as before. */
  lemma SameKeyIndex(net: Net, root: string, a: seq<Entry>, b: seq<Entry>, name: string)
    requires PartlyAll(net, root, Flat(a), Flat(b))
    requires forall i :: 0 <= i < |a| ==> KeyKept(net, root, a[i].key, name)
    ensures |a| == |b| && KeyIndex(a, name) == KeyIndex(b, name)
  {
    forall i | 0 <= i < |a| ensures |a| == |b| && IsKey(b[i].key, name) == IsKey(a[i].key, name) {
      EntriesPartly(net, root, a, b, i);
      assert KeyKept(net, root, a[i].key, name);
    }
  }

  lemma StepPartly(net: Net, root: string, n: Node, m: Node, token: string)
    requires Partly(net, root, n, m) && Steady(net, root, n, [token])
    ensures var a, b := Pointer.PointerStep(n, token), Pointer.PointerStep(m, token);
            (a.Some? <==> b.Some?) && (a.Some? ==> Partly(net, root, a.value, b.value))
  {
    match n
    case Scalar(_, _) =>
    case Sequence(items) =>
      var index := Pointer.Atoi(token);
      if index.Some? && 0 <= index.value < |items| { PartlyAllAt(net, root, items, m.items, index.value); }
    case Mapping(entries) =>
      SameKeyIndex(net, root, entries, m.entries, token);
      var i := KeyIndex(entries, token);
      if i < |entries| { EntriesPartly(net, root, entries, m.entries, i); }
  }

  /** A steady fragment of a partly resolved tree is the partly resolved fragment. */
  lemma {:induction false} FollowPartly(net: Net, root: string, n: Node, m: Node, tokens: seq<string>)
    requires Partly(net, root, n, m) && Steady(net, root, n, tokens)
    ensures var a, b := Pointer.Follow(n, tokens), Pointer.Follow(m, tokens);
            (a.Some? <==> b.Some?) && (a.Some? ==> Partly(net, root, a.value, b.value))
    decreases |tokens|
  {
    if tokens != [] {
      assert Steady(net, root, n, [tokens[0]]);
      StepPartly(net, root, n, m, tokens[0]);
      var next := Pointer.PointerStep(n, tokens[0]);
      if next.Some? { FollowPartly(net, root, next.value, Pointer.PointerStep(m, tokens[0]).value, tokens[1..]); }
    }
  }

  // ---------------------------------------------------------------- two states of the files

  /** A chain of includes leads from the specification to `t`. */
  ghost predicate Reached(net: Net, root: string, t: Target) {
    exists trail :: Linked(net, trail) && trail != [] && trail[0] == Target(root, "") && trail[|trail| - 1] == t
  }

  lemma ReachedFirst(net: Net, root: string)
    ensures Reached(net, root, Target(root, ""))
  {
    assert Linked(net, [Target(root, "")]);
  }

  lemma ReachedNext(net: Net, root: string, a: Target, b: Target)
    requires Reached(net, root, a) && Leads(net, a, b)
    ensures Reached(net, root, b)
  {
    var trail :| Linked(net, trail) && trail != [] && trail[0] == Target(root, "") && trail[|trail| - 1] == a;
    var more := trail + [b];
    forall i | 0 <= i < |more| - 1 ensures Leads(net, more[i], more[i + 1]) {
      if i < |trail| - 1 { assert Leads(net, trail[i], trail[i + 1]); }
    }
    assert Linked(net, more);
  }

  /** What the references in the file `path` refer to is reached. */
  ghost predicate Within(net: Net, root: string, raws: set<string>, path: string) {
    forall raw :: raw in raws && net.ref(path, raw).Some? ==> Reached(net, root, net.ref(path, raw).value)
  }

  lemma LoadWithin(net: Net, root: string, t: Target)
    requires Reached(net, root, t) && net.load(t).Ok?
    ensures Within(net, root, Raws(net.load(t).value), t.file)
  {
    forall raw | raw in Raws(net.load(t).value) && net.ref(t.file, raw).Some?
      ensures Reached(net, root, net.ref(t.file, raw).value)
    {
      ReachedNext(net, root, t, net.ref(t.file, raw).value);
    }
  }

  /** Every fragment of the specification that is reached is steady. */
  ghost predicate SteadyFrom(src: Source, root: string)
    requires root in src.files
  {
    forall t :: Reached(NetOf(src), root, t) && t.file == root ==>
      Steady(NetOf(src), root, src.files[root], TokensOf(t.pointer))
  }

  ghost predicate Version(net: Net, root: string, file: string, n: Node, m: Node) {
    if file == root then Partly(net, root, n, m) else m == n
  }

  /** The target can be loaded from both, and then `later` has a partly resolved version of it. */
  ghost predicate Updated(net: Net, later: Net, root: string, t: Target) {
    && (net.load(t).Ok? <==> later.load(t).Ok?)
    && (net.load(t).Ok? ==> Version(net, root, t.file, net.load(t).value, later.load(t).value))
  }

  /** References mean the same in both, and what is reached is at most resolved further in `later`. */
  ghost predicate Updates(net: Net, later: Net, root: string) {
    && (forall path, raw :: later.ref(path, raw) == net.ref(path, raw))
    && (forall t :: Reached(net, root, t) ==> Updated(net, later, root, t))
  }

  lemma LoadUpdated(src: Source, root: string, tree: Node, t: Target)
    requires root in src.files && Partly(NetOf(src), root, src.files[root], tree)
    requires t.file == root ==> Steady(NetOf(src), root, src.files[root], TokensOf(t.pointer))
    ensures Updated(NetOf(src), NetOf(With(src, root, tree)), root, t)
  {
    if t.file == root {
      FollowPartly(NetOf(src), root, src.files[root], tree, TokensOf(t.pointer));
      assert Pointer.Selected(tree, t.pointer) == Pointer.Follow(tree, TokensOf(t.pointer));
      assert Pointer.Selected(src.files[root], t.pointer) == Pointer.Follow(src.files[root], TokensOf(t.pointer));
    }
  }

  lemma WithUpdates(src: Source, root: string, tree: Node)
    requires root in src.files && SteadyFrom(src, root) && Partly(NetOf(src), root, src.files[root], tree)
    ensures Updates(NetOf(src), NetOf(With(src, root, tree)), root)
  {
    var net, later := NetOf(src), NetOf(With(src, root, tree));
    forall t | Reached(net, root, t) ensures Updated(net, later, root, t) {
      LoadUpdated(src, root, tree, t);
    }
  }

  // ---------------------------------------------------------------- expansions do not notice

  lemma {:induction false} ForthAll(net: Net, later: Net, root: string, ns: seq<Node>, ms: seq<Node>, path: string,
                                    depth: nat)
    requires Updates(net, later, root) && ExpandAll(net, ns, path, depth).Some?
    requires Within(net, root, RawsOf(ns), path)
    requires if path == root then PartlyAll(net, root, ns, ms) else ms == ns
    ensures ExpandAll(later, ms, path, depth) == ExpandAll(net, ns, path, depth)
    decreases depth, SizeOfItems(ns), |ns|
  {
    if ns != [] {
      Forth(net, later, root, ns[0], ms[0], path, depth);
      ForthAll(net, later, root, ns[1..], ms[1..], path, depth);
    }
  }

  /** What can be expanded is expanded to the same tree at any later moment. */
  lemma {:induction false} Forth(net: Net, later: Net, root: string, n: Node, m: Node, path: string, depth: nat)
    requires Updates(net, later, root) && Version(net, root, path, n, m) && Expand(net, n, path, depth).Some?
    requires Within(net, root, Raws(n), path)
    ensures Expand(later, m, path, depth) == Expand(net, n, path, depth)
    decreases depth, Size(n), 0
  {
    if IsInclude(n) && m != n {
      MeansOne(net, n, root, m, depth);
      ExpandClean(net, n, root, depth);
      CleanExpands(later, m, root, depth);
    } else if IsInclude(n) {
      var t := net.ref(path, n.value).value;
      assert Updated(net, later, root, t);
      LoadWithin(net, root, t);
      Forth(net, later, root, net.load(t).value, later.load(t).value, t.file, depth - 1);
    } else {
      PartsSmaller(n);
      ForthAll(net, later, root, Parts(n), Parts(m), path, depth);
      SameRebuilt(n, m, ExpandAll(net, Parts(n), path, depth).value);
    }
  }

  lemma SameRebuilt(n: Node, m: Node, parts: seq<Node>)
    requires SameHead(n, m)
    ensures Rebuilt(m, parts) == Rebuilt(n, parts)
  {
  }

  lemma {:induction false} BackAll(net: Net, later: Net, root: string, ns: seq<Node>, ms: seq<Node>, path: string,
                                   depth: nat)
    returns (deep: nat)
    requires Updates(net, later, root) && ExpandAll(later, ms, path, depth).Some?
    requires Within(net, root, RawsOf(ns), path)
    requires if path == root then PartlyAll(net, root, ns, ms) else ms == ns
    ensures ExpandAll(net, ns, path, deep) == ExpandAll(later, ms, path, depth)
    decreases depth, SizeOfItems(ns), |ns|
  {
    deep := 0;
    if ns != [] {
      var first := Back(net, later, root, ns[0], ms[0], path, depth);
      var rest := BackAll(net, later, root, ns[1..], ms[1..], path, depth);
      deep := if first <= rest then rest else first;
      ExpandMore(net, ns[0], path, first, deep);
      ExpandAllMore(net, ns[1..], path, rest, deep);
    }
  }

  /** What can be expanded at a later moment could be expanded from the start. */
  lemma {:induction false} Back(net: Net, later: Net, root: string, n: Node, m: Node, path: string, depth: nat)
    returns (deep: nat)
    requires Updates(net, later, root) && Version(net, root, path, n, m) && Expand(later, m, path, depth).Some?
    requires Within(net, root, Raws(n), path)
    ensures Expand(net, n, path, deep) == Expand(later, m, path, depth)
    decreases depth, Size(n), 0
  {
    if IsInclude(n) && m != n {
      deep :| Expand(net, n, root, deep) == Some(m);
      ExpandClean(net, n, root, deep);
      CleanExpands(later, m, root, depth);
    } else if IsInclude(n) {
      var t := net.ref(path, n.value).value;
      assert Updated(net, later, root, t);
      LoadWithin(net, root, t);
      deep := Back(net, later, root, net.load(t).value, later.load(t).value, t.file, depth - 1);
      deep := deep + 1;
    } else {
      PartsSmaller(n);
      deep := BackAll(net, later, root, Parts(n), Parts(m), path, depth);
      SameRebuilt(n, m, ExpandAll(later, Parts(m), path, depth).value);
    }
  }

  // ---------------------------------------------------------------- the walk keeps the tree partly resolved

  /** The same place in the original tree and in the partly resolved one; right of the hole nothing has changed. */
  ghost predicate PartlyAround(net: Net, root: string, before: Place, place: Place) {
    match before
    case Top => place.Top?
    case Below(up, node, done, rest) =>
      && place.Below? && place.node == node && place.rest == rest && PartlyAll(net, root, done, place.done)
      && PartlyAround(net, root, up, place.up)
  }

  lemma {:induction false} FillPartly(net: Net, root: string, before: Place, place: Place, n: Node, m: Node)
    requires Fits(before) && Fits(place) && PartlyAround(net, root, before, place) && Partly(net, root, n, m)
    ensures Partly(net, root, Fill(before, n), Fill(place, m))
    decreases before
  {
    if before.Below? {
      var node, was, now := before.node, before.done + [n] + before.rest, place.done + [m] + place.rest;
      assert PartlyAll(net, root, [n], [m]);
      PartlyAllJoin(net, root, before.done, [n], place.done, [m]);
      AllPartlySelves(net, root, before.rest);
      PartlyAllJoin(net, root, before.done + [n], before.rest, place.done + [m], place.rest);
      RebuiltParts(node, was);
      RebuiltParts(node, now);
      assert Partly(net, root, Rebuilt(node, was), Rebuilt(node, now)) by { RebuiltHeads(node, was, now); }
      FillPartly(net, root, before.up, place.up, Rebuilt(node, was), Rebuilt(node, now));
    }
  }

  lemma RebuiltHeads(node: Node, was: seq<Node>, now: seq<Node>)
    requires |was| == |now| == |Parts(node)| > 0
    ensures SameHead(Rebuilt(node, was), Rebuilt(node, now)) && !IsInclude(Rebuilt(node, was))
  {
  }

  /** `place` is where `n` stands in the specification, with everything left of it resolved. */
  ghost predicate Visited(src: Source, root: string, before: Place, place: Place, n: Node) {
    && root in src.files && SteadyFrom(src, root) && Fits(before) && Fits(place)
    && Fill(before, n) == src.files[root] && PartlyAround(NetOf(src), root, before, place)
  }

  lemma VisitedUpdates(src: Source, root: string, before: Place, place: Place, n: Node)
    requires Visited(src, root, before, place, n)
    ensures Updates(NetOf(src), NetOf(With(src, root, Fill(place, n))), root)
    ensures Within(NetOf(src), root, Raws(n), root)
  {
    ReachedFirst(NetOf(src), root);
    LoadWithin(NetOf(src), root, Target(root, ""));
    FillRaws(before, n);
    PartlySelf(NetOf(src), root, n);
    FillPartly(NetOf(src), root, before, place, n, n);
    WithUpdates(src, root, Fill(place, n));
  }

  /** One part further: `x` is what became of the part just visited. */
  lemma VisitPart(src: Source, root: string, before: Place, place: Place, n: Node, was: seq<Node>, done: seq<Node>,
                  rest: seq<Node>)
    requires Visited(src, root, before, place, n) && rest != [] && was + rest == Parts(n)
    requires PartlyAll(NetOf(src), root, was, done)
    ensures Visited(src, root, Below(before, n, was, rest[1..]), Below(place, n, done, rest[1..]), rest[0])
  {
    assert was + [rest[0]] + rest[1..] == Parts(n);
    RebuiltSame(n);
  }

  lemma {:induction false} WalkAllMeans(src: Source, root: string, before: Place, place: Place, n: Node,
                                        was: seq<Node>, done: seq<Node>, rest: seq<Node>)
    requires Visited(src, root, before, place, n) && was + rest == Parts(n)
    requires PartlyAll(NetOf(src), root, was, done) && MeanAll(NetOf(src), was, root, done)
    requires WalkAll(src, root, place, n, done, rest).Ok?
    ensures MeanAll(NetOf(src), Parts(n), root, WalkAll(src, root, place, n, done, rest).value)
    decreases SizeOfItems(rest), |rest|
  {
    hide Partly, SteadyFrom, Walk, Means, MeanAll, Fill, PartlyAround;
    if rest == [] {
      assert was + rest == was;
    } else {
      VisitPart(src, root, before, place, n, was, done, rest);
      var inner, here := Below(before, n, was, rest[1..]), Below(place, n, done, rest[1..]);
      var x := Walk(src, root, here, rest[0]).value;
      WalkMeans(src, root, inner, here, rest[0]);
      NextMeans(NetOf(src), root, was, done, rest[0], x);
      assert was + [rest[0]] + rest[1..] == was + rest;
      WalkAllMeans(src, root, before, place, n, was + [rest[0]], done + [x], rest[1..]);
    }
  }

  lemma NextMeans(net: Net, root: string, was: seq<Node>, done: seq<Node>, n: Node, x: Node)
    requires PartlyAll(net, root, was, done) && MeanAll(net, was, root, done) && Means(net, n, root, x)
    ensures PartlyAll(net, root, was + [n], done + [x]) && MeanAll(net, was + [n], root, done + [x])
  {
    var a: nat :| ExpandAll(net, was, root, a) == Some(done);
    var b: nat :| Expand(net, n, root, b) == Some(x);
    var deep := if a <= b then b else a;
    ExpandAllMore(net, was, root, a, deep);
    ExpandMore(net, n, root, b, deep);
    ExpandAllSnoc(net, was, n, root, deep);
    NextPartly(net, root, was, done, n, deep);
  }

  lemma NextPartly(net: Net, root: string, was: seq<Node>, done: seq<Node>, n: Node, depth: nat)
    requires PartlyAll(net, root, was, done) && Expand(net, n, root, depth).Some?
    ensures PartlyAll(net, root, was + [n], done + [Expand(net, n, root, depth).value])
  {
    MeansPartly(net, root, n, depth);
    assert PartlyAll(net, root, [n], [Expand(net, n, root, depth).value]);
    PartlyAllJoin(net, root, was, [n], done, [Expand(net, n, root, depth).value]);
  }

  lemma {:induction false} ExpandAllSnoc(net: Net, nodes: seq<Node>, n: Node, path: string, depth: nat)
    requires ExpandAll(net, nodes, path, depth).Some? && Expand(net, n, path, depth).Some?
    ensures ExpandAll(net, nodes + [n], path, depth) ==
      Some(ExpandAll(net, nodes, path, depth).value + [Expand(net, n, path, depth).value])
    decreases |nodes|
  {
    if nodes == [] {
      assert nodes + [n] == [n] && [n][1..] == [];
      var x := Expand(net, n, path, depth).value;
      assert [x] + [] == [] + [x];
    } else {
      ExpandAllSnoc(net, nodes[1..], n, path, depth);
      assert (nodes + [n])[1..] == nodes[1..] + [n];
      var first, rest := Expand(net, nodes[0], path, depth).value, ExpandAll(net, nodes[1..], path, depth).value;
      var x := Expand(net, n, path, depth).value;
      assert [first] + (rest + [x]) == [first] + rest + [x];
    }
  }

  /** What the walk makes of a node is an expansion of it over the files as they are. */
  lemma {:induction false} WalkMeans(src: Source, root: string, before: Place, place: Place, n: Node)
    requires Visited(src, root, before, place, n) && Walk(src, root, place, n).Ok?
    ensures Means(NetOf(src), n, root, Walk(src, root, place, n).value)
    decreases Size(n), 0
  {
    if IsInclude(n) {
      var later := NetOf(With(src, root, Fill(place, n)));
      VisitedUpdates(src, root, before, place, n);
      FillRaws(place, n);
      NetClosed(With(src, root, Fill(place, n)));
      var deep := |Unvisited(later, [root])|;
      ResolvesToExpansion(later, n, root, [root], deep);
      PartlySelf(NetOf(src), root, n);
      var depth := Back(NetOf(src), later, root, n, n, root, deep);
    } else {
      PartsSmaller(n);
      assert [] + Parts(n) == Parts(n);
      assert ExpandAll(NetOf(src), [], root, 0) == Some([]);
      WalkAllMeans(src, root, before, place, n, [], [], Parts(n));
      var depth: nat :| ExpandAll(NetOf(src), Parts(n), root, depth) ==
                        Some(WalkAll(src, root, place, n, [], Parts(n)).value);
      assert Expand(NetOf(src), n, root, depth) == Some(Walk(src, root, place, n).value);
    }
  }

  // ---------------------------------------------------------------- what can be expanded is composed

  lemma LeadsBefore(net: Net, later: Net, root: string, a: Target, b: Target)
    requires Updates(net, later, root) && Reached(net, root, a) && Leads(later, a, b)
    ensures Leads(net, a, b) && Reached(net, root, b)
  {
    assert Updated(net, later, root, a);
    var raw :| raw in Raws(later.load(a).value) && later.ref(a.file, raw) == Some(b);
    if a.file == root { PartlyRaws(net, root, net.load(a).value, later.load(a).value); }
    assert raw in Raws(net.load(a).value) && net.ref(a.file, raw) == Some(b);
    ReachedNext(net, root, a, b);
  }

  lemma {:induction false} LinkedBefore(net: Net, later: Net, root: string, trail: seq<Target>, i: nat)
    requires Updates(net, later, root) && Linked(later, trail) && i < |trail| && trail[0] == Target(root, "")
    ensures Reached(net, root, trail[i]) && (i + 1 < |trail| ==> Leads(net, trail[i], trail[i + 1]))
  {
    if i == 0 {
      ReachedFirst(net, root);
    } else {
      LinkedBefore(net, later, root, trail, i - 1);
      LeadsBefore(net, later, root, trail[i - 1], trail[i]);
    }
    if i + 1 < |trail| { LeadsBefore(net, later, root, trail[i], trail[i + 1]); }
  }

  /** Chains of includes at a later moment were chains of includes from the start. */
  lemma NoClashLater(net: Net, later: Net, root: string)
    requires Updates(net, later, root) && NoClashBelow(net, [Target(root, "")])
    ensures NoClashBelow(later, [Target(root, "")])
  {
    forall trail | [Target(root, "")] <= trail && Linked(later, trail) ensures NoClash(trail) {
      forall i | 0 <= i < |trail| - 1 ensures Leads(net, trail[i], trail[i + 1]) {
        LinkedBefore(net, later, root, trail, i);
      }
      assert Linked(net, trail);
    }
  }

  lemma WalkIncludeSucceeds(src: Source, root: string, before: Place, place: Place, n: Node, depth: nat)
    requires Visited(src, root, before, place, n) && NoClashFrom(src, root) && IsInclude(n)
    requires Expand(NetOf(src), n, root, depth).Some?
    ensures Walk(src, root, place, n) == Ok(Expand(NetOf(src), n, root, depth).value)
  {
    var tree := Fill(place, n);
    var now := With(src, root, tree);
    VisitedUpdates(src, root, before, place, n);
    NoClashLater(NetOf(src), NetOf(now), root);
    PartlySelf(NetOf(src), root, n);
    Forth(NetOf(src), NetOf(now), root, n, n, root, depth);
    FillRaws(place, n);
    RootWorks(now, root);
    FailureNeverExpands(NetOf(now), n, root, [Target(root, "")], depth);
    ResolvesToExpansion(NetOf(now), n, root, [root], depth);
  }

  lemma {:induction false} WalkAllSucceeds(src: Source, root: string, before: Place, place: Place, n: Node,
                                           was: seq<Node>, done: seq<Node>, rest: seq<Node>, depth: nat)
    requires Visited(src, root, before, place, n) && NoClashFrom(src, root) && was + rest == Parts(n)
    requires PartlyAll(NetOf(src), root, was, done) && ExpandAll(NetOf(src), rest, root, depth).Some?
    ensures WalkAll(src, root, place, n, done, rest) == Ok(done + ExpandAll(NetOf(src), rest, root, depth).value)
    decreases SizeOfItems(rest), |rest|
  {
    hide Partly, SteadyFrom, Walk, Expand, Fill, NoClashFrom, PartlyAround;
    if rest == [] {
      assert done + [] == done;
    } else {
      VisitPart(src, root, before, place, n, was, done, rest);
      var inner, here := Below(before, n, was, rest[1..]), Below(place, n, done, rest[1..]);
      WalkSucceeds(src, root, inner, here, rest[0], depth);
      var x := Expand(NetOf(src), rest[0], root, depth).value;
      NextPartly(NetOf(src), root, was, done, rest[0], depth);
      assert was + [rest[0]] + rest[1..] == was + rest;
      WalkAllSucceeds(src, root, before, place, n, was + [rest[0]], done + [x], rest[1..], depth);
      var others := ExpandAll(NetOf(src), rest[1..], root, depth).value;
      assert done + [x] + others == done + ([x] + others);
    }
  }

  lemma {:induction false} WalkSucceeds(src: Source, root: string, before: Place, place: Place, n: Node, depth: nat)
    requires Visited(src, root, before, place, n) && NoClashFrom(src, root)
    requires Expand(NetOf(src), n, root, depth).Some?
    ensures Walk(src, root, place, n) == Ok(Expand(NetOf(src), n, root, depth).value)
    decreases Size(n), 0
  {
    if IsInclude(n) {
      WalkIncludeSucceeds(src, root, before, place, n, depth);
    } else {
      PartsSmaller(n);
      assert [] + Parts(n) == Parts(n);
      WalkAllSucceeds(src, root, before, place, n, [], [], Parts(n), depth);
      var parts := ExpandAll(NetOf(src), Parts(n), root, depth).value;
      assert [] + parts == parts;
    }
  }

  // ---------------------------------------------------------------- composition in place

  /** Every fragment of the specification that a chain of includes names is in it as it is written. */
  ghost predicate FragmentsExist(src: Source, root: string) {
    forall t :: Reached(NetOf(src), root, t) && t.file == root ==> Load(src, t).Ok?
  }

  /** No look-up on the way that the tokens go is changed by replacing keys. */
  ghost predicate LookUpsKept(net: Net, root: string, n: Node, tokens: seq<string>)
    decreases |tokens|
  {
    tokens != [] ==>
      && KeysKept(net, root, n, tokens[0])
      && (Pointer.PointerStep(n, tokens[0]).Some? ==>
            LookUpsKept(net, root, Pointer.PointerStep(n, tokens[0]).value, tokens[1..]))
  }

  /**
    The ways to the fragments of the specification that are reached are not changed by replacing keys. This is so for
    keys that are no includes, and for specifications that name no fragment of themselves.
   */
  ghost predicate WaysKept(src: Source, root: string)
    requires root in src.files
  {
    forall t :: Reached(NetOf(src), root, t) && t.file == root ==>
      LookUpsKept(NetOf(src), root, src.files[root], TokensOf(t.pointer))
  }

  /** A fragment that exists goes through no include. */
  lemma {:induction false} ExistingIsSteady(net: Net, root: string, n: Node, tokens: seq<string>)
    requires LookUpsKept(net, root, n, tokens) && Pointer.Follow(n, tokens).Some?
    ensures Steady(net, root, n, tokens)
    decreases |tokens|
  {
    if tokens != [] { ExistingIsSteady(net, root, Pointer.PointerStep(n, tokens[0]).value, tokens[1..]); }
  }

  lemma FragmentsAreSteady(src: Source, root: string)
    requires root in src.files && WaysKept(src, root) && FragmentsExist(src, root)
    ensures SteadyFrom(src, root)
  {
    var net, doc := NetOf(src), src.files[root];
    forall t | Reached(net, root, t) && t.file == root ensures Steady(net, root, doc, TokensOf(t.pointer)) {
      assert Load(src, t).Ok? && LookUpsKept(net, root, doc, TokensOf(t.pointer));
      ExistingIsSteady(net, root, doc, TokensOf(t.pointer));
    }
  }

  /** What can be substituted loads everything that is reached. */
  lemma SubstitutedFragmentsExist(src: Source, root: string, depth: nat)
    requires root in src.files && Substituted(src, root, depth).Some?
    ensures FragmentsExist(src, root)
  {
    var net := NetOf(src);
    forall t | Reached(net, root, t) ensures Load(src, t).Ok? {
      var trail :| Linked(net, trail) && trail != [] && trail[0] == Target(root, "") && trail[|trail| - 1] == t;
      ExpansionDescends(net, trail, |trail| - 1, depth);
    }
  }

  lemma InPlaceMeans(src: Source, root: string)
    requires root in src.files && SteadyFrom(src, root) && ComposeInPlace(src, root).Ok?
    ensures exists depth :: Substituted(src, root, depth) == Some(ComposeInPlace(src, root).value)
  {
    assert Visited(src, root, Top, Top, src.files[root]);
    WalkMeans(src, root, Top, Top, src.files[root]);
    var depth: nat :| Expand(NetOf(src), src.files[root], root, depth) == Some(ComposeInPlace(src, root).value);
    assert Substituted(src, root, depth) == Some(ComposeInPlace(src, root).value);
  }

  lemma SubstitutedInPlace(src: Source, root: string, depth: nat)
    requires root in src.files && WaysKept(src, root) && NoClashFrom(src, root)
    requires Substituted(src, root, depth).Some?
    ensures ComposeInPlace(src, root) == Ok(Substituted(src, root, depth).value)
  {
    SubstitutedFragmentsExist(src, root, depth);
    FragmentsAreSteady(src, root);
    assert Visited(src, root, Top, Top, src.files[root]);
    WalkSucceeds(src, root, Top, Top, src.files[root], depth);
  }

  /**
    The tree of the specification changes under the references that name it. Where replacing keys changes no look-up
    on the ways to the fragments that it names of itself, what can be composed from unchanging files is composed to
    the same tree in place; and what is composed in place is a substitution of the includes exactly when those
    fragments are in it as it is written.
   */
  lemma InPlaceIsSubstitution(src: Source, root: string)
    requires root in src.files
    ensures (exists depth :: Substituted(src, root, depth).Some?) ==> FragmentsExist(src, root)
    ensures WaysKept(src, root) && Compose(src, root).Ok? ==> ComposeInPlace(src, root) == Compose(src, root)
    ensures WaysKept(src, root) && ComposeInPlace(src, root).Ok? ==>
      ((exists depth :: Substituted(src, root, depth) == Some(ComposeInPlace(src, root).value)) <==>
       FragmentsExist(src, root))
    ensures WaysKept(src, root) && NoClashFrom(src, root) && FragmentsExist(src, root) ==>
      (ComposeInPlace(src, root).Ok? <==> Compose(src, root).Ok?)
  {
    hide WaysKept, FragmentsExist, NoClashFrom;
    ComposeIsSubstitution(src, root);
    forall depth: nat | WaysKept(src, root) && NoClashFrom(src, root) && Substituted(src, root, depth).Some?
      ensures ComposeInPlace(src, root) == Ok(Substituted(src, root, depth).value)
    {
      SubstitutedInPlace(src, root, depth);
    }
    if WaysKept(src, root) && ComposeInPlace(src, root).Ok? && FragmentsExist(src, root) {
      FragmentsAreSteady(src, root);
      InPlaceMeans(src, root);
    }
    forall depth: nat | Substituted(src, root, depth).Some? ensures FragmentsExist(src, root) {
      SubstitutedFragmentsExist(src, root, depth);
    }
  }

  // ---------------------------------------------------------------- specifications that do not name themselves

  /** No include in any file names the specification. */
  ghost predicate Unnamed(src: Source, root: string) {
    forall path, raw ::
      path in src.files && raw in Raws(src.files[path]) && ParseRef(src, path, raw).Some? ==>
        ParseRef(src, path, raw).value.file != root
  }

  /** The node may stand in the file at both moments. */
  ghost predicate InBoth(src: Source, now: Source, raws: set<string>, path: string) {
    path in src.files && path in now.files && raws <= Raws(src.files[path]) && raws <= Raws(now.files[path])
  }

  lemma {:induction false} SameResolutionOfAll(src: Source, root: string, tree: Node, nodes: seq<Node>, path: string,
                                               stack: seq<string>)
    requires Unnamed(src, root) && Closed(NetOf(src)) && Closed(NetOf(With(src, root, tree)))
    requires InBoth(src, With(src, root, tree), RawsOf(nodes), path)
    ensures ResolveAll(NetOf(With(src, root, tree)), nodes, path, stack) == ResolveAll(NetOf(src), nodes, path, stack)
    decreases |Unvisited(NetOf(src), stack)|, SizeOfItems(nodes), |nodes|
  {
    if nodes != [] {
      SameResolution(src, root, tree, nodes[0], path, stack);
      SameResolutionOfAll(src, root, tree, nodes[1..], path, stack);
    }
  }

  lemma {:induction false} SameResolution(src: Source, root: string, tree: Node, n: Node, path: string,
                                          stack: seq<string>)
    requires Unnamed(src, root) && Closed(NetOf(src)) && Closed(NetOf(With(src, root, tree)))
    requires InBoth(src, With(src, root, tree), Raws(n), path)
    ensures Resolve(NetOf(With(src, root, tree)), n, path, stack) == Resolve(NetOf(src), n, path, stack)
    decreases |Unvisited(NetOf(src), stack)|, Size(n), 0
  {
    if !IsInclude(n) {
      PartsSmaller(n);
      SameResolutionOfAll(src, root, tree, Parts(n), path, stack);
    } else if ParseRef(src, path, n.value).Some? {
      var t := ParseRef(src, path, n.value).value;
      assert n.value in Raws(src.files[path]);
      assert Load(With(src, root, tree), t) == Load(src, t);
      if Load(src, t).Ok? && Id(t) !in stack {
        FewerUnvisited(NetOf(src), stack, Id(t));
        LoadRaws(src, t);
        SameResolution(src, root, tree, Load(src, t).value, t.file, stack + [Id(t)]);
      }
    }
  }

  lemma {:induction false} WalkAllResolves(src: Source, root: string, place: Place, n: Node, done: seq<Node>,
                                           rest: seq<Node>)
    requires Unnamed(src, root) && Closed(NetOf(src)) && PartOf(NetOf(src), rest, root)
    requires Fits(place) && |done| + |rest| == |Parts(n)|
    ensures WalkAll(src, root, place, n, done, rest) == Prepended(done, ResolveAll(NetOf(src), rest, root, [root]))
    decreases SizeOfItems(rest), |rest|
  {
    if rest == [] {
      assert done + [] == done;
    } else {
      WalkResolves(src, root, Below(place, n, done, rest[1..]), rest[0]);
      ResolveNext(NetOf(src), rest, root, [root], done);
      if Walk(src, root, Below(place, n, done, rest[1..]), rest[0]).Ok? {
        var x := Walk(src, root, Below(place, n, done, rest[1..]), rest[0]).value;
        WalkAllResolves(src, root, place, n, done + [x], rest[1..]);
      }
    }
  }

  lemma {:induction false} WalkResolves(src: Source, root: string, place: Place, n: Node)
    requires Unnamed(src, root) && Closed(NetOf(src)) && Fits(place)
    requires root in src.files && Raws(n) <= Raws(src.files[root])
    ensures Walk(src, root, place, n) == Resolve(NetOf(src), n, root, [root])
    decreases Size(n), 0
  {
    if IsInclude(n) {
      FillRaws(place, n);
      NetClosed(With(src, root, Fill(place, n)));
      SameResolution(src, root, Fill(place, n), n, root, [root]);
    } else {
      PartsSmaller(n);
      WalkAllResolves(src, root, place, n, [], Parts(n));
      PrependedEmpty(ResolveAll(NetOf(src), Parts(n), root, [root]));
    }
  }

  /** Then composition in place is composition from unchanging files, failures included. */
  lemma UnnamedComposes(src: Source, root: string)
    requires root in src.files && Unnamed(src, root)
    ensures ComposeInPlace(src, root) == Compose(src, root)
  {
    NetClosed(src);
    WalkResolves(src, root, Top, src.files[root]);
  }
}
