/** Specifications that include fragments of themselves, for which composition in place is not substitution. */
module IncludeWitnesses {
  import opened Wrappers
  import opened SpecTree
  import opened Includes
  import opened IncludeTheorems
  import opened IncludeInPlace
  import Pointer
  import RepoPaths
  import Text

  // ---------------------------------------------------------------- mappings by their parts

  function Key(name: string): Node {
    Scalar("", name)
  }

  /** The mapping with these keys and values. */
  function Doc(parts: seq<Node>): Node {
    Mapping(Paired(parts))
  }

  lemma DocParts(parts: seq<Node>)
    requires |parts| % 2 == 0
    ensures Parts(Doc(parts)) == parts && forall others :: Rebuilt(Doc(parts), others) == Doc(others)
  {
    FlatPaired(parts);
  }

  lemma {:induction false} PairedAt(parts: seq<Node>, i: nat)
    requires 2 * i + 1 < |parts|
    ensures Paired(parts)[i] == Entry(parts[2 * i], parts[2 * i + 1])
    decreases i
  {
    if i > 0 { PairedAt(parts[2..], i - 1); }
  }

  /** The entry that a look-up finds. */
  lemma DocStep(parts: seq<Node>, name: string, i: nat)
    requires 2 * i + 1 < |parts| && IsKey(parts[2 * i], name) && forall k :: 0 <= k < i ==> !IsKey(parts[2 * k], name)
    ensures Pointer.PointerStep(Doc(parts), name) == Some(parts[2 * i + 1])
  {
    forall k | 0 <= k <= i ensures Paired(parts)[k].key == parts[2 * k] {
      PairedAt(parts, k);
    }
    PairedAt(parts, i);
  }

  lemma DocNoStep(parts: seq<Node>, name: string)
    requires |parts| % 2 == 0 && forall k :: 0 <= k < |parts| / 2 ==> !IsKey(parts[2 * k], name)
    ensures Pointer.PointerStep(Doc(parts), name) == None
  {
    forall k | 0 <= k < |parts| / 2 ensures Paired(parts)[k].key == parts[2 * k] {
      PairedAt(parts, k);
    }
  }

  // ---------------------------------------------------------------- part by part

  /** The place of part `k` once the parts before it have become `values`. */
  function Spot(n: Node, values: seq<Node>, k: nat): Place
    requires k <= |values| && k < |Parts(n)|
  {
    Below(Top, n, values[..k], Parts(n)[k + 1..])
  }

  lemma DocSpot(parts: seq<Node>, values: seq<Node>, k: nat)
    requires |parts| % 2 == 0 && k <= |values| && k < |parts|
    ensures k < |Parts(Doc(parts))| && Fits(Spot(Doc(parts), values, k))
    ensures forall x :: Fill(Spot(Doc(parts), values, k), x) == Doc(values[..k] + [x] + parts[k + 1..])
  {
    DocParts(parts);
  }

  ghost predicate Walked(src: Source, root: string, n: Node, values: seq<Node>, k: nat)
    requires k < |values| <= |Parts(n)|
  {
    Walk(src, root, Spot(n, values, k), Parts(n)[k]) == Ok(values[k])
  }

  lemma {:induction false} WalkedSoFar(src: Source, root: string, n: Node, values: seq<Node>, i: nat)
    requires i <= |values| <= |Parts(n)| && forall k :: 0 <= k < i ==> Walked(src, root, n, values, k)
    ensures WalkAll(src, root, Top, n, [], Parts(n)) == WalkAll(src, root, Top, n, values[..i], Parts(n)[i..])
  {
    hide Walk;
    if i == 0 {
      assert values[..0] == [] && Parts(n)[0..] == Parts(n);
    } else {
      WalkedSoFar(src, root, n, values, i - 1);
      assert Walked(src, root, n, values, i - 1);
      var rest := Parts(n)[i - 1..];
      assert rest[0] == Parts(n)[i - 1] && rest[1..] == Parts(n)[i..];
      assert values[..i - 1] + [values[i - 1]] == values[..i];
    }
  }

  lemma WalkedTo(src: Source, root: string, n: Node, values: seq<Node>)
    requires !IsInclude(n) && |values| == |Parts(n)|
    requires forall k :: 0 <= k < |values| ==> Walked(src, root, n, values, k)
    ensures Walk(src, root, Top, n) == Ok(Rebuilt(n, values))
  {
    WalkedSoFar(src, root, n, values, |values|);
    assert values[..|values|] == values && Parts(n)[|values|..] == [];
  }

  lemma WalkStops(src: Source, root: string, n: Node, values: seq<Node>, failure: Failure)
    requires !IsInclude(n) && |values| < |Parts(n)|
    requires forall k :: 0 <= k < |values| ==> Walked(src, root, n, values, k)
    requires Walk(src, root, Spot(n, values, |values|), Parts(n)[|values|]) == Err(failure)
    ensures Walk(src, root, Top, n) == Err(failure)
  {
    WalkedSoFar(src, root, n, values, |values|);
    var rest := Parts(n)[|values|..];
    assert values[..|values|] == values;
    assert rest[0] == Parts(n)[|values|] && rest[1..] == Parts(n)[|values| + 1..];
  }

  lemma {:induction false} ResolvedTo(net: Net, nodes: seq<Node>, values: seq<Node>, path: string, stack: seq<string>)
    requires Closed(net) && PartOf(net, nodes, path) && |values| == |nodes|
    requires forall k :: 0 <= k < |nodes| ==> Raws(nodes[k]) <= Raws(net.docs[path])
    requires forall k :: 0 <= k < |nodes| ==> Resolve(net, nodes[k], path, stack) == Ok(values[k])
    ensures ResolveAll(net, nodes, path, stack) == Ok(values)
    decreases |nodes|
  {
    if nodes != [] {
      ResolvedTo(net, nodes[1..], values[1..], path, stack);
      assert [values[0]] + values[1..] == values;
    }
  }

  // ---------------------------------------------------------------- single parts

  lemma {:induction false} CleanResolvesAll(net: Net, nodes: seq<Node>, path: string, stack: seq<string>)
    requires Closed(net) && path in net.docs && RawsOf(nodes) == {}
    ensures ResolveAll(net, nodes, path, stack) == Ok(nodes)
    decreases SizeOfItems(nodes), |nodes|
  {
    if nodes != [] {
      assert Raws(nodes[0]) <= RawsOf(nodes) && RawsOf(nodes[1..]) <= RawsOf(nodes);
      CleanResolves(net, nodes[0], path, stack);
      CleanResolvesAll(net, nodes[1..], path, stack);
      assert [nodes[0]] + nodes[1..] == nodes;
    }
  }

  lemma {:induction false} CleanResolves(net: Net, n: Node, path: string, stack: seq<string>)
    requires Closed(net) && path in net.docs && Raws(n) == {}
    ensures Resolve(net, n, path, stack) == Ok(n)
    decreases Size(n), 0
  {
    if !IsInclude(n) {
      PartsSmaller(n);
      CleanResolvesAll(net, Parts(n), path, stack);
      RebuiltSame(n);
    }
  }

  lemma KeyStays(src: Source, root: string, place: Place, name: string)
    requires Fits(place)
    ensures Walk(src, root, place, Key(name)) == Ok(Key(name))
  {
  }

  /** An include of something without includes. */
  lemma IncludeOfClean(net: Net, raw: string, path: string, stack: seq<string>, t: Target)
    requires Closed(net) && path in net.docs && raw in Raws(net.docs[path]) && net.ref(path, raw) == Some(t)
    requires net.load(t).Ok? && Raws(net.load(t).value) == {} && Id(t) !in stack
    ensures Resolve(net, Scalar(INCLUDE, raw), path, stack) == net.load(t)
  {
    ResolveInclude(net, raw, path, stack, t);
    CleanResolves(net, net.load(t).value, t.file, stack + [Id(t)]);
  }

  /** An include of something without includes, visited when the tree is `Fill(place, n)`. */
  lemma WalkClean(src: Source, root: string, place: Place, raw: string, t: Target)
    requires Fits(place) && ParseRef(src, root, raw) == Some(t) && Id(t) != root
    requires var found := Load(With(src, root, Fill(place, Scalar(INCLUDE, raw))), t);
             found.Ok? ==> Raws(found.value) == {}
    ensures Walk(src, root, place, Scalar(INCLUDE, raw)) == Load(With(src, root, Fill(place, Scalar(INCLUDE, raw))), t)
  {
    var n := Scalar(INCLUDE, raw);
    var now := With(src, root, Fill(place, n));
    FillRaws(place, n);
    NetClosed(now);
    assert NetOf(now).ref(root, raw) == Some(t);
    if Load(now, t).Ok? { IncludeOfClean(NetOf(now), raw, root, [root], t); }
  }

  // ---------------------------------------------------------------- a specification and a file beside it

  const ROOT := "/w/.root-spec.yaml"
  const WHOLE := Scalar(INCLUDE, "y")

  /** An include of a fragment of the specification itself. */
  function Self(pointer: string): Node {
    Scalar(INCLUDE, ".root-spec.yaml#" + pointer)
  }

  /** A specification beside a file `y`. */
  function Beside(spec: Node, y: Node): Source {
    Source(map[ROOT := spec, "/w/y" := y], (part, path) => RepoPaths.Resolve(["w"], part, path))
  }

  lemma SelfPaths()
    ensures RepoPaths.Resolve(["w"], "y", ROOT) == Some("/w/y")
    ensures RepoPaths.Resolve(["w"], ".root-spec.yaml", ROOT) == Some(ROOT)
  {
    hide RepoPaths.Resolve, RepoPaths.CleanSegment;
    assert RepoPaths.PathOf(["w", ".root-spec.yaml"]) == ROOT by { JoinTwo("w", ".root-spec.yaml"); }
    assert RepoPaths.PathOf(["w", "y"]) == "/w/y" by { JoinTwo("w", "y"); }
    assert ["w"] + [".root-spec.yaml"] == ["w", ".root-spec.yaml"] && ["w"] + ["y"] == ["w", "y"];
    SelfSegments();
    RepoPaths.Beside(["w"], ["w"], ".root-spec.yaml", "y");
    RepoPaths.Beside(["w"], ["w"], ".root-spec.yaml", ".root-spec.yaml");
  }

  lemma SelfSegments()
    ensures RepoPaths.CleanSegment("w") && RepoPaths.CleanSegment(".root-spec.yaml") && RepoPaths.CleanSegment("y")
  {
  }

  lemma FileTarget(spec: Node, y: Node)
    ensures ParseRef(Beside(spec, y), ROOT, "y") == Some(Target("/w/y", ""))
  {
    hide ParseRef, RepoPaths.Resolve;
    SelfPaths();
    ReadsPath(Beside(spec, y), ROOT, "", "y", "");
    assert "" + "y" + "" == "y";
  }

  lemma SelfTarget(spec: Node, y: Node, pointer: string)
    requires Trimmed(pointer) && pointer[0] == '/'
    ensures ParseRef(Beside(spec, y), ROOT, Self(pointer).value) == Some(Target(ROOT, pointer))
    ensures Id(Target(ROOT, pointer)) != ROOT
  {
    hide ParseRef, RepoPaths.Resolve;
    SelfPaths();
    ReadsReference(Beside(spec, y), ROOT, "", ".root-spec.yaml", "", "", pointer, "");
    assert "" + ".root-spec.yaml" + "" + "#" + "" + pointer + "" == Self(pointer).value;
    assert |Id(Target(ROOT, pointer))| > |ROOT|;
  }

  /** The include of the file, visited at any place. */
  lemma WalkWhole(spec: Node, y: Node, place: Place)
    requires Fits(place) && Raws(y) == {}
    ensures Walk(Beside(spec, y), ROOT, place, WHOLE) == Ok(y)
  {
    FileTarget(spec, y);
    assert Load(With(Beside(spec, y), ROOT, Fill(place, WHOLE)), Target("/w/y", "")) == Ok(y);
    WalkClean(Beside(spec, y), ROOT, place, "y", Target("/w/y", ""));
  }

  /** The include of a fragment of the specification, visited when its tree is `tree`. */
  lemma WalkSelf(spec: Node, y: Node, place: Place, pointer: string, tree: Node)
    requires Fits(place) && Trimmed(pointer) && pointer[0] == '/' && Fill(place, Self(pointer)) == tree
    requires Pointer.Selected(tree, pointer).Some? ==> Raws(Pointer.Selected(tree, pointer).value) == {}
    ensures var found := Pointer.Selected(tree, pointer);
            Walk(Beside(spec, y), ROOT, place, Self(pointer)) ==
            if found.Some? then Ok(found.value) else Err(BadFragment(Target(ROOT, pointer)))
  {
    SelfTarget(spec, y, pointer);
    WalkClean(Beside(spec, y), ROOT, place, Self(pointer).value, Target(ROOT, pointer));
  }

  /** What a part resolves to over unchanging files. */
  ghost predicate Gives(spec: Node, y: Node, part: Node, value: Node) {
    NetClosed(Beside(spec, y));
    Raws(part) <= Raws(spec) && Resolve(NetOf(Beside(spec, y)), part, ROOT, [ROOT]) == Ok(value)
  }

  lemma GivesKey(spec: Node, y: Node, name: string)
    ensures Gives(spec, y, Key(name), Key(name))
  {
  }

  lemma RawOf(n: Node)
    requires IsInclude(n)
    ensures n.value in Raws(n)
  {
  }

  lemma LoadSelf(spec: Node, y: Node, pointer: string)
    ensures Pointer.Selected(spec, pointer).Some? ==>
      Load(Beside(spec, y), Target(ROOT, pointer)) == Ok(Pointer.Selected(spec, pointer).value)
  {
  }

  lemma GivesWhole(spec: Node, y: Node)
    requires WHOLE in Parts(spec) && Raws(y) == {}
    ensures Gives(spec, y, WHOLE, y)
  {
    NetClosed(Beside(spec, y));
    PartRaws(spec, WHOLE);
    FileTarget(spec, y);
    IncludeOfClean(NetOf(Beside(spec, y)), "y", ROOT, [ROOT], Target("/w/y", ""));
  }

  lemma GivesSelf(spec: Node, y: Node, pointer: string, n: Node)
    requires Self(pointer) in Parts(spec) && Trimmed(pointer) && pointer[0] == '/'
    requires Pointer.Selected(spec, pointer) == Some(n) && Raws(n) == {}
    ensures Gives(spec, y, Self(pointer), n)
  {
    hide ParseRef, Load, Resolve, Raws, Pointer.Selected, Trimmed;
    NetClosed(Beside(spec, y));
    PartRaws(spec, Self(pointer));
    RawOf(Self(pointer));
    SelfTarget(spec, y, pointer);
    LoadSelf(spec, y, pointer);
    IncludeOfClean(NetOf(Beside(spec, y)), Self(pointer).value, ROOT, [ROOT], Target(ROOT, pointer));
  }

  lemma ComposedTo(spec: Node, y: Node, values: seq<Node>)
    requires !IsInclude(spec) && |values| == |Parts(spec)|
    requires forall k :: 0 <= k < |values| ==> Gives(spec, y, Parts(spec)[k], values[k])
    ensures Compose(Beside(spec, y), ROOT) == Ok(Rebuilt(spec, values))
  {
    NetClosed(Beside(spec, y));
    forall k | 0 <= k < |values|
      ensures Raws(Parts(spec)[k]) <= Raws(spec)
      ensures Resolve(NetOf(Beside(spec, y)), Parts(spec)[k], ROOT, [ROOT]) == Ok(values[k])
    {
      assert Gives(spec, y, Parts(spec)[k], values[k]);
    }
    ResolvedTo(NetOf(Beside(spec, y)), Parts(spec), values, ROOT, [ROOT]);
  }

  // ---------------------------------------------------------------- mappings with one reference to the specification

  /** Parts other than that reference: the include of the file, and scalars. */
  predicate Simple(part: Node, value: Node, y: Node) {
    if part == WHOLE then value == y else value == part && part.Scalar? && part.tag == ""
  }

  lemma WalkSimple(parts: seq<Node>, values: seq<Node>, y: Node, k: nat)
    requires |parts| % 2 == 0 && k < |values| <= |parts| && Simple(parts[k], values[k], y) && Raws(y) == {}
    ensures |Parts(Doc(parts))| == |parts| && Walked(Beside(Doc(parts), y), ROOT, Doc(parts), values, k)
  {
    hide Walk, Spot, Fits, Fill, Beside, Doc;
    DocParts(parts);
    DocSpot(parts, values, k);
    if parts[k] == WHOLE {
      WalkWhole(Doc(parts), y, Spot(Doc(parts), values, k));
    } else {
      KeyStays(Beside(Doc(parts), y), ROOT, Spot(Doc(parts), values, k), parts[k].value);
    }
  }

  /** The reference sees a tree in which the parts before it have their values. */
  lemma WalkReference(parts: seq<Node>, values: seq<Node>, y: Node, pointer: string, m: nat)
    requires |parts| % 2 == 0 && m <= |values| <= |parts| && m < |parts| && parts[m] == Self(pointer)
    requires Trimmed(pointer) && pointer[0] == '/'
    requires var found := Pointer.Selected(Doc(values[..m] + [Self(pointer)] + parts[m + 1..]), pointer);
             found.Some? ==> Raws(found.value) == {}
    ensures |Parts(Doc(parts))| == |parts| && Parts(Doc(parts)) == parts
    ensures var found := Pointer.Selected(Doc(values[..m] + [Self(pointer)] + parts[m + 1..]), pointer);
            Walk(Beside(Doc(parts), y), ROOT, Spot(Doc(parts), values, m), parts[m]) ==
            if found.Some? then Ok(found.value) else Err(BadFragment(Target(ROOT, pointer)))
  {
    hide Walk, Spot, Fits, Fill, Beside, Doc, Self, Pointer.Selected, Raws, Trimmed;
    DocParts(parts);
    DocSpot(parts, values, m);
    WalkSelf(Doc(parts), y, Spot(Doc(parts), values, m), pointer,
             Doc(values[..m] + [Self(pointer)] + parts[m + 1..]));
  }

  lemma RootOf(spec: Node, y: Node)
    ensures ROOT in Beside(spec, y).files && Beside(spec, y).files[ROOT] == spec
  {
  }

  lemma InPlaceGives(parts: seq<Node>, values: seq<Node>, y: Node, pointer: string)
    requires |parts| % 2 == 0 && 0 < |parts| == |values| && Raws(y) == {}
    requires var m := |parts| - 1;
             && parts[m] == Self(pointer) && Trimmed(pointer) && pointer[0] == '/' && Raws(values[m]) == {}
             && (forall k :: 0 <= k < m ==> Simple(parts[k], values[k], y))
             && Pointer.Selected(Doc(values[..m] + [Self(pointer)]), pointer) == Some(values[m])
    ensures ComposeInPlace(Beside(Doc(parts), y), ROOT) == Ok(Doc(values))
  {
    hide Walk, Spot, Beside, Doc, Self, Pointer.Selected, Raws, Trimmed, Simple;
    var n, m := Doc(parts), |parts| - 1;
    DocParts(parts);
    assert values[..m] + [Self(pointer)] + parts[m + 1..] == values[..m] + [Self(pointer)];
    WalkReference(parts, values, y, pointer, m);
    forall k | 0 <= k < |values| ensures Walked(Beside(n, y), ROOT, n, values, k) {
      if k < m { WalkSimple(parts, values, y, k); }
    }
    DocIsMapping(parts);
    WalkedTo(Beside(n, y), ROOT, n, values);
    RootOf(n, y);
  }

  lemma DocIsMapping(parts: seq<Node>)
    ensures Doc(parts).Mapping?
  {
  }

  lemma InPlaceRefuses(parts: seq<Node>, values: seq<Node>, y: Node, pointer: string)
    requires |parts| % 2 == 0 && |values| < |parts| && Raws(y) == {}
    requires var m := |values|;
             && parts[m] == Self(pointer) && Trimmed(pointer) && pointer[0] == '/'
             && (forall k :: 0 <= k < m ==> Simple(parts[k], values[k], y))
             && Pointer.Selected(Doc(values + [Self(pointer)] + parts[m + 1..]), pointer) == None
    ensures ComposeInPlace(Beside(Doc(parts), y), ROOT) == Err(BadFragment(Target(ROOT, pointer)))
  {
    hide Walk, Spot, Beside, Doc, Self, Pointer.Selected, Raws, Trimmed, Simple;
    var n, m := Doc(parts), |values|;
    DocParts(parts);
    assert values[..m] == values;
    WalkReference(parts, values, y, pointer, m);
    forall k | 0 <= k < m ensures Walked(Beside(n, y), ROOT, n, values, k) {
      WalkSimple(parts, values, y, k);
    }
    DocIsMapping(parts);
    WalkStops(Beside(n, y), ROOT, n, values, BadFragment(Target(ROOT, pointer)));
    RootOf(n, y);
  }

  lemma UnchangingGives(parts: seq<Node>, values: seq<Node>, y: Node, pointer: string)
    requires |parts| % 2 == 0 && 0 < |parts| == |values| && Raws(y) == {}
    requires var m := |parts| - 1;
             && parts[m] == Self(pointer) && Trimmed(pointer) && pointer[0] == '/' && Raws(values[m]) == {}
             && (forall k :: 0 <= k < m ==> Simple(parts[k], values[k], y))
             && Pointer.Selected(Doc(parts), pointer) == Some(values[m])
    ensures Compose(Beside(Doc(parts), y), ROOT) == Ok(Doc(values))
  {
    hide Beside, Doc, Self, Pointer.Selected, Raws, Trimmed, Gives;
    var n, m := Doc(parts), |parts| - 1;
    DocParts(parts);
    forall k | 0 <= k < |values| ensures Gives(n, y, parts[k], values[k]) {
      if k == m {
        GivesSelf(n, y, pointer, values[m]);
      } else if parts[k] == WHOLE {
        GivesWhole(n, y);
      } else {
        GivesKey(n, y, parts[k].value);
      }
    }
    DocIsMapping(parts);
    ComposedTo(n, y, values);
  }

  // ---------------------------------------------------------------- a fragment that appears on the way

  const Y := Doc([Key("k"), Key("v")])

  lemma YIsPlain()
    ensures Raws(Y) == {} && Pointer.PointerStep(Y, "k") == Some(Key("v"))
  {
    DocParts([Key("k"), Key("v")]);
    assert [Key("k"), Key("v")][1..] == [Key("v")] && [Key("v")][1..] == [];
    DocStep([Key("k"), Key("v")], "k", 0);
  }

  lemma OneToken(n: Node, c: char)
    requires c != '~' && c != '/'
    ensures Pointer.Selected(n, ['/', c]) == Pointer.PointerStep(n, [c])
  {
    assert Pointer.Escape([c]) == [c] && [[c]][1..] == [];
    assert Pointer.Render([[c]]) == ['/', c];
    Pointer.SelectFollowsTokens(n, [[c]]);
  }

  lemma TwoTokens(n: Node)
    ensures Pointer.Selected(n, "/a/k") == Pointer.Follow(n, ["a", "k"])
  {
    assert Pointer.Escape("a") == "a" && Pointer.Escape("k") == "k";
    assert ["a", "k"][1..] == ["k"] && ["k"][1..] == [];
    assert Pointer.Render(["k"]) == "/k" && Pointer.Render(["a", "k"]) == "/a/k";
    Pointer.SelectFollowsTokens(n, ["a", "k"]);
  }

  lemma ThroughA(n: Node, a: Node)
    requires Pointer.PointerStep(n, "a") == Some(a)
    ensures Pointer.Selected(n, "/a/k") == Pointer.PointerStep(a, "k")
  {
    TwoTokens(n);
    assert ["a", "k"][1..] == ["k"] && ["k"][1..] == [];
    assert Pointer.Follow(a, ["k"]) == Pointer.PointerStep(a, "k");
  }

  lemma KeyIsPlain(name: string)
    ensures Raws(Key(name)) == {}
  {
  }

  lemma PointersTrimmed()
    ensures Trimmed("/a/k") && Trimmed("/y") && Trimmed("/a")
  {
  }

  lemma FragmentSecond()
    ensures ComposeInPlace(Beside(Doc([Key("a"), WHOLE, Key("b"), Self("/a/k")]), Y), ROOT) ==
      Ok(Doc([Key("a"), Y, Key("b"), Key("v")]))
  {
    hide Walk, Pointer.Selected, Doc, Beside, Trimmed, Raws;
    var parts, values := [Key("a"), WHOLE, Key("b"), Self("/a/k")], [Key("a"), Y, Key("b"), Key("v")];
    var last := [Key("a"), Y, Key("b"), Self("/a/k")];
    YIsPlain();
    KeyIsPlain("v");
    PointersTrimmed();
    DocStep(last, "a", 0);
    ThroughA(Doc(last), Y);
    assert values[..3] + [Self("/a/k")] == last;
    InPlaceGives(parts, values, Y, "/a/k");
  }

  lemma FragmentFirst()
    ensures ComposeInPlace(Beside(Doc([Key("b"), Self("/a/k"), Key("a"), WHOLE]), Y), ROOT) ==
      Err(BadFragment(Target(ROOT, "/a/k")))
  {
    hide Walk, Pointer.Selected, Doc, Beside, Trimmed, Raws;
    var parts := [Key("b"), Self("/a/k"), Key("a"), WHOLE];
    YIsPlain();
    PointersTrimmed();
    DocStep(parts, "a", 1);
    ThroughA(Doc(parts), WHOLE);
    assert [Key("b")] + [Self("/a/k")] + parts[2..] == parts;
    InPlaceRefuses(parts, [Key("b")], Y, "/a/k");
  }

  /**
    A specification that names `/a/k` of itself, where `a` is an include. With `a` first the fragment has appeared
    by the time it is read; with `a` second composition fails, as it would from unchanging files.
   */
  lemma OrderMatters()
    ensures ComposeInPlace(Beside(Doc([Key("a"), WHOLE, Key("b"), Self("/a/k")]), Y), ROOT) ==
      Ok(Doc([Key("a"), Y, Key("b"), Key("v")]))
    ensures ComposeInPlace(Beside(Doc([Key("b"), Self("/a/k"), Key("a"), WHOLE]), Y), ROOT) ==
      Err(BadFragment(Target(ROOT, "/a/k")))
  {
    FragmentSecond();
    FragmentFirst();
  }

  // ---------------------------------------------------------------- keys that are includes

  const BY_KEY := [WHOLE, Key("v"), Key("b"), Self("/y")]

  lemma KeyGone()
    ensures ComposeInPlace(Beside(Doc(BY_KEY), Y), ROOT) == Err(BadFragment(Target(ROOT, "/y")))
  {
    hide Walk, Pointer.Selected, Doc, Beside, Trimmed, Raws;
    var values, last := [Y, Key("v"), Key("b")], [Y, Key("v"), Key("b"), Self("/y")];
    YIsPlain();
    PointersTrimmed();
    DocIsMapping([Key("k"), Key("v")]);
    DocNoStep(last, "y");
    OneToken(Doc(last), 'y');
    assert values + [Self("/y")] + BY_KEY[4..] == last;
    InPlaceRefuses(BY_KEY, values, Y, "/y");
  }

  lemma KeyThere()
    ensures Compose(Beside(Doc(BY_KEY), Y), ROOT) == Ok(Doc([Y, Key("v"), Key("b"), Key("v")]))
  {
    hide Pointer.Selected, Doc, Beside, Trimmed, Raws;
    YIsPlain();
    KeyIsPlain("v");
    PointersTrimmed();
    DocStep(BY_KEY, "y", 0);
    OneToken(Doc(BY_KEY), 'y');
    UnchangingGives(BY_KEY, [Y, Key("v"), Key("b"), Key("v")], Y, "/y");
  }

  /**
    An include as a key that is written `y`, and a reference to the fragment `/y`. The key is gone by the time it is
    looked up, so composition in place fails although composition from unchanging files succeeds.
   */
  lemma KeysMove()
    ensures Compose(Beside(Doc(BY_KEY), Y), ROOT) == Ok(Doc([Y, Key("v"), Key("b"), Key("v")]))
    ensures ComposeInPlace(Beside(Doc(BY_KEY), Y), ROOT) == Err(BadFragment(Target(ROOT, "/y")))
  {
    KeyThere();
    KeyGone();
  }

  const SHADOWED := [WHOLE, Key("1"), Key("a"), Key("2"), Key("b"), Self("/a")]

  lemma KeyShadows()
    ensures ComposeInPlace(Beside(Doc(SHADOWED), Key("a")), ROOT) ==
      Ok(Doc([Key("a"), Key("1"), Key("a"), Key("2"), Key("b"), Key("1")]))
  {
    hide Walk, Pointer.Selected, Doc, Beside, Trimmed, Raws;
    var values := [Key("a"), Key("1"), Key("a"), Key("2"), Key("b"), Key("1")];
    var last := [Key("a"), Key("1"), Key("a"), Key("2"), Key("b"), Self("/a")];
    KeyIsPlain("a");
    KeyIsPlain("1");
    PointersTrimmed();
    DocStep(last, "a", 0);
    OneToken(Doc(last), 'a');
    assert values[..5] + [Self("/a")] == last;
    InPlaceGives(SHADOWED, values, Key("a"), "/a");
  }

  lemma KeyUnchanged()
    ensures Compose(Beside(Doc(SHADOWED), Key("a")), ROOT) ==
      Ok(Doc([Key("a"), Key("1"), Key("a"), Key("2"), Key("b"), Key("2")]))
  {
    hide Pointer.Selected, Doc, Beside, Trimmed, Raws;
    KeyIsPlain("a");
    KeyIsPlain("2");
    PointersTrimmed();
    DocStep(SHADOWED, "a", 1);
    OneToken(Doc(SHADOWED), 'a');
    UnchangingGives(SHADOWED, [Key("a"), Key("1"), Key("a"), Key("2"), Key("b"), Key("2")], Key("a"), "/a");
  }

  /**
    An include as a key that turns into `a` in front of the key `a`. The fragment `/a` is then another one: both
    compositions succeed, and `b` is `2` in one and `1` in the other.
   */
  lemma KeysShadow()
    ensures Compose(Beside(Doc(SHADOWED), Key("a")), ROOT) ==
      Ok(Doc([Key("a"), Key("1"), Key("a"), Key("2"), Key("b"), Key("2")]))
    ensures ComposeInPlace(Beside(Doc(SHADOWED), Key("a")), ROOT) ==
      Ok(Doc([Key("a"), Key("1"), Key("a"), Key("2"), Key("b"), Key("1")]))
    ensures ComposeInPlace(Beside(Doc(SHADOWED), Key("a")), ROOT) != Compose(Beside(Doc(SHADOWED), Key("a")), ROOT)
  {
    KeyUnchanged();
    KeyShadows();
    PairedAt([Key("a"), Key("1"), Key("a"), Key("2"), Key("b"), Key("1")], 2);
    PairedAt([Key("a"), Key("1"), Key("a"), Key("2"), Key("b"), Key("2")], 2);
  }
}
