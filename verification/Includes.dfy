/** Resolving `!include` macros: the plain substitution, the resolver that detects cycles, and their agreement. */
module Includes {
  import opened Wrappers
  import opened SpecTree
  import Pointer
  import Text

  const INCLUDE := "!include"

  /** The readable, well-formed files, and how a path written in one file names another. */
  datatype Source = Source(files: map<string, Node>, resolve: (string, string) -> Option<string>)

  datatype Target = Target(file: string, pointer: string)

  datatype Failure =
    | BadReference(raw: string)
    | Unreadable(file: string)
    | BadFragment(target: Target)
    | Cycle(ids: seq<string>)

  datatype Result<T> = Ok(value: T) | Err(failure: Failure)

  predicate IsInclude(node: Node) {
    node.Scalar? && node.tag == INCLUDE
  }

  // ---------------------------------------------------------------- references

  predicate IsSpace(c: char) {
    || c == ' ' || ('\U{9}' <= c <= '\U{D}') || c == '\U{85}' || c == '\U{A0}' || c == '\U{1680}'
    || ('\U{2000}' <= c <= '\U{200A}') || c == '\U{2028}' || c == '\U{2029}'
    || c == '\U{202F}' || c == '\U{205F}' || c == '\U{3000}'
  }

  function TrimSpace(s: string): string {
    if s != "" && IsSpace(s[0]) then TrimSpace(s[1..])
    else if s != "" && IsSpace(s[|s| - 1]) then TrimSpace(s[..|s| - 1])
    else s
  }

  /** What an include in the file `path` refers to. */
  function ParseRef(src: Source, path: string, raw: string): (r: Option<Target>)
    ensures r.Some? && r.value.pointer != "" ==> r.value.pointer[0] == '/'
  {
    var value := TrimSpace(raw);
    var hash := Text.First(value, '#');
    var pathPart := if hash < |value| then TrimSpace(value[..hash]) else value;
    var pointer := if hash < |value| then TrimSpace(value[hash + 1..]) else "";
    if value == "" || pathPart == "" then None
    else match src.resolve(pathPart, path)
         case None => None
         case Some(file) => if pointer != "" && pointer[0] != '/' then None else Some(Target(file, pointer))
  }

  /** Text without white space at its ends. */
  predicate Trimmed(s: string) {
    s != "" && !IsSpace(s[0]) && !IsSpace(s[|s| - 1])
  }

  predicate AllSpace(s: string) {
    forall i :: 0 <= i < |s| ==> IsSpace(s[i])
  }

  lemma {:induction false} TrimPadded(before: string, s: string, after: string)
    requires AllSpace(before) && AllSpace(after) && (s == "" || Trimmed(s))
    ensures TrimSpace(before + s + after) == s
    decreases |before| + |after|
  {
    var text := before + s + after;
    if before != "" {
      assert text[1..] == before[1..] + s + after;
      TrimPadded(before[1..], s, after);
    } else if after != "" && s == "" {
      assert text == after && text[1..] == after[1..] + s + "";
      TrimPadded(after[1..], s, "");
    } else if after != "" {
      assert text[0] == s[0] && text[..|text| - 1] == before + s + after[..|after| - 1];
      TrimPadded(before, s, after[..|after| - 1]);
    } else {
      assert text == s;
    }
  }

  /** What a path and a fragment refer to; nothing for an empty or unresolvable path and a fragment without slash. */
  function Reference(src: Source, path: string, part: string, pointer: string): Option<Target> {
    if part == "" || (pointer != "" && pointer[0] != '/') || src.resolve(part, path).None? then None
    else Some(Target(src.resolve(part, path).value, pointer))
  }

  /** A piece of a reference and the white space on one side of it, which goes with an empty piece. */
  function Padded(s: string, pad: string, behind: bool): string {
    if s == "" then "" else if behind then s + pad else pad + s
  }

  lemma ReadsPath(src: Source, path: string, before: string, part: string, after: string)
    requires AllSpace(before) && AllSpace(after) && '#' !in part && (part == "" || Trimmed(part))
    ensures ParseRef(src, path, before + part + after) == Reference(src, path, part, "")
  {
    TrimPadded(before, part, after);
    Text.FirstAt(part, '#', "");
  }

  function Core(part: string, after: string, gap: string, pointer: string): string {
    Padded(part, after, true) + "#" + Padded(pointer, gap, false)
  }

  lemma ReadsHalves(src: Source, path: string, left: string, right: string)
    requires '#' !in left && TrimSpace(left + "#" + right) == left + "#" + right
    ensures ParseRef(src, path, left + "#" + right) == Reference(src, path, TrimSpace(left), TrimSpace(right))
  {
    var core := left + "#" + right;
    assert core == left + ['#'] + right;
    Text.FirstAt(left, '#', right);
    assert core[..|left|] == left && core[|left| + 1..] == right;
  }

  lemma TrimPieces(part: string, after: string, gap: string, pointer: string)
    requires AllSpace(after) && AllSpace(gap) && (part == "" || Trimmed(part)) && (pointer == "" || Trimmed(pointer))
    ensures TrimSpace(Padded(part, after, true)) == part && TrimSpace(Padded(pointer, gap, false)) == pointer
  {
    hide TrimSpace;
    TrimPadded("", part, if part == "" then "" else after);
    assert "" + part + (if part == "" then "" else after) == Padded(part, after, true);
    TrimPadded(if pointer == "" then "" else gap, pointer, "");
    assert (if pointer == "" then "" else gap) + pointer + "" == Padded(pointer, gap, false);
  }

  lemma CoreTrimmed(part: string, after: string, gap: string, pointer: string)
    requires (part == "" || Trimmed(part)) && (pointer == "" || Trimmed(pointer))
    ensures Trimmed(Core(part, after, gap, pointer))
  {
    var core := Core(part, after, gap, pointer);
    assert core[0] == if part == "" then '#' else part[0];
    assert core[|core| - 1] == if pointer == "" then '#' else pointer[|pointer| - 1];
  }

  lemma Regrouped(before: string, part: string, after: string, gap: string, pointer: string, end: string)
    ensures before + part + after + "#" + gap + pointer + end ==
      (if part == "" then before + after else before) + Core(part, after, gap, pointer)
      + if pointer == "" then gap + end else end
  {
    var left, right := before + part + after, gap + pointer + end;
    assert before + part + after + "#" + gap + pointer + end == left + "#" + right;
    assert left == (if part == "" then before + after else before) + Padded(part, after, true);
    assert right == Padded(pointer, gap, false) + if pointer == "" then gap + end else end;
  }

  lemma SpaceJoin(a: string, b: string)
    requires AllSpace(a) && AllSpace(b)
    ensures AllSpace(a + b)
  {
  }

  lemma NoSpace()
    ensures AllSpace("")
  {
  }

  lemma TrimOuter(before: string, part: string, after: string, gap: string, pointer: string, end: string)
    requires AllSpace(before) && AllSpace(after) && AllSpace(gap) && AllSpace(end)
    requires (part == "" || Trimmed(part)) && (pointer == "" || Trimmed(pointer))
    ensures TrimSpace(before + part + after + "#" + gap + pointer + end) == Core(part, after, gap, pointer)
    ensures TrimSpace(Core(part, after, gap, pointer)) == Core(part, after, gap, pointer)
  {
    hide TrimSpace, Core, AllSpace, Trimmed;
    CoreTrimmed(part, after, gap, pointer);
    SpaceJoin(before, after);
    SpaceJoin(gap, end);
    NoSpace();
    Regrouped(before, part, after, gap, pointer, end);
    var core := Core(part, after, gap, pointer);
    TrimPadded(if part == "" then before + after else before, core, if pointer == "" then gap + end else end);
    TrimPadded("", core, "");
    assert "" + core + "" == core;
  }

  /**
    A path, or a path and a fragment behind a hash, is read whatever white space is around them; an empty fragment
    is none.
   */
  lemma ReadsReference(src: Source, path: string, before: string, part: string, after: string, gap: string,
                       pointer: string, end: string)
    requires AllSpace(before) && AllSpace(after) && AllSpace(gap) && AllSpace(end)
    requires '#' !in part && (part == "" || Trimmed(part)) && (pointer == "" || Trimmed(pointer))
    ensures ParseRef(src, path, before + part + after) == Reference(src, path, part, "")
    ensures ParseRef(src, path, before + part + after + "#" + gap + pointer + end) ==
      Reference(src, path, part, pointer)
  {
    hide ParseRef, TrimSpace;
    ReadsPath(src, path, before, part, after);
    TrimOuter(before, part, after, gap, pointer, end);
    TrimPieces(part, after, gap, pointer);
    ReadsHalves(src, path, Padded(part, after, true), Padded(pointer, gap, false));
    TrimmedFirst(src, path, before + part + after + "#" + gap + pointer + end);
  }

  lemma {:induction false} TrimSplits(s: string) returns (before: string, after: string)
    ensures s == before + TrimSpace(s) + after && AllSpace(before) && AllSpace(after)
    ensures TrimSpace(s) == "" || Trimmed(TrimSpace(s))
    decreases |s|
  {
    hide IsSpace, AllSpace;
    if s != "" && IsSpace(s[0]) {
      before, after := TrimSplits(s[1..]);
      assert s == [s[0]] + s[1..] == [s[0]] + (before + TrimSpace(s) + after);
      OneSpace(s[0]);
      SpaceJoin([s[0]], before);
      before := [s[0]] + before;
    } else if s != "" && IsSpace(s[|s| - 1]) {
      var last := s[|s| - 1];
      before, after := TrimSplits(s[..|s| - 1]);
      assert s == s[..|s| - 1] + [last] == (before + TrimSpace(s) + after) + [last];
      OneSpace(last);
      SpaceJoin(after, [last]);
      after := after + [last];
    } else {
      NoSpace();
      before, after := "", "";
    }
  }

  lemma OneSpace(c: char)
    requires IsSpace(c)
    ensures AllSpace([c])
  {
  }

  lemma MiddleOf(s: string, before: string, part: string, after: string, c: char)
    requires s == before + part + after && c !in s
    ensures c !in part
  {
    assert forall k :: 0 <= k < |part| ==> part[k] == s[|before| + k];
  }

  /** Every text has the form that `ReadsReference` reads. */
  lemma EveryReference(raw: string)
    returns (before: string, part: string, after: string, gap: string, pointer: string, end: string)
    ensures AllSpace(before) && AllSpace(after) && AllSpace(gap) && AllSpace(end)
    ensures '#' !in part && (part == "" || Trimmed(part)) && (pointer == "" || Trimmed(pointer))
    ensures raw == before + part + after || raw == before + part + after + "#" + gap + pointer + end
  {
    hide TrimSpace, AllSpace, Trimmed;
    var i := Text.First(raw, '#');
    var left := raw[..i];
    part := TrimSpace(left);
    before, after := TrimSplits(left);
    MiddleOf(left, before, part, after, '#');
    gap, pointer, end := "", "", "";
    NoSpace();
    if i < |raw| {
      var right := raw[i + 1..];
      gap, end := TrimSplits(right);
      pointer := TrimSpace(right);
      assert raw == left + "#" + right;
      assert left + "#" + (gap + pointer + end) == left + "#" + gap + pointer + end;
    }
  }

  lemma TrimmedFirst(src: Source, path: string, raw: string)
    requires TrimSpace(TrimSpace(raw)) == TrimSpace(raw)
    ensures ParseRef(src, path, raw) == ParseRef(src, path, TrimSpace(raw))
  {
  }

  function Id(t: Target): string {
    if t.pointer == "" then t.file else t.file + "#" + t.pointer
  }

  function Load(src: Source, t: Target): Result<Node> {
    if t.file !in src.files then Err(Unreadable(t.file))
    else match Pointer.Selected(src.files[t.file], t.pointer)
         case None => Err(BadFragment(t))
         case Some(node) => Ok(node)
  }

  // ---------------------------------------------------------------- the references in a tree

  function Raws(node: Node): set<string>
    decreases Size(node), 0
  {
    PartsSmaller(node);
    if IsInclude(node) then {node.value} else RawsOf(Parts(node))
  }

  function RawsOf(nodes: seq<Node>): set<string>
    decreases SizeOfItems(nodes), |nodes|
  {
    if nodes == [] then {} else Raws(nodes[0]) + RawsOf(nodes[1..])
  }

  lemma {:induction false} RawsOfPart(nodes: seq<Node>, part: Node)
    requires part in nodes
    ensures Raws(part) <= RawsOf(nodes)
  {
    if part != nodes[0] { RawsOfPart(nodes[1..], part); }
  }

  lemma {:induction false} FollowRaws(node: Node, tokens: seq<string>)
    ensures Pointer.Follow(node, tokens).Some? ==> Raws(Pointer.Follow(node, tokens).value) <= Raws(node)
    decreases |tokens|
  {
    if tokens != [] {
      var next := Pointer.PointerStep(node, tokens[0]);
      if next.Some? {
        if node.Mapping? { FlatHas(node.entries, KeyIndex(node.entries, tokens[0])); }
        assert next.value in Parts(node);
        RawsOfPart(Parts(node), next.value);
        FollowRaws(next.value, tokens[1..]);
      }
    }
  }

  /** What a reference selects holds only references of the file it is in. */
  lemma LoadRaws(src: Source, t: Target)
    ensures Load(src, t).Ok? ==> Raws(Load(src, t).value) <= Raws(src.files[t.file])
  {
    if t.file in src.files && t.pointer != "" {
      FollowRaws(src.files[t.file], Pointer.Decoded(Text.Split(Pointer.TrimSlash(t.pointer), '/')));
    }
  }

  // ---------------------------------------------------------------- the include graph

  /** Documents, what a reference in one of them means, and what a target selects. */
  datatype Net = Net(docs: map<string, Node>, ref: (string, string) -> Option<Target>, load: Target -> Result<Node>)

  /** What a target selects is in a document, and so are its references; loading itself meets no cycle. */
  ghost predicate Closed(net: Net) {
    forall t ::
      if net.load(t).Ok? then t.file in net.docs && Raws(net.load(t).value) <= Raws(net.docs[t.file])
      else !net.load(t).failure.Cycle?
  }

  function NetOf(src: Source): Net {
    Net(src.files, (path, raw) => ParseRef(src, path, raw), t => Load(src, t))
  }

  lemma NetClosed(src: Source)
    ensures Closed(NetOf(src))
  {
    forall t: Target ensures
      if Load(src, t).Ok? then t.file in src.files && Raws(Load(src, t).value) <= Raws(src.files[t.file])
      else !Load(src, t).failure.Cycle?
    {
      LoadRaws(src, t);
    }
  }

  // ---------------------------------------------------------------- plain substitution

  /**
    The tree with every include replaced by what it refers to, its own includes replaced in turn, at most `depth`
    deep. Files are read afresh each time and nothing watches for cycles.
   */
  function Expand(net: Net, node: Node, path: string, depth: nat): Option<Node>
    decreases depth, Size(node), 0
  {
    PartsSmaller(node);
    if IsInclude(node) then
      match net.ref(path, node.value)
      case None => None
      case Some(t) => if depth == 0 || net.load(t).Err? then None else Expand(net, net.load(t).value, t.file, depth - 1)
    else
      match ExpandAll(net, Parts(node), path, depth)
      case None => None
      case Some(parts) => Some(Rebuilt(node, parts))
  }

  function ExpandAll(net: Net, nodes: seq<Node>, path: string, depth: nat): Option<seq<Node>>
    decreases depth, SizeOfItems(nodes), |nodes|
  {
    if nodes == [] then Some([])
    else match Expand(net, nodes[0], path, depth)
         case None => None
         case Some(first) =>
           match ExpandAll(net, nodes[1..], path, depth)
           case None => None
           case Some(rest) => Some([first] + rest)
  }

  // ---------------------------------------------------------------- the resolver

  /** The ids of everything that any file refers to. */
  function Universe(net: Net): set<string> {
    set p, raw | p in net.docs && raw in Raws(net.docs[p]) && net.ref(p, raw).Some? :: Id(net.ref(p, raw).value)
  }

  function Unvisited(net: Net, stack: seq<string>): set<string> {
    set id | id in Universe(net) && id !in stack
  }

  lemma FewerUnvisited(net: Net, stack: seq<string>, id: string)
    requires id in Universe(net) && id !in stack
    ensures Unvisited(net, stack + [id]) == Unvisited(net, stack) - {id}
    ensures |Unvisited(net, stack + [id])| < |Unvisited(net, stack)|
  {
    assert Unvisited(net, stack + [id]) == Unvisited(net, stack) - {id};
  }

  function FirstOf(stack: seq<string>, id: string): (i: nat)
    ensures i <= |stack| && (i < |stack| ==> stack[i] == id) && forall k :: 0 <= k < i ==> stack[k] != id
  {
    if stack == [] || stack[0] == id then 0 else 1 + FirstOf(stack[1..], id)
  }

  /** The reported chain: from the first occurrence of the id on the stack back to it. */
  function CycleOf(stack: seq<string>, id: string): seq<string> {
    stack[FirstOf(stack, id)..] + [id]
  }

  /** Whether `node` may stand in the file `path`: its references are among that file's. */
  predicate PartOf(net: Net, nodes: seq<Node>, path: string) {
    path in net.docs && RawsOf(nodes) <= Raws(net.docs[path])
  }

  /** Resolution of a list of nodes, left to right; the first failure counts. */
  function ResolveAll(net: Net, nodes: seq<Node>, path: string, stack: seq<string>): Result<seq<Node>>
    requires Closed(net) && PartOf(net, nodes, path)
    decreases |Unvisited(net, stack)|, SizeOfItems(nodes), |nodes|
  {
    if nodes == [] then Ok([])
    else match Resolve(net, nodes[0], path, stack)
         case Err(failure) => Err(failure)
         case Ok(first) =>
           match ResolveAll(net, nodes[1..], path, stack)
           case Err(failure) => Err(failure)
           case Ok(rest) => Ok([first] + rest)
  }

  function Resolve(net: Net, node: Node, path: string, stack: seq<string>): Result<Node>
    requires Closed(net) && path in net.docs && Raws(node) <= Raws(net.docs[path])
    decreases |Unvisited(net, stack)|, Size(node), 0
  {
    PartsSmaller(node);
    if IsInclude(node) then
      match net.ref(path, node.value)
      case None => Err(BadReference(node.value))
      case Some(t) =>
        if Id(t) in stack then Err(Cycle(CycleOf(stack, Id(t))))
        else match net.load(t)
             case Err(failure) => Err(failure)
             case Ok(selected) =>
               FewerUnvisited(net, stack, Id(t));
               Resolve(net, selected, t.file, stack + [Id(t)])
    else
      match ResolveAll(net, Parts(node), path, stack)
      case Err(failure) => Err(failure)
      case Ok(parts) => Ok(Rebuilt(node, parts))
  }

  // ---------------------------------------------------------------- the resolver part by part

  method IncludeCycle(stack: seq<string>, id: string) returns (cycle: seq<string>)
    ensures cycle == if id in stack then CycleOf(stack, id) else []
  {
    for i := 0 to |stack|
      invariant id !in stack[..i]
    {
      if stack[i] == id {
        assert forall k :: 0 <= k < i ==> stack[k] in stack[..i];
        assert FirstOf(stack, id) == i;
        return stack[i..] + [id];
      }
      assert stack[..i + 1] == stack[..i] + [stack[i]];
    }
    assert stack[..|stack|] == stack;
    return [];
  }

  function Prepended(done: seq<Node>, rest: Result<seq<Node>>): Result<seq<Node>> {
    match rest
    case Err(failure) => Err(failure)
    case Ok(nodes) => Ok(done + nodes)
  }

  lemma PrependedEmpty(rest: Result<seq<Node>>)
    ensures Prepended([], rest) == rest
  {
    if rest.Ok? { assert [] + rest.value == rest.value; }
  }

  lemma ResolveNext(net: Net, nodes: seq<Node>, path: string, stack: seq<string>, done: seq<Node>)
    requires Closed(net) && nodes != [] && PartOf(net, nodes, path)
    ensures PartOf(net, nodes[1..], path)
    ensures match Resolve(net, nodes[0], path, stack)
            case Err(failure) => Prepended(done, ResolveAll(net, nodes, path, stack)) == Err(failure)
            case Ok(first) => Prepended(done, ResolveAll(net, nodes, path, stack)) ==
                              Prepended(done + [first], ResolveAll(net, nodes[1..], path, stack))
  {
    var rest := ResolveAll(net, nodes[1..], path, stack);
    if Resolve(net, nodes[0], path, stack).Ok? && rest.Ok? {
      var first := Resolve(net, nodes[0], path, stack).value;
      assert done + ([first] + rest.value) == done + [first] + rest.value;
    }
  }
}
