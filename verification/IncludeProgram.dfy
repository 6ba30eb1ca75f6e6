/**
  The resolver on objects. Nodes are replaced in place, selected fragments are copied before they are resolved, and
  documents, the specification's own tree among them, are shared through a cache.
 */
module IncludeProgram {
  import opened Wrappers
  import opened SpecTree
  import opened Includes
  import opened IncludeTheorems
  import opened IncludeInPlace
  import Pointer
  import Text

  datatype Head = ScalarHead(tag: string, value: string) | SequenceHead | MappingHead

  function HeadOf(n: Node): Head {
    match n
    case Scalar(tag, value) => ScalarHead(tag, value)
    case Sequence(_) => SequenceHead
    case Mapping(_) => MappingHead
  }

  class Cell {
    var head: Head
    var content: seq<Cell>

    constructor (head: Head, content: seq<Cell>)
      ensures this.head == head && this.content == content
    {
      this.head := head;
      this.content := content;
    }
  }

  // ---------------------------------------------------------------- trees of cells

  /** How a tree lies in memory: a cell, the tree it stands for, and the shapes of the parts. */
  datatype Shape = Shape(cell: Cell, node: Node, kids: seq<Shape>)

  ghost function Cells(s: Shape): set<Cell> {
    {s.cell} + CellsOf(s.kids)
  }

  ghost function CellsOf(ss: seq<Shape>): set<Cell> {
    if ss == [] then {} else Cells(ss[0]) + CellsOf(ss[1..])
  }

  ghost function Nodes(ss: seq<Shape>): seq<Node> {
    seq(|ss|, i requires 0 <= i < |ss| => ss[i].node)
  }

  ghost function Roots(ss: seq<Shape>): seq<Cell> {
    seq(|ss|, i requires 0 <= i < |ss| => ss[i].cell)
  }

  /** The cells hold what the shape says. */
  ghost predicate Shows(s: Shape)
    reads Cells(s)
  {
    && s.cell.head == HeadOf(s.node) && s.cell.content == Roots(s.kids)
    && Parts(s.node) == Nodes(s.kids) && AllShow(s.kids)
  }

  ghost predicate AllShow(ss: seq<Shape>)
    reads CellsOf(ss)
  {
    ss != [] ==> Shows(ss[0]) && AllShow(ss[1..])
  }

  /** No cell occurs twice. */
  ghost predicate Apart(s: Shape) {
    s.cell !in CellsOf(s.kids) && AllApart(s.kids)
  }

  ghost predicate AllApart(ss: seq<Shape>) {
    ss != [] ==> Apart(ss[0]) && Cells(ss[0]) !! CellsOf(ss[1..]) && AllApart(ss[1..])
  }

  lemma {:induction false} CellsJoin(a: seq<Shape>, b: seq<Shape>)
    ensures CellsOf(a + b) == CellsOf(a) + CellsOf(b)
  {
    if a == [] {
      assert a + b == b;
    } else {
      CellsJoin(a[1..], b);
      assert (a + b)[1..] == a[1..] + b;
    }
  }

  lemma {:induction false} ShowJoin(a: seq<Shape>, b: seq<Shape>)
    ensures AllShow(a + b) <==> AllShow(a) && AllShow(b)
  {
    if a == [] {
      assert a + b == b;
    } else {
      ShowJoin(a[1..], b);
      assert (a + b)[1..] == a[1..] + b;
    }
  }

  lemma {:induction false} ApartJoin(a: seq<Shape>, b: seq<Shape>)
    ensures AllApart(a + b) <==> AllApart(a) && AllApart(b) && CellsOf(a) !! CellsOf(b)
  {
    if a == [] {
      assert a + b == b;
    } else {
      ApartJoin(a[1..], b);
      CellsJoin(a[1..], b);
      assert (a + b)[1..] == a[1..] + b;
    }
  }

  lemma OneOf(s: Shape)
    ensures CellsOf([s]) == Cells(s) && (AllApart([s]) <==> Apart(s))
    ensures Nodes([s]) == [s.node] && Roots([s]) == [s.cell]
  {
    assert [s][1..] == [];
  }

  lemma OneShows(s: Shape)
    ensures AllShow([s]) <==> Shows(s)
  {
    assert [s][1..] == [];
  }

  /** A list of shapes around the one at `i`. */
  lemma SplitAt(ss: seq<Shape>, i: nat)
    requires i < |ss|
    ensures ss == ss[..i] + ([ss[i]] + ss[i + 1..])
  {
  }

  lemma KidShows(ss: seq<Shape>, i: nat)
    requires i < |ss| && AllShow(ss)
    ensures Shows(ss[i]) && Cells(ss[i]) <= CellsOf(ss)
  {
    hide Shows, AllShow, Cells, CellsOf;
    SplitAt(ss, i);
    CellsJoin(ss[..i], [ss[i]] + ss[i + 1..]);
    CellsJoin([ss[i]], ss[i + 1..]);
    ShowJoin(ss[..i], [ss[i]] + ss[i + 1..]);
    ShowJoin([ss[i]], ss[i + 1..]);
    OneOf(ss[i]);
    OneShows(ss[i]);
  }

  /** The cells of a shape are there. */
  lemma {:induction false} CellsExist(s: Shape)
    ensures forall c :: c in Cells(s) ==> allocated(c)
  {
    CellsOfExist(s.kids);
  }

  lemma {:induction false} CellsOfExist(ss: seq<Shape>)
    ensures forall c :: c in CellsOf(ss) ==> allocated(c)
  {
    if ss != [] {
      CellsExist(ss[0]);
      CellsOfExist(ss[1..]);
    }
  }

  // ---------------------------------------------------------------- new trees

  /** A document read from a file: a tree of new cells. */
  method Parse(n: Node) returns (cell: Cell, ghost s: Shape)
    ensures Shows(s) && Apart(s) && s.cell == cell && s.node == n && fresh(Cells(s))
    decreases Size(n), 0
  {
    PartsSmaller(n);
    var content, kids := ParseAll(Parts(n));
    CellsOfExist(kids);
    cell := new Cell(HeadOf(n), content);
    s := Shape(cell, n, kids);
  }

  method ParseAll(nodes: seq<Node>) returns (content: seq<Cell>, ghost kids: seq<Shape>)
    ensures AllShow(kids) && AllApart(kids) && Roots(kids) == content && Nodes(kids) == nodes && fresh(CellsOf(kids))
    decreases SizeOfItems(nodes), |nodes|
  {
    if nodes == [] {
      return [], [];
    }
    var first, s := Parse(nodes[0]);
    CellsExist(s);
    var more, rest := ParseAll(nodes[1..]);
    content, kids := [first] + more, [s] + rest;
    assert kids[1..] == rest;
  }

  lemma AddKid(kids: seq<Shape>, p: Shape)
    requires AllShow(kids) && AllApart(kids) && Shows(p) && Apart(p) && CellsOf(kids) !! Cells(p)
    ensures AllShow(kids + [p]) && AllApart(kids + [p]) && CellsOf(kids + [p]) == CellsOf(kids) + Cells(p)
    ensures Nodes(kids + [p]) == Nodes(kids) + [p.node] && Roots(kids + [p]) == Roots(kids) + [p.cell]
  {
    ShowJoin(kids, [p]);
    ApartJoin(kids, [p]);
    CellsJoin(kids, [p]);
    OneOf(p);
    OneShows(p);
  }

  lemma KidsShape(cell: Cell, n: Node, kids: seq<Shape>)
    requires cell.head == HeadOf(n) && cell.content == Roots(kids) && Parts(n) == Nodes(kids)
    requires AllShow(kids) && AllApart(kids) && cell !in CellsOf(kids)
    ensures Shows(Shape(cell, n, kids)) && Apart(Shape(cell, n, kids))
    ensures Cells(Shape(cell, n, kids)) == {cell} + CellsOf(kids)
  {
  }

  lemma KidAt(s: Shape, i: nat)
    requires Shows(s) && i < |s.cell.content|
    ensures i < |s.kids| && s.kids[i].cell == s.cell.content[i] && s.kids[i].node == Parts(s.node)[i]
    ensures Shows(s.kids[i]) && Cells(s.kids[i]) <= Cells(s)
  {
    assert Parts(s.node)[i] == Nodes(s.kids)[i];
    KidShows(s.kids, i);
  }

  lemma NoKids()
    ensures AllShow([]) && AllApart([]) && CellsOf([]) == {} && Nodes([]) == [] && Roots([]) == []
  {
  }

  lemma RightLength(s: Shape)
    requires Shows(s)
    ensures s.cell.head == HeadOf(s.node) && |s.cell.content| == |Parts(s.node)|
  {
    assert |Roots(s.kids)| == |Nodes(s.kids)|;
  }

  /** A copy of a tree in new cells. */
  method CloneNode(cell: Cell, ghost s: Shape) returns (copy: Cell, ghost c: Shape)
    requires Shows(s) && s.cell == cell
    ensures Shows(c) && Apart(c) && c.cell == copy && c.node == s.node && fresh(Cells(c))
    decreases s
  {
    hide Shows, AllShow, Apart, AllApart, Cells, CellsOf;
    var content: seq<Cell> := [];
    ghost var kids: seq<Shape> := [];
    NoKids();
    RightLength(s);
    for i := 0 to |cell.content|
      invariant Shows(s) && |kids| == |content| == i && Roots(kids) == content && AllShow(kids) && AllApart(kids)
      invariant Nodes(kids) == Parts(s.node)[..i] && fresh(CellsOf(kids))
    {
      hide Roots, Nodes;
      KidAt(s, i);
      CellsOfExist(kids);
      CellsExist(s);
      var part, p := CloneNode(cell.content[i], s.kids[i]);
      AddKid(kids, p);
      content, kids := content + [part], kids + [p];
    }
    CellsOfExist(kids);
    copy := new Cell(cell.head, content);
    c := Shape(copy, s.node, kids);
    KidsShape(copy, s.node, kids);
  }

  // ---------------------------------------------------------------- fragments

  /** The tree below the cell that a step from `s` leads to. */
  ghost predicate Found(s: Shape, to: Option<Node>, cell: Option<Cell>, found: Shape)
    reads Cells(found)
  {
    && (cell.Some? <==> to.Some?)
    && (cell.Some? ==> Shows(found) && found.cell == cell.value && found.node == to.value && Cells(found) <= Cells(s))
  }

  lemma KidFound(s: Shape, i: nat)
    requires Shows(s) && i < |s.kids|
    ensures Found(s, Some(Parts(s.node)[i]), Some(s.cell.content[i]), s.kids[i])
  {
    KidAt(s, i);
  }

  lemma MappingParts(s: Shape, i: nat)
    requires Shows(s) && s.node.Mapping? && i < |s.node.entries|
    ensures |s.kids| == |s.cell.content| == 2 * |s.node.entries|
    ensures Parts(s.node)[2 * i] == s.node.entries[i].key && Parts(s.node)[2 * i + 1] == s.node.entries[i].value
    ensures s.cell.content[2 * i].head == HeadOf(s.node.entries[i].key)
  {
    FlatAt(s.node.entries, i);
    KidFound(s, 2 * i);
  }

  method PointerStep(cell: Cell, token: string, ghost s: Shape) returns (next: Option<Cell>, ghost found: Shape)
    requires Shows(s) && s.cell == cell
    ensures Found(s, Pointer.PointerStep(s.node, token), next, found)
  {
    next, found := None, s;
    if cell.head.MappingHead? {
      var i := 0;
      while 2 * i + 1 < |cell.content|
        invariant Shows(s) && i <= |s.node.entries| && |cell.content| == 2 * |s.node.entries|
        invariant forall k :: 0 <= k < i ==> !IsKey(s.node.entries[k].key, token)
      {
        MappingParts(s, i);
        var key := cell.content[2 * i];
        if key.head.ScalarHead? && key.head.value == token {
          KidFound(s, 2 * i + 1);
          return Some(cell.content[2 * i + 1]), s.kids[2 * i + 1];
        }
        i := i + 1;
      }
    } else if cell.head.SequenceHead? {
      var index := Pointer.Atoi(token);
      if index.Some? && 0 <= index.value < |cell.content| {
        KidFound(s, index.value);
        return Some(cell.content[index.value]), s.kids[index.value];
      }
    }
  }

  method SelectNode(root: Cell, pointer: string, ghost s: Shape) returns (r: Option<Cell>, ghost found: Shape)
    requires Shows(s) && s.cell == root
    ensures Found(s, Pointer.Selected(s.node, pointer), r, found)
  {
    var current := root;
    found := s;
    if pointer == "" {
      return Some(root), s;
    }
    var parts := Text.Split(Pointer.TrimSlash(pointer), '/');
    ghost var tokens := Pointer.Decoded(parts);
    for i := 0 to |parts|
      invariant Shows(found) && found.cell == current && Cells(found) <= Cells(s)
      invariant Pointer.Follow(found.node, tokens[i..]) == Pointer.Follow(s.node, tokens)
    {
      var part := Pointer.DecodePart(parts[i]);
      assert tokens[i..][0] == part && tokens[i..][1..] == tokens[i + 1..];
      var next;
      next, found := PointerStep(current, part, found);
      if next.None? {
        return None, s;
      }
      current := next.value;
    }
    return Some(current), found;
  }

  // ---------------------------------------------------------------- the rest of the specification

  /** The cells of a tree around a hole: those above it and the trees on its left and its right. */
  datatype Zipper = Bare | Under(up: Zipper, cell: Cell, node: Node, left: seq<Shape>, right: seq<Shape>)

  ghost function CellsAround(z: Zipper): set<Cell> {
    match z
    case Bare => {}
    case Under(up, cell, _, left, right) => CellsAround(up) + {cell} + CellsOf(left) + CellsOf(right)
  }

  /** The cells hold what the zipper says, with `hole` in the hole. */
  ghost predicate Around(z: Zipper, hole: Cell)
    reads CellsAround(z)
  {
    z.Under? ==>
      && z.cell.head == HeadOf(z.node) && z.cell.content == Roots(z.left) + [hole] + Roots(z.right)
      && |z.left| + 1 + |z.right| == |Parts(z.node)|
      && AllShow(z.left) && AllShow(z.right) && Around(z.up, z.cell)
  }

  /** The tree of the cell right above the hole, with `s` in the hole. */
  ghost function Above(z: Zipper, s: Shape): Shape
    requires z.Under?
  {
    Shape(z.cell, Rebuilt(z.node, Nodes(z.left) + [s.node] + Nodes(z.right)), z.left + [s] + z.right)
  }

  ghost function Plug(z: Zipper, s: Shape): Shape {
    if z.Bare? then s else Plug(z.up, Above(z, s))
  }

  ghost function PlaceOf(z: Zipper): Place {
    match z
    case Bare => Top
    case Under(up, _, node, left, right) => Below(PlaceOf(up), node, Nodes(left), Nodes(right))
  }

  lemma {:induction false} PlugFills(z: Zipper, s: Shape)
    ensures Plug(z, s).node == Fill(PlaceOf(z), s.node)
    decreases z
  {
    if z.Under? { PlugFills(z.up, Above(z, s)); }
  }

  lemma {:induction false} AroundFits(z: Zipper, hole: Cell)
    requires Around(z, hole)
    ensures Fits(PlaceOf(z))
    decreases z
  {
    if z.Under? { AroundFits(z.up, z.cell); }
  }

  lemma JoinAround(left: seq<Shape>, s: Shape, right: seq<Shape>)
    ensures CellsOf(left + [s] + right) == CellsOf(left) + Cells(s) + CellsOf(right)
    ensures Nodes(left + [s] + right) == Nodes(left) + [s.node] + Nodes(right)
    ensures Roots(left + [s] + right) == Roots(left) + [s.cell] + Roots(right)
    ensures AllShow(left + [s] + right) <==> AllShow(left) && Shows(s) && AllShow(right)
  {
    CellsJoin(left + [s], right);
    CellsJoin(left, [s]);
    ShowJoin(left + [s], right);
    ShowJoin(left, [s]);
    OneOf(s);
    OneShows(s);
  }

  lemma {:induction false} PlugShows(z: Zipper, s: Shape)
    requires Around(z, s.cell) && Shows(s)
    ensures Cells(Plug(z, s)) == CellsAround(z) + Cells(s) && Shows(Plug(z, s))
    decreases z
  {
    if z.Under? {
      var parts := Nodes(z.left) + [s.node] + Nodes(z.right);
      JoinAround(z.left, s, z.right);
      RebuiltParts(z.node, parts);
      assert HeadOf(Rebuilt(z.node, parts)) == HeadOf(z.node);
      PlugShows(z.up, Above(z, s));
    }
  }

  ghost function TopCell(z: Zipper, hole: Cell): Cell {
    if z.Bare? then hole else TopCell(z.up, z.cell)
  }

  lemma {:induction false} PlugTop(z: Zipper, s: Shape)
    ensures Plug(z, s).cell == TopCell(z, s.cell)
    decreases z
  {
    if z.Under? { PlugTop(z.up, Above(z, s)); }
  }

  /** A tree that is being resolved is part of the specification, or is a copy apart from it. */
  datatype Where = Inside(z: Zipper) | InCopy(spec: Shape)

  ghost function Spec(w: Where, s: Shape): Shape {
    match w
    case Inside(z) => Plug(z, s)
    case InCopy(spec) => spec
  }

  ghost function SpecCell(w: Where, cell: Cell): Cell {
    match w
    case Inside(z) => TopCell(z, cell)
    case InCopy(spec) => spec.cell
  }

  /** The cells of the specification that resolving leaves alone. */
  ghost function Elsewhere(w: Where): set<Cell> {
    match w
    case Inside(z) => CellsAround(z)
    case InCopy(spec) => Cells(spec)
  }

  ghost predicate Stands(w: Where, cell: Cell)
    reads Elsewhere(w)
  {
    match w
    case Inside(z) => Around(z, cell)
    case InCopy(spec) => Shows(spec)
  }

  lemma SpecShows(w: Where, s: Shape)
    requires Stands(w, s.cell) && Shows(s)
    ensures Shows(Spec(w, s)) && Spec(w, s).cell == SpecCell(w, s.cell) && Cells(Spec(w, s)) <= Elsewhere(w) + Cells(s)
    ensures w.Inside? ==> Fits(PlaceOf(w.z)) && Spec(w, s).node == Fill(PlaceOf(w.z), s.node)
  {
    if w.Inside? {
      PlugShows(w.z, s);
      PlugTop(w.z, s);
      PlugFills(w.z, s);
      AroundFits(w.z, s.cell);
    }
  }

  // ---------------------------------------------------------------- the cache

  class Cache {
    var docs: map<string, Cell>
    ghost var shapes: map<string, Shape>
    ghost var owned: set<Cell>

    constructor (root: string, cell: Cell)
      ensures docs == map[root := cell] && shapes == map[] && owned == {}
    {
      docs, shapes, owned := map[root := cell], map[], {};
    }
  }

  /** The specification is cached under its name, and every other cached document is what reading its file gives. */
  ghost predicate Caches(src: Source, root: string, cache: Cache, spec: Cell)
    reads cache, cache.owned
  {
    && root in cache.docs && cache.docs[root] == spec
    && forall file :: file in cache.docs && file != root ==> CachesFile(src, cache, file)
  }

  ghost predicate CachesFile(src: Source, cache: Cache, file: string)
    requires file in cache.docs
    reads cache, cache.owned
  {
    && file in src.files && file in cache.shapes
    && cache.shapes[file].cell == cache.docs[file] && cache.shapes[file].node == src.files[file]
    && Cells(cache.shapes[file]) <= cache.owned && Shows(cache.shapes[file])
  }

  /** `others` are cells that no document may share. */
  method LoadFromCache(src: Source, root: string, cache: Cache, file: string, ghost spec: Shape,
                       ghost others: set<Cell>)
    returns (doc: Option<Cell>, ghost d: Shape)
    requires Caches(src, root, cache, spec.cell) && Shows(spec) && cache.owned !! others
    modifies cache
    ensures Caches(src, root, cache, spec.cell) && cache.owned !! others
    ensures var files := With(src, root, spec.node).files;
            && (doc.Some? <==> file in files)
            && (doc.Some? ==> Shows(d) && d.cell == doc.value && d.node == files[file])
  {
    hide Shows, AllShow, Apart, Cells;
    if file in cache.docs {
      d := if file == root then spec else cache.shapes[file];
      return Some(cache.docs[file]), d;
    }
    if file !in src.files {
      return None, spec;
    }
    var cell;
    cell, d := Parse(src.files[file]);
    cache.docs := cache.docs[file := cell];
    cache.shapes := cache.shapes[file := d];
    cache.owned := cache.owned + Cells(d);
    return Some(cell), d;
  }

  /** A tree apart from the cached documents, and both of them apart from the other cells. */
  ghost predicate Lone(cell: Cell, cache: Cache, s: Shape, others: set<Cell>)
    reads cache, Cells(s)
  {
    Shows(s) && Apart(s) && s.cell == cell && others !! Cells(s) && cache.owned !! others + Cells(s)
  }

  // ---------------------------------------------------------------- what resolving does

  /** The files as they are while `s` is resolved. */
  ghost function Now(src: Source, root: string, w: Where, s: Shape): Source {
    With(src, root, Spec(w, s).node)
  }

  /** The node may stand in the file `path`; in the specification, resolving starts at its root. */
  ghost predicate Belongs(src: Source, root: string, w: Where, raws: set<string>, path: string, stack: seq<string>) {
    match w
    case Inside(z) => Fits(PlaceOf(z)) && path == root && stack == [root]
    case InCopy(spec) =>
      var files := With(src, root, spec.node).files;
      path in files && raws <= Raws(files[path])
  }

  /** What is to become of a node. */
  ghost function Effect(src: Source, root: string, w: Where, n: Node, path: string, stack: seq<string>): Result<Node>
    requires Belongs(src, root, w, Raws(n), path, stack)
  {
    match w
    case Inside(z) => Walk(src, root, PlaceOf(z), n)
    case InCopy(spec) =>
      NetClosed(With(src, root, spec.node));
      Resolve(NetOf(With(src, root, spec.node)), n, path, stack)
  }

  /** What is to become of the parts of a node when those on the left are done. */
  ghost function EffectOnParts(src: Source, root: string, w: Where, n: Node, path: string, stack: seq<string>,
                               done: seq<Node>, rest: seq<Node>): Result<seq<Node>>
    requires Belongs(src, root, w, RawsOf(rest), path, stack) && |done| + |rest| == |Parts(n)|
  {
    match w
    case Inside(z) => WalkAll(src, root, PlaceOf(z), n, done, rest)
    case InCopy(spec) =>
      NetClosed(With(src, root, spec.node));
      Prepended(done, ResolveAll(NetOf(With(src, root, spec.node)), rest, path, stack))
  }

  lemma EffectOfParts(src: Source, root: string, w: Where, n: Node, path: string, stack: seq<string>)
    requires Belongs(src, root, w, Raws(n), path, stack) && !IsInclude(n)
    ensures Belongs(src, root, w, RawsOf(Parts(n)), path, stack)
    ensures var parts := EffectOnParts(src, root, w, n, path, stack, [], Parts(n));
            Effect(src, root, w, n, path, stack) ==
            if parts.Err? then Err(parts.failure) else Ok(Rebuilt(n, parts.value))
  {
    if w.InCopy? {
      NetClosed(With(src, root, w.spec.node));
      PrependedEmpty(ResolveAll(NetOf(With(src, root, w.spec.node)), Parts(n), path, stack));
    }
  }

  /** One level down, at the first of the parts on the right. */
  ghost function Down(w: Where, cell: Cell, n: Node, left: seq<Shape>, right: seq<Shape>): Where
    requires right != []
  {
    match w
    case Inside(z) => Inside(Under(z, cell, n, left, right[1..]))
    case InCopy(_) => w
  }

  lemma EffectOnNext(src: Source, root: string, w: Where, cell: Cell, n: Node, path: string, stack: seq<string>,
                     left: seq<Shape>, right: seq<Shape>)
    requires right != [] && |left| + |right| == |Parts(n)|
    requires Belongs(src, root, w, RawsOf(Nodes(right)), path, stack)
    ensures Belongs(src, root, Down(w, cell, n, left, right), Raws(right[0].node), path, stack)
    ensures Belongs(src, root, w, RawsOf(Nodes(right[1..])), path, stack)
    ensures var first := Effect(src, root, Down(w, cell, n, left, right), right[0].node, path, stack);
            EffectOnParts(src, root, w, n, path, stack, Nodes(left), Nodes(right)) ==
            if first.Err? then Err(first.failure)
            else EffectOnParts(src, root, w, n, path, stack, Nodes(left) + [first.value], Nodes(right[1..]))
  {
    assert Nodes(right)[0] == right[0].node && Nodes(right)[1..] == Nodes(right[1..]);
    if w.InCopy? {
      NetClosed(With(src, root, w.spec.node));
      ResolveNext(NetOf(With(src, root, w.spec.node)), Nodes(right), path, stack, Nodes(left));
    }
  }

  lemma EffectEnds(src: Source, root: string, w: Where, n: Node, path: string, stack: seq<string>, done: seq<Node>)
    requires Belongs(src, root, w, RawsOf([]), path, stack) && |done| == |Parts(n)|
    ensures EffectOnParts(src, root, w, n, path, stack, done, []) == Ok(done)
  {
    assert done + [] == done;
  }

  /** An include is resolved over the files as they are. */
  lemma EffectOfInclude(src: Source, root: string, w: Where, s: Shape, path: string, stack: seq<string>)
    requires IsInclude(s.node) && Belongs(src, root, w, Raws(s.node), path, stack) && Stands(w, s.cell) && Shows(s)
    ensures var now := Now(src, root, w, s);
            && Closed(NetOf(now)) && path in now.files && Raws(s.node) <= Raws(now.files[path])
            && Effect(src, root, w, s.node, path, stack) == Resolve(NetOf(now), s.node, path, stack)
  {
    NetClosed(Now(src, root, w, s));
    SpecShows(w, s);
    if w.Inside? { FillRaws(PlaceOf(w.z), s.node); }
  }

  // ---------------------------------------------------------------- the resolver

  ghost predicate Resolved(effect: Result<Node>, failure: Option<Failure>, n: Node) {
    effect == if failure.Some? then Err(failure.value) else Ok(n)
  }

  ghost function Remaining(src: Source, root: string, w: Where, stack: seq<string>): nat {
    if w.Inside? then 0 else |Unvisited(NetOf(With(src, root, w.spec.node)), stack)|
  }

  /** Moves what `src` stands for into `dst`. */
  method ReplaceNode(dst: Cell, src: Cell)
    modifies dst
    ensures dst.head == old(src.head) && dst.content == old(src.content)
  {
    dst.head := src.head;
    dst.content := src.content;
  }

  /** The include refers to `n`, under an id that is new on the stack. */
  ghost predicate Opened(net: Net, raw: string, path: string, stack: seq<string>, t: Target, n: Node) {
    net.ref(path, raw) == Some(t) && Id(t) !in stack && net.load(t) == Ok(n)
  }

  /** The copy of what an include refers to: its reference, the cycle check, the document and the fragment. */
  method CopyTarget(src: Source, root: string, raw: string, path: string, cache: Cache, stack: seq<string>,
                    ghost spec: Shape, ghost others: set<Cell>)
    returns (failure: Option<Failure>, t: Target, copy: Cell, ghost c: Shape)
    requires Caches(src, root, cache, spec.cell) && Shows(spec) && cache.owned !! others
    requires path in With(src, root, spec.node).files && raw in Raws(With(src, root, spec.node).files[path])
    modifies cache
    ensures Caches(src, root, cache, spec.cell) && Closed(NetOf(With(src, root, spec.node)))
    ensures failure.Some? ==>
      Resolve(NetOf(With(src, root, spec.node)), Scalar(INCLUDE, raw), path, stack) == Err(failure.value)
    ensures failure.None? ==> Lone(copy, cache, c, others) && fresh(Cells(c))
    ensures failure.None? ==> Opened(NetOf(With(src, root, spec.node)), raw, path, stack, t, c.node)
  {
    hide Shows, AllShow, Cells;
    ghost var now := With(src, root, spec.node);
    NetClosed(now);
    CellsExist(spec);
    t, copy, c := Target("", ""), cache.docs[root], spec;
    var target := ParseRef(src, path, raw);
    assert NetOf(now).ref(path, raw) == target;
    if target.None? {
      return Some(BadReference(raw)), t, copy, c;
    }
    t := target.value;
    var cycle := IncludeCycle(stack, Id(t));
    if cycle != [] {
      return Some(Cycle(cycle)), t, copy, c;
    }
    var doc, d := LoadFromCache(src, root, cache, t.file, spec, others);
    if doc.None? {
      return Some(Unreadable(t.file)), t, copy, c;
    }
    var selected, found := SelectNode(doc.value, t.pointer, d);
    if selected.None? {
      return Some(BadFragment(t)), t, copy, c;
    }
    copy, c := CloneNode(selected.value, found);
    failure := None;
    LoadRaws(now, t);
  }

  /** Then resolving the include is resolving `n` under one more id. */
  lemma OpenedResolves(src: Source, root: string, spec: Shape, raw: string, path: string, stack: seq<string>,
                       t: Target, n: Node)
    requires var now := With(src, root, spec.node);
             && Closed(NetOf(now)) && path in now.files && raw in Raws(now.files[path])
             && Opened(NetOf(now), raw, path, stack, t, n)
    ensures Belongs(src, root, InCopy(spec), Raws(n), t.file, stack + [Id(t)])
    ensures Resolve(NetOf(With(src, root, spec.node)), Scalar(INCLUDE, raw), path, stack) ==
            Effect(src, root, InCopy(spec), n, t.file, stack + [Id(t)])
    ensures Remaining(src, root, InCopy(spec), stack + [Id(t)]) < Remaining(src, root, InCopy(spec), stack)
  {
    var now := With(src, root, spec.node);
    LoadRaws(now, t);
    FewerUnvisited(NetOf(now), stack, Id(t));
  }

  /** A tree that can be resolved: the specification's other cells are among `others`. */
  ghost predicate Ready(src: Source, root: string, cell: Cell, path: string, cache: Cache, stack: seq<string>,
                        s: Shape, w: Where, others: set<Cell>)
    reads cache, cache.owned, Cells(s), Elsewhere(w)
  {
    && Lone(cell, cache, s, others) && Caches(src, root, cache, SpecCell(w, cell))
    && Elsewhere(w) <= others && Stands(w, cell) && Belongs(src, root, w, Raws(s.node), path, stack)
  }

  lemma IncludeShape(s: Shape)
    requires Shows(s) && IsInclude(s.node)
    ensures s.kids == [] && s.cell.head == ScalarHead(INCLUDE, s.node.value) && Cells(s) == {s.cell}
  {
    assert |Nodes(s.kids)| == 0;
  }

  lemma CopyStands(spec: Shape, copy: Cell)
    requires Shows(spec)
    ensures Stands(InCopy(spec), copy) && Elsewhere(InCopy(spec)) == Cells(spec)
    ensures SpecCell(InCopy(spec), copy) == spec.cell
  {
  }

  lemma RootCell(c: Shape)
    ensures c.cell in Cells(c)
  {
  }

  lemma Replaced(cell: Cell, c: Shape)
    requires Shows(c) && Apart(c) && cell !in Cells(c) && cell.head == c.cell.head && cell.content == c.cell.content
    ensures Shows(Shape(cell, c.node, c.kids)) && Apart(Shape(cell, c.node, c.kids))
    ensures Cells(Shape(cell, c.node, c.kids)) <= Cells(c) + {cell}
  {
  }

  /** An include is replaced by the resolved copy of what it refers to. */
  method ResolveOne(src: Source, root: string, cell: Cell, path: string, cache: Cache, stack: seq<string>,
                    ghost s: Shape, ghost w: Where, ghost others: set<Cell>)
    returns (failure: Option<Failure>, ghost s': Shape)
    requires Ready(src, root, cell, path, cache, stack, s, w, others) && IsInclude(s.node)
    modifies cache, Cells(s)
    ensures Caches(src, root, cache, SpecCell(w, cell))
    ensures Resolved(Effect(src, root, w, s.node, path, stack), failure, s'.node)
    ensures failure.None? ==> Lone(cell, cache, s', others)
    decreases w.Inside?, Remaining(src, root, w, stack), Size(s.node), 0
  {
    hide Belongs, Effect, Caches, Stands, Elsewhere, SpecCell, Plug, Resolve, Remaining, Shows, Apart, Cells;
    s' := s;
    IncludeShape(s);
    ghost var spec := Spec(w, s);
    SpecShows(w, s);
    EffectOfInclude(src, root, w, s, path, stack);
    CellsExist(spec);
    var t, copy;
    ghost var c;
    failure, t, copy, c := CopyTarget(src, root, cell.head.value, path, cache, stack, spec, others + {cell});
    if failure.Some? {
      return failure, s;
    }
    OpenedResolves(src, root, spec, s.node.value, path, stack, t, c.node);
    CopyStands(spec, copy);
    failure, c := ResolveIncludes(src, root, copy, t.file, cache, stack + [Id(t)], c, InCopy(spec), others + {cell});
    if failure.Some? {
      return failure, s;
    }
    CellsExist(c);
    RootCell(c);
    ReplaceNode(cell, copy);
    s' := Shape(cell, c.node, c.kids);
    Replaced(cell, c);
  }

  /** Half way through the parts of a node: those on the left are resolved. */
  ghost predicate Underway(cell: Cell, s: Shape, left: seq<Shape>, right: seq<Shape>)
    reads cell, CellsOf(left), CellsOf(right)
  {
    && cell.head == HeadOf(s.node) && cell.content == Roots(left + right) && |left| + |right| == |Parts(s.node)|
    && AllShow(left) && AllShow(right) && AllApart(left) && AllApart(right)
    && CellsOf(left) !! CellsOf(right) && cell !in CellsOf(left) + CellsOf(right)
  }

  ghost function Pieces(cell: Cell, left: seq<Shape>, right: seq<Shape>): set<Cell> {
    CellsOf(left) + {cell} + CellsOf(right)
  }

  lemma PartsAhead(s: Shape)
    requires Shows(s) && Apart(s)
    ensures Underway(s.cell, s, [], s.kids) && Cells(s) == Pieces(s.cell, [], s.kids) && CellsOf(s.kids) <= Cells(s)
    ensures Nodes(s.kids) == Parts(s.node) && Nodes([]) == []
  {
    assert [] + s.kids == s.kids;
  }

  lemma PartsDone(cell: Cell, s: Shape, left: seq<Shape>)
    requires Underway(cell, s, left, []) && !IsInclude(s.node)
    ensures var done := Shape(cell, Rebuilt(s.node, Nodes(left)), left);
            Shows(done) && Apart(done) && Cells(done) == Pieces(cell, left, [])
  {
    assert left + [] == left;
    RebuiltParts(s.node, Nodes(left));
  }

  lemma StepDown(w: Where, cell: Cell, s: Shape, left: seq<Shape>, right: seq<Shape>)
    requires Underway(cell, s, left, right) && right != [] && Stands(w, cell)
    ensures var here := Down(w, cell, s.node, left, right);
            && Stands(here, right[0].cell) && Elsewhere(here) <= Elsewhere(w) + Pieces(cell, left, right[1..])
            && SpecCell(here, right[0].cell) == SpecCell(w, cell)
    ensures Shows(right[0]) && Apart(right[0]) && AllShow(right[1..])
    ensures Pieces(cell, left, right) == Pieces(cell, left, right[1..]) + Cells(right[0])
    ensures Cells(right[0]) !! Pieces(cell, left, right[1..])
  {
    assert Roots(left + right) == Roots(left) + [right[0].cell] + Roots(right[1..]);
  }

  lemma StepDone(cell: Cell, s: Shape, left: seq<Shape>, right: seq<Shape>, kid: Shape)
    requires right != [] && cell.head == HeadOf(s.node) && cell.content == Roots(left + right)
    requires |left| + |right| == |Parts(s.node)| && cell !in CellsOf(left) + CellsOf(right)
    requires AllShow(left) && AllShow(right[1..]) && Shows(kid) && Apart(kid)
    requires AllApart(left) && AllApart(right) && CellsOf(left) !! CellsOf(right)
    requires kid.cell == right[0].cell && Cells(kid) !! Pieces(cell, left, right[1..])
    ensures Underway(cell, s, left + [kid], right[1..])
    ensures Pieces(cell, left + [kid], right[1..]) == Pieces(cell, left, right[1..]) + Cells(kid)
    ensures Nodes(left + [kid]) == Nodes(left) + [kid.node]
  {
    hide Shows, AllShow, Apart, Cells, Roots, Nodes;
    AddKid(left, kid);
    SameRoots(left, right, kid);
  }

  lemma SameRoots(left: seq<Shape>, right: seq<Shape>, kid: Shape)
    requires right != [] && kid.cell == right[0].cell
    ensures Roots(left + [kid] + right[1..]) == Roots(left + right)
  {
  }

  lemma RestSmaller(cell: Cell, s: Shape, left: seq<Shape>, right: seq<Shape>)
    requires Underway(cell, s, left, right) && right != []
    ensures |left| < |cell.content| && cell.content[|left|] == right[0].cell
    ensures SizeOfItems(Nodes(right[1..])) <= SizeOfItems(Nodes(right)) && CellsOf(right[1..]) <= CellsOf(right)
    ensures Cells(right[0]) <= CellsOf(right)
  {
    assert Nodes(right)[1..] == Nodes(right[1..]);
  }

  lemma PiecesExist(cell: Cell, left: seq<Shape>, right: seq<Shape>)
    ensures forall c :: c in Pieces(cell, left, right) ==> allocated(c)
    ensures forall c :: c in CellsOf(left) || c in CellsOf(right) ==> allocated(c)
  {
    CellsOfExist(left);
    CellsOfExist(right);
  }

  lemma PiecesOf(cell: Cell, left: seq<Shape>, right: seq<Shape>)
    ensures cell in Pieces(cell, left, right)
    ensures CellsOf(left) <= Pieces(cell, left, right) && CellsOf(right) <= Pieces(cell, left, right)
  {
  }

  lemma DownRemaining(src: Source, root: string, w: Where, cell: Cell, n: Node, left: seq<Shape>, right: seq<Shape>,
                      stack: seq<string>)
    requires right != []
    ensures Remaining(src, root, Down(w, cell, n, left, right), stack) == Remaining(src, root, w, stack)
    ensures Down(w, cell, n, left, right).Inside? == w.Inside? && Size(right[0].node) <= SizeOfItems(Nodes(right))
  {
    assert Nodes(right)[0] == right[0].node;
  }

  /** Resolves the first of the parts on the right. */
  method ResolvePart(src: Source, root: string, cell: Cell, part: Cell, path: string, cache: Cache,
                     stack: seq<string>, ghost s: Shape, ghost w: Where, ghost others: set<Cell>,
                     ghost left: seq<Shape>, ghost right: seq<Shape>)
    returns (failure: Option<Failure>, ghost kid: Shape)
    requires right != [] && part == right[0].cell && Underway(cell, s, left, right)
    requires Stands(w, cell) && Elsewhere(w) <= others && Belongs(src, root, w, RawsOf(Nodes(right)), path, stack)
    requires others !! Pieces(cell, left, right) && cache.owned !! others + Pieces(cell, left, right)
    requires Caches(src, root, cache, SpecCell(w, cell))
    modifies cache, Cells(right[0])
    ensures Caches(src, root, cache, SpecCell(w, cell)) && Stands(w, cell)
    ensures failure.Some? ==>
      EffectOnParts(src, root, w, s.node, path, stack, Nodes(left), Nodes(right)) == Err(failure.value)
    ensures failure.None? ==> Underway(cell, s, left + [kid], right[1..])
    ensures failure.None? ==> var pieces := Pieces(cell, left + [kid], right[1..]);
                              others !! pieces && cache.owned !! others + pieces
    ensures failure.None? ==>
      && Belongs(src, root, w, RawsOf(Nodes(right[1..])), path, stack)
      && EffectOnParts(src, root, w, s.node, path, stack, Nodes(left), Nodes(right)) ==
         EffectOnParts(src, root, w, s.node, path, stack, Nodes(left + [kid]), Nodes(right[1..]))
    decreases w.Inside?, Remaining(src, root, w, stack), SizeOfItems(Nodes(right)), 3
  {
    hide Shows, AllShow, Apart, AllApart, Cells, CellsOf, Pieces, Effect, EffectOnParts, Belongs, Caches, Stands, Nodes;
    ghost var here, rest := Down(w, cell, s.node, left, right), others + Pieces(cell, left, right[1..]);
    StepDown(w, cell, s, left, right);
    PiecesExist(cell, left, right[1..]);
    PiecesOf(cell, left, right[1..]);
    EffectOnNext(src, root, w, cell, s.node, path, stack, left, right);
    DownRemaining(src, root, w, cell, s.node, left, right, stack);
    failure, kid := ResolveIncludes(src, root, part, path, cache, stack, right[0], here, rest);
    if failure.None? {
      StepDone(cell, s, left, right, kid);
    }
  }

  /** Resolves the parts of a node from left to right. */
  method ResolveParts(src: Source, root: string, cell: Cell, path: string, cache: Cache, stack: seq<string>,
                      ghost s: Shape, ghost w: Where, ghost others: set<Cell>)
    returns (failure: Option<Failure>, ghost s': Shape)
    requires Ready(src, root, cell, path, cache, stack, s, w, others) && !IsInclude(s.node)
    modifies cache, Cells(s)
    ensures Caches(src, root, cache, SpecCell(w, cell))
    ensures Resolved(Effect(src, root, w, s.node, path, stack), failure, s'.node)
    ensures failure.None? ==> Lone(cell, cache, s', others)
    decreases w.Inside?, Remaining(src, root, w, stack), Size(s.node), 1
  {
    hide Effect, EffectOnParts, Belongs, Caches, Stands, Elsewhere, Remaining;
    hide Shows, AllShow, Apart, AllApart, Cells, CellsOf, Pieces;
    ghost var left, right := [], s.kids;
    PartsAhead(s);
    PartsSmaller(s.node);
    EffectOfParts(src, root, w, s.node, path, stack);
    for i := 0 to |cell.content|
      invariant |left| == i && |left| + |right| == |cell.content| == |Parts(s.node)|
      invariant Underway(cell, s, left, right) && CellsOf(right) <= Cells(s)
      invariant Stands(w, cell) && Caches(src, root, cache, SpecCell(w, cell))
      invariant others !! Pieces(cell, left, right) && cache.owned !! others + Pieces(cell, left, right)
      invariant Belongs(src, root, w, RawsOf(Nodes(right)), path, stack)
      invariant SizeOfItems(Nodes(right)) <= SizeOfItems(Parts(s.node))
      invariant EffectOnParts(src, root, w, s.node, path, stack, [], Parts(s.node)) ==
                EffectOnParts(src, root, w, s.node, path, stack, Nodes(left), Nodes(right))
    {
      hide Underway, Nodes, SizeOfItems;
      RestSmaller(cell, s, left, right);
      ghost var kid;
      failure, kid := ResolvePart(src, root, cell, cell.content[i], path, cache, stack, s, w, others, left, right);
      if failure.Some? {
        return failure, s;
      }
      left, right := left + [kid], right[1..];
    }
    PartsDone(cell, s, left);
    EffectEnds(src, root, w, s.node, path, stack, Nodes(left));
    failure, s' := None, Shape(cell, Rebuilt(s.node, Nodes(left)), left);
  }

  method ResolveIncludes(src: Source, root: string, cell: Cell, path: string, cache: Cache, stack: seq<string>,
                         ghost s: Shape, ghost w: Where, ghost others: set<Cell>)
    returns (failure: Option<Failure>, ghost s': Shape)
    requires Ready(src, root, cell, path, cache, stack, s, w, others)
    modifies cache, Cells(s)
    ensures Caches(src, root, cache, SpecCell(w, cell))
    ensures Resolved(Effect(src, root, w, s.node, path, stack), failure, s'.node)
    ensures failure.None? ==> Lone(cell, cache, s', others)
    decreases w.Inside?, Remaining(src, root, w, stack), Size(s.node), 2
  {
    if cell.head.ScalarHead? && cell.head.tag == INCLUDE {
      failure, s' := ResolveOne(src, root, cell, path, cache, stack, s, w, others);
    } else {
      failure, s' := ResolveParts(src, root, cell, path, cache, stack, s, w, others);
    }
  }

  /** Composes the specification: its tree is cached under its name and resolved in place. */
  method ComposeSpec(src: Source, root: string)
    returns (failure: Option<Failure>, spec: Cell, cache: Cache, ghost s: Shape)
    requires root in src.files
    ensures failure.Some? ==> ComposeInPlace(src, root) == Err(failure.value)
    ensures failure.None? ==> Shows(s) && s.cell == spec && ComposeInPlace(src, root) == Ok(s.node)
    ensures Caches(src, root, cache, spec)
  {
    spec, s := Parse(src.files[root]);
    CellsExist(s);
    cache := new Cache(root, spec);
    failure, s := ResolveIncludes(src, root, spec, root, cache, [root], s, Inside(Bare), {});
  }
}
