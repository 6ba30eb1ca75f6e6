/** Both halves of composing a specification: its includes are resolved in place, then its merge keys expanded. */
module SpecComposition {
  import opened Wrappers
  import opened SpecTree
  import opened Includes
  import opened IncludeTheorems
  import opened IncludeInPlace
  import DeepMerge

  /** The composed specification; None where either half fails. */
  function Composed(src: Source, root: string): Option<Node>
    requires root in src.files
  {
    match ComposeInPlace(src, root)
    case Err(_) => None
    case Ok(tree) => DeepMerge.Expand(tree)
  }

  // ---------------------------------------------------------------- no include is left by the walk

  lemma {:induction false} WalkAllLeavesNone(src: Source, root: string, place: Place, n: Node, done: seq<Node>,
                                             rest: seq<Node>)
    requires Fits(place) && |done| + |rest| == |Parts(n)| && RawsOf(done) == {}
    requires WalkAll(src, root, place, n, done, rest).Ok?
    ensures var parts := WalkAll(src, root, place, n, done, rest).value; |parts| == |Parts(n)| && RawsOf(parts) == {}
    decreases SizeOfItems(rest), |rest|
  {
    hide Walk;
    if rest != [] {
      var here := Below(place, n, done, rest[1..]);
      WalkLeavesNone(src, root, here, rest[0]);
      RawsJoin(done, [Walk(src, root, here, rest[0]).value]);
      WalkAllLeavesNone(src, root, place, n, done + [Walk(src, root, here, rest[0]).value], rest[1..]);
    }
  }

  lemma {:induction false} RawsJoin(a: seq<Node>, b: seq<Node>)
    ensures RawsOf(a + b) == RawsOf(a) + RawsOf(b)
  {
    if a == [] {
      assert a + b == b;
    } else {
      RawsJoin(a[1..], b);
      assert (a + b)[1..] == a[1..] + b;
    }
  }

  /** Whatever is composed in place holds no include. */
  lemma {:induction false} WalkLeavesNone(src: Source, root: string, place: Place, n: Node)
    requires Fits(place) && Walk(src, root, place, n).Ok?
    ensures Raws(Walk(src, root, place, n).value) == {}
    decreases Size(n), 0
  {
    if IsInclude(n) {
      var now := With(src, root, Fill(place, n));
      FillRaws(place, n);
      NetClosed(now);
      NoneLeft(NetOf(now), n, root, [root]);
    } else {
      PartsSmaller(n);
      WalkAllLeavesNone(src, root, place, n, [], Parts(n));
      RebuiltParts(n, WalkAll(src, root, place, n, [], Parts(n)).value);
    }
  }

  // ---------------------------------------------------------------- nor brought in by merging

  /** No node below is an include. */
  predicate NoInclude(node: Node) {
    match node
    case Scalar(_, _) => !IsInclude(node)
    case Sequence(items) => forall i :: 0 <= i < |items| ==> NoInclude(items[i])
    case Mapping(entries) => NoneIn(entries)
  }

  predicate NoneIn(entries: seq<Entry>) {
    forall i :: 0 <= i < |entries| ==> NoIncludeEntry(entries[i])
  }

  predicate NoIncludeEntry(e: Entry) {
    NoInclude(e.key) && NoInclude(e.value)
  }

  lemma {:induction false} PartHasNone(nodes: seq<Node>, i: nat)
    requires RawsOf(nodes) == {} && i < |nodes|
    ensures Raws(nodes[i]) == {}
  {
    RawsOfPart(nodes, nodes[i]);
  }

  lemma {:induction false} NoRawsNoInclude(node: Node)
    requires Raws(node) == {}
    ensures NoInclude(node)
    decreases Size(node)
  {
    PartsSmaller(node);
    match node
    case Scalar(_, _) =>
    case Sequence(items) =>
      forall i | 0 <= i < |items| ensures NoInclude(items[i]) {
        PartHasNone(items, i);
        SizeAt(items, i);
        NoRawsNoInclude(items[i]);
      }
    case Mapping(entries) =>
      forall i | 0 <= i < |entries| ensures NoIncludeEntry(entries[i]) {
        FlatAt(entries, i);
        PartHasNone(Flat(entries), 2 * i);
        PartHasNone(Flat(entries), 2 * i + 1);
        SizeAt(Flat(entries), 2 * i);
        SizeAt(Flat(entries), 2 * i + 1);
        NoRawsNoInclude(entries[i].key);
        NoRawsNoInclude(entries[i].value);
      }
  }

  lemma {:induction false} SizeAt(nodes: seq<Node>, i: nat)
    requires i < |nodes|
    ensures Size(nodes[i]) <= SizeOfItems(nodes)
  {
    if i > 0 { SizeAt(nodes[1..], i - 1); }
  }

  lemma {:induction false} SetKeyBringsNone(dst: seq<Entry>, key: string, overlay: Node)
    requires NoneIn(dst) && NoInclude(overlay)
    ensures NoneIn(DeepMerge.SetKey(dst, key, overlay))
    decreases overlay
  {
    var i := KeyIndex(dst, key);
    if i < |dst| {
      assert NoIncludeEntry(dst[i]) && NoInclude(dst[i].value);
      if dst[i].value.Mapping? && overlay.Mapping? { MergeBringsNone(dst[i].value.entries, overlay.entries); }
    }
  }

  lemma {:induction false} MergeBringsNone(dst: seq<Entry>, src: seq<Entry>)
    requires NoneIn(dst) && NoneIn(src)
    ensures NoneIn(DeepMerge.MergeInto(dst, src))
    decreases src
  {
    if src != [] {
      MergeBringsNone(dst, src[..|src| - 1]);
      EntryBringsNone(DeepMerge.MergeInto(dst, src[..|src| - 1]), src[|src| - 1]);
    }
  }

  lemma {:induction false} EntryBringsNone(dst: seq<Entry>, e: Entry)
    requires NoneIn(dst) && NoIncludeEntry(e)
    ensures NoneIn(DeepMerge.SetEntry(dst, e))
    decreases e
  {
    SetKeyBringsNone(dst, DeepMerge.KeyText(e.key), e.value);
  }

  lemma {:induction false} MappingsBringNone(dst: seq<Entry>, items: seq<Node>)
    requires NoneIn(dst) && (forall i :: 0 <= i < |items| ==> NoInclude(items[i]))
    requires DeepMerge.MergeMappings(dst, items).Some?
    ensures NoneIn(DeepMerge.MergeMappings(dst, items).value)
    decreases |items|
  {
    if items != [] {
      var front, last := items[..|items| - 1], items[|items| - 1];
      assert NoInclude(last);
      MappingsBringNone(dst, front);
      MergeBringsNone(DeepMerge.MergeMappings(dst, front).value, last.entries);
    }
  }

  lemma AddedBringsNone(dst: seq<Entry>, e: Entry)
    requires NoneIn(dst) && NoIncludeEntry(e) && DeepMerge.Added(dst, e).Some?
    ensures NoneIn(DeepMerge.Added(dst, e).value)
  {
    if !DeepMerge.IsMergeKey(e.key) {
      EntryBringsNone(dst, e);
    } else if e.value.Mapping? {
      MergeBringsNone(dst, e.value.entries);
    } else {
      MappingsBringNone(dst, e.value.items);
    }
  }

  lemma {:induction false} ExpansionBringsNone(node: Node)
    requires NoInclude(node) && DeepMerge.Expand(node).Some?
    ensures NoInclude(DeepMerge.Expand(node).value)
    decreases node
  {
    match node
    case Scalar(_, _) =>
    case Sequence(items) => ItemsBringNone(items);
    case Mapping(entries) => EntriesBringNone(entries);
  }

  lemma {:induction false} ItemsBringNone(items: seq<Node>)
    requires (forall i :: 0 <= i < |items| ==> NoInclude(items[i])) && DeepMerge.ExpandItems(items).Some?
    ensures var out := DeepMerge.ExpandItems(items).value; forall i :: 0 <= i < |out| ==> NoInclude(out[i])
    decreases items
  {
    if items != [] {
      ItemsBringNone(items[..|items| - 1]);
      ExpansionBringsNone(items[|items| - 1]);
    }
  }

  lemma {:induction false} EntriesBringNone(entries: seq<Entry>)
    requires NoneIn(entries) && DeepMerge.ExpandEntries(entries).Some?
    ensures NoneIn(DeepMerge.ExpandEntries(entries).value)
    decreases entries
  {
    if entries != [] {
      EntriesBringNone(entries[..|entries| - 1]);
      assert NoIncludeEntry(entries[|entries| - 1]);
      ExpandedEntryBringsNone(DeepMerge.ExpandEntries(entries[..|entries| - 1]).value, entries[|entries| - 1]);
    }
  }

  lemma {:induction false} ExpandedEntryBringsNone(dst: seq<Entry>, e: Entry)
    requires NoneIn(dst) && NoIncludeEntry(e) && DeepMerge.ExpandEntry(dst, e).Some?
    ensures NoneIn(DeepMerge.ExpandEntry(dst, e).value)
    decreases e
  {
    ExpansionBringsNone(e.key);
    ExpansionBringsNone(e.value);
    AddedBringsNone(dst, Entry(DeepMerge.Expand(e.key).value, DeepMerge.Expand(e.value).value));
  }

  // ---------------------------------------------------------------- main results

  /** A composed specification holds no include, no merge key and no repeated key at any depth. */
  lemma ComposedIsClean(src: Source, root: string)
    requires root in src.files && Composed(src, root).Some?
    ensures NoInclude(Composed(src, root).value) && DeepMerge.Clean(Composed(src, root).value)
    ensures DeepMerge.Meaning(Composed(src, root).value) == DeepMerge.Meaning(ComposeInPlace(src, root).value)
  {
    var tree := ComposeInPlace(src, root).value;
    WalkLeavesNone(src, root, Top, src.files[root]);
    NoRawsNoInclude(tree);
    ExpansionBringsNone(tree);
    DeepMerge.ExpansionIsDeepMerge(tree);
  }

  /**
    A specification whose includes can be substituted is composed exactly when the left-to-right deep merge of the
    substituted document is defined, and then denotes it.
   */
  lemma ComposedMeansSubstituted(src: Source, root: string, depth: nat)
    requires root in src.files && WaysKept(src, root) && NoClashFrom(src, root)
    requires Substituted(src, root, depth).Some?
    ensures Composed(src, root).Some? <==> DeepMerge.Meaning(Substituted(src, root, depth).value).Some?
    ensures Composed(src, root).Some? ==>
      DeepMerge.Meaning(Composed(src, root).value) == DeepMerge.Meaning(Substituted(src, root, depth).value)
  {
    hide WaysKept, NoClashFrom;
    SubstitutedInPlace(src, root, depth);
    DeepMerge.ExpansionIsDeepMerge(Substituted(src, root, depth).value);
  }
}
