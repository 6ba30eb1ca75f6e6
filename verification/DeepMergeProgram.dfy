/** The expansion of deep merge keys as the loops that perform it. */
module DeepMergeProgram {
  import opened Wrappers
  import opened SpecTree
  import opened DeepMerge

  method FindKeyIndex(entries: seq<Entry>, key: string) returns (found: Option<nat>)
    ensures found == if KeyIndex(entries, key) < |entries| then Some(KeyIndex(entries, key)) else None
  {
    for i := 0 to |entries|
      invariant forall k :: 0 <= k < i ==> !IsKey(entries[k].key, key)
    {
      if IsKey(entries[i].key, key) {
        return Some(i);
      }
    }
    return None;
  }

  method SetOrDeepMergeKey(dst: seq<Entry>, key: string, overlay: Node) returns (out: seq<Entry>)
    ensures out == SetKey(dst, key, overlay)
    decreases overlay
  {
    var found := FindKeyIndex(dst, key);
    if found.None? {
      return dst + [Entry(Scalar(STR, key), overlay)];
    }
    var i := found.value;
    var existing := dst[i].value;
    if existing.Mapping? && overlay.Mapping? {
      var merged := MergeMappingInto(existing.entries, overlay.entries);
      return dst[i := Entry(dst[i].key, Mapping(merged))];
    }
    return dst[i := Entry(dst[i].key, overlay)];
  }

  method MergeMappingInto(dst: seq<Entry>, src: seq<Entry>) returns (out: seq<Entry>)
    ensures out == MergeInto(dst, src)
    decreases src
  {
    out := dst;
    for i := 0 to |src|
      invariant out == MergeInto(dst, src[..i])
    {
      assert src[..i + 1][..i] == src[..i];
      out := MergeEntryInto(out, src[i]);
    }
    assert src[..|src|] == src;
  }

  method MergeEntryInto(dst: seq<Entry>, e: Entry) returns (out: seq<Entry>)
    ensures out == SetEntry(dst, e)
    decreases e
  {
    out := SetOrDeepMergeKey(dst, KeyText(e.key), e.value);
  }

  /** The mappings that a merge key names, in order. */
  method CollectMergeSources(value: Node) returns (sources: Option<seq<Node>>)
    ensures sources.Some? <==>
      value.Mapping? || (value.Sequence? && forall i :: 0 <= i < |value.items| ==> value.items[i].Mapping?)
    ensures sources.Some? ==> sources.value == if value.Mapping? then [value] else value.items
  {
    match value
    case Mapping(_) => return Some([value]);
    case Scalar(_, _) => return None;
    case Sequence(items) =>
      for i := 0 to |items|
        invariant forall k :: 0 <= k < i ==> items[k].Mapping?
      {
        if !items[i].Mapping? {
          return None;
        }
      }
      return Some(items);
  }

  lemma {:induction false} MergeMappingsFails(dst: seq<Entry>, items: seq<Node>)
    ensures MergeMappings(dst, items).Some? <==> forall i :: 0 <= i < |items| ==> items[i].Mapping?
  {
    if items != [] { MergeMappingsFails(dst, items[..|items| - 1]); }
  }

  lemma OneSource(dst: seq<Entry>, value: Node)
    requires value.Mapping?
    ensures MergeMappings(dst, [value]) == Some(MergeInto(dst, value.entries))
  {
    assert [value][..0] == [];
  }

  method AddEntry(dst: seq<Entry>, e: Entry) returns (out: Option<seq<Entry>>)
    ensures out == Added(dst, e)
  {
    if !IsMergeKey(e.key) {
      var set' := MergeEntryInto(dst, e);
      return Some(set');
    }
    var sources := CollectMergeSources(e.value);
    if e.value.Sequence? { MergeMappingsFails(dst, e.value.items); }
    if sources.None? {
      return None;
    }
    if e.value.Mapping? { OneSource(dst, e.value); }
    var merged := dst;
    for i := 0 to |sources.value|
      invariant MergeMappings(dst, sources.value[..i]) == Some(merged)
    {
      assert sources.value[..i + 1][..i] == sources.value[..i];
      merged := MergeMappingInto(merged, sources.value[i].entries);
    }
    assert sources.value[..|sources.value|] == sources.value;
    return Some(merged);
  }

  // ---------------------------------------------------------------- children first, then the fold

  function ExpandedEntry(e: Entry): Option<Entry> {
    if Expand(e.key).None? || Expand(e.value).None? then None
    else Some(Entry(Expand(e.key).value, Expand(e.value).value))
  }

  function ExpandedAll(entries: seq<Entry>): Option<seq<Entry>> {
    if entries == [] then Some([])
    else
      var front, last := ExpandedAll(entries[..|entries| - 1]), ExpandedEntry(entries[|entries| - 1]);
      if front.None? || last.None? then None else Some(front.value + [last.value])
  }

  function AddAll(entries: seq<Entry>): Option<seq<Entry>> {
    if entries == [] then Some([])
    else match AddAll(entries[..|entries| - 1])
         case None => None
         case Some(merged) => Added(merged, entries[|entries| - 1])
  }

  /** Expanding all children before merging them gives the same as expanding each when its turn comes. */
  lemma {:induction false} ChildrenFirst(entries: seq<Entry>)
    ensures ExpandEntries(entries) == if ExpandedAll(entries).None? then None else AddAll(ExpandedAll(entries).value)
  {
    if entries != [] {
      var front, last := entries[..|entries| - 1], entries[|entries| - 1];
      ChildrenFirst(front);
      if ExpandedAll(front).Some? && ExpandedEntry(last).Some? {
        var all := ExpandedAll(entries).value;
        assert all[..|all| - 1] == ExpandedAll(front).value && all[|all| - 1] == ExpandedEntry(last).value;
      }
    }
  }

  lemma {:induction false} OneFails(entries: seq<Entry>, i: nat)
    requires i < |entries| && ExpandedEntry(entries[i]).None?
    ensures ExpandedAll(entries).None?
  {
    if i < |entries| - 1 { OneFails(entries[..|entries| - 1], i); }
  }

  lemma {:induction false} OneAddFails(entries: seq<Entry>, i: nat)
    requires i <= |entries| && AddAll(entries[..i]).None?
    ensures AddAll(entries).None?
    decreases |entries| - i
  {
    if i < |entries| {
      assert entries[..i + 1][..i] == entries[..i];
      OneAddFails(entries, i + 1);
    } else {
      assert entries[..i] == entries;
    }
  }

  lemma {:induction false} OneItemFails(items: seq<Node>, i: nat)
    requires i < |items| && Expand(items[i]).None?
    ensures ExpandItems(items).None?
  {
    if i < |items| - 1 { OneItemFails(items[..|items| - 1], i); }
  }

  method ExpandDeepMergeKeys(node: Node) returns (r: Option<Node>)
    ensures r == Expand(node)
    decreases node
  {
    match node
    case Scalar(_, _) => return Some(node);
    case Sequence(items) =>
      var expanded: seq<Node> := [];
      for i := 0 to |items|
        invariant ExpandItems(items[..i]) == Some(expanded)
      {
        var one := ExpandDeepMergeKeys(items[i]);
        if one.None? {
          OneItemFails(items, i);
          return None;
        }
        assert items[..i + 1][..i] == items[..i];
        expanded := expanded + [one.value];
      }
      assert items[..|items|] == items;
      return Some(Sequence(expanded));
    case Mapping(entries) =>
      var merged := ExpandMapping(entries);
      return if merged.None? then None else Some(Mapping(merged.value));
  }

  method ExpandMapping(entries: seq<Entry>) returns (r: Option<seq<Entry>>)
    ensures r == ExpandEntries(entries)
    decreases entries
  {
    ChildrenFirst(entries);
    var expanded: seq<Entry> := [];
    for i := 0 to |entries|
      invariant ExpandedAll(entries[..i]) == Some(expanded)
    {
      var one := ExpandBoth(entries[i]);
      if one.None? {
        OneFails(entries, i);
        return None;
      }
      assert entries[..i + 1][..i] == entries[..i];
      expanded := expanded + [one.value];
    }
    assert entries[..|entries|] == entries;
    r := MergeExpanded(expanded);
  }

  method ExpandBoth(e: Entry) returns (r: Option<Entry>)
    ensures r == ExpandedEntry(e)
    decreases e
  {
    var key := ExpandDeepMergeKeys(e.key);
    if key.None? {
      return None;
    }
    var value := ExpandDeepMergeKeys(e.value);
    if value.None? {
      return None;
    }
    return Some(Entry(key.value, value.value));
  }

  method MergeExpanded(entries: seq<Entry>) returns (r: Option<seq<Entry>>)
    ensures r == AddAll(entries)
  {
    var merged: seq<Entry> := [];
    for i := 0 to |entries|
      invariant AddAll(entries[..i]) == Some(merged)
    {
      assert entries[..i + 1][..i] == entries[..i];
      var more := AddEntry(merged, entries[i]);
      if more.None? {
        OneAddFails(entries, i + 1);
        return None;
      }
      merged := more.value;
    }
    assert entries[..|entries|] == entries;
    return Some(merged);
  }
}
