/** Expanding deep merge keys (`<<`): ordered entry lists that are updated, against a reading as dictionaries. */
module DeepMerge {
  import opened Wrappers
  import opened SpecTree

  const STR := "!!str"
  const MERGE_KEY := "<<"

  // ---------------------------------------------------------------- what a document means

  datatype Value = Leaf(tag: string, text: string) | List(items: seq<Value>) | Dict(fields: map<string, Value>)

  /** Dictionaries are merged field by field; anything else is replaced. */
  function Merge(base: Value, overlay: Value): Value
    decreases overlay
  {
    if base.Dict? && overlay.Dict? then
      Dict(map k | k in base.fields.Keys + overlay.fields.Keys ::
        if k in base.fields && k in overlay.fields then Merge(base.fields[k], overlay.fields[k])
        else if k in overlay.fields then overlay.fields[k]
        else base.fields[k])
    else overlay
  }

  type Fields = map<string, Value>

  function MergeFields(base: Fields, overlay: Fields): Fields {
    Merge(Dict(base), Dict(overlay)).fields
  }

  function SetField(fields: Fields, key: string, value: Value): Fields {
    fields[key := if key in fields then Merge(fields[key], value) else value]
  }

  /** The text of a key; a key that is not a scalar has none. */
  function KeyText(key: Node): string {
    if key.Scalar? then key.value else ""
  }

  predicate IsMergeKey(key: Node) {
    key.Scalar? && key.value == MERGE_KEY
  }

  function MergeList(fields: Fields, items: seq<Value>): Option<Fields> {
    if items == [] then Some(fields)
    else match MergeList(fields, items[..|items| - 1])
         case None => None
         case Some(merged) =>
           if items[|items| - 1].Dict? then Some(MergeFields(merged, items[|items| - 1].fields)) else None
  }

  /** A merge key takes a mapping or a sequence of mappings. */
  function MergeSource(fields: Fields, value: Value): Option<Fields> {
    match value
    case Leaf(_, _) => None
    case Dict(more) => Some(MergeFields(fields, more))
    case List(items) => MergeList(fields, items)
  }

  /** The document read left to right as a dictionary; None when a merge key takes something else. */
  function Meaning(node: Node): Option<Value> {
    match node
    case Scalar(tag, text) => Some(Leaf(tag, text))
    case Sequence(items) =>
      (match MeaningOfItems(items)
       case None => None
       case Some(values) => Some(List(values)))
    case Mapping(entries) =>
      (match MeaningOfEntries(entries)
       case None => None
       case Some(fields) => Some(Dict(fields)))
  }

  function MeaningOfItems(items: seq<Node>): Option<seq<Value>> {
    if items == [] then Some([])
    else match MeaningOfItems(items[..|items| - 1])
         case None => None
         case Some(front) =>
           match Meaning(items[|items| - 1])
           case None => None
           case Some(last) => Some(front + [last])
  }

  function MeaningOfEntries(entries: seq<Entry>): Option<Fields>
    decreases entries
  {
    if entries == [] then Some(map[])
    else match MeaningOfEntries(entries[..|entries| - 1])
         case None => None
         case Some(fields) => MeaningOfEntry(fields, entries[|entries| - 1])
  }

  function MeaningOfEntry(fields: Fields, e: Entry): Option<Fields>
    decreases e
  {
    if Meaning(e.key).None? || Meaning(e.value).None? then None
    else if IsMergeKey(e.key) then MergeSource(fields, Meaning(e.value).value)
    else Some(SetField(fields, KeyText(e.key), Meaning(e.value).value))
  }

  // ---------------------------------------------------------------- expansion

  /** Appends a new key; under an existing one mappings are merged in place and anything else is replaced. */
  function SetKey(dst: seq<Entry>, key: string, overlay: Node): seq<Entry>
    decreases overlay
  {
    var i := KeyIndex(dst, key);
    if i == |dst| then dst + [Entry(Scalar(STR, key), overlay)]
    else if dst[i].value.Mapping? && overlay.Mapping? then
      dst[i := Entry(dst[i].key, Mapping(MergeInto(dst[i].value.entries, overlay.entries)))]
    else dst[i := Entry(dst[i].key, overlay)]
  }

  function MergeInto(dst: seq<Entry>, src: seq<Entry>): seq<Entry>
    decreases src
  {
    if src == [] then dst
    else SetEntry(MergeInto(dst, src[..|src| - 1]), src[|src| - 1])
  }

  function SetEntry(dst: seq<Entry>, e: Entry): seq<Entry>
    decreases e
  {
    SetKey(dst, KeyText(e.key), e.value)
  }

  function MergeMappings(dst: seq<Entry>, items: seq<Node>): Option<seq<Entry>> {
    if items == [] then Some(dst)
    else match MergeMappings(dst, items[..|items| - 1])
         case None => None
         case Some(merged) =>
           if items[|items| - 1].Mapping? then Some(MergeInto(merged, items[|items| - 1].entries)) else None
  }

  /** Merges the sources of a merge key, which must be mappings. */
  function MergeSources(dst: seq<Entry>, value: Node): Option<seq<Entry>> {
    match value
    case Scalar(_, _) => None
    case Mapping(entries) => Some(MergeInto(dst, entries))
    case Sequence(items) => MergeMappings(dst, items)
  }

  /** One entry of a mapping whose parts are expanded already. */
  function Added(dst: seq<Entry>, e: Entry): Option<seq<Entry>> {
    if IsMergeKey(e.key) then MergeSources(dst, e.value) else Some(SetEntry(dst, e))
  }

  function Expand(node: Node): Option<Node> {
    match node
    case Scalar(_, _) => Some(node)
    case Sequence(items) =>
      (match ExpandItems(items)
       case None => None
       case Some(expanded) => Some(Sequence(expanded)))
    case Mapping(entries) =>
      (match ExpandEntries(entries)
       case None => None
       case Some(merged) => Some(Mapping(merged)))
  }

  function ExpandItems(items: seq<Node>): Option<seq<Node>> {
    if items == [] then Some([])
    else match ExpandItems(items[..|items| - 1])
         case None => None
         case Some(front) =>
           match Expand(items[|items| - 1])
           case None => None
           case Some(last) => Some(front + [last])
  }

  function ExpandEntries(entries: seq<Entry>): Option<seq<Entry>>
    decreases entries
  {
    if entries == [] then Some([])
    else match ExpandEntries(entries[..|entries| - 1])
         case None => None
         case Some(merged) => ExpandEntry(merged, entries[|entries| - 1])
  }

  function ExpandEntry(dst: seq<Entry>, e: Entry): Option<seq<Entry>>
    decreases e
  {
    if Expand(e.key).None? || Expand(e.value).None? then None
    else Added(dst, Entry(Expand(e.key).value, Expand(e.value).value))
  }

  // ---------------------------------------------------------------- expanded trees

  /** No mapping below has a merge key, a repeated key, or a key that is not a string. */
  predicate Clean(node: Node) {
    match node
    case Scalar(_, _) => true
    case Sequence(items) => forall i :: 0 <= i < |items| ==> Clean(items[i])
    case Mapping(entries) => CleanEntries(entries)
  }

  predicate CleanEntry(e: Entry) {
    e.key == Scalar(STR, KeyText(e.key)) && KeyText(e.key) != MERGE_KEY && Clean(e.value)
  }

  predicate DistinctKeys(entries: seq<Entry>) {
    forall i, k :: 0 <= i < k < |entries| ==> KeyText(entries[i].key) != KeyText(entries[k].key)
  }

  predicate CleanEntries(entries: seq<Entry>) {
    DistinctKeys(entries) && forall i :: 0 <= i < |entries| ==> CleanEntry(entries[i])
  }

  /** A clean mapping reads as the dictionary of its entries. */
  ghost predicate Reads(entries: seq<Entry>, fields: Fields) {
    && (forall i :: 0 <= i < |entries| ==>
          KeyText(entries[i].key) in fields && Meaning(entries[i].value) == Some(fields[KeyText(entries[i].key)]))
    && (forall k :: k in fields ==> exists i :: 0 <= i < |entries| && KeyText(entries[i].key) == k)
  }

  lemma {:induction false} CleanReads(entries: seq<Entry>)
    requires CleanEntries(entries)
    ensures MeaningOfEntries(entries).Some? && Reads(entries, MeaningOfEntries(entries).value)
    decreases entries
  {
    if entries != [] {
      var front, last := entries[..|entries| - 1], entries[|entries| - 1];
      assert front + [last] == entries;
      CleanReads(front);
      CleanEntryMeans(last);
      ReadsNext(front, last, MeaningOfEntries(front).value);
      EntryMeans(MeaningOfEntries(front).value, last);
    }
  }

  lemma {:induction false} CleanEntryMeans(e: Entry)
    requires CleanEntry(e)
    ensures Meaning(e.value).Some?
    decreases e
  {
    CleanMeans(e.value);
  }

  lemma EntryMeans(fields: Fields, e: Entry)
    requires CleanEntry(e) && Meaning(e.value).Some?
    ensures MeaningOfEntry(fields, e) == Some(SetField(fields, KeyText(e.key), Meaning(e.value).value))
  {
  }

  lemma {:induction false} CleanMeans(node: Node)
    requires Clean(node)
    ensures Meaning(node).Some?
    decreases node
  {
    match node
    case Scalar(_, _) =>
    case Sequence(items) => CleanItemsMean(items);
    case Mapping(entries) => CleanReads(entries);
  }

  lemma {:induction false} CleanItemsMean(items: seq<Node>)
    requires forall i :: 0 <= i < |items| ==> Clean(items[i])
    ensures MeaningOfItems(items).Some?
    decreases items
  {
    if items != [] {
      CleanItemsMean(items[..|items| - 1]);
      CleanMeans(items[|items| - 1]);
    }
  }

  lemma ReadsNext(front: seq<Entry>, last: Entry, fields: Fields)
    requires DistinctKeys(front + [last]) && Reads(front, fields) && Meaning(last.value).Some?
    ensures KeyText(last.key) !in fields
    ensures Reads(front + [last], fields[KeyText(last.key) := Meaning(last.value).value])
  {
    var all := front + [last];
    assert all[|front|] == last;
    forall i | 0 <= i < |front| ensures KeyText(front[i].key) != KeyText(last.key) {
      assert all[i] == front[i];
    }
    var k := KeyText(last.key);
    var fields' := fields[k := Meaning(last.value).value];
    forall q | q in fields' ensures exists i :: 0 <= i < |all| && KeyText(all[i].key) == q {
      if q != k {
        var i :| 0 <= i < |front| && KeyText(front[i].key) == q;
        assert KeyText(all[i].key) == q;
      }
    }
  }

  /** A clean mapping reads as one dictionary only. */
  lemma ReadsOnce(entries: seq<Entry>, a: Fields, b: Fields)
    requires Reads(entries, a) && Reads(entries, b)
    ensures a == b
  {
    assert forall k :: k in a <==> k in b;
    forall k | k in a ensures a[k] == b[k] {
      var i :| 0 <= i < |entries| && KeyText(entries[i].key) == k;
    }
  }

  // ---------------------------------------------------------------- merging entry lists merges dictionaries

  lemma CleanUpdate(dst: seq<Entry>, i: nat, node: Node)
    requires CleanEntries(dst) && i < |dst| && Clean(node)
    ensures CleanEntries(dst[i := Entry(dst[i].key, node)])
  {
    var dst' := dst[i := Entry(dst[i].key, node)];
    assert CleanEntry(dst[i]);
    forall k | 0 <= k < |dst'| ensures CleanEntry(dst'[k]) {
      if k != i { assert CleanEntry(dst[k]); }
    }
    assert forall k :: 0 <= k < |dst| ==> dst'[k].key == dst[k].key;
  }

  /** Giving the entry at `i` another value. */
  lemma ReadsUpdate(dst: seq<Entry>, i: nat, node: Node, fields: Fields, value: Value)
    requires DistinctKeys(dst) && Reads(dst, fields) && i < |dst| && Meaning(node) == Some(value)
    ensures Reads(dst[i := Entry(dst[i].key, node)], fields[KeyText(dst[i].key) := value])
  {
    var dst', key := dst[i := Entry(dst[i].key, node)], KeyText(dst[i].key);
    var fields' := fields[key := value];
    forall q | q in fields' ensures exists k :: 0 <= k < |dst'| && KeyText(dst'[k].key) == q {
      var k :| 0 <= k < |dst| && KeyText(dst[k].key) == q;
      assert KeyText(dst'[k].key) == q;
    }
  }

  lemma CleanAppend(dst: seq<Entry>, key: string, node: Node)
    requires CleanEntries(dst) && KeyIndex(dst, key) == |dst| && key != MERGE_KEY && Clean(node)
    ensures CleanEntries(dst + [Entry(Scalar(STR, key), node)])
  {
    var dst' := dst + [Entry(Scalar(STR, key), node)];
    forall k | 0 <= k < |dst'| ensures CleanEntry(dst'[k]) {
      if k < |dst| { assert CleanEntry(dst[k]); }
    }
    forall k | 0 <= k < |dst| ensures KeyText(dst'[k].key) != key {
      assert CleanEntry(dst[k]);
    }
  }

  lemma CleanMapping(node: Node)
    requires Clean(node) && node.Mapping?
    ensures CleanEntries(node.entries)
  {
  }

  lemma MergeEmpty(fields: Fields)
    ensures MergeFields(fields, map[]) == fields
  {
  }

  lemma MergeOneMore(base: Fields, overlay: Fields, key: string, value: Value)
    requires key !in overlay
    ensures MergeFields(base, overlay[key := value]) == SetField(MergeFields(base, overlay), key, value)
  {
  }

  lemma MappingMeans(entries: seq<Entry>, fields: Fields)
    requires CleanEntries(entries) && Reads(entries, fields)
    ensures Meaning(Mapping(entries)) == Some(Dict(fields)) && MeaningOfEntries(entries) == Some(fields)
  {
    CleanReads(entries);
    ReadsOnce(entries, fields, MeaningOfEntries(entries).value);
  }

  lemma {:induction false} SetKeyReads(dst: seq<Entry>, key: string, overlay: Node, fields: Fields, value: Value)
    requires CleanEntries(dst) && Reads(dst, fields) && key != MERGE_KEY && Clean(overlay)
    requires Meaning(overlay) == Some(value)
    ensures CleanEntries(SetKey(dst, key, overlay)) && Reads(SetKey(dst, key, overlay), SetField(fields, key, value))
    decreases overlay
  {
    var i := KeyIndex(dst, key);
    if i == |dst| {
      CleanAppend(dst, key, overlay);
      ReadsNext(dst, Entry(Scalar(STR, key), overlay), fields);
    } else {
      assert CleanEntry(dst[i]) && KeyText(dst[i].key) == key;
      if dst[i].value.Mapping? && overlay.Mapping? {
        var base := dst[i].value.entries;
        CleanMapping(dst[i].value);
        CleanReads(base);
        CleanReads(overlay.entries);
        MergeIntoReads(base, overlay.entries, fields[key].fields, value.fields);
        MappingMeans(MergeInto(base, overlay.entries), MergeFields(fields[key].fields, value.fields));
        CleanUpdate(dst, i, Mapping(MergeInto(base, overlay.entries)));
        ReadsUpdate(dst, i, Mapping(MergeInto(base, overlay.entries)), fields, Merge(fields[key], value));
      } else {
        CleanUpdate(dst, i, overlay);
        ReadsUpdate(dst, i, overlay, fields, value);
        NotBothDicts(dst[i].value, overlay);
      }
    }
  }

  lemma NotBothDicts(base: Node, overlay: Node)
    requires !(base.Mapping? && overlay.Mapping?) && Meaning(base).Some? && Meaning(overlay).Some?
    ensures Merge(Meaning(base).value, Meaning(overlay).value) == Meaning(overlay).value
  {
  }

  lemma {:induction false} SetEntryReads(dst: seq<Entry>, e: Entry, fields: Fields)
    requires CleanEntries(dst) && Reads(dst, fields) && CleanEntry(e) && Meaning(e.value).Some?
    ensures CleanEntries(SetEntry(dst, e))
    ensures Reads(SetEntry(dst, e), SetField(fields, KeyText(e.key), Meaning(e.value).value))
    decreases e
  {
    SetKeyReads(dst, KeyText(e.key), e.value, fields, Meaning(e.value).value);
  }

  /** Merging clean entry lists one entry at a time merges the dictionaries they read as. */
  lemma {:induction false} MergeIntoReads(dst: seq<Entry>, src: seq<Entry>, fields: Fields, more: Fields)
    requires CleanEntries(dst) && Reads(dst, fields) && CleanEntries(src) && Reads(src, more)
    ensures CleanEntries(MergeInto(dst, src)) && Reads(MergeInto(dst, src), MergeFields(fields, more))
    decreases src
  {
    if src == [] {
      assert more == map[];
      MergeEmpty(fields);
    } else {
      var front, last := src[..|src| - 1], src[|src| - 1];
      assert front + [last] == src;
      CleanReads(front);
      var before := MeaningOfEntries(front).value;
      assert CleanEntry(last);
      ReadsNext(front, last, before);
      ReadsOnce(src, more, before[KeyText(last.key) := Meaning(last.value).value]);
      MergeIntoReads(dst, front, fields, before);
      SetEntryReads(MergeInto(dst, front), last, MergeFields(fields, before));
      MergeOneMore(fields, before, KeyText(last.key), Meaning(last.value).value);
    }
  }

  // ---------------------------------------------------------------- expansion keeps the meaning

  lemma {:induction false} MergeMappingsRead(dst: seq<Entry>, items: seq<Node>, fields: Fields, values: seq<Value>)
    requires CleanEntries(dst) && Reads(dst, fields)
    requires (forall i :: 0 <= i < |items| ==> Clean(items[i])) && MeaningOfItems(items) == Some(values)
    ensures MergeMappings(dst, items).Some? <==> MergeList(fields, values).Some?
    ensures MergeMappings(dst, items).Some? ==>
      CleanEntries(MergeMappings(dst, items).value) &&
        Reads(MergeMappings(dst, items).value, MergeList(fields, values).value)
    decreases |items|
  {
    if items != [] {
      var front, last := items[..|items| - 1], items[|items| - 1];
      var lastValue := Meaning(last).value;
      assert values == MeaningOfItems(front).value + [lastValue] &&
        values[..|values| - 1] == MeaningOfItems(front).value;
      MergeMappingsRead(dst, front, fields, values[..|values| - 1]);
      if last.Mapping? && MergeMappings(dst, front).Some? {
        CleanMapping(last);
        CleanReads(last.entries);
        MergeIntoReads(MergeMappings(dst, front).value, last.entries, MergeList(fields, values[..|values| - 1]).value,
          lastValue.fields);
      }
    } else {
      assert values == [];
    }
  }

  lemma MergeSourcesRead(dst: seq<Entry>, node: Node, fields: Fields, value: Value)
    requires CleanEntries(dst) && Reads(dst, fields) && Clean(node) && Meaning(node) == Some(value)
    ensures MergeSources(dst, node).Some? <==> MergeSource(fields, value).Some?
    ensures MergeSources(dst, node).Some? ==>
      CleanEntries(MergeSources(dst, node).value) &&
        Reads(MergeSources(dst, node).value, MergeSource(fields, value).value)
  {
    match node
    case Scalar(_, _) =>
    case Mapping(entries) =>
      CleanMapping(node);
      CleanReads(entries);
      MergeIntoReads(dst, entries, fields, value.fields);
    case Sequence(items) => MergeMappingsRead(dst, items, fields, value.items);
  }

  /** What expansion must give for a node: the same meaning, in a clean tree, or a failure where there is none. */
  ghost predicate Faithful(node: Node) {
    && (Expand(node).Some? <==> Meaning(node).Some?)
    && (Expand(node).Some? ==> Clean(Expand(node).value) && Meaning(Expand(node).value) == Meaning(node))
  }

  ghost predicate FaithfulEntries(entries: seq<Entry>) {
    && (ExpandEntries(entries).Some? <==> MeaningOfEntries(entries).Some?)
    && (ExpandEntries(entries).Some? ==>
          CleanEntries(ExpandEntries(entries).value) &&
            Reads(ExpandEntries(entries).value, MeaningOfEntries(entries).value))
  }

  ghost predicate FaithfulItems(items: seq<Node>) {
    && (ExpandItems(items).Some? <==> MeaningOfItems(items).Some?)
    && (ExpandItems(items).Some? ==>
          && (forall i :: 0 <= i < |ExpandItems(items).value| ==> Clean(ExpandItems(items).value[i]))
          && MeaningOfItems(ExpandItems(items).value) == MeaningOfItems(items))
  }

  lemma AddedReads(dst: seq<Entry>, e: Entry, fields: Fields)
    requires CleanEntries(dst) && Reads(dst, fields) && Faithful(e.key) && Faithful(e.value)
    ensures ExpandEntry(dst, e).Some? <==> MeaningOfEntry(fields, e).Some?
    ensures ExpandEntry(dst, e).Some? ==>
      CleanEntries(ExpandEntry(dst, e).value) && Reads(ExpandEntry(dst, e).value, MeaningOfEntry(fields, e).value)
  {
    if Expand(e.key).Some? && Expand(e.value).Some? {
      var key, value := Expand(e.key).value, Expand(e.value).value;
      assert KeyText(key) == KeyText(e.key) && IsMergeKey(key) == IsMergeKey(e.key);
      if IsMergeKey(key) {
        MergeSourcesRead(dst, value, fields, Meaning(value).value);
      } else {
        SetKeyReads(dst, KeyText(key), value, fields, Meaning(value).value);
      }
    }
  }

  lemma {:induction false} ExpandFaithful(node: Node)
    ensures Faithful(node)
    decreases node
  {
    match node
    case Scalar(_, _) =>
    case Sequence(items) => ItemsFaithful(items);
    case Mapping(entries) =>
      EntriesFaithful(entries);
      if ExpandEntries(entries).Some? {
        MappingMeans(ExpandEntries(entries).value, MeaningOfEntries(entries).value);
      }
  }

  lemma {:induction false} ItemsFaithful(items: seq<Node>)
    ensures FaithfulItems(items)
    decreases items
  {
    if items != [] {
      var front, last := items[..|items| - 1], items[|items| - 1];
      ItemsFaithful(front);
      ExpandFaithful(last);
      if ExpandItems(items).Some? {
        var expanded := ExpandItems(items).value;
        assert expanded[..|expanded| - 1] == ExpandItems(front).value && expanded[|expanded| - 1] == Expand(last).value;
      }
    }
  }

  lemma {:induction false} EntriesFaithful(entries: seq<Entry>)
    ensures FaithfulEntries(entries)
    decreases entries
  {
    if entries != [] {
      var front, last := entries[..|entries| - 1], entries[|entries| - 1];
      EntriesFaithful(front);
      EntryFaithful(last);
      if ExpandEntries(front).Some? {
        AddedReads(ExpandEntries(front).value, last, MeaningOfEntries(front).value);
      }
    }
  }

  lemma {:induction false} EntryFaithful(e: Entry)
    ensures Faithful(e.key) && Faithful(e.value)
    decreases e
  {
    ExpandFaithful(e.key);
    ExpandFaithful(e.value);
  }

  // ---------------------------------------------------------------- a second pass

  /** A clean tree is left as it is. */
  lemma {:induction false} CleanIsExpanded(node: Node)
    requires Clean(node)
    ensures Expand(node) == Some(node)
    decreases node
  {
    match node
    case Scalar(_, _) =>
    case Sequence(items) => CleanItemsExpanded(items);
    case Mapping(entries) => CleanEntriesExpanded(entries);
  }

  lemma {:induction false} CleanItemsExpanded(items: seq<Node>)
    requires forall i :: 0 <= i < |items| ==> Clean(items[i])
    ensures ExpandItems(items) == Some(items)
    decreases items
  {
    if items != [] {
      CleanItemsExpanded(items[..|items| - 1]);
      CleanIsExpanded(items[|items| - 1]);
      assert items[..|items| - 1] + [items[|items| - 1]] == items;
    }
  }

  lemma {:induction false} CleanEntriesExpanded(entries: seq<Entry>)
    requires CleanEntries(entries)
    ensures ExpandEntries(entries) == Some(entries)
    decreases entries
  {
    if entries != [] {
      var front, last := entries[..|entries| - 1], entries[|entries| - 1];
      CleanEntriesExpanded(front);
      assert CleanEntry(last);
      CleanEntryExpanded(front, last);
      NewKey(front, last);
      assert front + [last] == entries;
    }
  }

  lemma {:induction false} CleanEntryExpanded(dst: seq<Entry>, e: Entry)
    requires CleanEntry(e)
    ensures ExpandEntry(dst, e) == Some(SetEntry(dst, e))
    decreases e
  {
    CleanIsExpanded(e.value);
  }

  lemma NewKey(front: seq<Entry>, last: Entry)
    requires DistinctKeys(front + [last]) && CleanEntry(last)
    ensures SetEntry(front, last) == front + [last]
  {
    var all := front + [last];
    assert all[|front|] == last;
    assert forall i :: 0 <= i < |front| ==> all[i] == front[i];
  }

  /**
    Expansion gives a tree without merge keys and repeated keys at any depth, which denotes the left-to-right deep
    merge of the document, exactly when that is defined; a second pass changes nothing.
   */
  lemma ExpansionIsDeepMerge(node: Node)
    ensures Expand(node).Some? <==> Meaning(node).Some?
    ensures Expand(node).Some? ==>
      && Clean(Expand(node).value) && Meaning(Expand(node).value) == Meaning(node)
      && Expand(Expand(node).value) == Expand(node)
  {
    ExpandFaithful(node);
    if Expand(node).Some? { CleanIsExpanded(Expand(node).value); }
  }
}
