/** YAML documents as trees without aliases. */
module SpecTree {
  import opened Wrappers

  datatype Node = Scalar(tag: string, value: string) | Sequence(items: seq<Node>) | Mapping(entries: seq<Entry>)
  datatype Entry = Entry(key: Node, value: Node)

  function Flat(entries: seq<Entry>): (r: seq<Node>)
    ensures |r| == 2 * |entries|
  {
    if entries == [] then [] else [entries[0].key, entries[0].value] + Flat(entries[1..])
  }

  function Paired(nodes: seq<Node>): (r: seq<Entry>)
    ensures |r| == |nodes| / 2
  {
    if |nodes| < 2 then [] else [Entry(nodes[0], nodes[1])] + Paired(nodes[2..])
  }

  /** The nodes right below a node, in document order. */
  function Parts(node: Node): seq<Node> {
    match node
    case Scalar(_, _) => []
    case Sequence(items) => items
    case Mapping(entries) => Flat(entries)
  }

  /** The same node over other parts. */
  function Rebuilt(node: Node, parts: seq<Node>): Node {
    match node
    case Scalar(_, _) => node
    case Sequence(_) => Sequence(parts)
    case Mapping(_) => Mapping(Paired(parts))
  }

  function Size(node: Node): (n: nat)
    ensures n > 0
  {
    match node
    case Scalar(_, _) => 1
    case Sequence(items) => 1 + SizeOfItems(items)
    case Mapping(entries) => 1 + SizeOfEntries(entries)
  }

  function SizeOfItems(items: seq<Node>): nat {
    if items == [] then 0 else Size(items[0]) + SizeOfItems(items[1..])
  }

  function SizeOfEntries(entries: seq<Entry>): nat {
    if entries == [] then 0 else SizeOfEntry(entries[0]) + SizeOfEntries(entries[1..])
  }

  function SizeOfEntry(e: Entry): nat {
    Size(e.key) + Size(e.value)
  }

  lemma {:induction false} FlatSize(entries: seq<Entry>)
    ensures SizeOfItems(Flat(entries)) == SizeOfEntries(entries)
  {
    if entries != [] {
      FlatSize(entries[1..]);
      var flat := Flat(entries);
      assert flat[1..][0] == entries[0].value && flat[1..][1..] == Flat(entries[1..]);
      assert SizeOfItems(flat[1..]) == Size(entries[0].value) + SizeOfItems(Flat(entries[1..]));
    }
  }

  /** The parts of a node are together smaller than the node. */
  lemma PartsSmaller(node: Node)
    ensures SizeOfItems(Parts(node)) < Size(node)
  {
    if node.Mapping? { FlatSize(node.entries); }
  }

  predicate IsKey(key: Node, name: string) {
    key.Scalar? && key.value == name
  }

  /** The first entry with that key, or the number of entries. */
  function KeyIndex(entries: seq<Entry>, name: string): (i: nat)
    ensures i <= |entries| && (i < |entries| ==> IsKey(entries[i].key, name))
    ensures forall k :: 0 <= k < i ==> !IsKey(entries[k].key, name)
  {
    if entries == [] || IsKey(entries[0].key, name) then 0 else 1 + KeyIndex(entries[1..], name)
  }

  lemma {:induction false} FlatHas(entries: seq<Entry>, i: nat)
    requires i < |entries|
    ensures entries[i].key in Flat(entries) && entries[i].value in Flat(entries)
  {
    if i > 0 {
      FlatHas(entries[1..], i - 1);
    } else {
      assert Flat(entries)[0] == entries[0].key && Flat(entries)[1] == entries[0].value;
    }
  }
}
