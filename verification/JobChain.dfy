/** Ordering the jobs of an attempt along their next-job links. */
module JobChain {
  import opened Wrappers
  import opened StoreModel

  datatype Item = Item(id: JobId, next: Option<JobId>)

  predicate UniqueIds(items: seq<Item>) {
    forall i, k :: 0 <= i < k < |items| ==> items[i].id != items[k].id
  }

  predicate NextAt(c: seq<Item>, i: nat)
    requires i < |c|
  {
    c[i].next == if i + 1 < |c| then Some(c[i + 1].id) else None
  }

  /** `c` lists all items once, each pointing to the one after it, the last one pointing nowhere. */
  ghost predicate OneChain(items: seq<Item>, c: seq<Item>) {
    && |c| == |items| && UniqueIds(c)
    && (forall i :: 0 <= i < |c| ==> c[i] in items)
    && (forall i {:trigger NextAt(c, i)} :: 0 <= i < |c| ==> NextAt(c, i))
  }

  /** `out` lists all items once. */
  ghost predicate AllOnce(items: seq<Item>, out: seq<Item>) {
    |out| == |items| && UniqueIds(out) && forall i :: 0 <= i < |out| ==> out[i] in items
  }

  // ---------------------------------------------------------------- sorting ids

  predicate Sorted(ids: seq<JobId>) {
    forall i, k :: 0 <= i < k < |ids| ==> ids[i] <= ids[k]
  }

  function InsertId(id: JobId, ids: seq<JobId>): (s: seq<JobId>)
    ensures multiset(s) == multiset(ids) + multiset{id}
  {
    if ids == [] || id <= ids[0] then [id] + ids
    else
      assert ids == [ids[0]] + ids[1..];
      [ids[0]] + InsertId(id, ids[1..])
  }

  lemma InsertMembers(id: JobId, ids: seq<JobId>, x: JobId)
    requires x in InsertId(id, ids)
    ensures x == id || x in ids
  {
    assert x in multiset(InsertId(id, ids));
    assert x in multiset(ids) ==> x in ids;
  }

  lemma {:induction false} InsertSorted(id: JobId, ids: seq<JobId>)
    requires Sorted(ids)
    ensures Sorted(InsertId(id, ids))
  {
    if ids != [] && id > ids[0] {
      var rest := InsertId(id, ids[1..]);
      InsertSorted(id, ids[1..]);
      forall i | 0 <= i < |rest| ensures ids[0] <= rest[i] {
        InsertMembers(id, ids[1..], rest[i]);
      }
    }
  }

  function SortIds(ids: seq<JobId>): (s: seq<JobId>)
    ensures multiset(s) == multiset(ids) && Sorted(s)
  {
    if ids == [] then []
    else
      assert ids == [ids[0]] + ids[1..];
      var rest := SortIds(ids[1..]);
      InsertSorted(ids[0], rest);
      InsertId(ids[0], rest)
  }

  lemma SortKeeps(ids: seq<JobId>)
    ensures forall x :: x in SortIds(ids) <==> x in ids
    ensures |SortIds(ids)| == |ids|
  {
    forall x ensures x in SortIds(ids) <==> x in ids {
      assert x in SortIds(ids) <==> x in multiset(SortIds(ids));
      assert x in ids <==> x in multiset(ids);
    }
    assert |multiset(SortIds(ids))| == |multiset(ids)|;
  }

  // ---------------------------------------------------------------- walking a chain

  type Table = map<JobId, Item>

  predicate Indexed(table: Table) {
    forall k :: k in table ==> table[k].id == k
  }

  function Ids(items: seq<Item>): set<JobId> {
    set i | 0 <= i < |items| :: items[i].id
  }

  /** The items a walk from `start` appends, following links inside the table until a visited id. */
  function Path(table: Table, start: JobId, visited: set<JobId>): seq<Item>
    decreases table.Keys - visited
  {
    if start in visited || start !in table then []
    else
      var item := table[start];
      var next := item.next;
      [item] + if next.Some? && next.value in table then Path(table, next.value, visited + {start}) else []
  }

  lemma IdsAppend(items: seq<Item>, item: Item)
    ensures Ids(items + [item]) == Ids(items) + {item.id}
  {
    var all := items + [item];
    assert all[|items|] == item;
    forall x | x in Ids(items) ensures x in Ids(all) {
      var i :| 0 <= i < |items| && items[i].id == x;
      assert all[i].id == x;
    }
  }

  function PathFrom(table: Table, start: Option<JobId>, visited: set<JobId>): seq<Item> {
    if start.Some? then Path(table, start.value, visited) else []
  }

  lemma PathStep(table: Table, id: JobId, visited: set<JobId>)
    requires id in table && id !in visited
    ensures var item := table[id];
            Path(table, id, visited) == [item] + PathFrom(table, NextIn(table, item), visited + {id})
  {
  }

  /** The successor to walk on to, if it is in the table. */
  function NextIn(table: Table, item: Item): Option<JobId> {
    if item.next.Some? && item.next.value in table then item.next else None
  }

  lemma PathNext(table: Table, done: seq<Item>, id: JobId, visited: set<JobId>)
    requires id in table && id !in visited
    ensures done + PathFrom(table, Some(id), visited) ==
      done + [table[id]] + PathFrom(table, NextIn(table, table[id]), visited + {id})
  {
    PathStep(table, id, visited);
  }

  method WalkChain(table: Table, start: JobId, visited0: set<JobId>, out0: seq<Item>)
    returns (visited: set<JobId>, out: seq<Item>)
    requires Indexed(table)
    ensures out == out0 + Path(table, start, visited0)
    ensures visited == visited0 + Ids(Path(table, start, visited0))
  {
    visited, out := visited0, out0;
    ghost var done: seq<Item> := [];
    var current := Some(start);
    while current.Some?
      invariant out == out0 + done && visited == visited0 + Ids(done)
      invariant Path(table, start, visited0) == done + PathFrom(table, current, visited)
      decreases current.Some?, table.Keys - visited
    {
      var id := current.value;
      if id in visited || id !in table {
        current := None;
      } else {
        var item := table[id];
        IdsAppend(done, item);
        PathNext(table, done, id, visited);
        done := done + [item];
        visited, out := visited + {id}, out + [item];
        current := NextIn(table, item);
      }
    }
    assert done + [] == done;
  }

  // ---------------------------------------------------------------- properties of walks

  /** A walk appends distinct unvisited items of the table, its start among them. */
  lemma {:induction false} PathFresh(table: Table, start: JobId, visited: set<JobId>)
    requires Indexed(table)
    ensures var p := Path(table, start, visited);
            && UniqueIds(p)
            && (forall i :: 0 <= i < |p| ==> p[i].id in table && table[p[i].id] == p[i] && p[i].id !in visited)
            && (start in table && start !in visited ==> start in Ids(p))
    decreases table.Keys - visited
  {
    if start !in visited && start in table {
      var item := table[start];
      var p := Path(table, start, visited);
      assert p[0].id == start;
      if item.next.Some? && item.next.value in table {
        PathFresh(table, item.next.value, visited + {start});
      }
    }
  }

  /** Walking along a complete chain appends exactly its rest. */
  lemma {:induction false} PathIsChain(table: Table, c: seq<Item>, i: nat)
    requires i < |c| && UniqueIds(c)
    requires forall k :: 0 <= k < |c| ==> c[k].id in table && table[c[k].id] == c[k]
    requires forall k {:trigger NextAt(c, k)} :: 0 <= k < |c| ==> NextAt(c, k)
    ensures Path(table, c[i].id, Ids(c[..i])) == c[i..]
    decreases |c| - i
  {
    assert c[i].id !in Ids(c[..i]);
    assert NextAt(c, i);
    if i + 1 < |c| {
      PathIsChain(table, c, i + 1);
      assert c[..i + 1] == c[..i] + [c[i]];
      IdsAppend(c[..i], c[i]);
    }
  }

  // ---------------------------------------------------------------- the ordering

  /** `table` finds every item by its id and nothing else. */
  predicate TableOf(items: seq<Item>, table: Table) {
    && Indexed(table) && table.Keys == Ids(items)
    && forall i :: 0 <= i < |items| ==> items[i].id in table && table[items[i].id] == items[i]
  }

  method BuildTable(items: seq<Item>) returns (table: Table)
    requires UniqueIds(items)
    ensures TableOf(items, table)
  {
    table := map[];
    for k := 0 to |items|
      invariant TableOf(items[..k], table)
    {
      IdsAppend(items[..k], items[k]);
      assert items[..k + 1] == items[..k] + [items[k]];
      table := table[items[k].id := items[k]];
    }
    assert items[..|items|] == items;
  }

  /** The items among `items` that some item of `sources` points to. */
  ghost predicate PointedTo(sources: seq<Item>, id: JobId) {
    exists i :: 0 <= i < |sources| && sources[i].next == Some(id)
  }

  method CountPredecessors(items: seq<Item>, table: Table) returns (count: map<JobId, nat>)
    ensures count.Keys == table.Keys
    ensures forall id :: id in table ==> (count[id] == 0 <==> !PointedTo(items, id))
  {
    count := map id | id in table :: 0;
    for k := 0 to |items|
      invariant count.Keys == table.Keys
      invariant forall id :: id in table ==> (count[id] == 0 <==> !PointedTo(items[..k], id))
    {
      forall id | id in table
        ensures PointedTo(items[..k + 1], id) <==> PointedTo(items[..k], id) || items[k].next == Some(id)
      {
        PointedToNext(items, k, id);
      }
      var next := items[k].next;
      if next.Some? && next.value in table {
        count := count[next.value := count[next.value] + 1];
      }
    }
    assert items[..|items|] == items;
  }

  lemma PointedToNext(items: seq<Item>, k: nat, id: JobId)
    requires k < |items|
    ensures PointedTo(items[..k + 1], id) <==> PointedTo(items[..k], id) || items[k].next == Some(id)
  {
    if PointedTo(items[..k], id) {
      var i :| 0 <= i < k && items[..k][i].next == Some(id);
      assert items[..k + 1][i].next == Some(id);
    }
    if items[k].next == Some(id) { assert items[..k + 1][k].next == Some(id); }
    if PointedTo(items[..k + 1], id) {
      var i :| 0 <= i <= k && items[..k + 1][i].next == Some(id);
      if i < k { assert items[..k][i].next == Some(id); }
    }
  }

  /** The ids of the items that satisfy `keep`, in the order of the items. */
  function Select(items: seq<Item>, keep: JobId -> bool): seq<JobId> {
    if items == [] then []
    else (if keep(items[0].id) then [items[0].id] else []) + Select(items[1..], keep)
  }

  lemma {:induction false} SelectIds(items: seq<Item>, keep: JobId -> bool)
    ensures forall id :: id in Select(items, keep) <==> keep(id) && id in Ids(items)
    ensures UniqueIds(items) ==> forall i, k :: 0 <= i < k < |Select(items, keep)| ==>
      Select(items, keep)[i] != Select(items, keep)[k]
  {
    if items != [] {
      SelectIds(items[1..], keep);
      assert Ids(items) == {items[0].id} + Ids(items[1..]) by {
        forall x | x in Ids(items[1..]) ensures x in Ids(items) {
          var i :| 0 <= i < |items[1..]| && items[1..][i].id == x;
          assert items[i + 1].id == x;
        }
        assert items[0].id in Ids(items);
      }
      assert UniqueIds(items) ==> items[0].id !in Ids(items[1..]);
    }
  }

  /** `out` lists the visited part of the table, each item once. */
  predicate Walked(table: Table, visited: set<JobId>, out: seq<Item>) {
    && visited == Ids(out) && UniqueIds(out)
    && forall i :: 0 <= i < |out| ==> out[i].id in table && table[out[i].id] == out[i]
  }

  lemma IdsConcat(a: seq<Item>, b: seq<Item>)
    ensures Ids(a + b) == Ids(a) + Ids(b)
  {
    var all := a + b;
    forall x | x in Ids(a) + Ids(b) ensures x in Ids(all) {
      if x in Ids(a) {
        var i :| 0 <= i < |a| && a[i].id == x;
        assert all[i].id == x;
      } else {
        var i :| 0 <= i < |b| && b[i].id == x;
        assert all[|a| + i].id == x;
      }
    }
  }

  lemma WalkedNext(table: Table, visited: set<JobId>, out: seq<Item>, start: JobId)
    requires Indexed(table) && Walked(table, visited, out)
    ensures var p := Path(table, start, visited); Walked(table, visited + Ids(p), out + p)
    ensures start in table ==> start in visited + Ids(Path(table, start, visited))
  {
    var p := Path(table, start, visited);
    PathFresh(table, start, visited);
    IdsConcat(out, p);
    forall i, k | 0 <= i < k < |out + p| ensures (out + p)[i].id != (out + p)[k].id {
      if i < |out| <= k { assert out[i].id in Ids(out); }
    }
  }

  /** Walks from every start in turn, behind what was listed before. */
  function Walks(table: Table, starts: seq<JobId>, out: seq<Item>): seq<Item> {
    if starts == [] then out
    else
      var before := Walks(table, starts[..|starts| - 1], out);
      before + Path(table, starts[|starts| - 1], Ids(before))
  }

  lemma NoMoreWalks(table: Table, out: seq<Item>)
    ensures Walks(table, [], out) == out
  {
  }

  lemma WalksNext(table: Table, starts: seq<JobId>, k: nat, out: seq<Item>)
    requires k < |starts|
    ensures var before := Walks(table, starts[..k], out);
            Walks(table, starts[..k + 1], out) == before + Path(table, starts[k], Ids(before))
  {
    assert starts[..k + 1][..k] == starts[..k];
  }

  method WalkAll(table: Table, starts: seq<JobId>, visited0: set<JobId>, out0: seq<Item>)
    returns (visited: set<JobId>, out: seq<Item>)
    requires Indexed(table) && Walked(table, visited0, out0)
    requires forall k :: 0 <= k < |starts| ==> starts[k] in table
    ensures Walked(table, visited, out) && visited0 <= visited
    ensures forall k :: 0 <= k < |starts| ==> starts[k] in visited
    ensures out == Walks(table, starts, out0)
  {
    hide Path;
    visited, out := visited0, out0;
    for k := 0 to |starts|
      invariant Walked(table, visited, out) && visited0 <= visited
      invariant forall i :: 0 <= i < k ==> starts[i] in visited
      invariant out == Walks(table, starts[..k], out0)
    {
      WalksNext(table, starts, k, out0);
      WalkedNext(table, visited, out, starts[k]);
      visited, out := WalkChain(table, starts[k], visited, out);
    }
    assert starts[..|starts|] == starts;
  }

  lemma WalkOne(table: Table, start: JobId)
    ensures Walks(table, [start], []) == Path(table, start, {})
  {
    assert [start][..0] == [];
    assert Ids([]) == {};
  }

  lemma {:induction false} CardIds(items: seq<Item>)
    requires UniqueIds(items)
    ensures |Ids(items)| == |items|
  {
    if items == [] {
      assert Ids(items) == {};
    } else {
      var last := |items| - 1;
      CardIds(items[..last]);
      IdsAppend(items[..last], items[last]);
      assert items == items[..last] + [items[last]];
      assert items[last].id !in Ids(items[..last]);
    }
  }

  lemma SubsetSame(a: set<JobId>, b: set<JobId>)
    requires a <= b && |a| == |b|
    ensures a == b
  {
    assert b == a + (b - a);
    assert |b| == |a| + |b - a|;
  }

  lemma Predecessor(items: seq<Item>, c: seq<Item>, k: nat)
    requires OneChain(items, c) && 0 < k < |c|
    ensures PointedTo(items, c[k].id)
  {
    assert NextAt(c, k - 1);
    var i :| 0 <= i < |items| && items[i] == c[k - 1];
  }

  /** Only the first item of a complete chain is not pointed to. */
  lemma ChainHead(items: seq<Item>, c: seq<Item>, id: JobId)
    requires UniqueIds(items) && OneChain(items, c) && 0 < |c| && id in Ids(items) && !PointedTo(items, id)
    ensures id == c[0].id
  {
    var m :| 0 <= m < |items| && items[m].id == id;
    ChainCovers(items, c, items[m]);
    var k :| 0 <= k < |c| && c[k] == items[m];
    if k > 0 { Predecessor(items, c, k); }
  }

  lemma NextIsNotHead(items: seq<Item>, c: seq<Item>, i: nat)
    requires UniqueIds(items) && OneChain(items, c) && i < |items|
    ensures items[i].next != Some(c[0].id)
  {
    ChainCovers(items, c, items[i]);
    var k :| 0 <= k < |c| && c[k] == items[i];
    assert NextAt(c, k);
  }

  lemma ChainHeadFree(items: seq<Item>, c: seq<Item>)
    requires UniqueIds(items) && OneChain(items, c) && 0 < |c|
    ensures c[0].id in Ids(items) && !PointedTo(items, c[0].id)
  {
    assert c[0] in items;
    var j :| 0 <= j < |items| && items[j] == c[0];
    assert items[j].id in Ids(items);
    forall i | 0 <= i < |items| ensures items[i].next != Some(c[0].id) {
      NextIsNotHead(items, c, i);
    }
  }

  lemma ChainCovers(items: seq<Item>, c: seq<Item>, item: Item)
    requires UniqueIds(items) && OneChain(items, c) && item in items
    ensures item in c
  {
    var i :| 0 <= i < |items| && items[i] == item;
    assert item.id in Ids(items);
    CardIds(c);
    CardIds(items);
    assert Ids(c) <= Ids(items);
    SubsetSame(Ids(c), Ids(items));
    var k :| 0 <= k < |c| && c[k].id == item.id;
    var m :| 0 <= m < |items| && items[m] == c[k];
  }

  /** Walking from the only head of a complete chain lists the chain. */
  lemma HeadPath(items: seq<Item>, table: Table, c: seq<Item>)
    requires UniqueIds(items) && TableOf(items, table) && OneChain(items, c) && 0 < |c|
    ensures Path(table, c[0].id, {}) == c
  {
    forall k | 0 <= k < |c| ensures c[k].id in table && table[c[k].id] == c[k] {
      var i :| 0 <= i < |items| && items[i] == c[k];
    }
    PathIsChain(table, c, 0);
    assert c[..0] == [];
    assert Ids(c[..0]) == {};
  }

  lemma OneHead(items: seq<Item>, heads: seq<JobId>, c: seq<Item>)
    requires UniqueIds(items) && OneChain(items, c) && 0 < |c|
    requires forall id :: id in heads <==> id in Ids(items) && !PointedTo(items, id)
    requires forall i, k :: 0 <= i < k < |heads| ==> heads[i] != heads[k]
    ensures heads == [c[0].id]
  {
    ChainHeadFree(items, c);
    forall i | 0 <= i < |heads| ensures heads[i] == c[0].id {
      ChainHead(items, c, heads[i]);
    }
    assert c[0].id in heads;
    OneElement(heads, c[0].id);
  }

  lemma OneElement(s: seq<JobId>, x: JobId)
    requires x in s && forall i :: 0 <= i < |s| ==> s[i] == x
    requires forall i, k :: 0 <= i < k < |s| ==> s[i] != s[k]
    ensures s == [x]
  {
    assert s[|s| - 1] == s[0];
  }

  lemma SortOne(id: JobId)
    ensures SortIds([id]) == [id]
  {
    assert SortIds([]) == [];
  }

  /** On a complete chain the walks start at its first item and list it. */
  lemma ChainStarts(items: seq<Item>, table: Table, heads: seq<JobId>)
    requires 0 < |items| && UniqueIds(items) && TableOf(items, table)
    requires forall id :: id in heads <==> id in Ids(items) && !PointedTo(items, id)
    requires forall i, k :: 0 <= i < k < |heads| ==> heads[i] != heads[k]
    ensures forall c: seq<Item> :: OneChain(items, c) ==> Walks(table, SortIds(heads), []) == c
  {
    forall c: seq<Item> | OneChain(items, c) ensures Walks(table, SortIds(heads), []) == c {
      OneHead(items, heads, c);
      SortOne(c[0].id);
      HeadPath(items, table, c);
      WalkOne(table, c[0].id);
    }
  }

  lemma WalkedAll(items: seq<Item>, table: Table, visited: set<JobId>, out: seq<Item>)
    requires UniqueIds(items) && TableOf(items, table) && Walked(table, visited, out)
    ensures forall i :: 0 <= i < |out| ==> out[i] in items
    ensures visited == Ids(items) ==> |out| == |items|
  {
    forall i | 0 <= i < |out| ensures out[i] in items {
      assert out[i].id in Ids(items);
      var k :| 0 <= k < |items| && items[k].id == out[i].id;
    }
    CardIds(out);
    CardIds(items);
  }

  method Heads(items: seq<Item>, table: Table) returns (heads: seq<JobId>)
    requires UniqueIds(items) && TableOf(items, table)
    ensures forall id :: id in heads <==> id in Ids(items) && !PointedTo(items, id)
    ensures forall i, k :: 0 <= i < k < |heads| ==> heads[i] != heads[k]
  {
    var count := CountPredecessors(items, table);
    heads := Select(items, id => id in count && count[id] == 0);
    SelectIds(items, id => id in count && count[id] == 0);
  }

  lemma ShortChain(items: seq<Item>)
    requires |items| <= 1
    ensures forall c: seq<Item> :: OneChain(items, c) ==> items == c
  {
    forall c: seq<Item> | OneChain(items, c) ensures items == c {
      assert |c| == 1 ==> c[0] in items;
    }
  }

  // ---------------------------------------------------------------- what the order depends on

  predicate Ascending(ids: seq<JobId>) {
    forall i, k :: 0 <= i < k < |ids| ==> ids[i] < ids[k]
  }

  predicate Distinct(ids: seq<JobId>) {
    forall i, k :: 0 <= i < k < |ids| ==> ids[i] != ids[k]
  }

  lemma {:induction false} DistinctCounts(ids: seq<JobId>, x: JobId)
    ensures Distinct(ids) ==> multiset(ids)[x] <= 1
    ensures forall i, k :: 0 <= i < k < |ids| && ids[i] == ids[k] == x ==> multiset(ids)[x] >= 2
  {
    if ids != [] {
      var front, last := ids[..|ids| - 1], ids[|ids| - 1];
      assert ids == front + [last];
      DistinctCounts(front, x);
      assert forall i :: 0 <= i < |front| && front[i] == x ==> x in multiset(front);
      assert x in multiset(front) ==> x in front;
    }
  }

  lemma SortAscends(ids: seq<JobId>)
    requires Distinct(ids)
    ensures Ascending(SortIds(ids))
  {
    var s := SortIds(ids);
    forall i, k | 0 <= i < k < |s| ensures s[i] < s[k] {
      DistinctCounts(ids, s[i]);
      DistinctCounts(s, s[i]);
    }
  }

  ghost predicate IsTarget(table: Table, id: JobId) {
    exists k :: k in table && table[k].next == Some(id)
  }

  /** The items nothing points to, in id order. */
  ghost predicate AreHeads(table: Table, heads: seq<JobId>) {
    Ascending(heads) && forall id :: id in heads <==> id in table && !IsTarget(table, id)
  }

  /** What the walks from the heads did not reach, in id order. */
  ghost predicate AreRest(table: Table, heads: seq<JobId>, rest: seq<JobId>) {
    Ascending(rest) && forall id :: id in rest <==> id in table && id !in Ids(Walks(table, heads, []))
  }

  /** The walks from the heads, then from the rest: an order that depends on the table only. */
  ghost predicate Listed(table: Table, out: seq<Item>) {
    exists heads, rest ::
      AreHeads(table, heads) && AreRest(table, heads, rest) && out == Walks(table, rest, Walks(table, heads, []))
  }

  lemma TargetsOf(items: seq<Item>, table: Table, id: JobId)
    requires TableOf(items, table)
    ensures PointedTo(items, id) <==> IsTarget(table, id)
  {
    if PointedTo(items, id) {
      var i :| 0 <= i < |items| && items[i].next == Some(id);
      assert table[items[i].id].next == Some(id);
    }
    if IsTarget(table, id) {
      var k :| k in table && table[k].next == Some(id);
      var i :| 0 <= i < |items| && items[i].id == k;
      assert items[i].next == Some(id);
    }
  }

  lemma HeadsListed(items: seq<Item>, table: Table, heads: seq<JobId>)
    requires TableOf(items, table) && Distinct(heads)
    requires forall id :: id in heads <==> id in Ids(items) && !PointedTo(items, id)
    ensures AreHeads(table, SortIds(heads))
  {
    SortAscends(heads);
    SortKeeps(heads);
    forall id ensures id in SortIds(heads) <==> id in table && !IsTarget(table, id) {
      TargetsOf(items, table, id);
    }
  }

  /** Items that no head leads to, on cycles, are listed last. */
  method WalkRemaining(items: seq<Item>, table: Table, visited0: set<JobId>, out0: seq<Item>)
    returns (out: seq<Item>, ghost rest: seq<JobId>)
    requires UniqueIds(items) && TableOf(items, table) && Walked(table, visited0, out0)
    ensures AllOnce(items, out) && out == Walks(table, rest, out0)
    ensures Ascending(rest) && forall id :: id in rest <==> id in table && id !in Ids(out0)
  {
    hide Path, Walks, SortIds, Select;
    var remaining := Select(items, id => id !in visited0);
    SelectIds(items, id => id !in visited0);
    SortKeeps(remaining);
    SortAscends(remaining);
    rest := SortIds(remaining);
    var visited;
    visited, out := WalkAll(table, SortIds(remaining), visited0, out0);
    forall id | id in Ids(items) ensures id in visited {
      assert id in visited0 || id in SortIds(remaining);
    }
    WalkedAll(items, table, visited, out);
  }

  lemma ShortListed(items: seq<Item>, table: Table)
    requires |items| <= 1 && TableOf(items, table)
    ensures Listed(table, items)
  {
    if items == [] {
      assert Ids(items) == {};
      assert AreHeads(table, []) && AreRest(table, [], []);
      assert Walks(table, [], Walks(table, [], [])) == [];
    } else {
      var item := items[0];
      assert items == [item] && Ids(items) == {item.id};
      OneListed(table, item);
    }
  }

  lemma OneListed(table: Table, item: Item)
    requires table == map[item.id := item]
    ensures Listed(table, [item])
  {
    var id := item.id;
    WalkOne(table, id);
    assert Path(table, id, {}) == [item];
    if item.next == Some(id) {
      assert IsTarget(table, id);
      assert AreHeads(table, []) && AreRest(table, [], [id]);
      assert Walks(table, [id], Walks(table, [], [])) == [item];
    } else {
      assert AreHeads(table, [id]);
      assert [item][0].id == id && Ids([item]) == {id};
      assert AreRest(table, [id], []);
      assert Walks(table, [], Walks(table, [id], [])) == [item];
    }
  }

  lemma NothingRemains(items: seq<Item>, table: Table, visited: set<JobId>, out: seq<Item>)
    requires UniqueIds(items) && TableOf(items, table) && Walked(table, visited, out) && |out| == |items|
    ensures forall id :: id in table ==> id in Ids(out)
  {
    CardIds(out);
    CardIds(items);
    assert Ids(out) <= Ids(items);
    SubsetSame(Ids(out), Ids(items));
  }

  /**
    Whatever the links are, every item is listed once, in an order that depends on the items only and not on how
    they are listed; a complete chain is listed in its order.
   */
  method Order(items: seq<Item>) returns (out: seq<Item>)
    requires UniqueIds(items)
    ensures AllOnce(items, out)
    ensures forall c: seq<Item> :: OneChain(items, c) ==> out == c
    ensures forall table :: TableOf(items, table) ==> Listed(table, out)
  {
    hide Path, Walks, SortIds;
    if |items| <= 1 {
      ShortChain(items);
      forall table | TableOf(items, table) ensures Listed(table, items) { ShortListed(items, table); }
      return items;
    }
    var table := BuildTable(items);
    forall t | TableOf(items, t) ensures t == table { SameTable(items, items, t, table); }
    var heads := Heads(items, table);
    ChainStarts(items, table, heads);
    HeadsListed(items, table, heads);
    SortKeeps(heads);
    var visited;
    visited, out := WalkAll(table, SortIds(heads), {}, []);
    WalkedAll(items, table, visited, out);
    ghost var rest: seq<JobId> := [];
    if |out| != |items| {
      out, rest := WalkRemaining(items, table, visited, out);
    } else {
      NothingRemains(items, table, visited, out);
      NoMoreWalks(table, out);
    }
    assert AreRest(table, SortIds(heads), rest);
  }

  // ---------------------------------------------------------------- the order is deterministic

  lemma TailMembers(ids: seq<JobId>, id: JobId)
    requires Ascending(ids) && ids != []
    ensures id in ids[1..] <==> id in ids && id != ids[0]
    ensures id in ids ==> ids[0] <= id
  {
    assert ids == [ids[0]] + ids[1..];
  }

  lemma {:induction false} SameAscending(a: seq<JobId>, b: seq<JobId>)
    requires Ascending(a) && Ascending(b) && forall id :: id in a <==> id in b
    ensures a == b
    decreases |a|
  {
    assert a != [] ==> a[0] in a;
    assert b != [] ==> b[0] in b;
    if a != [] && b != [] {
      TailMembers(a, b[0]);
      TailMembers(b, a[0]);
      forall id ensures id in a[1..] <==> id in b[1..] {
        TailMembers(a, id);
        TailMembers(b, id);
      }
      SameAscending(a[1..], b[1..]);
      assert a == [a[0]] + a[1..] && b == [b[0]] + b[1..];
    }
  }

  lemma ListedOnce(table: Table, out: seq<Item>, out': seq<Item>)
    requires Listed(table, out) && Listed(table, out')
    ensures out == out'
  {
    var heads, rest :| AreHeads(table, heads) && AreRest(table, heads, rest) &&
      out == Walks(table, rest, Walks(table, heads, []));
    var heads', rest' :| AreHeads(table, heads') && AreRest(table, heads', rest') &&
      out' == Walks(table, rest', Walks(table, heads', []));
    SameAscending(heads, heads');
    SameAscending(rest, rest');
  }

  lemma SameTable(items: seq<Item>, items': seq<Item>, table: Table, table': Table)
    requires TableOf(items, table) && TableOf(items', table') && forall item :: item in items <==> item in items'
    ensures table == table'
  {
    forall i | 0 <= i < |items| ensures items[i].id in table' && table'[items[i].id] == items[i] {
      assert items[i] in items';
    }
    forall i | 0 <= i < |items'| ensures items'[i].id in table && table[items'[i].id] == items'[i] {
      assert items'[i] in items;
    }
    forall id ensures id in table <==> id in table' {
      assert id in table <==> id in Ids(items);
      assert id in table' <==> id in Ids(items');
    }
    forall id | id in table ensures table[id] == table'[id] {
      assert id in Ids(items);
    }
  }

  /** Two listings of the same items are put into the same order, also when the links form no chain. */
  lemma OrderIsDeterministic(items: seq<Item>, items': seq<Item>, table: Table, table': Table, out: seq<Item>,
                             out': seq<Item>)
    requires (forall item :: item in items <==> item in items') && TableOf(items, table) && TableOf(items', table')
    requires Listed(table, out) && Listed(table', out')
    ensures out == out'
  {
    SameTable(items, items', table, table');
    ListedOnce(table, out, out');
  }
}
