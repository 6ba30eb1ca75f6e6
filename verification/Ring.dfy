/** The fixed-capacity circular buffer of a stream's history. */
module Ring {
  import opened Events

  /** The last `n` elements, all of them when there are fewer. */
  function LastN<T>(s: seq<T>, n: nat): (r: seq<T>)
    ensures |r| <= n && |r| <= |s|
  {
    if |s| <= n then s else s[|s| - n..]
  }

  /** The events whose id is above `since`, in order. */
  function After(events: seq<Event>, since: int): (r: seq<Event>)
    ensures |r| <= |events|
  {
    if events == [] then []
    else
      var front := After(events[..|events| - 1], since);
      if events[|events| - 1].id > since then front + [events[|events| - 1]] else front
  }

  /** The index `i` of a circular buffer, for an index that overshoots by less than one turn. */
  function Wrap(i: nat, cap: nat): (r: nat)
    requires i < 2 * cap
    ensures r < cap
  {
    if i < cap then i else i - cap
  }

  lemma ModIsWrap(i: nat, cap: nat)
    requires i < 2 * cap
    ensures i % cap == Wrap(i, cap)
  {
    var q := i / cap;
    assert i == q * cap + i % cap;
    if q >= 2 { TwoTurns(q, cap); } else { assert q == 0 || q == 1; }
  }

  lemma TwoTurns(q: nat, cap: nat)
    requires q >= 2
    ensures q * cap >= 2 * cap
  {
  }

  /** The position of the i-th oldest of `len` elements when the next write goes to `head`. */
  function Position(cap: nat, head: nat, len: nat, i: nat): (p: nat)
    requires head < cap && len <= cap && i < cap
    ensures p < cap
  {
    Wrap(Wrap(head + cap - len, cap) + i, cap)
  }

  /** The elements in insertion order. */
  function Unrolled(items: seq<Event>, head: nat, len: nat): (r: seq<Event>)
    requires head < |items| && len <= |items|
    ensures |r| == len
  {
    seq(len, i requires 0 <= i < len => items[Position(|items|, head, len, i)])
  }

  lemma UnrolledAt(items: seq<Event>, head: nat, len: nat)
    requires head < |items| && len <= |items|
    ensures forall i :: 0 <= i < len ==> Unrolled(items, head, len)[i] == items[Position(|items|, head, len, i)]
  {
  }

  lemma PushGrows(items: seq<Event>, head: nat, len: nat, evt: Event)
    requires head < |items| && len < |items|
    ensures Unrolled(items[head := evt], Wrap(head + 1, |items|), len + 1) == Unrolled(items, head, len) + [evt]
  {
    UnrolledAt(items, head, len);
    UnrolledAt(items[head := evt], Wrap(head + 1, |items|), len + 1);
  }

  lemma PushReplaces(items: seq<Event>, head: nat, evt: Event)
    requires head < |items|
    ensures Unrolled(items[head := evt], Wrap(head + 1, |items|), |items|) ==
      Unrolled(items, head, |items|)[1..] + [evt]
  {
    UnrolledAt(items, head, |items|);
    UnrolledAt(items[head := evt], Wrap(head + 1, |items|), |items|);
  }

  lemma PushUnrolled(items: seq<Event>, head: nat, len: nat, evt: Event)
    requires head < |items| && len <= |items|
    ensures Unrolled(items[head := evt], Wrap(head + 1, |items|), if len < |items| then len + 1 else len)
         == LastN(Unrolled(items, head, len) + [evt], |items|)
  {
    if len < |items| { PushGrows(items, head, len, evt); } else { PushReplaces(items, head, evt); }
  }

  lemma AfterNext(events: seq<Event>, i: nat, since: int)
    requires i < |events|
    ensures After(events[..i + 1], since) ==
      if events[i].id > since then After(events[..i], since) + [events[i]] else After(events[..i], since)
  {
    assert events[..i + 1][..i] == events[..i];
  }

  /** The index after `i`. */
  method Advance(i: nat, cap: nat) returns (r: nat)
    requires i < cap
    ensures r == Wrap(i + 1, cap)
  {
    ModIsWrap(i + 1, cap);
    r := (i + 1) % cap;
  }

  class Buffer {
    var items: array<Event>
    var head: nat
    var len: nat

    ghost predicate Valid()
      reads this
    {
      0 < items.Length && head < items.Length && len <= items.Length
    }

    ghost function Contents(): (r: seq<Event>)
      requires Valid()
      reads this, items
      ensures |r| == len
    {
      Unrolled(items[..], head, len)
    }

    constructor (capacity: int)
      ensures Valid() && fresh(items) && Contents() == []
      ensures items.Length == if capacity <= 0 then 1 else capacity
    {
      var n: nat := if capacity <= 0 then 1 else capacity;
      items := new Event[n](_ => Event(0, "", ""));
      head, len := 0, 0;
    }

    method Push(evt: Event)
      requires Valid()
      modifies this, items
      ensures Valid() && items == old(items)
      ensures Contents() == LastN(old(Contents()) + [evt], items.Length)
    {
      hide Unrolled, LastN;
      items[head] := evt;
      head := Advance(head, items.Length);
      if len < items.Length {
        len := len + 1;
      }
      PushUnrolled(old(items[..]), old(head), old(len), evt);
      assert items[..] == old(items[..])[old(head) := evt];
    }

    /** The index of the oldest element. */
    method Oldest() returns (i: nat)
      requires Valid()
      ensures i == Wrap(head + items.Length - len, items.Length)
    {
      ModIsWrap(head + items.Length - len, items.Length);
      i := (head - len + items.Length) % items.Length;
    }

    /** All elements, oldest first, copied in at most two pieces. */
    method Slice() returns (out: seq<Event>)
      requires Valid()
      ensures out == Contents()
    {
      if len == 0 {
        return [];
      }
      var start := Oldest();
      if start + len <= items.Length {
        out := items[start..start + len];
      } else {
        out := items[start..] + items[..len - (items.Length - start)];
      }
      UnrolledAt(items[..], head, len);
    }

    /** The elements above `since`, oldest first; everything when `since` is not positive. */
    method AfterId(since: int) returns (out: seq<Event>)
      requires Valid()
      ensures out == if since <= 0 then Contents() else After(Contents(), since)
    {
      if len == 0 {
        return [];
      }
      if since <= 0 {
        out := Slice();
        return;
      }
      ghost var contents := Contents();
      UnrolledAt(items[..], head, len);
      out := [];
      var idx := Oldest();
      for i := 0 to len
        invariant idx < items.Length && (i < len ==> idx == Position(items.Length, head, len, i))
        invariant out == After(contents[..i], since)
      {
        AfterNext(contents, i, since);
        var evt := items[idx];
        if evt.id > since {
          out := out + [evt];
        }
        idx := Advance(idx, items.Length);
      }
      assert contents[..len] == contents;
    }
  }

  // ---------------------------------------------------------------- any number of pushes

  /** What a buffer of capacity `cap` retains of `pushed`, one push at a time. */
  function Retained<T>(pushed: seq<T>, cap: nat): seq<T> {
    if pushed == [] then [] else LastN(Retained(pushed[..|pushed| - 1], cap) + [pushed[|pushed| - 1]], cap)
  }

  /** After any pushes the buffer holds the last `cap` of them, in order. */
  lemma {:induction false} RetainsTheLast<T>(pushed: seq<T>, cap: nat)
    ensures Retained(pushed, cap) == LastN(pushed, cap)
  {
    hide LastN;
    if pushed != [] {
      var front := pushed[..|pushed| - 1];
      RetainsTheLast(front, cap);
      LastOfLast(front, pushed[|pushed| - 1], cap);
      assert pushed == front + [pushed[|pushed| - 1]];
    }
  }

  lemma LastOfLast<T>(s: seq<T>, x: T, cap: nat)
    ensures LastN(LastN(s, cap) + [x], cap) == LastN(s + [x], cap)
  {
  }

  /** Pushing into a new buffer, as a program. */
  method PushAll(events: seq<Event>, capacity: int) returns (buffer: Buffer)
    requires capacity > 0
    ensures fresh(buffer) && fresh(buffer.items) && buffer.Valid()
    ensures buffer.Contents() == LastN(events, capacity)
  {
    buffer := new Buffer(capacity);
    for i := 0 to |events|
      invariant fresh(buffer) && fresh(buffer.items) && buffer.Valid() && buffer.items.Length == capacity
      invariant buffer.Contents() == Retained(events[..i], capacity)
    {
      assert events[..i + 1][..i] == events[..i];
      buffer.Push(events[i]);
    }
    assert events[..|events|] == events;
    RetainsTheLast(events, capacity);
  }

  // ---------------------------------------------------------------- consecutive ids

  /** The events are numbered consecutively, the last one being number `top`. */
  ghost predicate Consecutive(events: seq<Event>, top: nat) {
    |events| <= top && forall i :: 0 <= i < |events| ==> events[i].id == top - |events| + 1 + i
  }

  /** What is above `since` when the events are consecutive up to `top`. */
  function Above(events: seq<Event>, top: nat, since: int): seq<Event>
    requires |events| <= top
  {
    var skip := top - |events|;
    if since <= skip then events else if since >= top then [] else events[since - skip..]
  }

  lemma AboveNext(events: seq<Event>, top: nat, since: int)
    requires events != [] && Consecutive(events, top)
    ensures var front, last := events[..|events| - 1], events[|events| - 1];
            Consecutive(front, top - 1)
            && Above(events, top, since) == Above(front, top - 1, since) + if last.id > since then [last] else []
  {
    assert events == events[..|events| - 1] + [events[|events| - 1]];
  }

  /** On consecutive ids the filter is a suffix: the walk of `AfterId` returns an unbroken tail. */
  lemma {:induction false} AfterIsSuffix(events: seq<Event>, top: nat, since: int)
    requires Consecutive(events, top)
    ensures After(events, since) == Above(events, top, since)
  {
    hide Above, Consecutive;
    if events != [] {
      AboveNext(events, top, since);
      AfterIsSuffix(events[..|events| - 1], top - 1, since);
    } else {
      NothingAbove(top, since);
    }
  }

  lemma NothingAbove(top: nat, since: int)
    ensures Above([], top, since) == []
  {
  }
}
