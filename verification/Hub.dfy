/**
  A stream of the hub as it is updated in place, step by step as in the state machine. A channel is a handle
  into `channels`, which also keeps the channels that were closed.
 */
module Hub {
  import opened Events
  import opened Ring
  import opened HubModel

  /** Some element of a set; the order in which a map is walked is not specified. */
  method Pick(ids: set<int>) returns (id: int)
    requires ids != {}
    ensures id in ids
  {
    assert (forall i :: i !in ids) ==> ids == {};
    id :| id in ids;
  }

  /** The registered subscribers are exactly the ones with an open channel; `ids[h]` is the id of channel `h`. */
  ghost predicate Registered(subscribers: map<int, nat>, channels: seq<Sub>, ids: seq<int>, next: int) {
    && |ids| == |channels|
    && (forall h :: 0 <= h < |ids| ==> ids[h] < next && (channels[h].open <==> ids[h] in subscribers))
    && (forall h :: 0 <= h < |ids| && ids[h] in subscribers ==> subscribers[ids[h]] == h)
    && (forall id :: id in subscribers ==> id >= 0 && subscribers[id] < |ids| && ids[subscribers[id]] == id)
  }

  /** Unregistering a set of subscribers and closing their channels. */
  lemma Unregistered(subscribers: map<int, nat>, channels: seq<Sub>, channels': seq<Sub>, ids: seq<int>, next: int,
                     gone: set<int>)
    requires Registered(subscribers, channels, ids, next) && |channels'| == |channels|
    requires forall h :: 0 <= h < |ids| ==> channels'[h].open == (channels[h].open && ids[h] !in gone)
    ensures Registered(subscribers - gone, channels', ids, next)
  {
  }

  lemma Added(subscribers: map<int, nat>, channels: seq<Sub>, ids: seq<int>, next: nat, sub: Sub)
    requires Registered(subscribers, channels, ids, next)
    ensures sub.open ==> Registered(subscribers[next := |channels|], channels + [sub], ids + [next], next + 1)
    ensures !sub.open ==> Registered(subscribers, channels + [sub], ids + [next], next + 1)
    ensures !sub.open ==> Registered(subscribers, channels + [sub], ids + [-1], next)
  {
  }

  ghost predicate Positive(events: seq<Event>) {
    forall i :: 0 <= i < |events| ==> events[i].id > 0
  }

  lemma PositiveNext(events: seq<Event>, evt: Event, n: nat)
    requires Positive(events) && evt.id > 0
    ensures Positive(LastN(events + [evt], n))
  {
  }

  class Stream {
    const options: Options
    var history: Buffer
    var subscribers: map<int, nat>
    var channels: seq<Sub>
    var ids: seq<int>
    var nextEventId: nat
    var nextSubId: nat
    var closed: bool
    var resumeAttempt: int
    var resumeCount: int
    ghost var published: seq<Event>

    ghost predicate Retains()
      reads this`history, history, history.items
    {
      && history.Valid() && history.items.Length == options.history
      && Positive(history.Contents())
    }

    ghost predicate Valid()
      reads this, history, history.items
    {
      && 0 < options.buffer <= options.history
      && Retains() && |published| == nextEventId
      && Registered(subscribers, channels, ids, nextSubId)
    }

    ghost function View(): State
      requires Valid()
      reads this, history, history.items
    {
      State(published, history.Contents(), closed, resumeAttempt, resumeCount, channels)
    }

    constructor (opts: Options)
      ensures Valid() && options == Normalize(opts) && View() == NEW_STREAM
      ensures fresh(history) && fresh(history.items)
    {
      options := Normalize(opts);
      history := new Buffer(Normalize(opts).history);
      subscribers, channels, ids, nextEventId, nextSubId := map[], [], [], 0, 0;
      closed, resumeAttempt, resumeCount := false, 0, 0;
      published := [];
    }

    // -------------------------------------------------------------- channels

    /** Sending to a closed channel would panic. A full channel is closed. */
    method Send(h: nat, evt: Event) returns (ok: bool)
      requires h < |channels| && channels[h].open
      modifies this`channels
      ensures channels == old(channels)[h := Offered(old(channels)[h], evt, options.buffer)] && ok == channels[h].open
    {
      var sub := channels[h];
      if |sub.sent| - sub.got < options.buffer {
        channels := channels[h := sub.(sent := sub.sent + [evt])];
        return true;
      }
      Close(h);
      return false;
    }

    /** Closes the channel the first time only. */
    method Close(h: nat)
      requires h < |channels|
      modifies this`channels
      ensures channels == old(channels)[h := old(channels)[h].(open := false)]
    {
      if channels[h].open {
        channels := channels[h := channels[h].(open := false)];
      }
    }

    /** The consumer takes the next event, also from a closed channel that is not drained. */
    method Receive(h: nat) returns (evt: seq<Event>)
      requires Valid() && h < |channels|
      modifies this`channels
      ensures Valid() && View() == Apply(old(View()), HubModel.Receive(h), options)
      ensures evt == if old(channels)[h].got < |channels[h].sent| then [channels[h].sent[old(channels)[h].got]] else []
    {
      var sub := channels[h];
      if sub.got >= |sub.sent| {
        return [];
      }
      evt := [sub.sent[sub.got]];
      channels := channels[h := sub.(got := sub.got + 1)];
    }

    // -------------------------------------------------------------- publish

    /** Offers the event to every registered subscriber and reports those that were too slow. */
    method SendAll(evt: Event) returns (dropped: set<int>)
      requires Registered(subscribers, channels, ids, nextSubId)
      modifies this`channels
      ensures channels == OfferAll(old(channels), evt, options.buffer)
      ensures forall id :: id in dropped <==> id in subscribers && !channels[subscribers[id]].open
    {
      dropped := {};
      ghost var before := channels;
      var rest := subscribers.Keys;
      while rest != {}
        invariant rest <= subscribers.Keys && |channels| == |before|
        invariant forall h :: 0 <= h < |channels| ==>
          channels[h] == if ids[h] in rest then before[h] else Offered(before[h], evt, options.buffer)
        invariant forall id :: id in dropped <==> id in subscribers && id !in rest && !channels[subscribers[id]].open
        decreases |rest|
      {
        var id := Pick(rest);
        rest := rest - {id};
        var ok := Send(subscribers[id], evt);
        if !ok {
          dropped := dropped + {id};
        }
      }
    }

    /** Unregisters the subscribers that were too slow. */
    method Forget(dropped: set<int>)
      requires forall id :: id in dropped ==>
        id in subscribers && subscribers[id] < |channels| && !channels[subscribers[id]].open
      modifies this`subscribers, this`channels
      ensures subscribers == old(subscribers) - dropped && channels == old(channels)
    {
      var rest := dropped;
      while rest != {}
        invariant rest <= dropped && subscribers == old(subscribers) - (dropped - rest) && channels == old(channels)
        decreases |rest|
      {
        var id := Pick(rest);
        rest := rest - {id};
        var h := subscribers[id];
        subscribers := subscribers - {id};
        Close(h);
      }
      assert dropped - rest == dropped;
    }

    method Offer(evt: Event)
      requires Registered(subscribers, channels, ids, nextSubId)
      modifies this`channels, this`subscribers
      ensures Registered(subscribers, channels, ids, nextSubId)
      ensures channels == OfferAll(old(channels), evt, options.buffer)
    {
      var dropped := SendAll(evt);
      Unregistered(subscribers, old(channels), channels, ids, nextSubId, dropped);
      Forget(dropped);
    }

    /** Numbers the next event and retains it. */
    method Record(kind: string, data: string) returns (evt: Event)
      requires options.history > 0 && Retains() && |published| == nextEventId
      modifies this`nextEventId, this`published, history, history.items
      ensures Retains() && history.items == old(history.items) && |published| == nextEventId
      ensures evt == Event(|old(published)| + 1, kind, data) && published == old(published) + [evt]
      ensures history.Contents() == LastN(old(history.Contents()) + [evt], options.history)
    {
      nextEventId := nextEventId + 1;
      evt := Event(nextEventId, kind, data);
      published := published + [evt];
      PositiveNext(history.Contents(), evt, options.history);
      history.Push(evt);
    }

    method Publish(kind: string, data: string) returns (ok: bool)
      requires Valid()
      modifies this`nextEventId, this`published, this`subscribers, this`channels, history, history.items
      ensures Valid() && history.items == old(history.items) && ok == !closed
      ensures View() == Apply(old(View()), HubModel.Publish(kind, data), options)
      ensures View().published ==
        old(View()).published + if ok then [Event(|old(View()).published| + 1, kind, data)] else []
      ensures !ok ==> View() == old(View())
    {
      if closed {
        return false;
      }
      var evt := Record(kind, data);
      Offer(evt);
      return true;
    }

    // -------------------------------------------------------------- subscribe and drop

    /** Sends the replayed history until the channel is full. */
    method Replay(h: nat, replay: seq<Event>) returns (ok: bool)
      requires h < |channels| && channels[h].open && channels[h].sent == [] && channels[h].got == 0
      requires options.buffer > 0
      modifies this`channels
      ensures ok == (|replay| <= options.buffer)
      ensures channels == old(channels)[h :=
        old(channels)[h].(sent := if ok then replay else replay[..options.buffer], open := ok)]
    {
      for i := 0 to |replay|
        invariant i <= options.buffer && channels == old(channels)[h := old(channels)[h].(sent := replay[..i])]
      {
        assert replay[..i + 1] == replay[..i] + [replay[i]];
        ok := Send(h, replay[i]);
        if !ok {
          return false;
        }
      }
      assert replay[..|replay|] == replay;
      return true;
    }

    /** A new channel, registered unless the stream is closed. */
    method Register(from: nat) returns (id: int)
      requires Registered(subscribers, channels, ids, nextSubId)
      modifies this`channels, this`subscribers, this`ids, this`nextSubId
      ensures channels == old(channels) + [Sub(from, [], 0, true)]
      ensures ids == old(ids) + [id] && nextSubId == old(nextSubId) + if closed then 0 else 1
      ensures if closed then id == -1 && subscribers == old(subscribers)
              else id == old(nextSubId) && subscribers == old(subscribers)[id := |old(channels)|]
    {
      id := -1;
      if !closed {
        id := nextSubId;
        nextSubId := nextSubId + 1;
        subscribers := subscribers[id := |channels|];
      }
      channels, ids := channels + [Sub(from, [], 0, true)], ids + [id];
    }

    /** Registers a consumer and sends it the replay; a replay that does not fit drops it again. */
    method Join(replay: seq<Event>)
      requires Registered(subscribers, channels, ids, nextSubId) && options.buffer > 0
      modifies this`channels, this`subscribers, this`ids, this`nextSubId
      ensures Registered(subscribers, channels, ids, nextSubId)
      ensures
        var from := if |replay| <= nextEventId then nextEventId - |replay| else 0;
        var fits := |replay| <= options.buffer;
        channels == old(channels) + [Sub(from, if fits then replay else replay[..options.buffer], 0, fits && !closed)]
    {
      var h := |channels|;
      var from := if |replay| <= nextEventId then nextEventId - |replay| else 0;
      var id := Register(from);
      var fits := Replay(h, replay);
      ghost var sent := if fits then replay else replay[..options.buffer];
      assert channels == old(channels) + [Sub(from, sent, 0, fits)];
      if !fits && id >= 0 {
        assert id !in old(subscribers);
        Drop(id);
        assert subscribers == old(subscribers);
      }
      if closed {
        Close(h);
      }
      assert channels == old(channels) + [Sub(from, sent, 0, fits && !closed)];
      Added(old(subscribers), old(channels), old(ids), old(nextSubId), Sub(from, sent, 0, fits && !closed));
    }

    /** Subscribes after `since`; a negative one is refused. */
    method Subscribe(since: int) returns (h: nat, ok: bool)
      requires Valid()
      modifies this`channels, this`subscribers, this`ids, this`nextSubId
      ensures Valid() && ok == (since >= 0) && h == |old(channels)|
      ensures View() == Apply(old(View()), HubModel.Subscribe(since), options)
    {
      hide Ring.After;
      h := |channels|;
      if since < 0 {
        return h, false;
      }
      var replay := history.AfterId(since);
      AllAfter(history.Contents(), since);
      Join(replay);
      return h, true;
    }

    /** An id that is not registered, or no longer, is ignored. */
    method Drop(id: int)
      requires id in subscribers ==> id >= 0 && subscribers[id] < |channels|
      modifies this`channels, this`subscribers
      ensures subscribers == old(subscribers) - {id}
      ensures id !in old(subscribers) ==> channels == old(channels)
      ensures id in old(subscribers) ==>
        channels == old(channels)[old(subscribers)[id] := old(channels)[old(subscribers)[id]].(open := false)]
    {
      if id < 0 {
        assert subscribers == subscribers - {id};
        return;
      }
      if id in subscribers {
        var h := subscribers[id];
        subscribers := subscribers - {id};
        Close(h);
      }
    }

    /** Cancel of a subscription through the id it was given. */
    method Cancel(h: nat)
      requires Valid() && h < |channels|
      modifies this`channels, this`subscribers
      ensures Valid() && View() == Apply(old(View()), HubModel.Cancel(h), options)
    {
      Drop(ids[h]);
      assert channels == old(channels)[h := old(channels)[h].(open := false)];
      Unregistered(old(subscribers), old(channels), channels, ids, nextSubId, {ids[h]});
    }

    // -------------------------------------------------------------- finish and resume

    method Finish()
      requires Valid()
      modifies this`closed, this`subscribers, this`channels
      ensures Valid() && View() == Apply(old(View()), HubModel.Finish, options)
    {
      if closed {
        return;
      }
      closed := true;
      CloseRegistered();
    }

    method CloseRegistered()
      requires Registered(subscribers, channels, ids, nextSubId)
      modifies this`subscribers, this`channels
      ensures subscribers == map[] && channels == CloseAll(old(channels))
    {
      while subscribers.Keys != {}
        invariant Registered(subscribers, channels, ids, nextSubId)
        invariant |channels| == |old(channels)|
        invariant forall h :: 0 <= h < |channels| ==> channels[h].(open := false) == old(channels)[h].(open := false)
        decreases |subscribers.Keys|
      {
        var id := Pick(subscribers.Keys);
        ghost var before, was := channels, subscribers;
        assert (subscribers - {id}).Keys == subscribers.Keys - {id};
        Drop(id);
        Unregistered(was, before, channels, ids, nextSubId, {id});
      }
    }

    /** A notice of a later generation reopens the stream with an empty history; event ids go on. */
    method Resume(attempt: int, count: int)
      requires Valid()
      modifies this`resumeAttempt, this`resumeCount, this`closed, this`history
      ensures Valid() && (history == old(history) || (fresh(history) && fresh(history.items)))
      ensures View() == Apply(old(View()), HubModel.Resume(attempt, count), options)
    {
      if count <= 0 {
        return;
      }
      if attempt < resumeAttempt || (attempt == resumeAttempt && count <= resumeCount) {
        return;
      }
      resumeAttempt, resumeCount := attempt, count;
      closed := false;
      history := new Buffer(options.history);
    }
  }

  /** Event ids are positive, so asking for everything after 0 is asking for everything. */
  lemma {:induction false} AllAfter(events: seq<Event>, since: int)
    requires Positive(events)
    ensures since <= 0 ==> After(events, since) == events
  {
    if events != [] {
      AllAfter(events[..|events| - 1], since);
    }
  }
}
