/**
  A stream of the hub as a state machine: each method is one step, and a consumer may drain its channel between
  any two of them. Every subscriber that ever existed is kept, so that what was sent to it stays visible.
 */
module HubModel {
  import opened Events
  import opened Ring

  datatype Options = Options(buffer: int, history: int)

  /** Defaults for missing sizes; the history is never smaller than a subscriber's buffer. */
  function Normalize(o: Options): (r: Options)
    ensures 0 < r.buffer <= r.history
    ensures 0 < o.buffer <= o.history ==> r == o
    ensures r.buffer == if o.buffer > 0 then o.buffer else 32
    ensures r.history > r.buffer ==> r.history == o.history || (o.history <= 0 && r.history == 256)
  {
    var buffer := if o.buffer <= 0 then 32 else o.buffer;
    var history := if o.history <= 0 then 256 else o.history;
    Options(buffer, if history < buffer then buffer else history)
  }

  /**
    A subscriber: the number of events published before the first one meant for it, what was sent to its
    channel, how much of that its consumer has taken out, and whether it is registered with an open channel.
   */
  datatype Sub = Sub(from: nat, sent: seq<Event>, got: nat, open: bool)

  /** `published` is everything ever published; its length is the last event id given out. */
  datatype State = State(published: seq<Event>, history: seq<Event>, closed: bool, attempt: int, count: int,
                         subs: seq<Sub>)

  const NEW_STREAM := State([], [], false, 0, 0, [])

  datatype Step =
    | Publish(kind: string, data: string)
    | Subscribe(since: int)
    | Cancel(sub: nat)
    | Finish
    | Resume(attempt: int, count: int)
    | Receive(sub: nat)

  /** A full channel is closed instead of waited for. */
  function Offered(sub: Sub, evt: Event, buffer: int): Sub {
    if !sub.open then sub
    else if |sub.sent| - sub.got < buffer then sub.(sent := sub.sent + [evt])
    else sub.(open := false)
  }

  function OfferAll(subs: seq<Sub>, evt: Event, buffer: int): (r: seq<Sub>)
    ensures |r| == |subs| && forall i :: 0 <= i < |r| ==> r[i] == Offered(subs[i], evt, buffer)
  {
    seq(|subs|, i requires 0 <= i < |subs| => Offered(subs[i], evt, buffer))
  }

  function CloseAll(subs: seq<Sub>): (r: seq<Sub>)
    ensures |r| == |subs| && forall i :: 0 <= i < |r| ==> r[i] == subs[i].(open := false)
  {
    seq(|subs|, i requires 0 <= i < |subs| => subs[i].(open := false))
  }

  function NextEvent(s: State, kind: string, data: string): Event {
    Event(|s.published| + 1, kind, data)
  }

  /** The replayed history must fit the new channel; a subscriber of a closed stream gets the replay only. */
  function Joined(s: State, since: int, buffer: int): Sub
    requires buffer > 0
  {
    var replay := After(s.history, since);
    var fits := |replay| <= buffer;
    Sub(if |replay| <= |s.published| then |s.published| - |replay| else 0,
        if fits then replay else replay[..buffer], 0, fits && !s.closed)
  }

  predicate Older(attempt: int, count: int, s: State) {
    attempt < s.attempt || (attempt == s.attempt && count <= s.count)
  }

  function Apply(s: State, e: Step, o: Options): State
    requires o.buffer > 0 && o.history > 0
  {
    match e
    case Publish(kind, data) =>
      if s.closed then s
      else
        var evt := NextEvent(s, kind, data);
        s.(published := s.published + [evt], history := LastN(s.history + [evt], o.history),
           subs := OfferAll(s.subs, evt, o.buffer))
    case Subscribe(since) =>
      if since < 0 then s else s.(subs := s.subs + [Joined(s, since, o.buffer)])
    case Cancel(k) =>
      if k < |s.subs| then s.(subs := s.subs[k := s.subs[k].(open := false)]) else s
    case Finish =>
      if s.closed then s else s.(closed := true, subs := CloseAll(s.subs))
    case Resume(attempt, count) =>
      if count <= 0 || Older(attempt, count, s) then s
      else s.(attempt := attempt, count := count, closed := false, history := [])
    case Receive(k) =>
      if k < |s.subs| && s.subs[k].got < |s.subs[k].sent|
      then s.(subs := s.subs[k := s.subs[k].(got := s.subs[k].got + 1)])
      else s
  }

  function At(run: seq<Step>, n: nat, o: Options): State
    requires n <= |run| && o.buffer > 0 && o.history > 0
  {
    if n == 0 then NEW_STREAM else Apply(At(run, n - 1, o), run[n - 1], o)
  }

  // ---------------------------------------------------------------- delivery

  /** What a subscriber was sent is an unbroken stretch of what was published, up to the newest while it is open. */
  predicate Delivered(s: State, sub: Sub, buffer: int) {
    && sub.from + |sub.sent| <= |s.published|
    && sub.sent == s.published[sub.from..sub.from + |sub.sent|]
    && sub.got <= |sub.sent| <= sub.got + buffer
    && (sub.open ==> !s.closed && sub.from + |sub.sent| == |s.published|)
  }

  ghost predicate Inv(s: State, o: Options) {
    && (forall k :: 0 <= k < |s.published| ==> s.published[k].id == k + 1)
    && |s.history| <= |s.published| && s.history == s.published[|s.published| - |s.history|..]
    && (forall k :: 0 <= k < |s.subs| ==> Delivered(s, s.subs[k], o.buffer))
  }

  lemma PublishInv(s: State, kind: string, data: string, o: Options)
    requires o.buffer > 0 && o.history > 0 && Inv(s, o)
    ensures Inv(Apply(s, Publish(kind, data), o), o)
  {
    if !s.closed {
      var s' := Apply(s, Publish(kind, data), o);
      forall k | 0 <= k < |s.subs| ensures Delivered(s', s'.subs[k], o.buffer) {
        assert Delivered(s, s.subs[k], o.buffer);
      }
    }
  }

  lemma ReplayIsTail(published: seq<Event>, history: seq<Event>, since: int)
    requires |history| <= |published| && history == published[|published| - |history|..]
    requires Consecutive(history, |published|)
    ensures var replay := After(history, since); replay == published[|published| - |replay|..]
  {
    AfterIsSuffix(history, |published|, since);
  }

  lemma TailDelivered(s: State, replay: seq<Event>, buffer: int)
    requires buffer > 0 && |replay| <= |s.published| && replay == s.published[|s.published| - |replay|..]
    ensures var fits := |replay| <= buffer;
            Delivered(s, Sub(|s.published| - |replay|, if fits then replay else replay[..buffer], 0, fits && !s.closed),
              buffer)
  {
  }

  lemma JoinedDelivered(s: State, since: int, o: Options)
    requires o.buffer > 0 && o.history > 0 && Inv(s, o)
    ensures Delivered(s, Joined(s, since, o.buffer), o.buffer)
  {
    hide After, Delivered;
    ReplayIsTail(s.published, s.history, since);
    TailDelivered(s, After(s.history, since), o.buffer);
  }

  lemma SubscribeInv(s: State, since: int, o: Options)
    requires o.buffer > 0 && o.history > 0 && Inv(s, o)
    ensures Inv(Apply(s, Subscribe(since), o), o)
  {
    JoinedDelivered(s, since, o);
    SameStream(s, s.subs + [Joined(s, since, o.buffer)], o);
  }

  lemma SameStream(s: State, subs: seq<Sub>, o: Options)
    requires Inv(s, o) && forall k :: 0 <= k < |subs| ==> Delivered(s, subs[k], o.buffer)
    ensures Inv(s.(subs := subs), o)
  {
    var s' := s.(subs := subs);
    forall k | 0 <= k < |subs| ensures Delivered(s', subs[k], o.buffer) {}
  }

  lemma StepInv(s: State, e: Step, o: Options)
    requires o.buffer > 0 && o.history > 0 && Inv(s, o)
    ensures Inv(Apply(s, e, o), o)
  {
    match e
    case Publish(kind, data) => PublishInv(s, kind, data, o);
    case Subscribe(since) => SubscribeInv(s, since, o);
    case Cancel(_) => SameStream(s, Apply(s, e, o).subs, o);
    case Receive(_) => SameStream(s, Apply(s, e, o).subs, o);
    case _ =>
      var s' := Apply(s, e, o);
      forall k | 0 <= k < |s'.subs| ensures Delivered(s', s'.subs[k], o.buffer) {
        assert Delivered(s, s.subs[k], o.buffer);
      }
  }

  /**
    In every reachable state every subscriber was sent consecutive events and, while it is registered, all of
    them through the newest; the retained events are the last ones published, numbered up to the newest id.
   */
  lemma {:induction false} GapFreeDelivery(run: seq<Step>, n: nat, o: Options)
    requires n <= |run| && o.buffer > 0 && o.history > 0
    ensures Inv(At(run, n, o), o)
    ensures Consecutive(At(run, n, o).history, |At(run, n, o).published|)
  {
    if n > 0 {
      GapFreeDelivery(run, n - 1, o);
      StepInv(At(run, n - 1, o), run[n - 1], o);
    }
  }

  /** A later state of the same subscriber: what it was sent only grows, and stops growing once it is closed. */
  predicate Continues(a: Sub, b: Sub) {
    && a.from == b.from && a.sent <= b.sent && a.got <= b.got
    && (!a.open ==> !b.open && a.sent == b.sent)
  }

  lemma StepContinues(s: State, e: Step, o: Options)
    requires o.buffer > 0 && o.history > 0
    ensures s.published <= Apply(s, e, o).published
    ensures |s.subs| <= |Apply(s, e, o).subs|
    ensures forall k :: 0 <= k < |s.subs| ==> Continues(s.subs[k], Apply(s, e, o).subs[k])
  {
  }

  /**
    A subscriber that missed an event is closed for good and is sent nothing more, whatever happens later; and
    published events keep their ids, also across resumes.
   */
  lemma {:induction false} ClosedForGood(run: seq<Step>, n: nat, m: nat, o: Options)
    requires n <= m <= |run| && o.buffer > 0 && o.history > 0
    ensures At(run, n, o).published <= At(run, m, o).published
    ensures |At(run, n, o).subs| <= |At(run, m, o).subs|
    ensures forall k :: 0 <= k < |At(run, n, o).subs| ==> Continues(At(run, n, o).subs[k], At(run, m, o).subs[k])
  {
    if n < m {
      ClosedForGood(run, n, m - 1, o);
      StepContinues(At(run, m - 1, o), run[m - 1], o);
    }
  }

  /** An open subscriber whose channel is full when an event is published is closed by that event. */
  lemma MissCloses(run: seq<Step>, n: nat, k: nat, o: Options)
    requires n < |run| && o.buffer > 0 && o.history > 0 && k < |At(run, n, o).subs|
    requires |At(run, n + 1, o).published| > |At(run, n, o).published|
    ensures k < |At(run, n + 1, o).subs|
    ensures var before, after := At(run, n, o).subs[k], At(run, n + 1, o).subs[k];
            before.open ==> (after.open <==> |before.sent| - before.got < o.buffer)
                            && after.open ==
                                 (after.sent == before.sent + [At(run, n + 1, o).published[|At(run, n, o).published|]])
  {
    GapFreeDelivery(run, n, o);
  }

  /** A new subscription starts right after `since`, or at the oldest retained event, or at the next event. */
  lemma JoinsWhereAsked(run: seq<Step>, n: nat, since: nat, o: Options)
    requires n <= |run| && o.buffer > 0 && o.history > 0
    ensures var s := At(run, n, o);
            var oldest := |s.published| - |s.history|;
            Joined(s, since, o.buffer).from == if since <= oldest then oldest
              else if since <= |s.published| then since else |s.published|
  {
    GapFreeDelivery(run, n, o);
    var s := At(run, n, o);
    AfterIsSuffix(s.history, |s.published|, since);
  }

  // ---------------------------------------------------------------- resume notices

  predicate LexLess(a: (int, int), b: (int, int)) {
    a.0 < b.0 || (a.0 == b.0 && a.1 < b.1)
  }

  /** The resume notices among the first `n` steps that carry a count; the stream itself starts at (0, 0). */
  function Notices(run: seq<Step>, n: nat): set<(int, int)>
    requires n <= |run|
  {
    {(0, 0)} + set i | 0 <= i < n && run[i].Resume? && run[i].count > 0 :: (run[i].attempt, run[i].count)
  }

  function Generation(s: State): (int, int) {
    (s.attempt, s.count)
  }

  ghost predicate IsLexMax(g: (int, int), notices: set<(int, int)>) {
    g in notices && forall h :: h in notices ==> !LexLess(g, h)
  }

  lemma StepGeneration(s: State, e: Step, o: Options)
    requires o.buffer > 0 && o.history > 0
    ensures Generation(Apply(s, e, o)) ==
      if e.Resume? && e.count > 0 && LexLess(Generation(s), (e.attempt, e.count)) then (e.attempt, e.count)
        else Generation(s)
  {
  }

  lemma NoticesNext(run: seq<Step>, n: nat)
    requires n < |run|
    ensures Notices(run, n + 1) ==
      if run[n].Resume? && run[n].count > 0 then Notices(run, n) + {(run[n].attempt, run[n].count)} else Notices(run, n)
  {
  }

  lemma {:induction false} GenerationIsMax(run: seq<Step>, n: nat, o: Options)
    requires n <= |run| && o.buffer > 0 && o.history > 0
    ensures IsLexMax(Generation(At(run, n, o)), Notices(run, n))
  {
    if n > 0 {
      GenerationIsMax(run, n - 1, o);
      NoticesNext(run, n - 1);
      StepGeneration(At(run, n - 1, o), run[n - 1], o);
    }
  }

  /** Order and repetition of resume notices do not matter: only which ones arrived. */
  lemma NoticesCommute(run: seq<Step>, other: seq<Step>, o: Options)
    requires o.buffer > 0 && o.history > 0 && Notices(run, |run|) == Notices(other, |other|)
    ensures Generation(At(run, |run|, o)) == Generation(At(other, |other|, o))
  {
    GenerationIsMax(run, |run|, o);
    GenerationIsMax(other, |other|, o);
  }

  /** How many events had been published when the generation last rose. */
  function Mark(run: seq<Step>, n: nat, o: Options): nat
    requires n <= |run| && o.buffer > 0 && o.history > 0
  {
    if n == 0 then 0
    else if Generation(At(run, n, o)) != Generation(At(run, n - 1, o)) then |At(run, n, o).published|
    else Mark(run, n - 1, o)
  }

  lemma HistoryStep(s: State, e: Step, mark: nat, o: Options)
    requires o.buffer > 0 && o.history > 0
    requires mark <= |s.published| && s.history == LastN(s.published[mark..], o.history)
    ensures var s' := Apply(s, e, o);
            |s.published| <= |s'.published|
            && s'.history == if Generation(s') == Generation(s) then LastN(s'.published[mark..], o.history) else []
  {
    var s' := Apply(s, e, o);
    if e.Publish? && !s.closed {
      assert s'.published[mark..] == s.published[mark..] + [s'.published[|s.published|]];
    }
  }

  /** The history is cleared exactly when the generation rises: it holds the last events published since then. */
  lemma {:induction false} HistorySinceRise(run: seq<Step>, n: nat, o: Options)
    requires n <= |run| && o.buffer > 0 && o.history > 0
    ensures Mark(run, n, o) <= |At(run, n, o).published|
    ensures At(run, n, o).history == LastN(At(run, n, o).published[Mark(run, n, o)..], o.history)
  {
    if n > 0 {
      HistorySinceRise(run, n - 1, o);
      HistoryStep(At(run, n - 1, o), run[n - 1], Mark(run, n - 1, o), o);
    }
  }

  // ---------------------------------------------------------------- the run alone decides

  /** Step `k` is a resume notice greater than all before it. */
  ghost predicate Rises(run: seq<Step>, k: nat)
    requires k < |run|
  {
    && run[k].Resume? && run[k].count > 0
    && forall h :: h in Notices(run, k) ==> LexLess(h, (run[k].attempt, run[k].count))
  }

  /** A finish came after the last rise. */
  ghost predicate Finished(run: seq<Step>, n: nat)
    requires n <= |run|
  {
    exists f :: 0 <= f < n && run[f] == Finish && forall k :: f < k < n ==> !Rises(run, k)
  }

  /** The events of the publish steps that found the stream open, numbered from one. */
  ghost function Emitted(run: seq<Step>, n: nat): seq<Event>
    requires n <= |run|
  {
    if n == 0 then []
    else
      var before := Emitted(run, n - 1);
      match run[n - 1]
      case Publish(kind, data) =>
        if Finished(run, n - 1) then before else before + [Event(|before| + 1, kind, data)]
      case _ => before
  }

  lemma RisesExactly(run: seq<Step>, n: nat, o: Options)
    requires n < |run| && o.buffer > 0 && o.history > 0
    ensures Rises(run, n) <==> run[n].Resume? && run[n].count > 0 && !Older(run[n].attempt, run[n].count, At(run, n, o))
  {
    GenerationIsMax(run, n, o);
  }

  lemma FinishedNext(run: seq<Step>, n: nat)
    requires n < |run|
    ensures Finished(run, n + 1) <==> run[n] == Finish || (Finished(run, n) && !Rises(run, n))
  {
    hide Rises;
  }

  /** A stream is closed exactly while a finish is newer than the last rise of the generation. */
  lemma {:induction false} ClosedExactly(run: seq<Step>, n: nat, o: Options)
    requires n <= |run| && o.buffer > 0 && o.history > 0
    ensures At(run, n, o).closed <==> Finished(run, n)
  {
    if n > 0 {
      ClosedExactly(run, n - 1, o);
      RisesExactly(run, n - 1, o);
      hide Finished, Rises;
      FinishedNext(run, n - 1);
    }
  }

  lemma StepPublishes(s: State, e: Step, o: Options)
    requires o.buffer > 0 && o.history > 0
    ensures Apply(s, e, o).published ==
      if e.Publish? && !s.closed then s.published + [Event(|s.published| + 1, e.kind, e.data)] else s.published
  {
  }

  /** Everything published to an open stream is published, once and in order, and nothing else is. */
  lemma {:induction false} PublishedExactly(run: seq<Step>, n: nat, o: Options)
    requires n <= |run| && o.buffer > 0 && o.history > 0
    ensures At(run, n, o).published == Emitted(run, n)
  {
    hide Finished, Apply;
    if n > 0 {
      PublishedExactly(run, n - 1, o);
      ClosedExactly(run, n - 1, o);
      StepPublishes(At(run, n - 1, o), run[n - 1], o);
    }
  }

  // ---------------------------------------------------------------- subscribers come and go

  /** What ends subscription `k` at step `i`: its own cancel, a finish, or an event that finds its channel full. */
  predicate Ends(run: seq<Step>, i: nat, k: nat, o: Options)
    requires i < |run| && o.buffer > 0 && o.history > 0 && k < |At(run, i, o).subs|
  {
    var sub := At(run, i, o).subs[k];
    run[i] == Cancel(k) || run[i] == Finish || (run[i].Publish? && |sub.sent| - sub.got == o.buffer)
  }

  lemma StepEnds(run: seq<Step>, i: nat, k: nat, o: Options)
    requires i < |run| && o.buffer > 0 && o.history > 0 && k < |At(run, i, o).subs|
    ensures k < |At(run, i + 1, o).subs|
    ensures At(run, i + 1, o).subs[k].open <==> At(run, i, o).subs[k].open && !Ends(run, i, k, o)
  {
    GapFreeDelivery(run, i, o);
    assert Delivered(At(run, i, o), At(run, i, o).subs[k], o.buffer);
  }

  /** A subscription stays open until, and only until, one of these happens. */
  lemma {:induction false} OpenExactly(run: seq<Step>, m: nat, n: nat, k: nat, o: Options)
    requires m <= n <= |run| && o.buffer > 0 && o.history > 0 && k < |At(run, m, o).subs|
    ensures forall i :: m <= i <= n ==> k < |At(run, i, o).subs|
    ensures At(run, n, o).subs[k].open <==>
      At(run, m, o).subs[k].open && forall i {:trigger Ends(run, i, k, o)} :: m <= i < n ==> !Ends(run, i, k, o)
  {
    hide Ends, Apply;
    if m < n {
      OpenExactly(run, m, n - 1, k, o);
      StepEnds(run, n - 1, k, o);
    }
  }

  /** A new subscription gets what was published from its start on, as far as its channel holds it. */
  predicate JoinedAt(s: State, sub: Sub, since: int, buffer: int) {
    var oldest := |s.published| - |s.history|;
    && sub.from == (if since <= oldest then oldest else if since <= |s.published| then since else |s.published|)
    && sub.from <= |s.published| && sub.got == 0
    && sub.sent == LastFrom(s.published, sub.from, buffer)
    && (sub.open <==> !s.closed && |s.published| - sub.from <= buffer)
  }

  function LastFrom(published: seq<Event>, from: int, buffer: int): seq<Event> {
    if !(0 <= from <= |published|) || buffer < 0 then []
    else if |published| - from <= buffer then published[from..]
    else published[from..from + buffer]
  }

  /** Subscriptions are added by subscribe steps alone, one at a time. */
  lemma JoinsExactly(run: seq<Step>, n: nat, o: Options)
    requires n < |run| && o.buffer > 0 && o.history > 0
    ensures var s, s' := At(run, n, o), At(run, n + 1, o);
            if run[n].Subscribe? && run[n].since >= 0
            then |s'.subs| == |s.subs| + 1 && JoinedAt(s, s'.subs[|s.subs|], run[n].since, o.buffer)
            else |s'.subs| == |s.subs|
  {
    if run[n].Subscribe? && run[n].since >= 0 {
      hide Inv, Joined, JoinedAt;
      GapFreeDelivery(run, n, o);
      JoinsWhereAsked(run, n, run[n].since, o);
      JoinedReplay(At(run, n, o), run[n].since, o);
    }
  }

  lemma JoinedReplay(s: State, since: nat, o: Options)
    requires o.buffer > 0 && o.history > 0 && Inv(s, o)
    requires var oldest := |s.published| - |s.history|;
             Joined(s, since, o.buffer).from == if since <= oldest then oldest
               else if since <= |s.published| then since else |s.published|
    ensures JoinedAt(s, Joined(s, since, o.buffer), since, o.buffer)
  {
    hide After, Delivered;
    ReplayIsTail(s.published, s.history, since);
  }

  /** A consumer takes one event at a time, while there is one; nothing else takes any. */
  lemma ReceivesExactly(run: seq<Step>, n: nat, k: nat, o: Options)
    requires n < |run| && o.buffer > 0 && o.history > 0 && k < |At(run, n, o).subs|
    ensures k < |At(run, n + 1, o).subs|
    ensures var a, b := At(run, n, o).subs[k], At(run, n + 1, o).subs[k];
            b.got == if run[n] == Receive(k) && a.got < |a.sent| then a.got + 1 else a.got
  {
  }
}
