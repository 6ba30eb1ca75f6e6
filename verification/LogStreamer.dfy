/**
  The log streamer: writes on two streams are framed into a buffer, and flushes cut the buffer into numbered
  chunks. The lock is released while a chunk is sent, so that sends overlap with writes and with each other.
 */
module LogStreamer {
  import opened LogFraming
  import Text

  type Chunk = seq<Record>

  /**
    `dirty` says that the compressed buffer is not empty: any write flushes the compressor into it, even a write
    that completes no line. `sending` holds the chunks on their way, `server` those that arrived.
   */
  datatype State = State(pendingOut: Bytes, pendingErr: Bytes, buffer: Chunk, dirty: bool, chunkNo: nat, closed: bool,
                         sending: map<nat, Chunk>, server: map<nat, Chunk>)

  const NEW_STREAMER := State([], [], [], false, 0, false, map[], map[])

  /** `full` says that the compressed buffer reached its soft limit. */
  datatype Step =
    | Write(stream: Stream, bytes: Bytes, full: bool)
    | Tick
    | Arrive(chunk: nat)
    | Close

  function Pending(s: State, stream: Stream): Bytes {
    if stream.Stderr? then s.pendingErr else s.pendingOut
  }

  function SetPending(s: State, stream: Stream, tail: Bytes): State {
    if stream.Stderr? then s.(pendingErr := tail) else s.(pendingOut := tail)
  }

  /** Framing `bytes` behind what the stream has pending. */
  function Appended(s: State, stream: Stream, bytes: Bytes): State {
    var scan := Feed(stream, Scan([], Pending(s, stream)), bytes);
    SetPending(s, stream, scan.tail).(buffer := s.buffer + scan.frames)
  }

  /** Cuts a chunk and starts sending it; after a close it is dropped instead. */
  function Flushed(s: State): State {
    if !s.dirty then s
    else s.(buffer := [], dirty := false, chunkNo := s.chunkNo + 1,
            sending := if s.closed then s.sending else s.sending[s.chunkNo := s.buffer])
  }

  function Tails(s: State): seq<Record> {
    TailFrame(Stdout, s.pendingOut) + TailFrame(Stderr, s.pendingErr)
  }

  /** The unterminated tails are framed at the end, unless they are blank. */
  function PendingFlushed(s: State): State {
    s.(pendingOut := [], pendingErr := [], buffer := s.buffer + Tails(s), dirty := s.dirty || Tails(s) != [])
  }

  function Apply(s: State, e: Step): State {
    match e
    case Write(stream, bytes, full) =>
      var appended := Appended(s, stream, bytes).(dirty := true);
      if full then Flushed(appended) else appended
    case Tick => Flushed(s)
    case Arrive(k) =>
      if k in s.sending then s.(sending := s.sending - {k}, server := s.server[k := s.sending[k]]) else s
    case Close =>
      if s.closed then s else Flushed(PendingFlushed(s)).(closed := true)
  }

  function At(run: seq<Step>, n: nat): State
    requires n <= |run|
  {
    if n == 0 then NEW_STREAMER else Apply(At(run, n - 1), run[n - 1])
  }

  // ---------------------------------------------------------------- reference

  /** Everything written to a stream. */
  function Written(run: seq<Step>, n: nat, stream: Stream): Bytes
    requires n <= |run|
  {
    if n == 0 then []
    else Written(run, n - 1, stream) + if run[n - 1].Write? && run[n - 1].stream == stream then run[n - 1].bytes else []
  }

  /** The frames encoded by step `n`, in order. */
  function NewFrames(s: State, e: Step): seq<Record> {
    match e
    case Write(stream, bytes, _) => Feed(stream, Scan([], Pending(s, stream)), bytes).frames
    case Close => if s.closed then [] else Tails(s)
    case _ => []
  }

  /** Every frame encoded so far, in the order of the writes that completed it. */
  function Log(run: seq<Step>, n: nat): seq<Record>
    requires n <= |run|
  {
    if n == 0 then [] else Log(run, n - 1) + NewFrames(At(run, n - 1), run[n - 1])
  }

  /** The frames of the chunks numbered below `n`, in number order. */
  function InOrder(chunks: map<nat, Chunk>, n: nat): seq<Record> {
    if n == 0 then [] else InOrder(chunks, n - 1) + ChunkAt(chunks, n - 1)
  }

  function ChunkAt(chunks: map<nat, Chunk>, k: nat): Chunk {
    if k in chunks then chunks[k] else []
  }

  // ---------------------------------------------------------------- conservation

  /** Chunks carry each number below `chunkNo` once, and with the buffer they hold every frame in order. */
  ghost predicate Conserved(s: State, log: seq<Record>) {
    && s.sending.Keys !! s.server.Keys
    && (forall k :: k in s.sending.Keys + s.server.Keys <==> 0 <= k < s.chunkNo)
    && InOrder(s.sending + s.server, s.chunkNo) + s.buffer == log
    && (s.buffer != [] ==> s.dirty)
  }

  lemma {:induction false} InOrderSame(a: map<nat, Chunk>, b: map<nat, Chunk>, n: nat)
    requires forall k :: 0 <= k < n ==> (k in a <==> k in b) && (k in a ==> a[k] == b[k])
    ensures InOrder(a, n) == InOrder(b, n)
  {
    if n > 0 { InOrderSame(a, b, n - 1); }
  }

  lemma FlushConserves(s: State, log: seq<Record>)
    requires Conserved(s, log) && !s.closed
    ensures Conserved(Flushed(s), log) && Flushed(s).buffer == []
  {
    if s.dirty {
      var t := Flushed(s);
      var before, after := s.sending + s.server, t.sending + t.server;
      InOrderSame(before, after, s.chunkNo);
      assert after[s.chunkNo] == s.buffer;
    }
  }

  lemma ArriveConserves(s: State, k: nat, log: seq<Record>)
    requires Conserved(s, log)
    ensures Conserved(Apply(s, Arrive(k)), log)
  {
    if k in s.sending {
      var t := Apply(s, Arrive(k));
      InOrderSame(s.sending + s.server, t.sending + t.server, s.chunkNo);
    }
  }

  lemma AppendConserves(s: State, s': State, log: seq<Record>, more: seq<Record>)
    requires Conserved(s, log)
    requires s'.buffer == s.buffer + more && s'.chunkNo == s.chunkNo && s'.sending == s.sending && s'.server == s.server
    requires s'.buffer != [] ==> s'.dirty
    ensures Conserved(s', log + more)
  {
    assert InOrder(s.sending + s.server, s.chunkNo) + (s.buffer + more) == log + more;
  }

  lemma StepConserves(s: State, e: Step, log: seq<Record>)
    requires Conserved(s, log) && (s.closed ==> e.Arrive? || e.Close?)
    ensures Conserved(Apply(s, e), log + NewFrames(s, e))
    ensures e.Close? && !s.closed ==> Apply(s, e).buffer == []
  {
    assert log + [] == log;
    match e
    case Write(stream, bytes, full) =>
      var appended := Appended(s, stream, bytes).(dirty := true);
      AppendConserves(s, appended, log, NewFrames(s, e));
      FlushConserves(appended, log + NewFrames(s, e));
    case Tick => FlushConserves(s, log);
    case Arrive(k) => ArriveConserves(s, k, log);
    case Close =>
      if !s.closed {
        AppendConserves(s, PendingFlushed(s), log, Tails(s));
        FlushConserves(PendingFlushed(s), log + Tails(s));
      }
  }

  lemma Drained(s: State, log: seq<Record>)
    requires Conserved(s, log) && s.sending == map[] && s.buffer == []
    ensures forall k :: k in s.server <==> 0 <= k < s.chunkNo
    ensures InOrder(s.server, s.chunkNo) == log
  {
    assert s.sending + s.server == s.server;
    assert s.sending.Keys + s.server.Keys == s.server.Keys;
  }

  ghost predicate NotClosed(run: seq<Step>, n: nat)
    requires n <= |run|
  {
    forall i :: 0 <= i < n ==> !run[i].Close?
  }

  lemma {:induction false} StaysOpen(run: seq<Step>, n: nat)
    requires n <= |run| && NotClosed(run, n)
    ensures !At(run, n).closed
  {
    if n > 0 { StaysOpen(run, n - 1); }
  }

  /** Nothing is written, and no flush is due, after a close. */
  ghost predicate Orderly(run: seq<Step>, n: nat)
    requires n <= |run|
  {
    forall i :: 0 <= i < n && (run[i].Write? || run[i].Tick?) ==> NotClosed(run, i)
  }

  lemma Unrolled(run: seq<Step>, n: nat, stream: Stream)
    requires 0 < n <= |run|
    ensures At(run, n) == Apply(At(run, n - 1), run[n - 1])
    ensures Log(run, n) == Log(run, n - 1) + NewFrames(At(run, n - 1), run[n - 1])
    ensures Written(run, n, stream) == Written(run, n - 1, stream) +
      if run[n - 1].Write? && run[n - 1].stream == stream then run[n - 1].bytes else []
  {
  }

  lemma NextConserves(s: State, e: Step, s': State, log: seq<Record>, log': seq<Record>)
    requires Conserved(s, log) && (s.closed ==> e.Arrive? || e.Close?)
    requires s' == Apply(s, e) && log' == log + NewFrames(s, e)
    ensures Conserved(s', log')
  {
    StepConserves(s, e, log);
  }

  lemma StillConserved(run: seq<Step>, n: nat)
    requires n < |run| && Conserved(At(run, n), Log(run, n)) && (run[n].Write? || run[n].Tick? ==> NotClosed(run, n))
    ensures Conserved(At(run, n + 1), Log(run, n + 1))
  {
    if run[n].Write? || run[n].Tick? { StaysOpen(run, n); }
    Unrolled(run, n + 1, Stdout);
    NextConserves(At(run, n), run[n], At(run, n + 1), Log(run, n), Log(run, n + 1));
  }

  /** In every state of an orderly run the chunks and the buffer hold every frame once and in order. */
  lemma {:induction false} AlwaysConserved(run: seq<Step>, n: nat)
    requires n <= |run| && Orderly(run, n)
    ensures Conserved(At(run, n), Log(run, n))
  {
    hide Conserved, Apply, NewFrames;
    if n > 0 {
      AlwaysConserved(run, n - 1);
      StillConserved(run, n - 1);
    } else {
      NothingSent(run);
    }
  }

  lemma NothingSent(run: seq<Step>)
    ensures Conserved(At(run, 0), Log(run, 0))
  {
  }

  // ---------------------------------------------------------------- framing ignores how bytes are split

  /** What a stream has framed and what it has pending are those of all its bytes fed at once. */
  ghost predicate FramedSoFar(stream: Stream, bytes: Bytes, log: seq<Record>, pending: Bytes) {
    Feed(stream, Scan([], []), bytes) == Scan(Of(stream, log), pending)
  }

  lemma WriteFrames(stream: Stream, other: Stream, bytes: Bytes, log: seq<Record>, pending: Bytes, more: Bytes,
                    carry: Bytes)
    requires FramedSoFar(stream, bytes, log, pending) && (stream == other ==> carry == pending)
    ensures var scan := Feed(other, Scan([], carry), more);
            FramedSoFar(stream, bytes + if stream == other then more else [], log + scan.frames,
                        if stream == other then scan.tail else pending)
  {
    var scan := Feed(other, Scan([], carry), more);
    FeedStream(other, Scan([], carry), more);
    OfConcat(stream, log, scan.frames);
    OfSame(stream, other, scan.frames);
    if stream == other {
      FeedConcat(stream, Scan([], []), bytes, more);
      FeedShift(stream, Of(stream, log), pending, more);
    } else {
      assert bytes + [] == bytes && Of(stream, log) + [] == Of(stream, log);
    }
  }

  lemma StepFrames(s: State, e: Step, stream: Stream, bytes: Bytes, log: seq<Record>)
    requires FramedSoFar(stream, bytes, log, Pending(s, stream)) && !e.Close?
    ensures FramedSoFar(stream, bytes + if e.Write? && e.stream == stream then e.bytes else [],
                        log + NewFrames(s, e), Pending(Apply(s, e), stream))
  {
    if e.Write? {
      WriteFrames(stream, e.stream, bytes, log, Pending(s, stream), e.bytes, Pending(s, e.stream));
    } else {
      assert bytes + [] == bytes && log + [] == log;
    }
  }

  lemma FramesNext(s: State, e: Step, s': State, stream: Stream, bytes: Bytes, bytes': Bytes, log: seq<Record>,
                   log': seq<Record>)
    requires FramedSoFar(stream, bytes, log, Pending(s, stream)) && !e.Close?
    requires s' == Apply(s, e) && log' == log + NewFrames(s, e)
    requires bytes' == bytes + if e.Write? && e.stream == stream then e.bytes else []
    ensures FramedSoFar(stream, bytes', log', Pending(s', stream))
  {
    StepFrames(s, e, stream, bytes, log);
  }

  lemma StillFramed(run: seq<Step>, n: nat, stream: Stream)
    requires n < |run| && !run[n].Close?
    requires FramedSoFar(stream, Written(run, n, stream), Log(run, n), Pending(At(run, n), stream))
    ensures FramedSoFar(stream, Written(run, n + 1, stream), Log(run, n + 1), Pending(At(run, n + 1), stream))
  {
    Unrolled(run, n + 1, stream);
    FramesNext(At(run, n), run[n], At(run, n + 1), stream, Written(run, n, stream), Written(run, n + 1, stream),
               Log(run, n), Log(run, n + 1));
  }

  lemma {:induction false} AlwaysFramed(run: seq<Step>, n: nat, stream: Stream)
    requires n <= |run| && NotClosed(run, n)
    ensures FramedSoFar(stream, Written(run, n, stream), Log(run, n), Pending(At(run, n), stream))
  {
    hide FramedSoFar, Apply, NewFrames;
    if n > 0 {
      AlwaysFramed(run, n - 1, stream);
      StillFramed(run, n - 1, stream);
    } else {
      NothingFramed(run, stream);
    }
  }

  lemma NothingFramed(run: seq<Step>, stream: Stream)
    ensures FramedSoFar(stream, Written(run, 0, stream), Log(run, 0), Pending(At(run, 0), stream))
  {
  }

  lemma TwoStreams(stream: Stream, out: seq<Record>, err: seq<Record>)
    requires forall i :: 0 <= i < |out| ==> out[i].stream == Stdout
    requires forall i :: 0 <= i < |err| ==> err[i].stream == Stderr
    ensures Of(stream, out + err) == if stream.Stderr? then err else out
  {
    hide Of;
    OfConcat(stream, out, err);
    OfSame(stream, Stdout, out);
    OfSame(stream, Stderr, err);
    assert out + [] == out && [] + err == err;
  }

  lemma TailsOf(s: State, stream: Stream)
    ensures Of(stream, Tails(s)) == TailFrame(stream, Pending(s, stream))
  {
    TwoStreams(stream, TailFrame(Stdout, s.pendingOut), TailFrame(Stderr, s.pendingErr));
  }

  // ---------------------------------------------------------------- main results

  /** The run ends with a close at step `c`, after which sends may still arrive. */
  ghost predicate Finished(run: seq<Step>, c: nat) {
    c < |run| && NotClosed(run, c) && run[c].Close? && forall i :: c < i < |run| ==> run[i].Arrive?
  }

  /** The frames that all bytes of a stream must give: its lines, and its tail unless that is blank. */
  ghost function Expected(stream: Stream, segs: seq<Bytes>): (r: seq<Record>)
    requires segs != []
    ensures FramesOf(stream, segs, r)
  {
    FramesAndTail(stream, segs);
    Frames(stream, segs[..|segs| - 1]) + TailFrame(stream, segs[|segs| - 1])
  }

  lemma {:induction false} NothingAfterClose(run: seq<Step>, c: nat, n: nat)
    requires Finished(run, c) && c < n <= |run|
    ensures Log(run, n) == Log(run, c + 1) && At(run, n).buffer == []
  {
    hide Apply, NewFrames;
    if n > c + 1 {
      NothingAfterClose(run, c, n - 1);
      ArrivalAddsNothing(run, n - 1);
    } else {
      EmptiedByClose(run, c);
    }
  }

  lemma ArrivalAddsNothing(run: seq<Step>, n: nat)
    requires n < |run| && run[n].Arrive?
    ensures Log(run, n + 1) == Log(run, n) && At(run, n + 1).buffer == At(run, n).buffer
  {
    Unrolled(run, n + 1, Stdout);
    assert Log(run, n) + [] == Log(run, n);
  }

  lemma EmptiedByClose(run: seq<Step>, c: nat)
    requires Finished(run, c)
    ensures At(run, c + 1).buffer == []
  {
    StaysOpen(run, c);
    AlwaysConserved(run, c);
    StepConserves(At(run, c), run[c], Log(run, c));
  }

  lemma LogIsSplit(run: seq<Step>, c: nat, stream: Stream, segs: seq<Bytes>)
    requires Finished(run, c) && IsSplit(Written(run, c, stream), segs)
    ensures Of(stream, Log(run, |run|)) ==
      Frames(stream, segs[..|segs| - 1]) + TailFrame(stream, segs[|segs| - 1])
  {
    NothingAfterClose(run, c, |run|);
    AlwaysFramed(run, c, stream);
    FeedIsSplit(stream, [], Written(run, c, stream), segs);
    assert [] + Frames(stream, segs[..|segs| - 1]) == Frames(stream, segs[..|segs| - 1]);
    StaysOpen(run, c);
    OfConcat(stream, Log(run, c), Tails(At(run, c)));
    TailsOf(At(run, c), stream);
  }

  /**
    Per stream the frames are the non-empty lines of everything written to it, whatever the writes and flushes
    were, plus its last unterminated line unless that is blank.
   */
  lemma FramesAreTheLines(run: seq<Step>, c: nat, stream: Stream, segs: seq<Bytes>)
    requires Finished(run, c) && IsSplit(Written(run, c, stream), segs)
    ensures FramesOf(stream, segs, Of(stream, Log(run, |run|)))
    ensures Of(stream, Log(run, |run|)) == Expected(stream, segs)
  {
    hide FramesOf, Of, Log, Written, Frames, TailFrame;
    LogIsSplit(run, c, stream, segs);
    FramesAndTail(stream, segs);
  }

  /**
    Once every send has arrived the server holds the chunks 0, 1, 2, ... and reading them in number order gives
    every frame once, in the order in which the frames were written.
   */
  lemma ChunksHoldEveryFrame(run: seq<Step>, c: nat)
    requires Finished(run, c) && At(run, |run|).sending == map[]
    ensures forall k :: k in At(run, |run|).server <==> 0 <= k < At(run, |run|).chunkNo
    ensures InOrder(At(run, |run|).server, At(run, |run|).chunkNo) == Log(run, |run|)
  {
    NothingAfterClose(run, c, |run|);
    AlwaysConserved(run, |run|);
    Drained(At(run, |run|), Log(run, |run|));
  }

  /** After a tick before the close nothing is held back: every frame so far is in a chunk. */
  lemma TickSendsAll(run: seq<Step>, n: nat)
    requires n < |run| && Orderly(run, n + 1) && run[n].Tick?
    ensures At(run, n + 1).buffer == [] && Log(run, n + 1) == Log(run, n)
    ensures InOrder(At(run, n + 1).sending + At(run, n + 1).server, At(run, n + 1).chunkNo) == Log(run, n)
  {
    StaysOpen(run, n);
    AlwaysConserved(run, n);
    FlushConserves(At(run, n), Log(run, n));
    assert Log(run, n) + [] == Log(run, n);
  }

  /** Two runs that write the same bytes to a stream frame the same lines, however the bytes are cut into writes. */
  lemma SplitsDoNotMatter(run: seq<Step>, c: nat, other: seq<Step>, d: nat, stream: Stream)
    requires Finished(run, c) && Finished(other, d) && Written(run, c, stream) == Written(other, d, stream)
    ensures Of(stream, Log(run, |run|)) == Of(stream, Log(other, |other|))
  {
    var segs := SplitExists(Written(run, c, stream));
    FramesAreTheLines(run, c, stream, segs);
    FramesAreTheLines(other, d, stream, segs);
  }

  // ---------------------------------------------------------------- the streamer as a program

  lemma CarriedText(stream: Stream, carry: Bytes, more: Bytes)
    requires NL !in carry
    ensures Feed(stream, Scan([], []), carry + more) == Feed(stream, Scan([], carry), more)
  {
    FeedConcat(stream, Scan([], []), carry, more);
    FeedPlain(stream, Scan([], []), carry);
    assert [] + carry == carry;
  }

  /** Moves the complete lines of `text` to the buffer one by one and returns the rest. */
  method CutLines(stream: Stream, buffer: Chunk, text: Bytes) returns (frames: Chunk, rest: Bytes)
    ensures frames == buffer + Feed(stream, Scan([], []), text).frames
    ensures rest == Feed(stream, Scan([], []), text).tail && NL !in rest
  {
    frames, rest := buffer, text;
    FeedShift(stream, buffer, [], text);
    while NL in rest
      invariant Feed(stream, Scan(frames, []), rest) == Feed(stream, Scan(buffer, []), text)
      decreases |rest|
    {
      var i := Text.First(rest, NL);
      FeedCut(stream, frames, rest, i);
      var line := TrimRightCR(rest[..i]);
      if line != [] {
        frames := frames + [Record(stream, line)];
      }
      rest := rest[i + 1..];
    }
    FeedPlain(stream, Scan(frames, []), rest);
    assert [] + rest == rest;
  }

  lemma FeedCut(stream: Stream, frames: Chunk, text: Bytes, i: nat)
    requires i < |text| && text[i] == NL && NL !in text[..i]
    ensures var line := TrimRightCR(text[..i]);
            Feed(stream, Scan(frames, []), text) ==
            Feed(stream, Scan(if line == [] then frames else frames + [Record(stream, line)], []), text[i + 1..])
  {
    var head := text[..i];
    assert text == head + [NL] + text[i + 1..] && [] + head == head && frames + [] == frames;
    FeedConcat(stream, Scan(frames, []), head + [NL], text[i + 1..]);
    FeedLine(stream, Scan(frames, []), head);
  }

  class Streamer {
    var pendingOut: Bytes
    var pendingErr: Bytes
    var buffer: Chunk
    var dirty: bool
    var chunkNo: nat
    var closed: bool
    var sending: map<nat, Chunk>
    var server: map<nat, Chunk>

    ghost function View(): State
      reads this
    {
      State(pendingOut, pendingErr, buffer, dirty, chunkNo, closed, sending, server)
    }

    constructor ()
      ensures View() == NEW_STREAMER
    {
      pendingOut, pendingErr, buffer, dirty, chunkNo, closed := [], [], [], false, 0, false;
      sending, server := map[], map[];
    }

    method AppendProcessed(stream: Stream, processed: Bytes)
      requires NL !in Pending(View(), stream)
      modifies this`buffer, this`pendingOut, this`pendingErr
      ensures View() == Appended(old(View()), stream, processed)
      ensures NL !in Pending(View(), stream)
    {
      var carry := if stream.Stderr? then pendingErr else pendingOut;
      CarriedText(stream, carry, processed);
      var text;
      buffer, text := CutLines(stream, buffer, carry + processed);
      if stream.Stderr? {
        pendingErr := text;
      } else {
        pendingOut := text;
      }
    }

    method FlushPending()
      modifies this`buffer, this`dirty, this`pendingOut, this`pendingErr
      ensures View() == PendingFlushed(old(View()))
      ensures pendingOut == [] && pendingErr == []
      ensures exists out, err ::
        && FrameOf(Stdout, old(pendingOut), true, out) && FrameOf(Stderr, old(pendingErr), true, err)
        && buffer == old(buffer) + (out + err) && (dirty <==> old(dirty) || out + err != [])
    {
      hide FrameOf;
      TailFrameOf(Stdout, pendingOut);
      TailFrameOf(Stderr, pendingErr);
      ghost var out, err := TailFrame(Stdout, pendingOut), TailFrame(Stderr, pendingErr);
      if !Blank(pendingOut) {
        buffer, dirty := buffer + [Record(Stdout, TrimRightCR(pendingOut))], true;
      }
      if !Blank(pendingErr) {
        buffer, dirty := buffer + [Record(Stderr, TrimRightCR(pendingErr))], true;
      }
      pendingOut, pendingErr := [], [];
    }

    /** Numbers the buffered frames as a chunk and hands it to a send. */
    method Flush()
      modifies this`buffer, this`dirty, this`chunkNo, this`sending
      ensures View() == Flushed(old(View()))
    {
      if !dirty {
        return;
      }
      var compressed := buffer;
      buffer, dirty := [], false;
      var currentChunkNo := chunkNo;
      chunkNo := chunkNo + 1;
      if closed {
        return;
      }
      sending := sending[currentChunkNo := compressed];
    }

    method WriteStream(stream: Stream, p: Bytes, full: bool) returns (n: nat)
      requires NL !in pendingOut && NL !in pendingErr
      modifies this`buffer, this`dirty, this`chunkNo, this`sending, this`pendingOut, this`pendingErr
      ensures View() == Apply(old(View()), Write(stream, p, full)) && n == |p|
      ensures NL !in pendingOut && NL !in pendingErr
    {
      AppendProcessed(stream, p);
      dirty := true;
      if full {
        Flush();
      }
      return |p|;
    }

    method CloseStreamer()
      modifies this`buffer, this`dirty, this`chunkNo, this`sending, this`pendingOut, this`pendingErr, this`closed
      ensures View() == Apply(old(View()), Close)
    {
      if closed {
        return;
      }
      FlushPending();
      if dirty {
        Flush();
      }
      closed := true;
    }
  }
}
