/**
  The two readers of a job's logs. The backfill reads the stored chunks in number order and skips those it cannot
  decode. The live stream is shown each chunk when it arrives, and an error line for one that cannot be decoded.
 */
module LogReaders {
  import opened LogFraming
  import opened LogStreamer
  import opened LogReading
  import LogCodec

  // ---------------------------------------------------------------- the backfill

  /** The records of a stored chunk, none if it cannot be decoded. */
  function Recovered(codec: LogCodec.Codec, chunk: Chunk): seq<Record> {
    match LogCodec.DecodeText(codec, LogCodec.Encoded(codec, chunk), [])
    case Decoded(records) => records
    case _ => []
  }

  function Backfill(codec: LogCodec.Codec, chunks: map<nat, Chunk>, n: nat): seq<Record> {
    if n == 0 then [] else Backfill(codec, chunks, n - 1) + Recovered(codec, ChunkAt(chunks, n - 1))
  }

  /** Writes the stored chunks in number order; `texts` are what the object store holds for them. */
  method BackfillLogs(codec: LogCodec.Codec, texts: seq<Bytes>, ghost chunks: map<nat, Chunk>)
    returns (shown: seq<Record>)
    requires forall k :: 0 <= k < |texts| ==> texts[k] == LogCodec.Encoded(codec, ChunkAt(chunks, k))
    ensures shown == Backfill(codec, chunks, |texts|)
  {
    shown := [];
    for k := 0 to |texts|
      invariant shown == Backfill(codec, chunks, k)
    {
      var result := LogCodec.DecodeChunk(codec, texts[k]);
      if !result.Decoded? {
        assert shown + [] == shown;
        continue;
      }
      shown := shown + result.records;
    }
  }

  /** Every frame can be marshalled and read back, whatever its length. */
  ghost predicate AllFaithful(codec: LogCodec.Codec, log: seq<Record>) {
    forall i :: 0 <= i < |log| ==> LogCodec.Faithful(codec, log[i])
  }

  lemma RecoveredExactly(codec: LogCodec.Codec, chunk: Chunk)
    requires AllFaithful(codec, chunk) && WellFramed(chunk)
    ensures Recovered(codec, chunk) == if LogCodec.AllFit(codec, chunk) then chunk else []
  {
    LogCodec.DecodeEncodedFrom(codec, chunk, []);
    assert [] + chunk == chunk;
  }

  lemma FaithfulParts(codec: LogCodec.Codec, a: seq<Record>, b: seq<Record>)
    requires AllFaithful(codec, a + b) && WellFramed(a + b)
    ensures AllFaithful(codec, a) && WellFramed(a) && AllFaithful(codec, b) && WellFramed(b)
    ensures LogCodec.AllFit(codec, a + b) <==> LogCodec.AllFit(codec, a) && LogCodec.AllFit(codec, b)
  {
    assert forall i :: 0 <= i < |a| ==> a[i] == (a + b)[i];
    assert forall i :: 0 <= i < |b| ==> b[i] == (a + b)[|a| + i];
    assert forall i :: 0 <= i < |a + b| ==> (a + b)[i] == if i < |a| then a[i] else b[i - |a|];
  }

  lemma {:induction false} BackfillRecovers(codec: LogCodec.Codec, chunks: map<nat, Chunk>, n: nat)
    requires AllFaithful(codec, InOrder(chunks, n)) && WellFramed(InOrder(chunks, n))
    ensures LogCodec.AllFit(codec, InOrder(chunks, n)) ==> Backfill(codec, chunks, n) == InOrder(chunks, n)
    ensures !LogCodec.AllFit(codec, InOrder(chunks, n)) ==> |Backfill(codec, chunks, n)| < |InOrder(chunks, n)|
  {
    hide Recovered, LogCodec.AllFit, AllFaithful, WellFramed;
    if n > 0 {
      FaithfulParts(codec, InOrder(chunks, n - 1), ChunkAt(chunks, n - 1));
      BackfillRecovers(codec, chunks, n - 1);
      RecoveredExactly(codec, ChunkAt(chunks, n - 1));
      NothingFits(codec);
    } else {
      NothingFits(codec);
    }
  }

  lemma NothingFits(codec: LogCodec.Codec)
    ensures LogCodec.AllFit(codec, [])
  {
  }

  /** A finished run whose sends have all arrived. */
  ghost predicate Settled(run: seq<Step>, c: nat) {
    Finished(run, c) && At(run, |run|).sending == map[]
  }

  /**
    The backfill shows exactly the frames that were written, in their order and whatever chunks hold none, if and
    only if no frame exceeds the decoder's line limit.
   */
  lemma BackfillShowsTheLog(codec: LogCodec.Codec, run: seq<Step>, c: nat)
    requires Settled(run, c) && AllFaithful(codec, Log(run, |run|))
    ensures Backfill(codec, At(run, |run|).server, At(run, |run|).chunkNo) == Log(run, |run|) <==>
      LogCodec.AllFit(codec, Log(run, |run|))
  {
    hide Apply, NewFrames, LogCodec.AllFit, AllFaithful;
    ChunksHoldEveryFrame(run, c);
    LogWellFramed(run, |run|);
    BackfillRecovers(codec, At(run, |run|).server, At(run, |run|).chunkNo);
  }

  /** So each stream is shown as its non-empty trimmed lines and its tail. */
  lemma BackfillIsExact(codec: LogCodec.Codec, run: seq<Step>, c: nat, stream: Stream, lines: seq<Bytes>)
    requires Delivered(codec, run, c) && IsSplit(Written(run, c, stream), lines)
    ensures Of(stream, Backfill(codec, At(run, |run|).server, At(run, |run|).chunkNo)) == Expected(stream, lines)
  {
    hide Apply, NewFrames, Of, Expected;
    BackfillShowsTheLog(codec, run, c);
    FramesAreTheLines(run, c, stream, lines);
  }

  // ---------------------------------------------------------------- the live stream

  /** The line shown for a chunk that cannot be decoded: "[log decode error]". */
  const DECODE_ERROR :=
    Record(Stderr, [91, 108, 111, 103, 32, 100, 101, 99, 111, 100, 101, 32, 101, 114, 114, 111, 114, 93])

  function Shown(codec: LogCodec.Codec, chunk: Chunk): seq<Record> {
    match LogCodec.DecodeText(codec, LogCodec.Encoded(codec, chunk), [])
    case Decoded(records) => records
    case _ => [DECODE_ERROR]
  }

  /** What the arrival of a chunk publishes. */
  method PublishChunk(codec: LogCodec.Codec, text: Bytes, ghost chunk: Chunk) returns (published: seq<Record>)
    requires text == LogCodec.Encoded(codec, chunk)
    ensures published == Shown(codec, chunk)
  {
    hide LogCodec.DecodeText, LogCodec.Encoded;
    var result := LogCodec.DecodeChunk(codec, text);
    if !result.Decoded? {
      return [DECODE_ERROR];
    }
    published := [];
    for i := 0 to |result.records|
      invariant published == result.records[..i]
    {
      published := published + [result.records[i]];
    }
  }

  /** Step `m` is the arrival of a chunk. */
  predicate Arrives(run: seq<Step>, m: nat)
    requires m < |run|
  {
    run[m].Arrive? && run[m].chunk in At(run, m).sending
  }

  /** What has been published on the live stream. */
  function Live(codec: LogCodec.Codec, run: seq<Step>, n: nat): seq<Record>
    requires n <= |run|
  {
    if n == 0 then []
    else if Arrives(run, n - 1) then
      Live(codec, run, n - 1) + Shown(codec, At(run, n - 1).sending[run[n - 1].chunk])
    else Live(codec, run, n - 1)
  }

  /** The numbers of the chunks in the order of their arrival. */
  function Arrivals(run: seq<Step>, n: nat): seq<nat>
    requires n <= |run|
  {
    if n == 0 then []
    else if Arrives(run, n - 1) then Arrivals(run, n - 1) + [run[n - 1].chunk]
    else Arrivals(run, n - 1)
  }

  function ShownAlong(codec: LogCodec.Codec, chunks: map<nat, Chunk>, order: seq<nat>): seq<Record> {
    if order == [] then []
    else ShownAlong(codec, chunks, order[..|order| - 1]) + Shown(codec, ChunkAt(chunks, order[|order| - 1]))
  }

  /** Each of the numbers below `n` once. */
  ghost predicate Permutes(order: seq<nat>, n: nat) {
    && (forall i, k :: 0 <= i < k < |order| ==> order[i] != order[k])
    && (forall k :: k in order <==> 0 <= k < n)
  }

  ghost predicate Ascending(order: seq<nat>) {
    forall i, k :: 0 <= i < k < |order| ==> order[i] < order[k]
  }

  lemma {:induction false} AlongSame(codec: LogCodec.Codec, a: map<nat, Chunk>, b: map<nat, Chunk>, order: seq<nat>)
    requires forall k :: k in order ==> ChunkAt(a, k) == ChunkAt(b, k)
    ensures ShownAlong(codec, a, order) == ShownAlong(codec, b, order)
    decreases |order|
  {
    if order != [] { AlongSame(codec, a, b, order[..|order| - 1]); }
  }

  /** The state after an arrival and after any other step. */
  lemma ServerStep(s: State, e: Step)
    requires s.sending.Keys !! s.server.Keys
    ensures var now := Apply(s, e).server;
            if e.Arrive? && e.chunk in s.sending
            then e.chunk !in s.server && now == s.server[e.chunk := s.sending[e.chunk]]
            else now == s.server
  {
    hide Feed, Tails;
  }

  /** The live stream shows the chunks on the server in the order of their arrival, each once. */
  lemma {:induction false} LiveAlong(codec: LogCodec.Codec, run: seq<Step>, n: nat)
    requires n <= |run| && Orderly(run, n)
    ensures Live(codec, run, n) == ShownAlong(codec, At(run, n).server, Arrivals(run, n))
    ensures forall k :: k in Arrivals(run, n) <==> k in At(run, n).server
    ensures forall i, k :: 0 <= i < k < |Arrivals(run, n)| ==> Arrivals(run, n)[i] != Arrivals(run, n)[k]
  {
    hide Apply, NewFrames, Shown;
    if n > 0 {
      LiveAlong(codec, run, n - 1);
      AlwaysConserved(run, n - 1);
      var s, before := At(run, n - 1), Arrivals(run, n - 1);
      ServerStep(s, run[n - 1]);
      Unrolled(run, n, Stdout);
      if Arrives(run, n - 1) {
        var k := run[n - 1].chunk;
        AlongSame(codec, s.server, At(run, n).server, before);
        assert Arrivals(run, n)[..|before|] == before;
        assert ChunkAt(At(run, n).server, k) == s.sending[k];
      }
    }
  }

  // ---------------------------------------------------------------- every frame once, whatever the order

  function ShownInOrder(codec: LogCodec.Codec, chunks: map<nat, Chunk>, n: nat): seq<Record> {
    if n == 0 then [] else ShownInOrder(codec, chunks, n - 1) + Shown(codec, ChunkAt(chunks, n - 1))
  }

  lemma {:induction false} AlongJoin(codec: LogCodec.Codec, chunks: map<nat, Chunk>, a: seq<nat>, b: seq<nat>)
    ensures ShownAlong(codec, chunks, a + b) == ShownAlong(codec, chunks, a) + ShownAlong(codec, chunks, b)
    decreases |b|
  {
    hide Shown;
    if b == [] {
      assert a + b == a;
    } else {
      AlongJoin(codec, chunks, a, b[..|b| - 1]);
      assert (a + b)[..|a + b| - 1] == a + b[..|b| - 1];
    }
  }

  lemma InRange(order: seq<nat>, n: nat)
    requires Permutes(order, n)
    ensures forall i :: 0 <= i < |order| ==> order[i] < n
  {
    forall i | 0 <= i < |order| ensures order[i] < n {
      assert order[i] in order;
    }
  }

  lemma WhereLast(order: seq<nat>, n: nat) returns (i: nat)
    requires Permutes(order, n) && n > 0
    ensures i < |order| && order[i] == n - 1
  {
    assert n - 1 in order;
    i :| 0 <= i < |order| && order[i] == n - 1;
  }

  lemma WithoutLast(order: seq<nat>, n: nat, i: nat)
    requires Permutes(order, n) && n > 0 && i < |order| && order[i] == n - 1
    ensures Permutes(order[..i] + order[i + 1..], n - 1)
  {
    var rest := order[..i] + order[i + 1..];
    forall k: nat | k < n - 1 ensures k in rest {
      assert k in order;
      var m :| 0 <= m < |order| && order[m] == k;
      assert rest[if m < i then m else m - 1] == k;
    }
    forall k: nat | k in rest ensures k < n - 1 {
      var m :| 0 <= m < |rest| && rest[m] == k;
      var was := if m < i then m else m + 1;
      assert order[was] == k && was != i;
      assert order[was] in order && order[was] != order[i];
    }
  }

  lemma {:induction false} TurnsKeepFrames(codec: LogCodec.Codec, chunks: map<nat, Chunk>, order: seq<nat>, n: nat)
    requires Permutes(order, n)
    ensures multiset(ShownAlong(codec, chunks, order)) == multiset(ShownInOrder(codec, chunks, n))
    decreases n
  {
    hide Shown, Permutes;
    InRange(order, n);
    if n > 0 {
      var i := WhereLast(order, n);
      WithoutLast(order, n, i);
      TurnsKeepFrames(codec, chunks, order[..i] + order[i + 1..], n - 1);
      AlongAround(codec, chunks, order, i);
    }
  }

  lemma AlongAround(codec: LogCodec.Codec, chunks: map<nat, Chunk>, order: seq<nat>, i: nat)
    requires i < |order|
    ensures multiset(ShownAlong(codec, chunks, order)) ==
      multiset(ShownAlong(codec, chunks, order[..i] + order[i + 1..])) +
      multiset(Shown(codec, ChunkAt(chunks, order[i])))
  {
    hide Shown;
    var a, b := order[..i], order[i + 1..];
    assert order == (a + [order[i]]) + b && (a + [order[i]])[..i] == a;
    AlongJoin(codec, chunks, a + [order[i]], b);
    AlongJoin(codec, chunks, a, b);
  }

  lemma ShownChunk(codec: LogCodec.Codec, chunk: Chunk)
    requires Readable(codec, chunk) && WellFramed(chunk)
    ensures Shown(codec, chunk) == if chunk == [] then [DECODE_ERROR] else chunk
  {
    ReadBackExactly(codec, chunk);
  }

  /** The number of chunks below `n` without frames. */
  function Empties(chunks: map<nat, Chunk>, n: nat): nat {
    if n == 0 then 0 else Empties(chunks, n - 1) + if ChunkAt(chunks, n - 1) == [] then 1 else 0
  }

  lemma {:induction false} NoEmpties(chunks: map<nat, Chunk>, n: nat)
    ensures Empties(chunks, n) == 0 <==> NoneEmpty(chunks, n)
  {
    if n > 0 { NoEmpties(chunks, n - 1); }
  }

  function Errors(n: nat): multiset<Record> {
    multiset{}[DECODE_ERROR := n]
  }

  lemma {:induction false} FramesAndErrors(codec: LogCodec.Codec, chunks: map<nat, Chunk>, n: nat)
    requires Readable(codec, InOrder(chunks, n)) && WellFramed(InOrder(chunks, n))
    ensures multiset(ShownInOrder(codec, chunks, n)) == multiset(InOrder(chunks, n)) + Errors(Empties(chunks, n))
  {
    hide Shown, Readable, WellFramed;
    if n > 0 {
      var chunk := ChunkAt(chunks, n - 1);
      ReadableParts(codec, InOrder(chunks, n - 1), chunk);
      FramesAndErrors(codec, chunks, n - 1);
      ShownChunk(codec, chunk);
    }
  }

  lemma ArrivalsPermute(codec: LogCodec.Codec, run: seq<Step>, c: nat)
    requires Delivered(codec, run, c)
    ensures Permutes(Arrivals(run, |run|), At(run, |run|).chunkNo)
    ensures Live(codec, run, |run|) == ShownAlong(codec, At(run, |run|).server, Arrivals(run, |run|))
  {
    hide Apply, Shown;
    NothingAfterClose(run, c, |run|);
    LiveAlong(codec, run, |run|);
    ChunksHoldEveryFrame(run, c);
  }

  /**
    Whatever order the chunks arrive in, the live stream shows every frame once, and one error for each chunk without
    frames; there is none if and only if every flush that cut a chunk had a frame completed since the previous cut.
   */
  lemma LiveShowsEveryFrame(codec: LogCodec.Codec, run: seq<Step>, c: nat)
    requires Delivered(codec, run, c)
    ensures var empties := Empties(At(run, |run|).server, At(run, |run|).chunkNo);
            && multiset(Live(codec, run, |run|)) == multiset(Log(run, |run|)) + Errors(empties)
            && (empties == 0 <==> EveryCutHasFrames(run))
  {
    hide Apply, NewFrames, Shown;
    var s := At(run, |run|);
    ArrivalsPermute(codec, run, c);
    TurnsKeepFrames(codec, s.server, Arrivals(run, |run|), s.chunkNo);
    ChunksHoldEveryFrame(run, c);
    LogWellFramed(run, |run|);
    FramesAndErrors(codec, s.server, s.chunkNo);
    NoEmpties(s.server, s.chunkNo);
    CutsAndChunks(codec, run, c);
  }

  // ---------------------------------------------------------------- chunks that arrive in turn

  lemma OneError()
    ensures Of(Stdout, [DECODE_ERROR]) == [] && |Of(Stderr, [DECODE_ERROR])| == 1
  {
    OfSame(Stdout, Stderr, [DECODE_ERROR]);
    OfSame(Stderr, Stderr, [DECODE_ERROR]);
  }

  /** Stdout is shown as it was framed; stderr has one line more for each chunk without frames. */
  lemma {:induction false} ShownStreams(codec: LogCodec.Codec, chunks: map<nat, Chunk>, n: nat)
    requires Readable(codec, InOrder(chunks, n)) && WellFramed(InOrder(chunks, n))
    ensures Of(Stdout, ShownInOrder(codec, chunks, n)) == Of(Stdout, InOrder(chunks, n))
    ensures |Of(Stderr, ShownInOrder(codec, chunks, n))| == |Of(Stderr, InOrder(chunks, n))| + Empties(chunks, n)
    ensures NoneEmpty(chunks, n) ==> ShownInOrder(codec, chunks, n) == InOrder(chunks, n)
  {
    hide Shown, Of;
    if n > 0 {
      var chunk := ChunkAt(chunks, n - 1);
      ReadableParts(codec, InOrder(chunks, n - 1), chunk);
      ShownStreams(codec, chunks, n - 1);
      ShownChunk(codec, chunk);
      OneError();
      NothingOf();
      forall stream: Stream ensures
        && Of(stream, ShownInOrder(codec, chunks, n)) ==
             Of(stream, ShownInOrder(codec, chunks, n - 1)) + Of(stream, Shown(codec, chunk))
        && Of(stream, InOrder(chunks, n)) == Of(stream, InOrder(chunks, n - 1)) + Of(stream, chunk)
      {
        OfConcat(stream, ShownInOrder(codec, chunks, n - 1), Shown(codec, chunk));
        OfConcat(stream, InOrder(chunks, n - 1), chunk);
      }
    }
  }

  lemma NothingOf()
    ensures Of(Stdout, []) == [] && Of(Stderr, []) == []
  {
  }

  /** Numbers below `n` in ascending order are 0, 1, 2, ... */
  lemma {:induction false} AscendingIsCounting(order: seq<nat>, n: nat)
    requires Permutes(order, n) && Ascending(order)
    ensures |order| == n && forall i :: 0 <= i < n ==> order[i] == i
    decreases n
  {
    InRange(order, n);
    if n > 0 {
      var i := WhereLast(order, n);
      WithoutLast(order, n, i);
      assert order[i] <= order[|order| - 1] < n;
      assert order[..i] + order[i + 1..] == order[..i];
      AscendingIsCounting(order[..i], n - 1);
    }
  }

  lemma {:induction false} AlongCounting(codec: LogCodec.Codec, chunks: map<nat, Chunk>, order: seq<nat>)
    requires forall i :: 0 <= i < |order| ==> order[i] == i
    ensures ShownAlong(codec, chunks, order) == ShownInOrder(codec, chunks, |order|)
    decreases |order|
  {
    hide Shown;
    if order != [] { AlongCounting(codec, chunks, order[..|order| - 1]); }
  }

  /**
    When the chunks arrive in turn, the live stream shows exactly the lines of stdout, and exactly the lines of stderr
    if and only if every flush that cut a chunk had a frame completed since the previous cut; otherwise errors are
    mixed in.
   */
  lemma LiveInTurn(codec: LogCodec.Codec, run: seq<Step>, c: nat, out: seq<Bytes>, err: seq<Bytes>)
    requires Delivered(codec, run, c) && Ascending(Arrivals(run, |run|))
    requires IsSplit(Written(run, c, Stdout), out) && IsSplit(Written(run, c, Stderr), err)
    ensures Of(Stdout, Live(codec, run, |run|)) == Expected(Stdout, out)
    ensures Of(Stderr, Live(codec, run, |run|)) == Expected(Stderr, err) <==> EveryCutHasFrames(run)
  {
    hide Apply, NewFrames, Of, Expected, Shown;
    var s := At(run, |run|);
    ArrivalsPermute(codec, run, c);
    AscendingIsCounting(Arrivals(run, |run|), s.chunkNo);
    AlongCounting(codec, s.server, Arrivals(run, |run|));
    ChunksHoldEveryFrame(run, c);
    LogWellFramed(run, |run|);
    ShownStreams(codec, s.server, s.chunkNo);
    NoEmpties(s.server, s.chunkNo);
    CutsAndChunks(codec, run, c);
    FramesAreTheLines(run, c, Stdout, out);
    FramesAreTheLines(run, c, Stderr, err);
  }

  // ---------------------------------------------------------------- chunks out of turn

  /** The frames of the chunks in the given order. */
  function Along(chunks: map<nat, Chunk>, order: seq<nat>): seq<Record> {
    if order == [] then [] else Along(chunks, order[..|order| - 1]) + ChunkAt(chunks, order[|order| - 1])
  }

  /** For chunks that all hold readable frames this is what the live stream shows. */
  lemma {:induction false} ShownIsAlong(codec: LogCodec.Codec, chunks: map<nat, Chunk>, order: seq<nat>)
    requires forall k :: k in order ==>
      ChunkAt(chunks, k) != [] && Readable(codec, ChunkAt(chunks, k)) && WellFramed(ChunkAt(chunks, k))
    ensures ShownAlong(codec, chunks, order) == Along(chunks, order)
    decreases |order|
  {
    hide Shown, Readable, WellFramed;
    if order != [] {
      var last := order[|order| - 1];
      assert last in order;
      ShownIsAlong(codec, chunks, order[..|order| - 1]);
      ShownChunk(codec, ChunkAt(chunks, last));
    }
  }

  lemma {:induction false} CountedAlong(chunks: map<nat, Chunk>, order: seq<nat>)
    requires forall i :: 0 <= i < |order| ==> order[i] == i
    ensures Along(chunks, order) == InOrder(chunks, |order|)
    decreases |order|
  {
    if order != [] { CountedAlong(chunks, order[..|order| - 1]); }
  }

  /** A frame that tells its chunk's number by its length. */
  function Numbered(stream: Stream, k: nat): Record {
    Record(stream, seq(k + 1, _ => 65))
  }

  function NumberedChunks(stream: Stream, n: nat): map<nat, Chunk> {
    map k: nat | 0 <= k < n :: [Numbered(stream, k)]
  }

  lemma {:induction false} NumberedAlong(stream: Stream, n: nat, order: seq<nat>)
    requires forall i :: 0 <= i < |order| ==> order[i] < n
    ensures |Along(NumberedChunks(stream, n), order)| == |order|
    ensures forall i :: 0 <= i < |order| ==> Along(NumberedChunks(stream, n), order)[i] == Numbered(stream, order[i])
    decreases |order|
  {
    if order != [] { NumberedAlong(stream, n, order[..|order| - 1]); }
  }

  lemma {:induction false} NumberedInOrder(stream: Stream, n: nat, m: nat)
    requires m <= n
    ensures |InOrder(NumberedChunks(stream, n), m)| == m
    ensures forall i :: 0 <= i < m ==> InOrder(NumberedChunks(stream, n), m)[i] == Numbered(stream, i)
    decreases m
  {
    if m > 0 { NumberedInOrder(stream, n, m - 1); }
  }

  /** The lines of the stream in that order of the chunks are its lines in number order. */
  ghost predicate Kept(chunks: map<nat, Chunk>, order: seq<nat>, n: nat, stream: Stream) {
    Of(stream, Along(chunks, order)) == Of(stream, InOrder(chunks, n))
  }

  lemma NumbersTell(order: seq<nat>, n: nat, stream: Stream)
    requires Permutes(order, n) && Kept(NumberedChunks(stream, n), order, n, stream)
    ensures Ascending(order)
  {
    InRange(order, n);
    hide Of, Permutes;
    var chunks := NumberedChunks(stream, n);
    NumberedAlong(stream, n, order);
    NumberedInOrder(stream, n, n);
    OfSame(stream, stream, Along(chunks, order));
    OfSame(stream, stream, InOrder(chunks, n));
    forall i | 0 <= i < |order| ensures order[i] == i {
      assert Numbered(stream, order[i]) == Numbered(stream, i);
      assert |Numbered(stream, order[i]).line| == order[i] + 1;
    }
  }

  /**
    An order of arrival shows the lines of a stream in their order, whatever the chunks hold, if and only if it
    ascends.
   */
  lemma TurnsAreExact(order: seq<nat>, n: nat, stream: Stream)
    requires Permutes(order, n)
    ensures (forall chunks :: Kept(chunks, order, n, stream)) <==> Ascending(order)
  {
    if Kept(NumberedChunks(stream, n), order, n, stream) { NumbersTell(order, n, stream); }
    if Ascending(order) {
      AscendingIsCounting(order, n);
      forall chunks ensures Kept(chunks, order, n, stream) {
        CountedAlong(chunks, order);
      }
    }
  }

  // ---------------------------------------------------------------- two chunks that arrive the wrong way round

  const A := Record(Stdout, [65])
  const B := Record(Stdout, [66])

  /** The first chunk is cut by the timer, the second by a write, and the second arrives first. */
  const OVERTAKING := [Write(Stdout, [65, 10], false), Tick, Write(Stdout, [66, 10], true), Arrive(1), Arrive(0), Close]

  lemma FeedLine(b: Byte)
    requires b != NL && b != CR && !Blank([b])
    ensures Feed(Stdout, Scan([], []), [b, 10]) == Scan([Record(Stdout, [b])], [])
  {
    assert [b, 10][..1] == [b] && [b][..0] == [];
    assert Feed(Stdout, Scan([], []), [b]) == Scan([], [b]);
    assert Frame(Stdout, [b]) == [Record(Stdout, [b])];
  }

  lemma WriteLine(s: State, b: Byte, full: bool)
    requires s.pendingOut == [] && b != NL && b != CR && !Blank([b])
    ensures var t := s.(buffer := s.buffer + [Record(Stdout, [b])], dirty := true);
            Apply(s, Write(Stdout, [b, 10], full)) == if full then Flushed(t) else t
    ensures NewFrames(s, Write(Stdout, [b, 10], full)) == [Record(Stdout, [b])]
  {
    FeedLine(b);
  }

  const BOTH_CUT := NEW_STREAMER.(chunkNo := 2, sending := map[0 := [A], 1 := [B]])
  const SECOND_IN := NEW_STREAMER.(chunkNo := 2, sending := map[0 := [A]], server := map[1 := [B]])
  const BOTH_IN := NEW_STREAMER.(chunkNo := 2, server := map[0 := [A], 1 := [B]])

  lemma BothCut()
    ensures At(OVERTAKING, 3) == BOTH_CUT && Log(OVERTAKING, 3) == [A, B]
  {
    hide Feed, NewFrames;
    var run := OVERTAKING;
    var first := NEW_STREAMER.(buffer := [A], dirty := true);
    var second := NEW_STREAMER.(chunkNo := 1, sending := map[0 := [A]]);
    assert At(run, 1) == first && Log(run, 1) == [A] by {
      WriteLine(NEW_STREAMER, 65, false);
      assert [] + [A] == [A];
    }
    assert At(run, 2) == second && Log(run, 2) == [A] by {
      assert NewFrames(first, Tick) == [] by { NoNewFrames(first, Tick); }
      assert [A] + [] == [A];
    }
    WriteLine(second, 66, true);
    assert [] + [B] == [B] && [A] + [B] == [A, B];
  }

  lemma NoNewFrames(s: State, e: Step)
    requires e.Tick? || e.Arrive?
    ensures NewFrames(s, e) == []
  {
  }

  lemma BothIn()
    ensures Apply(BOTH_CUT, Arrive(1)) == SECOND_IN && Apply(SECOND_IN, Arrive(0)) == BOTH_IN
    ensures Apply(BOTH_IN, Close) == BOTH_IN.(closed := true) && NewFrames(BOTH_IN, Close) == []
  {
    assert BOTH_CUT.sending - {1} == SECOND_IN.sending && SECOND_IN.sending - {0} == map[];
    assert map[1 := [B]][0 := [A]] == BOTH_IN.server;
  }

  lemma OvertakingStates()
    ensures At(OVERTAKING, 3) == BOTH_CUT && At(OVERTAKING, 4) == SECOND_IN && At(OVERTAKING, 5) == BOTH_IN
    ensures At(OVERTAKING, 6) == BOTH_IN.(closed := true) && Log(OVERTAKING, 6) == [A, B]
  {
    BothCut();
    BothIn();
    hide Apply, NewFrames;
    Unrolled(OVERTAKING, 4, Stdout);
    Unrolled(OVERTAKING, 5, Stdout);
    Unrolled(OVERTAKING, 6, Stdout);
    NoNewFrames(BOTH_CUT, Arrive(1));
    NoNewFrames(SECOND_IN, Arrive(0));
    assert [A, B] + [] == [A, B];
  }

  lemma QuietStep(codec: LogCodec.Codec, run: seq<Step>, n: nat)
    requires 0 < n <= |run| && !run[n - 1].Arrive?
    ensures Live(codec, run, n) == Live(codec, run, n - 1) && Arrivals(run, n) == Arrivals(run, n - 1)
  {
  }

  lemma ArrivalStep(codec: LogCodec.Codec, run: seq<Step>, n: nat, k: nat)
    requires 0 < n <= |run| && run[n - 1] == Arrive(k) && k in At(run, n - 1).sending
    ensures Live(codec, run, n) == Live(codec, run, n - 1) + Shown(codec, At(run, n - 1).sending[k])
    ensures Arrivals(run, n) == Arrivals(run, n - 1) + [k]
  {
  }

  lemma QuietStart(codec: LogCodec.Codec)
    ensures Live(codec, OVERTAKING, 3) == [] && Arrivals(OVERTAKING, 3) == []
  {
    hide At, Shown, Live, Arrivals;
    NothingYet(codec);
    QuietStep(codec, OVERTAKING, 1);
    QuietStep(codec, OVERTAKING, 2);
    QuietStep(codec, OVERTAKING, 3);
  }

  lemma LiveOvertaking(codec: LogCodec.Codec)
    ensures Live(codec, OVERTAKING, 6) == Shown(codec, [B]) + Shown(codec, [A]) && Arrivals(OVERTAKING, 6) == [1, 0]
  {
    hide At, Log, Shown, Live, Arrivals;
    OvertakingStates();
    QuietStart(codec);
    ArrivalStep(codec, OVERTAKING, 4, 1);
    ArrivalStep(codec, OVERTAKING, 5, 0);
    QuietStep(codec, OVERTAKING, 6);
    assert [] + Shown(codec, [B]) == Shown(codec, [B]) && [] + [1] + [0] == [1, 0];
  }

  lemma NothingYet(codec: LogCodec.Codec)
    ensures Live(codec, OVERTAKING, 0) == [] && Arrivals(OVERTAKING, 0) == []
  {
  }

  lemma OvertakingDelivers(codec: LogCodec.Codec)
    requires Readable(codec, [A, B])
    ensures Delivered(codec, OVERTAKING, 5)
  {
    OvertakingStates();
    hide At, Log;
  }

  lemma ShownBoth(codec: LogCodec.Codec)
    requires Readable(codec, [A, B])
    ensures Shown(codec, [A]) == [A] && Shown(codec, [B]) == [B]
  {
    hide Shown;
    assert [A] + [B] == [A, B];
    assert WellFramed([A, B]);
    ReadableParts(codec, [A], [B]);
    ShownChunk(codec, [A]);
    ShownChunk(codec, [B]);
  }

  lemma BackfillOvertaking(codec: LogCodec.Codec)
    requires Readable(codec, [A, B])
    ensures Backfill(codec, At(OVERTAKING, 6).server, At(OVERTAKING, 6).chunkNo) == [A, B]
  {
    hide At, Log, Backfill, Finished;
    OvertakingStates();
    OvertakingDelivers(codec);
    BackfillShowsTheLog(codec, OVERTAKING, 5);
  }

  /** The live stream shows the second line first, where the backfill shows both in their order. */
  lemma OvertakenLine(codec: LogCodec.Codec)
    requires Readable(codec, [A, B])
    ensures Delivered(codec, OVERTAKING, 5) && !Ascending(Arrivals(OVERTAKING, 6))
    ensures Live(codec, OVERTAKING, 6) == [B, A]
    ensures Backfill(codec, At(OVERTAKING, 6).server, At(OVERTAKING, 6).chunkNo) == [A, B]
  {
    hide At, Log, Live, Arrivals, Shown, Backfill, Delivered, Readable;
    OvertakingDelivers(codec);
    LiveOvertaking(codec);
    BackfillOvertaking(codec);
    ShownBoth(codec);
    assert [B] + [A] == [B, A] && [1, 0][1] < [1, 0][0];
  }
}
