/** Reading the chunks back: what each of them holds, and which of them the decoder accepts. */
module LogReading {
  import opened LogFraming
  import opened LogStreamer
  import LogCodec

  // ---------------------------------------------------------------- frames are well formed

  /** Frames of the streamer: lines that are not empty and do not end in a carriage return. */
  ghost predicate WellFramed(log: seq<Record>) {
    forall i :: 0 <= i < |log| ==> log[i].line != [] && TrimRightCR(log[i].line) == log[i].line
  }

  lemma {:induction false} FeedWellFramed(stream: Stream, s: Scan, text: Bytes)
    requires WellFramed(s.frames)
    ensures WellFramed(Feed(stream, s, text).frames)
  {
    if text != [] { FeedWellFramed(stream, s, text[..|text| - 1]); }
  }

  lemma TailsWellFramed(s: State)
    ensures WellFramed(Tails(s))
  {
    if !Blank(s.pendingOut) && TrimRightCR(s.pendingOut) == [] { BlankOfCR(s.pendingOut); }
    if !Blank(s.pendingErr) && TrimRightCR(s.pendingErr) == [] { BlankOfCR(s.pendingErr); }
  }

  lemma NewFramesWellFramed(s: State, e: Step)
    ensures WellFramed(NewFrames(s, e))
  {
    TailsWellFramed(s);
    if e.Write? { FeedWellFramed(e.stream, Scan([], Pending(s, e.stream)), e.bytes); }
  }

  lemma WellFramedConcat(a: seq<Record>, b: seq<Record>)
    requires WellFramed(a) && WellFramed(b)
    ensures WellFramed(a + b)
  {
  }

  lemma {:induction false} LogWellFramed(run: seq<Step>, n: nat)
    requires n <= |run|
    ensures WellFramed(Log(run, n))
  {
    if n > 0 {
      LogWellFramed(run, n - 1);
      NewFramesWellFramed(At(run, n - 1), run[n - 1]);
      WellFramedConcat(Log(run, n - 1), NewFrames(At(run, n - 1), run[n - 1]));
    }
  }

  ghost predicate Readable(codec: LogCodec.Codec, log: seq<Record>) {
    forall i :: 0 <= i < |log| ==> LogCodec.Faithful(codec, log[i]) && LogCodec.Fits(codec, log[i])
  }

  lemma ReadableParts(codec: LogCodec.Codec, a: seq<Record>, b: seq<Record>)
    requires Readable(codec, a + b) && WellFramed(a + b)
    ensures Readable(codec, a) && WellFramed(a) && Readable(codec, b) && WellFramed(b)
  {
    assert forall i :: 0 <= i < |a| ==> a[i] == (a + b)[i];
    assert forall i :: 0 <= i < |b| ==> b[i] == (a + b)[|a| + i];
  }

  // ---------------------------------------------------------------- what a chunk holds

  /** Step `m` cuts a chunk. */
  ghost predicate Cuts(run: seq<Step>, m: nat)
    requires m < |run|
  {
    At(run, m + 1).chunkNo != At(run, m).chunkNo
  }

  /** The last point up to `n` at which a chunk had just been cut, or the start. */
  ghost function Mark(run: seq<Step>, n: nat): (k: nat)
    requires n <= |run|
    ensures k <= n
  {
    if n == 0 then 0 else if Cuts(run, n - 1) then n else Mark(run, n - 1)
  }

  /** Every flush that cut a chunk had a frame completed since the previous cut. */
  ghost predicate EveryCutHasFrames(run: seq<Step>) {
    forall m :: 0 <= m < |run| && Cuts(run, m) ==> |Log(run, Mark(run, m))| < |Log(run, m + 1)|
  }

  /** A step either goes on filling the buffer or cuts everything that is in it. */
  lemma CutOrFill(s: State, e: Step)
    ensures var s', frames := Apply(s, e), NewFrames(s, e);
            if s'.chunkNo == s.chunkNo then s'.buffer == s.buffer + frames
            else s'.chunkNo == s.chunkNo + 1 && s'.buffer == []
                 && (!s.closed ==> s'.sending == s.sending[s.chunkNo := s.buffer + frames])
  {
    assert s.buffer + [] == s.buffer;
  }

  lemma {:induction false} BufferSinceCut(run: seq<Step>, n: nat)
    requires n <= |run|
    ensures Log(run, n) == Log(run, Mark(run, n)) + At(run, n).buffer
  {
    hide Apply, NewFrames;
    if n > 0 {
      BufferSinceCut(run, n - 1);
      Unrolled(run, n, Stdout);
      CutOrFill(At(run, n - 1), run[n - 1]);
      if Cuts(run, n - 1) {
        assert Log(run, n) + [] == Log(run, n);
      } else {
        assert Log(run, Mark(run, n - 1)) + (At(run, n - 1).buffer + NewFrames(At(run, n - 1), run[n - 1])) ==
          Log(run, n);
      }
    }
  }

  function AllChunks(s: State): map<nat, Chunk> {
    s.sending + s.server
  }

  lemma ArrivedStays(s: State, chunk: nat, k: nat)
    requires s.sending.Keys !! s.server.Keys && k in AllChunks(s)
    ensures k in AllChunks(Apply(s, Arrive(chunk))) && AllChunks(Apply(s, Arrive(chunk)))[k] == AllChunks(s)[k]
  {
    if chunk in s.sending && k == chunk { assert k !in s.server; }
  }

  lemma OthersStay(s: State, e: Step, k: nat)
    requires !e.Arrive? && k < s.chunkNo
    ensures Apply(s, e).server == s.server && (k in Apply(s, e).sending <==> k in s.sending)
    ensures k in s.sending ==> Apply(s, e).sending[k] == s.sending[k]
  {
    hide Feed, Tails;
  }

  /** Chunks that were cut stay as they are, sent or arrived. */
  lemma ChunkStays(s: State, e: Step, log: seq<Record>, k: nat)
    requires Conserved(s, log) && k < s.chunkNo
    ensures k in AllChunks(s) && k in AllChunks(Apply(s, e)) && AllChunks(Apply(s, e))[k] == AllChunks(s)[k]
  {
    hide InOrder, NewFrames, Apply;
    assert k in s.sending.Keys + s.server.Keys;
    if e.Arrive? {
      ArrivedStays(s, e.chunk, k);
    } else {
      OthersStay(s, e, k);
    }
  }

  /** The frames that went into the chunk which step `m` cut. */
  ghost function CutFrames(run: seq<Step>, m: nat): seq<Record>
    requires m < |run|
  {
    At(run, m).buffer + NewFrames(At(run, m), run[m])
  }

  lemma CutFramesLength(run: seq<Step>, m: nat)
    requires m < |run|
    ensures |CutFrames(run, m)| == |Log(run, m + 1)| - |Log(run, Mark(run, m))|
  {
    hide Apply, NewFrames;
    BufferSinceCut(run, m);
    Unrolled(run, m + 1, Stdout);
  }

  lemma CutNow(run: seq<Step>, m: nat)
    requires m < |run| && Orderly(run, m + 1) && Cuts(run, m)
    ensures At(run, m + 1).chunkNo == At(run, m).chunkNo + 1
    ensures At(run, m).chunkNo in AllChunks(At(run, m + 1))
    ensures AllChunks(At(run, m + 1))[At(run, m).chunkNo] == CutFrames(run, m)
  {
    hide Apply, NewFrames;
    var s := At(run, m);
    Unrolled(run, m + 1, Stdout);
    CutOrFill(s, run[m]);
    AlwaysConserved(run, m + 1);
    AlwaysConserved(run, m);
    OpenAtCut(run, m);
    assert s.chunkNo in At(run, m + 1).sending.Keys + At(run, m + 1).server.Keys;
  }

  lemma OpenAtCut(run: seq<Step>, m: nat)
    requires m < |run| && Orderly(run, m + 1) && Cuts(run, m)
    ensures !At(run, m).closed
  {
    Unrolled(run, m + 1, Stdout);
    if run[m].Write? || run[m].Tick? { StaysOpen(run, m); }
  }

  lemma {:induction false} CutLater(run: seq<Step>, m: nat, n: nat)
    requires m < n <= |run| && Orderly(run, n) && Cuts(run, m)
    ensures At(run, m).chunkNo < At(run, n).chunkNo && At(run, m).chunkNo in AllChunks(At(run, n))
    ensures AllChunks(At(run, n))[At(run, m).chunkNo] == CutFrames(run, m)
    decreases n
  {
    hide Apply, NewFrames;
    if n == m + 1 {
      CutNow(run, m);
    } else {
      CutLater(run, m, n - 1);
      AlwaysConserved(run, n - 1);
      Unrolled(run, n, Stdout);
      CutOrFill(At(run, n - 1), run[n - 1]);
      ChunkStays(At(run, n - 1), run[n - 1], Log(run, n - 1), At(run, m).chunkNo);
    }
  }

  /** Every chunk number was given out by one of the cuts. */
  lemma {:induction false} WhichCut(run: seq<Step>, n: nat, k: nat) returns (m: nat)
    requires n <= |run| && k < At(run, n).chunkNo
    ensures m < n && Cuts(run, m) && At(run, m).chunkNo == k
  {
    hide Apply, NewFrames;
    Unrolled(run, n, Stdout);
    CutOrFill(At(run, n - 1), run[n - 1]);
    if k < At(run, n - 1).chunkNo {
      m := WhichCut(run, n - 1, k);
    } else {
      m := n - 1;
    }
  }

  // ---------------------------------------------------------------- what the decoder accepts

  /** The chunk's text is decoded to the chunk's own frames. */
  ghost predicate ReadBack(codec: LogCodec.Codec, chunk: Chunk) {
    LogCodec.DecodeText(codec, LogCodec.Encoded(codec, chunk), []) == LogCodec.Decoded(chunk)
  }

  lemma ReadBackExactly(codec: LogCodec.Codec, chunk: Chunk)
    requires Readable(codec, chunk) && WellFramed(chunk)
    ensures ReadBack(codec, chunk) <==> chunk != []
    ensures chunk == [] ==> LogCodec.DecodeText(codec, LogCodec.Encoded(codec, chunk), []) == LogCodec.NoRecords
  {
    LogCodec.DecodeEncoded(codec, chunk);
    LogCodec.DecodeEncodedFrom(codec, chunk, []);
  }

  lemma {:induction false} ChunksReadable(codec: LogCodec.Codec, chunks: map<nat, Chunk>, n: nat, k: nat)
    requires Readable(codec, InOrder(chunks, n)) && WellFramed(InOrder(chunks, n)) && k < n
    ensures Readable(codec, ChunkAt(chunks, k)) && WellFramed(ChunkAt(chunks, k))
  {
    ReadableParts(codec, InOrder(chunks, n - 1), ChunkAt(chunks, n - 1));
    if k < n - 1 { ChunksReadable(codec, chunks, n - 1, k); }
  }

  /** A finished run whose sends have all arrived and whose frames the decoder can read. */
  ghost predicate Delivered(codec: LogCodec.Codec, run: seq<Step>, c: nat) {
    Finished(run, c) && At(run, |run|).sending == map[] && Readable(codec, Log(run, |run|))
  }

  lemma ServerReadable(codec: LogCodec.Codec, run: seq<Step>, c: nat, k: nat)
    requires Delivered(codec, run, c) && k < At(run, |run|).chunkNo
    ensures k in At(run, |run|).server
    ensures Readable(codec, At(run, |run|).server[k]) && WellFramed(At(run, |run|).server[k])
  {
    hide Apply;
    ChunksHoldEveryFrame(run, c);
    LogWellFramed(run, |run|);
    ChunksReadable(codec, At(run, |run|).server, At(run, |run|).chunkNo, k);
  }

  lemma ServerCut(codec: LogCodec.Codec, run: seq<Step>, c: nat, m: nat)
    requires Delivered(codec, run, c) && m < |run| && Cuts(run, m)
    ensures At(run, m).chunkNo < At(run, |run|).chunkNo && At(run, m).chunkNo in At(run, |run|).server
    ensures At(run, |run|).server[At(run, m).chunkNo] == [] <==> |Log(run, Mark(run, m))| == |Log(run, m + 1)|
  {
    hide Apply, NewFrames;
    CutLater(run, m, |run|);
    CutFramesLength(run, m);
    assert At(run, |run|).sending + At(run, |run|).server == At(run, |run|).server;
  }

  /** No chunk below `n` is without frames. */
  predicate NoneEmpty(chunks: map<nat, Chunk>, n: nat) {
    forall k :: 0 <= k < n ==> ChunkAt(chunks, k) != []
  }

  lemma CutsAndChunks(codec: LogCodec.Codec, run: seq<Step>, c: nat)
    requires Delivered(codec, run, c)
    ensures EveryCutHasFrames(run) <==> NoneEmpty(At(run, |run|).server, At(run, |run|).chunkNo)
  {
    hide Apply, NewFrames;
    var s := At(run, |run|);
    forall m | 0 <= m < |run| && Cuts(run, m)
      ensures ChunkAt(s.server, At(run, m).chunkNo) == [] <==> |Log(run, Mark(run, m))| == |Log(run, m + 1)|
      ensures At(run, m).chunkNo < s.chunkNo && |Log(run, Mark(run, m))| <= |Log(run, m + 1)|
    {
      ServerCut(codec, run, c, m);
      CutFramesLength(run, m);
    }
    if EveryCutHasFrames(run) {
      forall k | 0 <= k < s.chunkNo ensures ChunkAt(s.server, k) != [] {
        var m := WhichCut(run, |run|, k);
      }
    }
  }

  /**
    Every chunk on the server is decoded to its own frames if and only if every flush that cut a chunk had a frame
    completed since the previous cut. The decoder refuses the other chunks, which hold no frame.
   */
  lemma ChunksAreReadBack(codec: LogCodec.Codec, run: seq<Step>, c: nat)
    requires Delivered(codec, run, c)
    ensures (forall k :: k in At(run, |run|).server ==> ReadBack(codec, At(run, |run|).server[k])) <==>
      EveryCutHasFrames(run)
  {
    hide Apply, NewFrames;
    var s := At(run, |run|);
    ChunksHoldEveryFrame(run, c);
    CutsAndChunks(codec, run, c);
    forall k | k in s.server ensures ReadBack(codec, s.server[k]) <==> ChunkAt(s.server, k) != [] {
      ServerReadable(codec, run, c, k);
      ReadBackExactly(codec, s.server[k]);
    }
  }

  /** A write that completes no line and a flush: a chunk without frames is sent, and the decoder refuses it. */
  lemma EmptyChunk(codec: LogCodec.Codec)
    ensures At([Write(Stdout, [65], false), Tick], 2).sending == map[0 := []]
    ensures LogCodec.DecodeText(codec, LogCodec.Encoded(codec, []), []) == LogCodec.NoRecords
  {
    var run := [Write(Stdout, [65], false), Tick];
    assert At(run, 0) == NEW_STREAMER;
    assert [65][..0] == [];
    assert Feed(Stdout, Scan([], []), [65]) == Scan([], [65]);
    assert At(run, 1) == NEW_STREAMER.(pendingOut := [65], dirty := true);
  }
}
