/** Turning the bytes of the two output streams into framed log lines. */
module LogFraming {
  import Text

  type Byte = b: nat | b < 256
  type Bytes = seq<Byte>

  const NL: Byte := 10
  const CR: Byte := 13

  datatype Stream = Stdout | Stderr
  datatype Record = Record(stream: Stream, line: Bytes)

  function TrimRightCR(s: Bytes): (r: Bytes)
    ensures |r| <= |s| && r == s[..|r|]
    ensures forall k :: |r| <= k < |s| ==> s[k] == CR
    ensures r != [] ==> r[|r| - 1] != CR
  {
    if s != [] && s[|s| - 1] == CR then TrimRightCR(s[..|s| - 1]) else s
  }

  // ---------------------------------------------------------------- blank text

  /** The length of the white-space character at the start of UTF-8 text, 0 when there is none. */
  function SpaceAt(s: Bytes): (n: nat)
    ensures n <= |s|
  {
    if |s| >= 1 && (s[0] == 32 || 9 <= s[0] <= 13) then 1
    else if |s| >= 2 && s[0] == 0xC2 && (s[1] == 0x85 || s[1] == 0xA0) then 2
    else if |s| >= 3 && s[0] == 0xE1 && s[1] == 0x9A && s[2] == 0x80 then 3
    else if |s| >= 3 && s[0] == 0xE2 && s[1] == 0x80 &&
      (0x80 <= s[2] <= 0x8A || s[2] == 0xA8 || s[2] == 0xA9 || s[2] == 0xAF) then 3
    else if |s| >= 3 && s[0] == 0xE2 && s[1] == 0x81 && s[2] == 0x9F then 3
    else if |s| >= 3 && s[0] == 0xE3 && s[1] == 0x80 && s[2] == 0x80 then 3
    else 0
  }

  /** Whether trimming white space leaves nothing. */
  predicate Blank(s: Bytes) {
    s == [] || (SpaceAt(s) > 0 && Blank(s[SpaceAt(s)..]))
  }

  /** A tail that is not blank is more than carriage returns. */
  lemma {:induction false} BlankOfCR(s: Bytes)
    requires TrimRightCR(s) == []
    ensures Blank(s)
  {
    if s != [] {
      assert forall k :: 0 <= k < |s| ==> s[k] == CR;
      OnlyCR(s[1..]);
      BlankOfCR(s[1..]);
    }
  }

  lemma {:induction false} OnlyCR(s: Bytes)
    requires forall k :: 0 <= k < |s| ==> s[k] == CR
    ensures TrimRightCR(s) == []
  {
    if s != [] { OnlyCR(s[..|s| - 1]); }
  }

  // ---------------------------------------------------------------- reference: splitting a whole text

  /** `segs` is the text cut at its newlines. */
  ghost predicate IsSplit(text: Bytes, segs: seq<Bytes>) {
    segs != [] && Text.Join(segs, NL) == text && forall i :: 0 <= i < |segs| ==> NL !in segs[i]
  }

  function Frame(stream: Stream, seg: Bytes): (r: seq<Record>)
    ensures |r| <= 1 && forall i :: 0 <= i < |r| ==> r[i].stream == stream
  {
    if TrimRightCR(seg) == [] then [] else [Record(stream, TrimRightCR(seg))]
  }

  /** The frames of terminated lines: carriage returns at the end are cut, empty lines are left out. */
  function Frames(stream: Stream, lines: seq<Bytes>): seq<Record> {
    if lines == [] then [] else Frame(stream, lines[0]) + Frames(stream, lines[1..])
  }

  /** The frame of an unterminated tail, when it is not blank. */
  function TailFrame(stream: Stream, tail: Bytes): seq<Record> {
    if Blank(tail) then [] else [Record(stream, TrimRightCR(tail))]
  }

  // ---------------------------------------------------------------- what the frames of a text must be

  /** The white-space characters of Unicode. */
  predicate SpaceChar(c: nat) {
    || 9 <= c <= 13 || c == 32 || c == 0x85 || c == 0xA0 || c == 0x1680 || 0x2000 <= c <= 0x200A
    || c == 0x2028 || c == 0x2029 || c == 0x202F || c == 0x205F || c == 0x3000
  }

  /** UTF-8, for characters of at most three bytes. */
  function Utf8(c: nat): Bytes
    requires c < 0x10000
  {
    if c < 0x80 then [c]
    else if c < 0x800 then [0xC0 + c / 64, 0x80 + c % 64]
    else [0xE0 + c / 4096, 0x80 + c / 64 % 64, 0x80 + c % 64]
  }

  function Encoded(chars: seq<nat>): Bytes
    requires forall i :: 0 <= i < |chars| ==> SpaceChar(chars[i])
  {
    if chars == [] then [] else assert SpaceChar(chars[0]); Utf8(chars[0]) + Encoded(chars[1..])
  }

  /** The text is made of white-space characters. */
  ghost predicate OnlySpaces(s: Bytes) {
    exists chars: seq<nat> :: (forall i :: 0 <= i < |chars| ==> SpaceChar(chars[i])) && Encoded(chars) == s
  }

  predicate OnlyCRs(s: Bytes) {
    forall k :: 0 <= k < |s| ==> s[k] == CR
  }

  /** `line` is `seg` without the carriage returns at its end. */
  predicate Chomps(seg: Bytes, line: Bytes) {
    line <= seg && OnlyCRs(seg[|line|..]) && (line != [] ==> line[|line| - 1] != CR)
  }

  /** Line `seg` of a text gives no frame if it is empty, as the unterminated tail also if it is white space. */
  ghost predicate FrameOf(stream: Stream, seg: Bytes, isTail: bool, r: seq<Record>) {
    if OnlyCRs(seg) || (isTail && OnlySpaces(seg)) then r == []
    else |r| == 1 && r[0].stream == stream && Chomps(seg, r[0].line)
  }

  function Flat(parts: seq<seq<Record>>): seq<Record> {
    if parts == [] then [] else parts[0] + Flat(parts[1..])
  }

  /** `records` are the frames of the lines `segs`, in order; the last one is the tail. */
  ghost predicate FramesOf(stream: Stream, segs: seq<Bytes>, records: seq<Record>) {
    exists parts: seq<seq<Record>> ::
      && |parts| == |segs| && Flat(parts) == records
      && forall i :: 0 <= i < |segs| ==> FrameOf(stream, segs[i], i == |segs| - 1, parts[i])
  }

  lemma SpaceHead(c: nat, rest: Bytes)
    requires SpaceChar(c)
    ensures var n := SpaceAt(Utf8(c) + rest); n == |Utf8(c)| && (Utf8(c) + rest)[n..] == rest
  {
  }

  /** The character whose encoding begins the text. */
  function SpaceHere(s: Bytes): (c: nat)
    requires SpaceAt(s) > 0
    ensures SpaceChar(c) && Utf8(c) == s[..SpaceAt(s)]
  {
    if SpaceAt(s) == 1 then s[0]
    else if SpaceAt(s) == 2 then s[1]
    else (s[0] as int - 0xE0) * 4096 + (s[1] as int - 0x80) * 64 + (s[2] as int - 0x80)
  }

  lemma {:induction false} SpacesAreBlank(chars: seq<nat>)
    requires forall i :: 0 <= i < |chars| ==> SpaceChar(chars[i])
    ensures Blank(Encoded(chars))
  {
    if chars != [] {
      SpacesAreBlank(chars[1..]);
      SpaceHead(chars[0], Encoded(chars[1..]));
    }
  }

  lemma EncodedCons(c: nat, rest: seq<nat>)
    requires SpaceChar(c) && forall i :: 0 <= i < |rest| ==> SpaceChar(rest[i])
    ensures var chars := [c] + rest;
            (forall i :: 0 <= i < |chars| ==> SpaceChar(chars[i])) && Encoded(chars) == Utf8(c) + Encoded(rest)
  {
    hide SpaceChar;
    assert ([c] + rest)[1..] == rest;
  }

  lemma {:induction false} BlankIsSpaces(s: Bytes) returns (chars: seq<nat>)
    requires Blank(s)
    ensures (forall i :: 0 <= i < |chars| ==> SpaceChar(chars[i])) && Encoded(chars) == s
    decreases |s|
  {
    chars := [];
    if s != [] {
      hide SpaceAt, SpaceHere, Utf8, Encoded;
      var n, c := SpaceAt(s), SpaceHere(s);
      var rest := BlankIsSpaces(s[n..]);
      EncodedCons(c, rest);
      chars := [c] + rest;
      assert s == s[..n] + s[n..];
    }
  }

  /** Trimming white space leaves nothing exactly when the text is made of white-space characters. */
  lemma BlankExactly(s: Bytes)
    ensures Blank(s) <==> OnlySpaces(s)
  {
    if Blank(s) { var chars := BlankIsSpaces(s); }
    if OnlySpaces(s) {
      var chars: seq<nat> :| (forall i :: 0 <= i < |chars| ==> SpaceChar(chars[i])) && Encoded(chars) == s;
      SpacesAreBlank(chars);
    }
  }

  lemma TrimChomps(s: Bytes)
    ensures Chomps(s, TrimRightCR(s)) && (TrimRightCR(s) == [] <==> OnlyCRs(s))
  {
    if OnlyCRs(s) { OnlyCR(s); }
  }

  lemma LineFrameOf(stream: Stream, seg: Bytes)
    ensures FrameOf(stream, seg, false, Frame(stream, seg))
  {
    TrimChomps(seg);
  }

  lemma TailFrameOf(stream: Stream, seg: Bytes)
    ensures FrameOf(stream, seg, true, TailFrame(stream, seg))
  {
    TrimChomps(seg);
    BlankExactly(seg);
    if OnlyCRs(seg) { BlankOfCR(seg); }
  }

  /** The parts of the lines and of the tail. */
  function Parts(stream: Stream, segs: seq<Bytes>): (parts: seq<seq<Record>>)
    ensures |parts| == |segs|
  {
    seq(|segs|, i requires 0 <= i < |segs| =>
      if i == |segs| - 1 then TailFrame(stream, segs[i]) else Frame(stream, segs[i]))
  }

  lemma {:induction false} FlatParts(stream: Stream, segs: seq<Bytes>)
    requires segs != []
    ensures Flat(Parts(stream, segs)) == Frames(stream, segs[..|segs| - 1]) + TailFrame(stream, segs[|segs| - 1])
  {
    hide Frame, TailFrame;
    var parts := Parts(stream, segs);
    if |segs| == 1 {
      assert Flat(parts[1..]) == [] && parts[0] + [] == parts[0];
    } else {
      assert parts[1..] == Parts(stream, segs[1..]);
      FlatParts(stream, segs[1..]);
      var lines, tail := Frames(stream, segs[1..][..|segs| - 2]), TailFrame(stream, segs[|segs| - 1]);
      assert segs[..|segs| - 1][1..] == segs[1..][..|segs| - 2] && segs[..|segs| - 1][0] == segs[0];
      assert Frame(stream, segs[0]) + (lines + tail) == Frame(stream, segs[0]) + lines + tail;
    }
  }

  lemma FramesAndTail(stream: Stream, segs: seq<Bytes>)
    requires segs != []
    ensures FramesOf(stream, segs, Frames(stream, segs[..|segs| - 1]) + TailFrame(stream, segs[|segs| - 1]))
  {
    hide FrameOf, Frame, TailFrame;
    var parts := Parts(stream, segs);
    FlatParts(stream, segs);
    forall i | 0 <= i < |segs| ensures FrameOf(stream, segs[i], i == |segs| - 1, parts[i]) {
      if i == |segs| - 1 { TailFrameOf(stream, segs[i]); } else { LineFrameOf(stream, segs[i]); }
    }
  }

  lemma ChompedAway(seg: Bytes, line: Bytes)
    requires Chomps(seg, line)
    ensures forall k :: |line| <= k < |seg| ==> seg[k] == CR
  {
    forall k | |line| <= k < |seg| ensures seg[k] == CR { assert seg[|line|..][k - |line|] == seg[k]; }
  }

  lemma ChompsOnce(seg: Bytes, a: Bytes, b: Bytes)
    requires Chomps(seg, a) && Chomps(seg, b)
    ensures a == b
  {
    ChompedAway(seg, a);
    ChompedAway(seg, b);
  }

  lemma FrameOnce(stream: Stream, seg: Bytes, isTail: bool, a: seq<Record>, b: seq<Record>)
    requires FrameOf(stream, seg, isTail, a) && FrameOf(stream, seg, isTail, b)
    ensures a == b
  {
    hide OnlySpaces;
    if a != [] && b != [] { ChompsOnce(seg, a[0].line, b[0].line); }
  }

  /** The lines of a text decide its frames. */
  lemma FramesOnce(stream: Stream, segs: seq<Bytes>, a: seq<Record>, b: seq<Record>)
    requires FramesOf(stream, segs, a) && FramesOf(stream, segs, b)
    ensures a == b
  {
    hide FrameOf;
    var p: seq<seq<Record>> :|
      && |p| == |segs| && Flat(p) == a
      && forall i :: 0 <= i < |segs| ==> FrameOf(stream, segs[i], i == |segs| - 1, p[i]);
    var q: seq<seq<Record>> :|
      && |q| == |segs| && Flat(q) == b
      && forall i :: 0 <= i < |segs| ==> FrameOf(stream, segs[i], i == |segs| - 1, q[i]);
    forall i | 0 <= i < |segs| ensures p[i] == q[i] { FrameOnce(stream, segs[i], i == |segs| - 1, p[i], q[i]); }
    assert p == q;
  }

  // ---------------------------------------------------------------- byte by byte, write by write

  /** The frames completed so far and the line under way. */
  datatype Scan = Scan(frames: seq<Record>, tail: Bytes)

  function Feed(stream: Stream, s: Scan, text: Bytes): Scan {
    if text == [] then s
    else
      var t := Feed(stream, s, text[..|text| - 1]);
      if text[|text| - 1] == NL then Scan(t.frames + Frame(stream, t.tail), [])
      else Scan(t.frames, t.tail + [text[|text| - 1]])
  }

  lemma {:induction false} FeedConcat(stream: Stream, s: Scan, a: Bytes, b: Bytes)
    ensures Feed(stream, s, a + b) == Feed(stream, Feed(stream, s, a), b)
  {
    if b == [] {
      assert a + b == a;
    } else {
      assert (a + b)[..|a + b| - 1] == a + b[..|b| - 1];
      FeedConcat(stream, s, a, b[..|b| - 1]);
    }
  }

  lemma {:induction false} FeedPlain(stream: Stream, s: Scan, text: Bytes)
    requires NL !in text
    ensures Feed(stream, s, text) == Scan(s.frames, s.tail + text)
  {
    if text != [] {
      FeedPlain(stream, s, text[..|text| - 1]);
      assert s.tail + text == s.tail + text[..|text| - 1] + [text[|text| - 1]];
    } else {
      assert s.tail + text == s.tail;
    }
  }

  /** A line and its newline. */
  lemma FeedLine(stream: Stream, s: Scan, line: Bytes)
    requires NL !in line
    ensures Feed(stream, s, line + [NL]) == Scan(s.frames + Frame(stream, s.tail + line), [])
  {
    FeedPlain(stream, s, line);
    assert (line + [NL])[..|line|] == line;
  }

  lemma {:induction false} FeedShift(stream: Stream, frames: seq<Record>, tail: Bytes, text: Bytes)
    ensures var t := Feed(stream, Scan([], tail), text);
            Feed(stream, Scan(frames, tail), text) == Scan(frames + t.frames, t.tail)
  {
    if text != [] {
      FeedShift(stream, frames, tail, text[..|text| - 1]);
      var t := Feed(stream, Scan([], tail), text[..|text| - 1]);
      assert frames + t.frames + Frame(stream, t.tail) == frames + (t.frames + Frame(stream, t.tail));
    }
  }

  /** On a whole text the frames and the tail are those of its only split. */
  lemma {:induction false} FeedIsSplit(stream: Stream, frames: seq<Record>, text: Bytes, segs: seq<Bytes>)
    requires IsSplit(text, segs)
    ensures Feed(stream, Scan(frames, []), text) == Scan(frames + Frames(stream, segs[..|segs| - 1]), segs[|segs| - 1])
    decreases |segs|
  {
    if |segs| == 1 {
      FeedPlain(stream, Scan(frames, []), text);
      assert [] + text == text && frames + [] == frames;
    } else {
      var rest, more := Text.Join(segs[1..], NL), frames + Frame(stream, segs[0]);
      FeedFirst(stream, frames, segs[0], rest);
      FeedIsSplit(stream, more, rest, segs[1..]);
      FramesCons(stream, frames, segs);
    }
  }

  lemma FeedFirst(stream: Stream, frames: seq<Record>, line: Bytes, rest: Bytes)
    requires NL !in line
    ensures Feed(stream, Scan(frames, []), line + [NL] + rest) ==
      Feed(stream, Scan(frames + Frame(stream, line), []), rest)
  {
    FeedConcat(stream, Scan(frames, []), line + [NL], rest);
    FeedLine(stream, Scan(frames, []), line);
    assert [] + line == line;
  }

  lemma FramesCons(stream: Stream, frames: seq<Record>, segs: seq<Bytes>)
    requires |segs| > 1
    ensures frames + Frame(stream, segs[0]) + Frames(stream, segs[1..][..|segs| - 2]) ==
      frames + Frames(stream, segs[..|segs| - 1])
  {
    assert segs[..|segs| - 1][1..] == segs[1..][..|segs| - 2];
  }

  /** Every text has a split. */
  lemma SplitExists(text: Bytes) returns (segs: seq<Bytes>)
    ensures IsSplit(text, segs)
  {
    Text.JoinSplit(text, NL);
    segs := Text.Split(text, NL);
  }

  // ---------------------------------------------------------------- one stream of a list of frames

  function Of(stream: Stream, records: seq<Record>): seq<Record> {
    if records == [] then []
    else
      var front, last := Of(stream, records[..|records| - 1]), records[|records| - 1];
      if last.stream == stream then front + [last] else front
  }

  lemma {:induction false} OfConcat(stream: Stream, a: seq<Record>, b: seq<Record>)
    ensures Of(stream, a + b) == Of(stream, a) + Of(stream, b)
    decreases |b|
  {
    if b == [] {
      assert a + b == a;
    } else {
      OfConcat(stream, a, b[..|b| - 1]);
      assert (a + b)[..|a + b| - 1] == a + b[..|b| - 1];
    }
  }

  lemma {:induction false} OfSame(stream: Stream, other: Stream, records: seq<Record>)
    requires forall i :: 0 <= i < |records| ==> records[i].stream == other
    ensures Of(stream, records) == if stream == other then records else []
  {
    if records != [] { OfSame(stream, other, records[..|records| - 1]); }
  }

  lemma {:induction false} FeedStream(stream: Stream, s: Scan, text: Bytes)
    requires forall i :: 0 <= i < |s.frames| ==> s.frames[i].stream == stream
    ensures forall i :: 0 <= i < |Feed(stream, s, text).frames| ==> Feed(stream, s, text).frames[i].stream == stream
  {
    if text != [] { FeedStream(stream, s, text[..|text| - 1]); }
  }
}
