/** Encoding log frames as lines of a chunk and decoding a chunk's text again. */
module LogCodec {
  import opened Wrappers
  import opened LogFraming
  import Text

  /**
    The text of one frame. `enc` is JSON marshalling of a record; `dec` is unmarshalling of a line after trimming
    white space around it, with the stream name normalised.
   */
  datatype Codec = Codec(enc: Record -> Bytes, dec: Bytes -> Option<Record>)

  /** The longest line, with its newline, that the decoder's scanner accepts. */
  const MAX_FRAME_LINE := 256 * 1024

  datatype Decoding = Decoded(records: seq<Record>) | NoRecords | TooLong | Malformed

  /** What marshalling guarantees for a frame of valid UTF-8: it can be read back and is one non-blank line. */
  ghost predicate Faithful(codec: Codec, rec: Record) {
    var text := codec.enc(rec);
    && codec.dec(text) == Some(rec)
    && NL !in text && !Blank(text) && text[|text| - 1] != CR
  }

  predicate Fits(codec: Codec, rec: Record) {
    |codec.enc(rec)| + 1 <= MAX_FRAME_LINE
  }

  /** The text of a chunk: one line per frame. */
  function Encoded(codec: Codec, records: seq<Record>): Bytes {
    if records == [] then [] else codec.enc(records[0]) + [NL] + Encoded(codec, records[1..])
  }

  lemma {:induction false} EncodedConcat(codec: Codec, a: seq<Record>, b: seq<Record>)
    ensures Encoded(codec, a + b) == Encoded(codec, a) + Encoded(codec, b)
  {
    if a == [] {
      assert a + b == b;
    } else {
      assert (a + b)[1..] == a[1..] + b;
      EncodedConcat(codec, a[1..], b);
    }
  }

  /** Appends one frame and its newline to the text written so far. */
  method EncodeRecordLine(codec: Codec, text: Bytes, ghost records: seq<Record>, rec: Record) returns (out: Bytes)
    requires text == Encoded(codec, records)
    ensures out == Encoded(codec, records + [rec])
  {
    EncodedConcat(codec, records, [rec]);
    out := text + codec.enc(rec);
    out := out + [NL];
  }

  /** The scanner drops one carriage return at the end of a line. */
  function DropCR(line: Bytes): Bytes {
    if line != [] && line[|line| - 1] == CR then line[..|line| - 1] else line
  }

  /** What one line adds to the decoded records; None when it is malformed. */
  function DecodeLine(codec: Codec, line: Bytes): Option<seq<Record>> {
    if Blank(DropCR(line)) then Some([])
    else match codec.dec(DropCR(line))
         case None => None
         case Some(rec) => Some(Frame(rec.stream, rec.line))
  }

  function DecodeText(codec: Codec, text: Bytes, records: seq<Record>): Decoding
    decreases |text|
  {
    if text == [] then if records == [] then NoRecords else Decoded(records)
    else
      var i := Text.First(text, NL);
      if i + 1 > MAX_FRAME_LINE then TooLong
      else match DecodeLine(codec, text[..i])
           case None => Malformed
           case Some(more) => DecodeText(codec, if i < |text| then text[i + 1..] else [], records + more)
  }

  /** The scan loop of the decoder. */
  method DecodeChunk(codec: Codec, text: Bytes) returns (result: Decoding)
    ensures result == DecodeText(codec, text, [])
  {
    var rest := text;
    var records := [];
    while rest != []
      invariant DecodeText(codec, rest, records) == DecodeText(codec, text, [])
      decreases |rest|
    {
      var i := Text.First(rest, NL);
      if i + 1 > MAX_FRAME_LINE {
        return TooLong;
      }
      var line := DropCR(rest[..i]);
      if i < |rest| {
        rest := rest[i + 1..];
      } else {
        rest := [];
      }
      if Blank(line) {
        assert records == records + [];
        continue;
      }
      match codec.dec(line) {
        case None =>
          return Malformed;
        case Some(rec) =>
          if TrimRightCR(rec.line) == [] {
            assert records == records + [];
            continue;
          }
          records := records + [Record(rec.stream, TrimRightCR(rec.line))];
      }
    }
    return if |records| == 0 then NoRecords else Decoded(records);
  }

  lemma DecodeFrame(codec: Codec, rec: Record, rest: Bytes, records: seq<Record>)
    requires Faithful(codec, rec) && rec.line != [] && TrimRightCR(rec.line) == rec.line
    ensures DecodeText(codec, codec.enc(rec) + [NL] + rest, records) ==
      if Fits(codec, rec) then DecodeText(codec, rest, records + [rec]) else TooLong
  {
    var line := codec.enc(rec);
    var text := line + [NL] + rest;
    Text.FirstAt(line, NL, rest);
    assert text[..|line|] == line && text[|line| + 1..] == rest;
  }

  /** Frames as the streamer writes them: not empty and without carriage returns at the end. */
  ghost predicate Written(codec: Codec, records: seq<Record>) {
    forall i :: 0 <= i < |records| ==>
      Faithful(codec, records[i]) && records[i].line != [] && TrimRightCR(records[i].line) == records[i].line
  }

  ghost predicate AllFit(codec: Codec, records: seq<Record>) {
    forall i :: 0 <= i < |records| ==> Fits(codec, records[i])
  }

  lemma {:induction false} DecodeEncodedFrom(codec: Codec, records: seq<Record>, before: seq<Record>)
    requires Written(codec, records)
    ensures DecodeText(codec, Encoded(codec, records), before) ==
      if !AllFit(codec, records) then TooLong
      else if before + records == [] then NoRecords
      else Decoded(before + records)
    decreases |records|
  {
    if records != [] {
      DecodeFrame(codec, records[0], Encoded(codec, records[1..]), before);
      DecodeEncodedFrom(codec, records[1..], before + [records[0]]);
      assert before + [records[0]] + records[1..] == before + records;
      assert AllFit(codec, records) <==> Fits(codec, records[0]) && AllFit(codec, records[1..]);
    }
  }

  /** A chunk is read back exactly when it holds a frame and every frame is within the decoder's line limit. */
  lemma DecodeEncoded(codec: Codec, records: seq<Record>)
    requires Written(codec, records)
    ensures DecodeText(codec, Encoded(codec, records), []) == Decoded(records) <==>
      records != [] && AllFit(codec, records)
  {
    DecodeEncodedFrom(codec, records, []);
    assert [] + records == records;
  }
}
