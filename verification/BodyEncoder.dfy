// The body encoder, and the round trip through the decoder.
module BodyEncoder {
  import opened Results
  import opened Bytes
  import opened Numbers
  import opened Headers
  import opened ChunkLine
  import opened Lines
  import opened Trailers
  import opened BodyFraming
  import opened CutIndependence

  datatype EncodeError = UnexpectedFrame | LengthMismatch | InvalidTrailerField

  datatype EncoderState = EncoderState(framing: Framing, fixedRemaining: u64, complete: bool)

  function EncoderStart(framing: Framing): EncoderState {
    EncoderState(framing, if framing.ContentLength? then framing.length else 0, framing.NoBody? || framing.Tunnel?)
  }

  // One chunk: size line, data, CRLF.
  function ChunkOf(data: bytes): bytes
  {
    PrintHex(|data|) + (CRLF + (data + CRLF))
  }

  const LAST_CHUNK: bytes := [48, 13, 10]

  function EncodeFrame(st: EncoderState, frame: Frame): (r: Result<(EncoderState, bytes), EncodeError>)
  {
    if st.complete then Err(UnexpectedFrame)
    else
      match (st.framing, frame)
      case (NoBody, _) => Err(UnexpectedFrame)
      case (Tunnel, _) => Err(UnexpectedFrame)
      case (ContentLength(_), DataFrame(data)) =>
        if |data| > st.fixedRemaining then Err(LengthMismatch)
        else Ok((st.(fixedRemaining := st.fixedRemaining - |data|), data))
      case (ContentLength(_), TrailersFrame(_)) => Err(UnexpectedFrame)
      case (Chunked, DataFrame(data)) => Ok((st, if data == [] then [] else ChunkOf(data)))
      case (Chunked, TrailersFrame(fields)) =>
        (match EncodeHeaders(fields, true)
         case None => Err(InvalidTrailerField)
         case Some(text) => Ok((st.(complete := true), LAST_CHUNK + (text + CRLF))))
      case (UntilEof, DataFrame(data)) => Ok((st, data))
      case (UntilEof, TrailersFrame(_)) => Err(UnexpectedFrame)
  }

  function FinishEncoding(st: EncoderState): Result<(EncoderState, bytes), EncodeError> {
    var done := st.(complete := true);
    if st.complete then Ok((done, []))
    else
      match st.framing
      case ContentLength(_) => if st.fixedRemaining != 0 then Err(LengthMismatch) else Ok((done, []))
      case Chunked => Ok((done, LAST_CHUNK + CRLF))
      case _ => Ok((done, []))
  }

  // Everything written for a body: each frame in turn, then the end.
  function EncodeAll(st: EncoderState, frames: seq<Frame>): Result<bytes, EncodeError>
    decreases |frames|
  {
    if frames == [] then
      match FinishEncoding(st)
      case Err(e) => Err(e)
      case Ok((_, text)) => Ok(text)
    else
      match EncodeFrame(st, frames[0])
      case Err(e) => Err(e)
      case Ok((next, text)) =>
        match EncodeAll(next, frames[1..])
        case Err(e) => Err(e)
        case Ok(rest) => Ok(text + rest)
  }

  // ----- what a frame list says ----------------------------------------------

  function DataOf(frames: seq<Frame>): bytes {
    if frames == [] then []
    else (if frames[0].DataFrame? then frames[0].data else []) + DataOf(frames[1..])
  }

  // The trailer fields as they are read back: values without outer white space.
  function TrailersOf(frames: seq<Frame>): Fields {
    if frames == [] then []
    else if frames[0].TrailersFrame? then TrimmedAll(frames[0].fields)
    else TrailersOf(frames[1..])
  }

  // A frame a Rust program can hold: its data is shorter than 2^64 bytes and its
  // trailer fields have passed validation.
  predicate ProperFrame(frame: Frame) {
    match frame
    case DataFrame(data) => |data| < U64_LIMIT
    case TrailersFrame(fields) => ValidFields(fields)
  }

  // The receiver's limits leave room for the frame, with `slack` bytes to spare on
  // every chunk-size line.
  predicate FrameFits(limits: Limits, frame: Frame, slack: nat) {
    match frame
    case DataFrame(data) => |PrintHex(|data|)| + slack <= limits.maxChunkLineBytes
    case TrailersFrame(fields) =>
      |fields| <= limits.maxTrailers && |WriteTrailerBlock(fields)| <= limits.maxTrailerBytes
  }

  predicate AllProper(frames: seq<Frame>) {
    forall i :: 0 <= i < |frames| ==> ProperFrame(frames[i])
  }

  predicate AllFit(limits: Limits, frames: seq<Frame>, slack: nat) {
    1 + slack <= limits.maxChunkLineBytes && 2 <= limits.maxTrailerBytes
    && forall i :: 0 <= i < |frames| ==> FrameFits(limits, frames[i], slack)
  }

  // Sixteen bytes always hold a size line the encoder writes.
  lemma SixteenFit(limits: Limits, frame: Frame, slack: nat)
    requires ProperFrame(frame) && frame.DataFrame? && 16 + slack <= limits.maxChunkLineBytes
    ensures FrameFits(limits, frame, slack)
  {
    PrintHexAtMost16(|frame.data|);
  }

  // Limits under which the size line of any chunk may be cut anywhere.
  predicate Roomy(limits: Limits) {
    17 <= limits.maxChunkLineBytes && 2 <= limits.maxTrailerBytes
  }

  predicate TrailersFit(limits: Limits, frames: seq<Frame>) {
    forall i :: 0 <= i < |frames| && frames[i].TrailersFrame? ==> FrameFits(limits, frames[i], 0)
  }

  lemma RoomyFits(limits: Limits, frames: seq<Frame>)
    requires Roomy(limits) && AllProper(frames) && TrailersFit(limits, frames)
    ensures AllFit(limits, frames, 1)
  {
    hide PrintHex;
    forall i | 0 <= i < |frames| ensures FrameFits(limits, frames[i], 1) {
      assert ProperFrame(frames[i]);
      if frames[i].DataFrame? {
        SixteenFit(limits, frames[i], 1);
      } else {
        assert FrameFits(limits, frames[i], 0);
      }
    }
  }

  // ----- chunked -------------------------------------------------------------

  lemma SizeLineStep(limits: Limits, n: u64, rest: bytes)
    requires |PrintHex(n)| <= limits.maxChunkLineBytes
    ensures SizeStep(limits, PrintHex(n) + (CRLF + rest))
         == ChunkAdvance(if n == 0 then TrailerBlock else Data(n), |PrintHex(n)| + 2)
  {
    hide ParseChunkLine, FindCrlf, BrokenBreaks;
    var line := PrintHex(n);
    ParseChunkLinePrinted(n);
    LineEnd(line, rest);
    var s := line + (CRLF + rest);
    assert s[..|line|] == line;
    assert FindCrlf(s) == Some(|line|);
    assert ParseChunkLine(s[..|line|]) == Ok(n);
    assert SizeStep(limits, s).ChunkAdvance?;
    assert SizeStep(limits, s).consumed == |line| + 2;
    assert SizeStep(limits, s).next == if n == 0 then TrailerBlock else Data(n);
  }

  // From the size state, a written chunk is consumed whole and its data delivered.
  lemma RunChunk(limits: Limits, data: bytes, rest: bytes)
    requires data != [] && |data| < U64_LIMIT && |PrintHex(|data|)| <= limits.maxChunkLineBytes
    ensures Run(limits, Start(Chunked), ChunkOf(data) + rest)
         == Prepend(data, Run(limits, Start(Chunked), rest))
    ensures |PrintHex(|data|)| < limits.maxChunkLineBytes && HitsLimit(limits, Start(Chunked), ChunkOf(data) + rest)
            ==> HitsLimit(limits, Start(Chunked), rest)
  {
    hide SizeStep, TrailerStep, PrintHex;
    var st := Start(Chunked);
    var line := PrintHex(|data|);
    var s0 := ChunkOf(data) + rest;
    var s1 := data + (CRLF + rest);
    assert s0 == line + (CRLF + s1);
    SizeLineStep(limits, |data|, s1);
    assert s0[|line| + 2..] == s1;
    var st1 := st.(chunkState := Data(|data|));
    assert Step(limits, st, s0) == Advance(st1, |line| + 2);
    var st2 := st.(chunkState := DataTerminator);
    assert Step(limits, st1, s1) == Emit(st2, |data|);
    var s2 := CRLF + rest;
    assert s1[..|data|] == data && s1[|data|..] == s2;
    RunTerminator(limits, rest);
    assert Run(limits, st1, s1) == Prepend(data, Run(limits, st2, s2));
    assert HitsLimit(limits, st1, s1) == HitsLimit(limits, st2, s2);
    assert Run(limits, st, s0) == Run(limits, st1, s1);
  }

  lemma RunTerminator(limits: Limits, rest: bytes)
    ensures
      var st := Start(Chunked).(chunkState := DataTerminator);
      Run(limits, st, CRLF + rest) == Run(limits, Start(Chunked), rest)
      && HitsLimit(limits, st, CRLF + rest) == HitsLimit(limits, Start(Chunked), rest)
  {
    hide SizeStep, TrailerStep;
    var st := Start(Chunked).(chunkState := DataTerminator);
    var s := CRLF + rest;
    assert s[..2] == CRLF && s[2..] == rest;
    assert Step(limits, st, s) == Advance(Start(Chunked), 2);
  }

  // The last chunk with a trailer block ends the body exactly there.
  lemma RunLastChunk(limits: Limits, fields: Fields, suffix: bytes)
    requires ValidFields(fields) && AllWritable(fields, true)
    requires 1 <= limits.maxChunkLineBytes && |fields| <= limits.maxTrailers
    requires |WriteTrailerBlock(fields)| <= limits.maxTrailerBytes
    ensures Run(limits, Start(Chunked), LAST_CHUNK + (WriteTrailerBlock(fields) + suffix))
         == Done([], TrimmedAll(fields), suffix)
    ensures 1 < limits.maxChunkLineBytes
            ==> !HitsLimit(limits, Start(Chunked), LAST_CHUNK + (WriteTrailerBlock(fields) + suffix))
  {
    hide SizeStep, FindTrailerEnd, ParseTrailers, WriteTrailerBlock, TrimmedAll, AllWritable;
    var st := Start(Chunked);
    var block := WriteTrailerBlock(fields);
    var s0 := LAST_CHUNK + (block + suffix);
    assert PrintHex(0) == [48];
    assert s0 == [48] + (CRLF + (block + suffix));
    SizeLineStep(limits, 0, block + suffix);
    assert s0[3..] == block + suffix;
    var st1 := st.(chunkState := TrailerBlock);
    assert Step(limits, st, s0) == Advance(st1, 3);
    TrailersRoundTrip(fields, limits.maxTrailers, suffix);
    assert (block + suffix)[..|block|] == block && (block + suffix)[|block|..] == suffix;
    assert Step(limits, st1, block + suffix)
        == Finish(st1.(chunkState := Finished, complete := true), |block|, TrimmedAll(fields));
  }

  lemma {:induction false} ChunkedRoundTrip(limits: Limits, frames: seq<Frame>, suffix: bytes, slack: nat)
    requires AllProper(frames) && AllFit(limits, frames, slack)
    requires EncodeAll(EncoderStart(Chunked), frames).Ok?
    ensures
      var wire := EncodeAll(EncoderStart(Chunked), frames).value;
      Run(limits, Start(Chunked), wire + suffix) == Done(DataOf(frames), TrailersOf(frames), suffix)
      && (slack >= 1 ==> !HitsLimit(limits, Start(Chunked), wire + suffix))
  {
    hide Run, HitsLimit, PrintHex, ChunkOf, TrimmedAll, Start, AllWritable;
    var st := EncoderStart(Chunked);
    var wire := EncodeAll(st, frames).value;
    if frames == [] {
      NoTrailers();
      RunLastChunk(limits, [], suffix);
      assert wire + suffix == LAST_CHUNK + (WriteTrailerBlock([]) + suffix);
    } else {
      assert ProperFrame(frames[0]) && FrameFits(limits, frames[0], slack);
      var rest := EncodeAll(EncodeFrame(st, frames[0]).value.0, frames[1..]).value;
      match frames[0]
      case DataFrame(data) =>
        ChunkedRoundTrip(limits, frames[1..], suffix, slack);
        if data == [] {
          assert [] + rest == rest;
          assert [] + DataOf(frames[1..]) == DataOf(frames[1..]);
        } else {
          assert wire + suffix == ChunkOf(data) + (rest + suffix);
          RunChunk(limits, data, rest + suffix);
        }
      case TrailersFrame(fields) =>
        var text := EncodeHeaders(fields, true).value;
        assert frames[1..] == [] && rest == [];
        assert wire + suffix == LAST_CHUNK + ((text + CRLF) + suffix);
        WriteTrailerBlockMeaning(fields);
        RunLastChunk(limits, fields, suffix);
        assert [] + DataOf(frames[1..]) == [];
    }
  }

  lemma NoTrailers()
    ensures ValidFields([]) && AllWritable([], true) && WriteTrailerBlock([]) == CRLF && TrimmedAll([]) == []
  {
  }

  lemma WriteTrailerBlockMeaning(fields: Fields)
    requires EncodeHeaders(fields, true).Some?
    ensures AllWritable(fields, true)
    ensures WriteTrailerBlock(fields) == EncodeHeaders(fields, true).value + CRLF
  {
  }

  // ----- fixed and until end of stream ---------------------------------------

  lemma {:induction false} FixedText(st: EncoderState, frames: seq<Frame>)
    requires st.framing.ContentLength? && !st.complete && EncodeAll(st, frames).Ok?
    ensures EncodeAll(st, frames).value == DataOf(frames) && |DataOf(frames)| == st.fixedRemaining
    ensures TrailersOf(frames) == []
    decreases |frames|
  {
    if frames != [] {
      FixedText(EncodeFrame(st, frames[0]).value.0, frames[1..]);
    }
  }

  lemma {:induction false} UntilEofText(st: EncoderState, frames: seq<Frame>)
    requires st.framing.UntilEof? && !st.complete && EncodeAll(st, frames).Ok?
    ensures EncodeAll(st, frames).value == DataOf(frames) && TrailersOf(frames) == []
  {
    if frames != [] {
      UntilEofText(st, frames[1..]);
    }
  }

  lemma RunFixed(limits: Limits, data: bytes, suffix: bytes)
    requires |data| < U64_LIMIT
    ensures Run(limits, Start(ContentLength(|data|)), data + suffix) == Done(data, [], suffix)
    ensures !HitsLimit(limits, Start(ContentLength(|data|)), data + suffix)
  {
    hide ChunkStep;
    var st := Start(ContentLength(|data|));
    var s := data + suffix;
    assert s[|data|..] == suffix && s[..|data|] == data;
    if data == [] {
      RunComplete(limits, st, s);
    } else {
      var next := st.(fixedRemaining := 0, complete := true);
      assert Step(limits, st, s) == Emit(next, |data|);
      RunComplete(limits, next, suffix);
      assert data + [] == data;
    }
  }

  lemma RunUntilEof(limits: Limits, data: bytes)
    ensures Run(limits, Start(UntilEof), data) == Pending(Start(UntilEof), [], data)
    ensures !HitsLimit(limits, Start(UntilEof), data)
    ensures DecodeEof(Start(UntilEof)).Ok?
  {
    hide ChunkStep;
    var st := Start(UntilEof);
    assert Run(limits, st, []) == Pending(st, [], []);
    if data != [] {
      assert Step(limits, st, data) == Emit(st, |data|);
      assert data[..|data|] == data && data[|data|..] == [];
      assert data + [] == data;
    }
  }

  // ----- the round trip ------------------------------------------------------

  // Whatever frames the encoder accepts through the end, decoding the bytes gives
  // the data and the trimmed trailers back. A chunked, fixed-length or absent body
  // stops exactly at its last byte, whatever follows it; an EOF-delimited body
  // takes everything and is completed by the end of the stream.
  lemma BodyRoundTrip(limits: Limits, framing: Framing, frames: seq<Frame>, suffix: bytes)
    requires AllProper(frames) && AllFit(limits, frames, 0)
    requires EncodeAll(EncoderStart(framing), frames).Ok?
    ensures
      var wire := EncodeAll(EncoderStart(framing), frames).value;
      if framing.UntilEof? then
        Run(limits, Start(framing), wire) == Pending(Start(framing), [], DataOf(frames))
        && DecodeEof(Start(framing)).Ok? && TrailersOf(frames) == []
      else
        Run(limits, Start(framing), wire + suffix) == Done(DataOf(frames), TrailersOf(frames), suffix)
  {
    BodyRoundTripAny(limits, framing, frames, suffix, 0);
  }

  // The same in any number of pieces, as soon as size lines have a byte to spare.
  lemma BodyRoundTripCut(limits: Limits, framing: Framing, frames: seq<Frame>, suffix: bytes, cuts: seq<bytes>)
    requires AllProper(frames) && AllFit(limits, frames, 1) && !framing.UntilEof?
    requires EncodeAll(EncoderStart(framing), frames).Ok?
    requires Concat(cuts) == EncodeAll(EncoderStart(framing), frames).value + suffix
    ensures Feed(limits, Start(framing), [], cuts) == Done(DataOf(frames), TrailersOf(frames), suffix)
  {
    hide Run, HitsLimit, Feed, EncodeAll, Start;
    BodyRoundTripAny(limits, framing, frames, suffix, 1);
    FeedIsRun(limits, Start(framing), [], cuts);
    assert [] + Concat(cuts) == Concat(cuts);
  }

  // For limits a caller can check: with seventeen bytes for a size line, any body whose
  // trailers fit arrives in any number of pieces.
  lemma BodyRoundTripConfigured(limits: Limits, framing: Framing, frames: seq<Frame>, suffix: bytes, cuts: seq<bytes>)
    requires Roomy(limits) && AllProper(frames) && TrailersFit(limits, frames) && !framing.UntilEof?
    requires EncodeAll(EncoderStart(framing), frames).Ok?
    requires Concat(cuts) == EncodeAll(EncoderStart(framing), frames).value + suffix
    ensures Feed(limits, Start(framing), [], cuts) == Done(DataOf(frames), TrailersOf(frames), suffix)
  {
    hide Feed, EncodeAll, Start, AllFit, AllProper, TrailersFit, Roomy;
    RoomyFits(limits, frames);
    BodyRoundTripCut(limits, framing, frames, suffix, cuts);
  }

  lemma BodyRoundTripAny(limits: Limits, framing: Framing, frames: seq<Frame>, suffix: bytes, slack: nat)
    requires AllProper(frames) && AllFit(limits, frames, slack)
    requires EncodeAll(EncoderStart(framing), frames).Ok?
    ensures
      var wire := EncodeAll(EncoderStart(framing), frames).value;
      if framing.UntilEof? then
        Run(limits, Start(framing), wire) == Pending(Start(framing), [], DataOf(frames))
        && DecodeEof(Start(framing)).Ok? && TrailersOf(frames) == []
      else
        Run(limits, Start(framing), wire + suffix) == Done(DataOf(frames), TrailersOf(frames), suffix)
        && (slack >= 1 ==> !HitsLimit(limits, Start(framing), wire + suffix))
  {
    hide Run, HitsLimit, AllProper, AllFit;
    var st := EncoderStart(framing);
    match framing
    case Chunked => ChunkedRoundTrip(limits, frames, suffix, slack);
    case ContentLength(n) =>
      FixedText(st, frames);
      RunFixed(limits, DataOf(frames), suffix);
    case UntilEof =>
      UntilEofText(st, frames);
      RunUntilEof(limits, DataOf(frames));
    case _ =>
      assert frames == [];
      RunComplete(limits, Start(framing), suffix);
      assert [] + suffix == suffix;
      NoHitComplete(limits, Start(framing), suffix);
  }

  lemma NoHitComplete(limits: Limits, st: BodyState, s: bytes)
    requires WellFormedState(st) && st.complete
    ensures !HitsLimit(limits, st, s)
  {
  }

  // ----- which frames are accepted -------------------------------------------

  predicate AllData(frames: seq<Frame>) {
    forall i :: 0 <= i < |frames| ==> frames[i].DataFrame?
  }

  // Data, and at most one trailer block, at the end, with fields that may be written.
  predicate TrailersLast(frames: seq<Frame>) {
    forall i :: 0 <= i < |frames| && frames[i].TrailersFrame? ==> i == |frames| - 1 && AllWritable(frames[i].fields, true)
  }

  predicate Fitting(framing: Framing, frames: seq<Frame>) {
    match framing
    case NoBody => frames == []
    case Tunnel => frames == []
    case ContentLength(n) => AllData(frames) && |DataOf(frames)| == n
    case Chunked => TrailersLast(frames)
    case UntilEof => AllData(frames)
  }

  lemma {:induction false} FixedAccepted(st: EncoderState, frames: seq<Frame>)
    requires st.framing.ContentLength? && !st.complete
    ensures EncodeAll(st, frames).Ok? <==> AllData(frames) && |DataOf(frames)| == st.fixedRemaining
    decreases |frames|
  {
    if frames != [] {
      assert AllData(frames) <==> frames[0].DataFrame? && AllData(frames[1..]) by {
        assert frames == [frames[0]] + frames[1..];
      }
      if EncodeFrame(st, frames[0]).Ok? {
        FixedAccepted(EncodeFrame(st, frames[0]).value.0, frames[1..]);
      }
    }
  }

  lemma {:induction false} UntilEofAccepted(st: EncoderState, frames: seq<Frame>)
    requires st.framing.UntilEof? && !st.complete
    ensures EncodeAll(st, frames).Ok? <==> AllData(frames)
  {
    if frames != [] {
      assert AllData(frames) <==> frames[0].DataFrame? && AllData(frames[1..]) by {
        assert frames == [frames[0]] + frames[1..];
      }
      UntilEofAccepted(st, frames[1..]);
    }
  }

  lemma {:induction false} ChunkedAccepted(st: EncoderState, frames: seq<Frame>)
    requires st.framing.Chunked? && !st.complete
    ensures EncodeAll(st, frames).Ok? <==> TrailersLast(frames)
  {
    hide EncodeHeaders, ChunkOf, AllWritable;
    if frames != [] {
      var rest := frames[1..];
      assert frames == [frames[0]] + rest;
      match frames[0]
      case DataFrame(data) =>
        ChunkedAccepted(st, rest);
        assert TrailersLast(frames) <==> TrailersLast(rest) by {
          assert forall i :: 0 <= i < |rest| ==> rest[i] == frames[i + 1];
          assert forall i :: 0 < i < |frames| ==> frames[i] == rest[i - 1];
        }
      case TrailersFrame(fields) =>
        WritableEncoded(fields);
        if EncodeFrame(st, frames[0]).Ok? {
          NothingAfterTrailers(EncodeFrame(st, frames[0]).value.0, rest);
        }
    }
  }

  lemma WritableEncoded(fields: Fields)
    ensures EncodeHeaders(fields, true).Some? <==> AllWritable(fields, true)
  {
    hide AllWritable;
  }

  lemma NothingAfterTrailers(st: EncoderState, frames: seq<Frame>)
    requires st.complete
    ensures EncodeAll(st, frames).Ok? <==> frames == []
  {
  }

  // The encoder takes a list of frames through to the end exactly when the framing can
  // carry it.
  lemma EncoderAccepts(framing: Framing, frames: seq<Frame>)
    ensures EncodeAll(EncoderStart(framing), frames).Ok? <==> Fitting(framing, frames)
  {
    hide AllData, TrailersLast;
    var st := EncoderStart(framing);
    match framing
    case ContentLength(_) => FixedAccepted(st, frames);
    case Chunked => ChunkedAccepted(st, frames);
    case UntilEof => UntilEofAccepted(st, frames);
    case _ => NothingAfterTrailers(st, frames);
  }

  // ----- the encoder object --------------------------------------------------

  class BodyEncoder {
    const framing: Framing
    var fixedRemaining: u64
    var complete: bool

    function State(): EncoderState
      reads this
    {
      EncoderState(framing, fixedRemaining, complete)
    }

    constructor (framing: Framing)
      ensures this.framing == framing && State() == EncoderStart(framing)
    {
      this.framing := framing;
      fixedRemaining := match framing case ContentLength(length) => length case _ => 0;
      complete := framing.NoBody? || framing.Tunnel?;
    }

    method Encode(frame: Frame) returns (r: Result<bytes, EncodeError>)
      requires ProperFrame(frame)
      modifies this
      ensures match EncodeFrame(old(State()), frame)
              case Err(e) => r == Err(e) && State() == old(State())
              case Ok((next, text)) => r == Ok(text) && State() == next
    {
      hide PrintHex;
      if complete {
        return Err(UnexpectedFrame);
      }
      match framing {
        case ContentLength(_) =>
          match frame {
            case TrailersFrame(_) => return Err(UnexpectedFrame);
            case DataFrame(data) =>
              if |data| > fixedRemaining {
                return Err(LengthMismatch);
              }
              fixedRemaining := fixedRemaining - |data|;
              return Ok(data);
          }
        case Chunked =>
          match frame {
            case DataFrame(data) =>
              if data == [] {
                return Ok([]);
              }
              var output := PutHex([], |data|);
              output := output + CRLF;
              output := output + data;
              output := output + CRLF;
              assert output == ChunkOf(data);
              return Ok(output);
            case TrailersFrame(fields) =>
              var output := AppendHeaders(LAST_CHUNK, fields, true);
              if output.None? {
                return Err(InvalidTrailerField);
              }
              complete := true;
              assert output.value + CRLF == LAST_CHUNK + (EncodeHeaders(fields, true).value + CRLF);
              return Ok(output.value + CRLF);
          }
        case UntilEof =>
          match frame {
            case TrailersFrame(_) => return Err(UnexpectedFrame);
            case DataFrame(data) => return Ok(data);
          }
        case _ => return Err(UnexpectedFrame);
      }
    }

    method Finish() returns (r: Result<bytes, EncodeError>)
      modifies this
      ensures match FinishEncoding(old(State()))
              case Err(e) => r == Err(e) && State() == old(State())
              case Ok((next, text)) => r == Ok(text) && State() == next
    {
      if complete {
        return Ok([]);
      }
      match framing {
        case ContentLength(_) =>
          if fixedRemaining != 0 {
            return Err(LengthMismatch);
          }
          complete := true;
          return Ok([]);
        case Chunked =>
          complete := true;
          return Ok(LAST_CHUNK + CRLF);
        case _ =>
          complete := true;
          return Ok([]);
      }
    }
  }

  // The body writer: encode every frame, then the end. The bytes written are
  // EncodeAll's; a body that may not be sent writes nothing at all.
  method WriteBody(framing: Framing, frames: seq<Frame>) returns (r: Result<bytes, EncodeError>)
    requires AllProper(frames)
    ensures !framing.NoBody? && !framing.Tunnel? ==> r == EncodeAll(EncoderStart(framing), frames)
    ensures framing.NoBody? || framing.Tunnel? ==> r == Ok([])
  {
    if framing.NoBody? || framing.Tunnel? {
      return Ok([]);
    }
    hide EncodeFrame, FinishEncoding, ProperFrame, EncoderStart;
    var encoder := new BodyEncoder(framing);
    var written: bytes := [];
    ghost var whole := EncodeAll(EncoderStart(framing), frames);
    assert frames[0..] == frames;
    assert forall rest: bytes :: [] + rest == rest;
    for k := 0 to |frames|
      invariant whole == match EncodeAll(encoder.State(), frames[k..])
                         case Err(e) => Err(e)
                         case Ok(rest) => Ok(written + rest)
    {
      assert frames[k..][0] == frames[k] && frames[k..][1..] == frames[k + 1..];
      assert ProperFrame(frames[k]);
      var encoded := encoder.Encode(frames[k]);
      if encoded.Err? {
        return Err(encoded.error);
      }
      ghost var before := written;
      written := written + encoded.value;
      assert forall rest: bytes :: before + (encoded.value + rest) == written + rest;
    }
    var terminal := encoder.Finish();
    if terminal.Err? {
      return Err(terminal.error);
    }
    r := Ok(written + terminal.value);
  }
}
