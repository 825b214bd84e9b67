// The incremental body decoder as the object it is: fields updated call by call,
// a copying entry point and a zero-copy one that splits the caller's buffer.
module BodyDecoder {
  import opened Results
  import opened Bytes
  import opened Headers
  import opened ChunkLine
  import opened Lines
  import opened Trailers
  import opened BodyFraming

  // A growable read buffer, consumed from the front.
  class ByteBuffer {
    var content: bytes

    constructor ()
      ensures content == []
    {
      content := [];
    }

    method Append(piece: bytes)
      modifies this
      ensures content == old(content) + piece
    {
      content := content + piece;
    }

    method SplitTo(n: nat) returns (front: bytes)
      requires n <= |content|
      modifies this
      ensures front == old(content)[..n] && content == old(content)[n..]
    {
      front := content[..n];
      content := content[n..];
    }

    method Consume(n: nat)
      requires n <= |content|
      modifies this
      ensures content == old(content)[n..]
    {
      content := content[n..];
    }
  }

  // A status with its data left out, as the zero-copy path first sees it.
  function WithoutData(status: DecodeStatus): DecodeStatus {
    match status
    case FrameReady(DataFrame(_), n, end) => FrameReady(DataFrame([]), n, end)
    case _ => status
  }

  function ConsumedBy(status: DecodeStatus): nat {
    match status
    case Incomplete(n) => n
    case FrameReady(_, n, _) => n
    case Complete(n) => n
  }

  function ConsumedNothing(status: DecodeStatus): DecodeStatus {
    match status
    case Incomplete(_) => Incomplete(0)
    case FrameReady(f, _, end) => FrameReady(f, 0, end)
    case Complete(_) => Complete(0)
  }

  // The rejection scan of an unfinished metadata line.
  method RejectInvalidPartialLine(input: bytes) returns (broken: bool)
    ensures broken == BrokenBreaks(input)
  {
    for index := 0 to |input|
      invariant forall i :: 0 <= i < index ==> !BrokenBreakAt(input, i)
    {
      if input[index] == LF && (index == 0 || input[index - 1] != CR) {
        assert BrokenBreakAt(input, index);
        return true;
      }
      if input[index] == CR && index + 1 < |input| && input[index + 1] != LF {
        assert BrokenBreakAt(input, index);
        return true;
      }
    }
    broken := false;
  }

  // The trailer parser's loop over the lines of a block.
  method ReadTrailers(block: bytes, maxTrailers: nat) returns (r: Result<Fields, TrailerError>)
    requires block == CRLF || |block| >= 4
    ensures r == ParseTrailers(block, maxTrailers)
  {
    hide ParseFieldLine, IsForbiddenTrailer, CutLines, GoodBreaks;
    if block == CRLF {
      return Ok([]);
    }
    if !GoodBreaks(block) {
      return Err(InvalidTrailer);
    }
    var lines := CutLines(block[..|block| - 4]);
    var trailers: Fields := [];
    ghost var whole := ParseTrailerLines(lines, maxTrailers, 0);
    assert lines[0..] == lines;
    assert forall rest: Fields :: [] + rest == rest;
    for k := 0 to |lines|
      invariant |trailers| == k
      invariant whole == match ParseTrailerLines(lines[k..], maxTrailers, k)
                         case Err(e) => Err(e)
                         case Ok(rest) => Ok(trailers + rest)
    {
      assert lines[k..][0] == lines[k] && lines[k..][1..] == lines[k + 1..];
      var field := ParseFieldLine(lines[k]);
      if field.None? {
        return Err(InvalidTrailer);
      }
      if IsForbiddenTrailer(field.value.name) {
        return Err(InvalidTrailer);
      }
      ghost var before := trailers;
      trailers := trailers + [field.value];
      if |trailers| > maxTrailers {
        return Err(TooManyFields);
      }
      assert forall rest: Fields :: before + ([field.value] + rest) == trailers + rest;
    }
    assert trailers + [] == trailers;
    r := Ok(trailers);
  }

  // What both entry points report of one call's result `whole`: without `copyData`
  // a data frame is empty and its place in the input is kept in `range`.
  predicate Reports(whole: Result<DecodeStatus, BodyError>, input: bytes, copyData: bool,
                    range: Option<(nat, nat)>, r: Result<DecodeStatus, BodyError>)
  {
    match whole
    case Err(e) => r == Err(e)
    case Ok(status) =>
      r == Ok(if copyData then status else WithoutData(status))
      && (status.FrameReady? && status.frame.DataFrame? ==>
            range.Some? && range.value.0 <= range.value.1 <= status.consumed <= |input|
            && input[range.value.0..range.value.1] == status.frame.data)
  }

  class BodyDecoder {
    const framing: Framing
    const limits: Limits
    var fixedRemaining: u64
    var chunkState: ChunkState
    var complete: bool
    var dataRange: Option<(nat, nat)>

    function State(): BodyState
      reads this
    {
      BodyState(framing, fixedRemaining, chunkState, complete)
    }

    constructor (framing: Framing, limits: Limits)
      ensures this.framing == framing && this.limits == limits
      ensures State() == Start(framing)
    {
      this.framing := framing;
      this.limits := limits;
      fixedRemaining := match framing case ContentLength(length) => length case _ => 0;
      chunkState := if framing == Chunked then Size else Finished;
      complete := framing.NoBody? || framing.Tunnel? || framing == ContentLength(0);
      dataRange := None;
    }

    // Decode from caller-owned bytes; a data frame carries a copy.
    method DecodeSlice(input: bytes) returns (r: Result<DecodeStatus, BodyError>)
      requires WellFormedState(State())
      modifies this
      ensures (State(), r) == Decode(limits, old(State()), input)
      ensures WellFormedState(State())
    {
      hide Step, Run, DecodeFrom;
      DecodeThenRun(limits, State(), input, 0);
      r := DecodeInner(input, true);
    }

    // Decode from the read buffer and consume what was used. The frame is the one
    // DecodeSlice returns, exactly the bytes it would report are gone from the
    // buffer, and the reported count is zero. An error leaves the buffer alone.
    method DecodeBuffer(input: ByteBuffer) returns (r: Result<DecodeStatus, BodyError>)
      requires WellFormedState(State())
      modifies this, input
      ensures WellFormedState(State())
      ensures
        var (next, whole) := Decode(limits, old(State()), old(input.content));
        State() == next
        && match whole
           case Err(e) => r == Err(e) && input.content == old(input.content)
           case Ok(status) =>
             r == Ok(ConsumedNothing(status))
             && ConsumedBy(status) <= |old(input.content)|
             && input.content == old(input.content)[ConsumedBy(status)..]
    {
      hide Step, Run, DecodeFrom;
      DecodeThenRun(limits, State(), input.content, 0);
      var inner := DecodeInner(input.content, false);
      match inner
      case Err(e) => r := Err(e);
      case Ok(Incomplete(n)) =>
        input.Consume(n);
        r := Ok(Incomplete(0));
      case Ok(Complete(n)) =>
        input.Consume(n);
        r := Ok(Complete(0));
      case Ok(FrameReady(TrailersFrame(t), n, end)) =>
        input.Consume(n);
        r := Ok(FrameReady(TrailersFrame(t), 0, end));
      case Ok(FrameReady(DataFrame(_), n, end)) =>
        var (low, high) := dataRange.value;
        dataRange := None;
        var source := input.SplitTo(n);
        assert source[low..high] == old(input.content)[low..high];
        r := Ok(FrameReady(DataFrame(source[low..high]), 0, end));
    }

    method DecodeEnd() returns (r: Result<DecodeStatus, BodyError>)
      modifies this
      ensures match DecodeEof(old(State()))
              case Ok(next) => State() == next && r == Ok(Complete(0))
              case Err(e) => State() == old(State()) && r == Err(e)
    {
      if complete {
        return Ok(Complete(0));
      }
      match framing
      case UntilEof =>
        complete := true;
        r := Ok(Complete(0));
      case ContentLength(_) => r := Err(BodyLengthMismatch);
      case Chunked => r := Err(BadChunkTerminator);
      case _ =>
        complete := true;
        r := Ok(Complete(0));
    }

    method DecodeInner(input: bytes, copyData: bool) returns (r: Result<DecodeStatus, BodyError>)
      modifies this
      ensures State() == Decode(limits, old(State()), input).0
      ensures Reports(Decode(limits, old(State()), input).1, input, copyData, dataRange, r)
    {
      hide ChunkStep;
      assert input[0..] == input;
      dataRange := None;
      if complete {
        return Ok(Complete(0));
      }
      match framing
      case ContentLength(_) => r := DecodeFixed(input, copyData);
      case Chunked => r := DecodeChunked(input, copyData);
      case UntilEof =>
        if input == [] {
          r := Ok(Incomplete(0));
        } else {
          r := DataFrameOf(input, 0, |input|, |input|, false, copyData);
        }
      case _ =>
        complete := true;
        r := Ok(Complete(0));
    }

    method DecodeFixed(input: bytes, copyData: bool) returns (r: Result<DecodeStatus, BodyError>)
      requires framing.ContentLength? && !complete
      modifies this
      ensures State() == Decode(limits, old(State()), input).0
      ensures Reports(Decode(limits, old(State()), input).1, input, copyData, dataRange, r)
    {
      assert input[0..] == input;
      if fixedRemaining == 0 {
        complete := true;
        return Ok(Complete(0));
      }
      if input == [] {
        return Ok(Incomplete(0));
      }
      var consumed := Min(fixedRemaining, |input|);
      fixedRemaining := fixedRemaining - consumed;
      var endStream := fixedRemaining == 0;
      complete := endStream;
      r := DataFrameOf(input, 0, consumed, consumed, endStream, copyData);
    }

    method DataFrameOf(input: bytes, low: nat, high: nat, consumed: nat, endStream: bool, copyData: bool)
      returns (r: Result<DecodeStatus, BodyError>)
      requires low <= high <= |input|
      modifies this`dataRange
      ensures dataRange == Some((low, high))
      ensures r == Ok(FrameReady(DataFrame(if copyData then input[low..high] else []), consumed, endStream))
    {
      dataRange := Some((low, high));
      r := Ok(FrameReady(DataFrame(if copyData then input[low..high] else []), consumed, endStream));
    }

    // The chunk-size line at the start of the input.
    method ReadSizeLine(rest: bytes) returns (m: ChunkMove)
      ensures m == SizeStep(limits, rest)
    {
      hide BrokenBreaks, ParseChunkLine, FindCrlf;
      var found := FindCrlf(rest);
      if found.None? {
        var broken := RejectInvalidPartialLine(rest);
        if broken {
          return ChunkReject(BadChunkSize);
        }
        if |rest| > limits.maxChunkLineBytes {
          return ChunkReject(BodyTooLarge);
        }
        return ChunkNeed;
      }
      var lineEnd := found.value;
      if lineEnd > limits.maxChunkLineBytes {
        return ChunkReject(BodyTooLarge);
      }
      var size := ParseChunkLine(rest[..lineEnd]);
      if size.Err? {
        return ChunkReject(if size.error.InvalidChunkSize? then BadChunkSize else BadChunkExtension);
      }
      m := ChunkAdvance(if size.value == 0 then TrailerBlock else Data(size.value), lineEnd + 2);
    }

    // The trailer block at the start of the input.
    method ReadTrailerBlock(rest: bytes) returns (m: ChunkMove)
      ensures m == TrailerStep(limits, rest)
    {
      hide BrokenBreaks, ParseTrailers, FindTrailerEnd;
      var found := FindTrailerEnd(rest);
      if found.None? {
        var broken := RejectInvalidPartialLine(rest);
        if broken {
          return ChunkReject(BadTrailer);
        }
        if |rest| > limits.maxTrailerBytes {
          return ChunkReject(BodyTooLarge);
        }
        return ChunkNeed;
      }
      var length := found.value;
      if length > limits.maxTrailerBytes {
        return ChunkReject(BodyTooLarge);
      }
      BlockShape(rest, length);
      var trailers := ReadTrailers(rest[..length], limits.maxTrailers);
      if trailers.Err? {
        return ChunkReject(if trailers.error.InvalidTrailer? then BadTrailer else BodyTooLarge);
      }
      m := ChunkFinish(length, trailers.value);
    }

    method DecodeChunked(input: bytes, copyData: bool) returns (r: Result<DecodeStatus, BodyError>)
      requires framing.Chunked? && !complete
      modifies this
      ensures State() == Decode(limits, old(State()), input).0
      ensures Reports(Decode(limits, old(State()), input).1, input, copyData, dataRange, r)
    {
      hide SizeStep, TrailerStep, DecodeFrom, Step;
      var offset := 0;
      assert input[0..] == input;
      ghost var start := State();
      while true
        invariant 0 <= offset <= |input|
        invariant !complete
        invariant Decode(limits, start, input) == DecodeFrom(limits, State(), input, offset)
        decreases |input| - offset
      {
        var rest := input[offset..];
        DecodeFromStep(limits, State(), input, offset);
        StepChunked(limits, State(), rest);
        match chunkState {
          case Size =>
            var m := ReadSizeLine(rest);
            match m {
              case ChunkReject(e) => return Err(e);
              case ChunkNeed => return Ok(Incomplete(offset));
              case ChunkAdvance(next, n) =>
                offset := offset + n;
                chunkState := next;
            }
          case Data(remaining) =>
            if offset == |input| {
              return Ok(Incomplete(offset));
            }
            var consumed := Min(remaining, |input| - offset);
            var left := remaining - consumed;
            chunkState := if left == 0 then DataTerminator else Data(left);
            assert rest[..consumed] == input[offset..offset + consumed];
            r := DataFrameOf(input, offset, offset + consumed, offset + consumed, false, copyData);
            return;
          case DataTerminator =>
            if |input| - offset < 2 {
              return Ok(Incomplete(offset));
            }
            if rest[..2] != CRLF {
              return Err(BadChunkTerminator);
            }
            offset := offset + 2;
            chunkState := Size;
          case TrailerBlock =>
            var m := ReadTrailerBlock(rest);
            match m {
              case ChunkReject(e) => return Err(e);
              case ChunkNeed => return Ok(Incomplete(offset));
              case ChunkFinish(n, trailers) =>
                offset := offset + n;
                chunkState := Finished;
                complete := true;
                if trailers == [] {
                  return Ok(Complete(offset));
                }
                return Ok(FrameReady(TrailersFrame(trailers), offset, true));
            }
          case Finished =>
            complete := true;
            return Ok(Complete(offset));
        }
      }
    }
  }

  lemma DecodeFromStep(limits: Limits, st: BodyState, s: bytes, offset: nat)
    requires offset <= |s|
    ensures DecodeFrom(limits, st, s, offset) ==
      match Step(limits, st, s[offset..])
      case Need => (st, Ok(Incomplete(offset)))
      case Reject(e) => (st, Err(e))
      case Advance(next, n) => DecodeFrom(limits, next, s, offset + n)
      case Emit(next, n) =>
        (next, Ok(FrameReady(DataFrame(s[offset..][..Min(n, |s| - offset)]), offset + n, next.complete)))
      case Finish(next, n, trailers) =>
        (next, Ok(if trailers == [] then Complete(offset + n)
                  else FrameReady(TrailersFrame(trailers), offset + n, true)))
  {
    hide Step;
  }

  lemma StepChunked(limits: Limits, st: BodyState, s: bytes)
    requires st.framing.Chunked? && !st.complete
    ensures Step(limits, st, s) == Lift(st, ChunkStep(limits, st.chunkState, s))
  {
    hide ChunkStep;
  }

  lemma BlockShape(s: bytes, length: nat)
    requires FindTrailerEnd(s) == Some(length)
    ensures length <= |s| && (s[..length] == CRLF || |s[..length]| >= 4)
  {
  }
}
