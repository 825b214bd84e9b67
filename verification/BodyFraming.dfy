// Body framings, and the body decoder as a machine on values: one step of its
// loop, one call of `decode`, and the run of a whole byte stream.
module BodyFraming {
  import opened Results
  import opened Bytes
  import opened Headers
  import opened ChunkLine
  import opened Trailers

  datatype Framing = NoBody | ContentLength(length: u64) | Chunked | UntilEof | Tunnel

  datatype Limits = Limits(maxChunkLineBytes: nat, maxTrailerBytes: nat, maxTrailers: nat)

  datatype BodyError =
    | BadChunkSize
    | BadChunkExtension
    | BadChunkTerminator
    | BadTrailer
    | BodyTooLarge
    | BodyLengthMismatch

  datatype ChunkState = Size | Data(remaining: u64) | DataTerminator | TrailerBlock | Finished

  datatype BodyState = BodyState(framing: Framing, fixedRemaining: u64, chunkState: ChunkState, complete: bool)

  datatype Frame = DataFrame(data: bytes) | TrailersFrame(fields: Fields)

  datatype DecodeStatus =
    | Incomplete(consumed: nat)
    | FrameReady(frame: Frame, consumed: nat, endStream: bool)
    | Complete(consumed: nat)

  function Start(framing: Framing): (st: BodyState)
    ensures WellFormedState(st)
  {
    BodyState(framing,
              if framing.ContentLength? then framing.length else 0,
              if framing.Chunked? then Size else Finished,
              framing.NoBody? || framing.Tunnel? || framing == ContentLength(0))
  }

  // What every reachable decoder state satisfies.
  predicate WellFormedState(st: BodyState) {
    match st.framing
    case NoBody => st.complete
    case Tunnel => st.complete
    case ContentLength(_) => st.complete <==> st.fixedRemaining == 0
    case Chunked => (st.complete <==> st.chunkState.Finished?) && (st.chunkState.Data? ==> st.chunkState.remaining > 0)
    case UntilEof => true
  }

  // ----- one step ------------------------------------------------------------

  datatype ChunkMove =
    | ChunkNeed
    | ChunkReject(error: BodyError)
    | ChunkAdvance(next: ChunkState, consumed: nat)
    | ChunkEmit(next: ChunkState, consumed: nat)
    | ChunkFinish(consumed: nat, trailers: Fields)

  function SizeStep(limits: Limits, s: bytes): (m: ChunkMove)
    ensures !m.ChunkEmit? && !m.ChunkFinish?
    ensures m.ChunkAdvance? ==> 2 <= m.consumed <= |s|
  {
    match FindCrlf(s)
    case None =>
      if BrokenBreaks(s) then ChunkReject(BadChunkSize)
      else if |s| > limits.maxChunkLineBytes then ChunkReject(BodyTooLarge)
      else ChunkNeed
    case Some(lineEnd) =>
      if lineEnd > limits.maxChunkLineBytes then ChunkReject(BodyTooLarge)
      else
        match ParseChunkLine(s[..lineEnd])
        case Err(InvalidChunkSize) => ChunkReject(BadChunkSize)
        case Err(InvalidChunkExtension) => ChunkReject(BadChunkExtension)
        case Ok(size) => ChunkAdvance(if size == 0 then TrailerBlock else Data(size), lineEnd + 2)
  }

  function TrailerStep(limits: Limits, s: bytes): (m: ChunkMove)
    ensures !m.ChunkEmit? && !m.ChunkAdvance?
    ensures m.ChunkFinish? ==> 2 <= m.consumed <= |s|
  {
    match FindTrailerEnd(s)
    case None =>
      if BrokenBreaks(s) then ChunkReject(BadTrailer)
      else if |s| > limits.maxTrailerBytes then ChunkReject(BodyTooLarge)
      else ChunkNeed
    case Some(length) =>
      if length > limits.maxTrailerBytes then ChunkReject(BodyTooLarge)
      else
        match ParseTrailers(s[..length], limits.maxTrailers)
        case Err(InvalidTrailer) => ChunkReject(BadTrailer)
        case Err(TooManyFields) => ChunkReject(BodyTooLarge)
        case Ok(trailers) => ChunkFinish(length, trailers)
  }

  function ChunkStep(limits: Limits, state: ChunkState, s: bytes): (m: ChunkMove)
    ensures m.ChunkAdvance? ==> 2 <= m.consumed <= |s|
    ensures m.ChunkEmit? ==> state.Data? && m.consumed == Min(state.remaining, |s|) && s != []
    ensures m.ChunkFinish? ==> m.consumed <= |s|
  {
    match state
    case Size => SizeStep(limits, s)
    case Data(remaining) =>
      if s == [] then ChunkNeed
      else
        var n := Min(remaining, |s|);
        ChunkEmit(if n == remaining then DataTerminator else Data(remaining - n), n)
    case DataTerminator =>
      if |s| < 2 then ChunkNeed
      else if s[..2] != CRLF then ChunkReject(BadChunkTerminator)
      else ChunkAdvance(Size, 2)
    case TrailerBlock => TrailerStep(limits, s)
    case Finished => ChunkFinish(0, [])
  }

  datatype Move =
    | Need
    | Reject(error: BodyError)
    | Advance(next: BodyState, consumed: nat)
    | Emit(next: BodyState, consumed: nat)
    | Finish(next: BodyState, consumed: nat, trailers: Fields)

  function Step(limits: Limits, st: BodyState, s: bytes): (m: Move)
    ensures m.Advance? ==> 2 <= m.consumed <= |s|
    ensures m.Emit? && WellFormedState(st) ==> 0 < m.consumed <= |s|
    ensures m.Finish? ==> m.consumed <= |s| && m.next.complete
    ensures (m.Advance? || m.Emit? || m.Finish?) && WellFormedState(st) ==> WellFormedState(m.next)
  {
    if st.complete then Finish(st, 0, [])
    else
      match st.framing
      case NoBody => Finish(st.(complete := true), 0, [])
      case Tunnel => Finish(st.(complete := true), 0, [])
      case ContentLength(_) =>
        if st.fixedRemaining == 0 then Finish(st.(complete := true), 0, [])
        else if s == [] then Need
        else
          var n := Min(st.fixedRemaining, |s|);
          Emit(st.(fixedRemaining := st.fixedRemaining - n, complete := n == st.fixedRemaining), n)
      case UntilEof => if s == [] then Need else Emit(st, |s|)
      case Chunked => Lift(st, ChunkStep(limits, st.chunkState, s))
  }

  function Lift(st: BodyState, m: ChunkMove): Move {
    match m
    case ChunkNeed => Need
    case ChunkReject(e) => Reject(e)
    case ChunkAdvance(next, n) => Advance(st.(chunkState := next), n)
    case ChunkEmit(next, n) => Emit(st.(chunkState := next), n)
    case ChunkFinish(n, trailers) => Finish(st.(chunkState := Finished, complete := true), n, trailers)
  }

  // ----- one call of decode --------------------------------------------------

  // The decoder loops over steps that produce nothing and returns at the first
  // one that does. On an error the state reached so far is kept.
  function DecodeFrom(limits: Limits, st: BodyState, s: bytes, offset: nat): (r: (BodyState, Result<DecodeStatus, BodyError>))
    requires offset <= |s|
    decreases |s| - offset
  {
    match Step(limits, st, s[offset..])
    case Need => (st, Ok(Incomplete(offset)))
    case Reject(e) => (st, Err(e))
    case Advance(next, n) => DecodeFrom(limits, next, s, offset + n)
    case Emit(next, n) =>
      (next, Ok(FrameReady(DataFrame(s[offset..][..Min(n, |s| - offset)]), offset + n, next.complete)))
    case Finish(next, n, trailers) =>
      (next, Ok(if trailers == [] then Complete(offset + n)
                else FrameReady(TrailersFrame(trailers), offset + n, true)))
  }

  function Decode(limits: Limits, st: BodyState, s: bytes): (BodyState, Result<DecodeStatus, BodyError>) {
    DecodeFrom(limits, st, s, 0)
  }

  function DecodeEof(st: BodyState): Result<BodyState, BodyError> {
    if st.complete then Ok(st)
    else
      match st.framing
      case UntilEof => Ok(st.(complete := true))
      case ContentLength(_) => Err(BodyLengthMismatch)
      case Chunked => Err(BadChunkTerminator)
      case NoBody => Ok(st.(complete := true))
      case Tunnel => Ok(st.(complete := true))
  }

  // ----- the run of a stream -------------------------------------------------

  // What a stream of bytes amounts to: the data delivered in all, and either a
  // fault, a finished body with the bytes left after it, or a body that still
  // wants bytes, with the state and the bytes it has not consumed.
  datatype Outcome =
    | Rejected(data: bytes)
    | Done(data: bytes, trailers: Fields, rest: bytes)
    | Pending(state: BodyState, rest: bytes, data: bytes)

  function Prepend(d: bytes, o: Outcome): Outcome {
    match o
    case Rejected(data) => Rejected(d + data)
    case Done(data, trailers, rest) => Done(d + data, trailers, rest)
    case Pending(state, rest, data) => Pending(state, rest, d + data)
  }

  function Run(limits: Limits, st: BodyState, s: bytes): (o: Outcome)
    requires WellFormedState(st)
    ensures o.Pending? ==> WellFormedState(o.state)
    decreases |s|
  {
    match Step(limits, st, s)
    case Need => Pending(st, s, [])
    case Reject(_) => Rejected([])
    case Advance(next, n) => Run(limits, next, s[n..])
    case Emit(next, n) => Prepend(s[..n], Run(limits, next, s[n..]))
    case Finish(_, n, trailers) => Done([], trailers, s[n..])
  }

  lemma PrependPrepend(a: bytes, b: bytes, o: Outcome)
    ensures Prepend(a, Prepend(b, o)) == Prepend(a + b, o)
  {
    assert a + (b + o.data) == (a + b) + o.data;
  }

  lemma PrependNothing(o: Outcome)
    ensures Prepend([], o) == o
  {
    assert [] + o.data == o.data;
  }

  // One call of decode, followed by the run of what it leaves, is the run.
  lemma {:induction false} DecodeThenRun(limits: Limits, st: BodyState, s: bytes, offset: nat)
    requires WellFormedState(st) && offset <= |s|
    ensures WellFormedState(DecodeFrom(limits, st, s, offset).0)
    ensures
      var (next, result) := DecodeFrom(limits, st, s, offset);
      var o := Run(limits, st, s[offset..]);
      match result
      case Err(_) => o == Rejected([])
      case Ok(Incomplete(n)) => offset <= n <= |s| && o == Pending(next, s[n..], [])
      case Ok(Complete(n)) => next.complete && offset <= n <= |s| && o == Done([], [], s[n..])
      case Ok(FrameReady(TrailersFrame(t), n, end)) =>
        end && next.complete && t != [] && offset <= n <= |s| && o == Done([], t, s[n..])
      case Ok(FrameReady(DataFrame(d), n, end)) =>
        offset < n <= |s| && d != [] && (end <==> next.complete)
        && o == Prepend(d, Run(limits, next, s[n..]))
    decreases |s| - offset
  {
    hide ChunkStep, Lift;
    var rest := s[offset..];
    match Step(limits, st, rest)
    case Advance(next, n) =>
      assert rest[n..] == s[offset + n..];
      DecodeThenRun(limits, next, s, offset + n);
    case Emit(next, n) =>
      assert rest[n..] == s[offset + n..];
    case Finish(next, n, t) =>
      assert rest[n..] == s[offset + n..];
    case _ =>
  }

  // A completed decoder takes no more bytes.
  lemma RunComplete(limits: Limits, st: BodyState, s: bytes)
    requires WellFormedState(st) && st.complete
    ensures Run(limits, st, s) == Done([], [], s)
  {
    assert s[0..] == s;
  }
}
