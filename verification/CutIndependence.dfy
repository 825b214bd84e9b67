// Bytes reach the body decoder in any pieces. They make no difference to what an
// accepted body means, and to the verdict only at one limit.
module CutIndependence {
  import opened Results
  import opened Bytes
  import Numbers
  import opened Headers
  import opened ChunkLine
  import opened Lines
  import opened Trailers
  import opened BodyFraming

  // ----- searches in a longer input ------------------------------------------

  lemma CrlfExtend(a: bytes, b: bytes)
    requires FindCrlf(a).Some?
    ensures FindCrlf(a + b) == FindCrlf(a)
  {
    hide FindCrlf;
    var at := FindCrlf(a).value;
    forall i | 0 <= i < at ensures !CrlfAt(a + b, i) {
      assert !CrlfAt(a, i);
    }
    FirstCrlf(a + b, at);
  }

  lemma CrlfLater(a: bytes, b: bytes)
    requires FindCrlf(a).None? && FindCrlf(a + b).Some?
    ensures FindCrlf(a + b).value + 1 >= |a|
  {
    hide FindCrlf;
    var at := FindCrlf(a + b).value;
    assert at + 1 < |a| ==> CrlfAt(a, at);
  }

  lemma TrailerEndExtend(a: bytes, b: bytes)
    requires FindTrailerEnd(a).Some?
    ensures FindTrailerEnd(a + b) == FindTrailerEnd(a)
  {
    hide FindBlankLine;
    if !CrlfAt(a, 0) {
      var at := FindBlankLine(a).value;
      assert !CrlfAt(a + b, 0);
      forall i | 0 <= i < at ensures !BlankLineAt(a + b, i) {
        assert !BlankLineAt(a, i);
      }
      FirstBlankLine(a + b, at);
    }
  }

  lemma TrailerEndLater(a: bytes, b: bytes)
    requires FindTrailerEnd(a).None? && FindTrailerEnd(a + b).Some?
    ensures FindTrailerEnd(a + b).value > |a|
  {
    hide FindBlankLine;
    if !CrlfAt(a + b, 0) {
      var at := FindBlankLine(a + b).value;
      assert at + 4 <= |a| ==> BlankLineAt(a, at);
    }
  }

  lemma BrokenExtend(a: bytes, b: bytes) returns (i: nat)
    requires BrokenBreaks(a)
    ensures i < |a| && BrokenBreakAt(a, i) && BrokenBreakAt(a + b, i)
    ensures BrokenBreaks(a + b)
  {
    i :| 0 <= i < |a| && BrokenBreakAt(a, i);
    assert BrokenBreakAt(a + b, i);
  }

  // ----- one step on a longer input ------------------------------------------

  // The chunk-size line at the start of the input has exactly the longest
  // permitted length and is accepted.
  predicate LimitLine(limits: Limits, s: bytes) {
    FindCrlf(s) == Some(limits.maxChunkLineBytes)
    && ParseChunkLine(s[..limits.maxChunkLineBytes]).Ok?
  }

  lemma BrokenLineRejected(a: bytes, b: bytes, lineEnd: nat)
    requires BrokenBreaks(a) && FindCrlf(a).None? && FindCrlf(a + b) == Some(lineEnd)
    ensures ParseChunkLine((a + b)[..lineEnd]).Err?
  {
    hide FindCrlf, ParseChunkLine;
    CrlfLater(a, b);
    var i := BrokenExtend(a, b);
    var line := (a + b)[..lineEnd];
    assert i < lineEnd && IsLineBreak(line[i]);
    if ParseChunkLine(line).Ok? {
      AcceptedLineIsOneLine(line);
    }
  }

  lemma SizeStepExtend(limits: Limits, a: bytes, b: bytes)
    ensures SizeStep(limits, a).ChunkAdvance? ==> SizeStep(limits, a + b) == SizeStep(limits, a)
    ensures SizeStep(limits, a).ChunkReject? ==> SizeStep(limits, a + b).ChunkReject? || LimitLine(limits, a + b)
  {
    hide FindCrlf, ParseChunkLine, BrokenBreaks;
    match FindCrlf(a)
    case Some(lineEnd) =>
      CrlfExtend(a, b);
      assert (a + b)[..lineEnd] == a[..lineEnd];
    case None =>
      if BrokenBreaks(a) {
        var _ := BrokenExtend(a, b);
        if FindCrlf(a + b).Some? {
          BrokenLineRejected(a, b, FindCrlf(a + b).value);
        }
      } else if |a| > limits.maxChunkLineBytes && FindCrlf(a + b).Some? {
        CrlfLater(a, b);
      }
  }

  lemma BrokenTrailersRejected(a: bytes, b: bytes, length: nat, maxTrailers: nat)
    requires BrokenBreaks(a) && FindTrailerEnd(a).None? && FindTrailerEnd(a + b) == Some(length)
    ensures ParseTrailers((a + b)[..length], maxTrailers).Err?
  {
    hide FindTrailerEnd, ParseTrailerLines, CutLines;
    TrailerEndLater(a, b);
    var i := BrokenExtend(a, b);
    var block := (a + b)[..length];
    assert !GoodBreakAt(block, i);
    assert length == 2 ==> CrlfAt(a + b, 0);
    assert block != CRLF;
    assert !GoodBreaks(block);
  }

  lemma TrailerStepExtend(limits: Limits, a: bytes, b: bytes)
    ensures TrailerStep(limits, a).ChunkFinish? ==> TrailerStep(limits, a + b) == TrailerStep(limits, a)
    ensures TrailerStep(limits, a).ChunkReject? ==> TrailerStep(limits, a + b).ChunkReject?
  {
    hide FindTrailerEnd, ParseTrailers, BrokenBreaks;
    match FindTrailerEnd(a)
    case Some(length) =>
      TrailerEndExtend(a, b);
      assert (a + b)[..length] == a[..length];
    case None =>
      if BrokenBreaks(a) {
        var _ := BrokenExtend(a, b);
        if FindTrailerEnd(a + b).Some? {
          BrokenTrailersRejected(a, b, FindTrailerEnd(a + b).value, limits.maxTrailers);
        }
      } else if FindTrailerEnd(a + b).Some? {
        TrailerEndLater(a, b);
      }
  }

  lemma ChunkStepExtend(limits: Limits, state: ChunkState, a: bytes, b: bytes)
    requires !state.Data?
    ensures
      var m := ChunkStep(limits, state, a);
      match m
      case ChunkNeed => true
      case ChunkReject(_) =>
        ChunkStep(limits, state, a + b).ChunkReject? || (state.Size? && LimitLine(limits, a + b))
      case _ => ChunkStep(limits, state, a + b) == m
  {
    hide SizeStep, TrailerStep, LimitLine;
    match state
    case Size => SizeStepExtend(limits, a, b);
    case TrailerBlock => TrailerStepExtend(limits, a, b);
    case DataTerminator =>
      if |a| >= 2 {
        assert (a + b)[..2] == a[..2];
      }
    case Finished =>
  }

  // The state is one in which bytes are passed on as data.
  predicate Streaming(st: BodyState) {
    !st.complete
    && match st.framing
       case ContentLength(_) => st.fixedRemaining > 0
       case UntilEof => true
       case Chunked => st.chunkState.Data?
       case _ => false
  }

  lemma StepExtend(limits: Limits, st: BodyState, a: bytes, b: bytes)
    requires WellFormedState(st) && !Streaming(st)
    ensures
      var m := Step(limits, st, a);
      match m
      case Need => true
      case Reject(_) =>
        Step(limits, st, a + b).Reject?
        || (st.framing.Chunked? && !st.complete && st.chunkState.Size? && LimitLine(limits, a + b))
      case _ => Step(limits, st, a + b) == m
  {
    hide ChunkStep, LimitLine;
    if !st.complete && st.framing.Chunked? {
      ChunkStepExtend(limits, st.chunkState, a, b);
    }
  }

  // In a streaming state a longer input is passed on further, to the same state
  // two shorter ones reach.
  lemma StreamExtend(limits: Limits, st: BodyState, a: bytes, b: bytes)
    requires WellFormedState(st) && Streaming(st) && a != []
    ensures
      var m := Step(limits, st, a);
      m.Emit?
      && (Step(limits, st, a + b) == m
          || (m.consumed == |a| && Streaming(m.next) && Step(limits, m.next, []) == Need
              && (b != [] ==> Step(limits, m.next, b).Emit?
                              && Step(limits, st, a + b)
                                 == Emit(Step(limits, m.next, b).next, |a| + Step(limits, m.next, b).consumed))))
  {
  }

  lemma StreamNeeds(limits: Limits, st: BodyState)
    requires WellFormedState(st) && Streaming(st)
    ensures Step(limits, st, []) == Need
  {
  }

  // ----- runs ----------------------------------------------------------------

  // Somewhere along the run an accepted chunk-size line has exactly the longest
  // permitted length.
  predicate HitsLimit(limits: Limits, st: BodyState, s: bytes)
    requires WellFormedState(st)
    decreases |s|
  {
    match Step(limits, st, s)
    case Advance(next, n) =>
      (st.chunkState.Size? && n == limits.maxChunkLineBytes + 2) || HitsLimit(limits, next, s[n..])
    case Emit(next, n) => HitsLimit(limits, next, s[n..])
    case _ => false
  }

  // The run of `a + b` continues the run of `a`, except that a limit line may
  // have been refused for arriving in two pieces.
  predicate Continues(limits: Limits, hits: bool, short: Outcome, long: Outcome, b: bytes)
    requires short.Pending? ==> WellFormedState(short.state)
  {
    match short
    case Rejected(d) => hits || long == Rejected(d)
    case Done(d, t, rest) => long == Done(d, t, rest + b)
    case Pending(st, rest, d) =>
      (HitsLimit(limits, st, rest + b) ==> hits) && long == Prepend(d, Run(limits, st, rest + b))
  }

  lemma ContinuesPrepend(limits: Limits, hits: bool, d: bytes, short: Outcome, long: Outcome, b: bytes)
    requires short.Pending? ==> WellFormedState(short.state)
    requires Continues(limits, hits, short, long, b)
    ensures Continues(limits, hits, Prepend(d, short), Prepend(d, long), b)
  {
    hide Run, HitsLimit;
    if short.Pending? {
      PrependPrepend(d, short.data, Run(limits, short.state, short.rest + b));
    }
  }

  lemma ContinuesWeaken(limits: Limits, hits: bool, more: bool, short: Outcome, long: Outcome, b: bytes)
    requires short.Pending? ==> WellFormedState(short.state)
    requires Continues(limits, hits, short, long, b) && (hits ==> more)
    ensures Continues(limits, more, short, long, b)
  {
    hide Run, HitsLimit;
  }

  lemma LimitLineHits(limits: Limits, st: BodyState, s: bytes)
    requires WellFormedState(st) && st.framing.Chunked? && !st.complete && st.chunkState.Size?
    requires LimitLine(limits, s)
    ensures HitsLimit(limits, st, s)
  {
    hide FindCrlf, ParseChunkLine;
  }

  lemma {:induction false} RunExtend(limits: Limits, st: BodyState, a: bytes, b: bytes)
    requires WellFormedState(st)
    ensures Continues(limits, HitsLimit(limits, st, a + b), Run(limits, st, a), Run(limits, st, a + b), b)
    decreases |a|
  {
    hide Step, LimitLine, Streaming, Continues;
    if Streaming(st) {
      StreamNeeds(limits, st);
      if a == [] {
        assert a + b == b;
        ContinuesPending(limits, st, a, b);
      } else {
        RunExtendStreaming(limits, st, a, b);
      }
    } else {
      StepExtend(limits, st, a, b);
      match Step(limits, st, a)
      case Need => ContinuesPending(limits, st, a, b);
      case Reject(_) =>
        if !Step(limits, st, a + b).Reject? {
          LimitLineHits(limits, st, a + b);
        }
        ContinuesRejected(limits, HitsLimit(limits, st, a + b), [], Run(limits, st, a + b), b);
      case Advance(next, n) =>
        assert (a + b)[n..] == a[n..] + b;
        RunExtend(limits, next, a[n..], b);
        ContinuesWeaken(limits, HitsLimit(limits, next, a[n..] + b), HitsLimit(limits, st, a + b),
                        Run(limits, next, a[n..]), Run(limits, next, a[n..] + b), b);
      case Emit(next, n) =>
        EmitExtend(limits, st, a, b);
      case Finish(_, n, t) =>
        assert (a + b)[n..] == a[n..] + b;
        ContinuesDone(limits, HitsLimit(limits, st, a + b), t, a[n..], b);
    }
  }

  lemma ContinuesPending(limits: Limits, st: BodyState, a: bytes, b: bytes)
    requires WellFormedState(st)
    ensures Continues(limits, HitsLimit(limits, st, a + b), Pending(st, a, []), Run(limits, st, a + b), b)
  {
    PrependNothing(Run(limits, st, a + b));
  }

  lemma ContinuesRejected(limits: Limits, hits: bool, d: bytes, long: Outcome, b: bytes)
    requires hits || long == Rejected(d)
    ensures Continues(limits, hits, Rejected(d), long, b)
  {
  }

  lemma ContinuesDone(limits: Limits, hits: bool, t: Fields, rest: bytes, b: bytes)
    ensures Continues(limits, hits, Done([], t, rest), Done([], t, rest + b), b)
  {
  }

  lemma {:induction false} EmitExtend(limits: Limits, st: BodyState, a: bytes, b: bytes)
    requires WellFormedState(st) && Step(limits, st, a).Emit? && Step(limits, st, a + b) == Step(limits, st, a)
    ensures Continues(limits, HitsLimit(limits, st, a + b), Run(limits, st, a), Run(limits, st, a + b), b)
    decreases |a|, 0
  {
    hide Step, Continues;
    StepKeepsForm(limits, st, a);
    var Emit(next, n) := Step(limits, st, a);
    var hits := HitsLimit(limits, st, a + b);
    assert (a + b)[n..] == a[n..] + b && (a + b)[..n] == a[..n];
    RunExtend(limits, next, a[n..], b);
    assert HitsLimit(limits, next, a[n..] + b) == hits;
    ContinuesPrepend(limits, hits, a[..n], Run(limits, next, a[n..]), Run(limits, next, a[n..] + b), b);
  }

  lemma {:induction false} RunExtendStreaming(limits: Limits, st: BodyState, a: bytes, b: bytes)
    requires WellFormedState(st) && Streaming(st) && a != []
    ensures Continues(limits, HitsLimit(limits, st, a + b), Run(limits, st, a), Run(limits, st, a + b), b)
    decreases |a|, 1
  {
    hide Step, Streaming;
    StreamExtend(limits, st, a, b);
    var Emit(next, n) := Step(limits, st, a);
    if Step(limits, st, a + b) == Step(limits, st, a) {
      EmitExtend(limits, st, a, b);
    } else {
      StepKeepsForm(limits, st, a);
      assert a[n..] == [] && a[..n] == a;
      assert Run(limits, next, []) == Pending(next, [], []);
      RunSplit(limits, st, a, b);
      assert [] + b == b;
      assert a + [] == a;
    }
  }

  // Streaming all of `a` and then `b` is streaming `a + b`.
  lemma RunSplit(limits: Limits, st: BodyState, a: bytes, b: bytes)
    requires WellFormedState(st) && Streaming(st) && a != []
    requires Step(limits, st, a).Emit? && Step(limits, st, a).consumed == |a|
    requires Step(limits, st, a + b) != Step(limits, st, a)
    ensures WellFormedState(Step(limits, st, a).next)
    ensures Run(limits, st, a + b) == Prepend(a, Run(limits, Step(limits, st, a).next, b))
    ensures HitsLimit(limits, st, a + b) == HitsLimit(limits, Step(limits, st, a).next, b)
  {
    hide Step, Streaming;
    StepKeepsForm(limits, st, a);
    StreamExtend(limits, st, a, b);
    assert b == [] ==> a + b == a;
    var next := Step(limits, st, a).next;
    StepKeepsForm(limits, next, b);
    StepKeepsForm(limits, st, a + b);
    var Emit(after, m) := Step(limits, next, b);
    assert (a + b)[|a| + m..] == b[m..] && (a + b)[..|a| + m] == a + b[..m];
    PrependPrepend(a, b[..m], Run(limits, after, b[m..]));
  }

  lemma StepKeepsForm(limits: Limits, st: BodyState, s: bytes)
    requires WellFormedState(st) && Step(limits, st, s).Emit?
    ensures WellFormedState(Step(limits, st, s).next) && 0 < Step(limits, st, s).consumed <= |s|
  {
  }

  // ----- any delivery --------------------------------------------------------

  function Concat(cuts: seq<bytes>): bytes {
    if cuts == [] then [] else cuts[0] + Concat(cuts[1..])
  }

  // The read loop's view: decode what is buffered, and when that wants more,
  // append the next piece the socket delivers.
  function Feed(limits: Limits, st: BodyState, buffer: bytes, cuts: seq<bytes>): (o: Outcome)
    requires WellFormedState(st)
    ensures o.Pending? ==> WellFormedState(o.state)
    decreases |cuts|
  {
    match Run(limits, st, buffer)
    case Rejected(d) => Rejected(d)
    case Done(d, t, rest) => Done(d, t, rest + Concat(cuts))
    case Pending(next, rest, d) =>
      if cuts == [] then Pending(next, rest, d)
      else Prepend(d, Feed(limits, next, rest + cuts[0], cuts[1..]))
  }

  // Every delivery of the bytes gives the outcome of decoding them in one piece:
  // the same data, trailers, left-over bytes, verdict, and resumable state. The
  // only exception is that a delivery may be refused when some accepted
  // chunk-size line has exactly the longest permitted length.
  lemma {:induction false} FeedIsRun(limits: Limits, st: BodyState, buffer: bytes, cuts: seq<bytes>)
    requires WellFormedState(st)
    ensures Feed(limits, st, buffer, cuts) == Run(limits, st, buffer + Concat(cuts))
            || (HitsLimit(limits, st, buffer + Concat(cuts)) && Feed(limits, st, buffer, cuts).Rejected?)
    decreases |cuts|
  {
    hide Run, HitsLimit, Step;
    if cuts == [] {
      assert buffer + Concat(cuts) == buffer;
      match Run(limits, st, buffer)
      case Done(d, t, rest) => assert rest + Concat(cuts) == rest;
      case _ =>
    } else {
      RunExtend(limits, st, buffer, Concat(cuts));
      match Run(limits, st, buffer)
      case Pending(next, rest, d) =>
        assert rest + Concat(cuts) == (rest + cuts[0]) + Concat(cuts[1..]);
        FeedIsRun(limits, next, rest + cuts[0], cuts[1..]);
      case _ =>
    }
  }

  // Cut independence, away from the limit.
  lemma CutIndependence(limits: Limits, framing: Framing, one: seq<bytes>, other: seq<bytes>)
    requires Concat(one) == Concat(other)
    requires !HitsLimit(limits, Start(framing), Concat(one))
    ensures Feed(limits, Start(framing), [], one) == Feed(limits, Start(framing), [], other)
  {
    hide HitsLimit, Feed, Run;
    assert [] + Concat(one) == Concat(one);
    FeedIsRun(limits, Start(framing), [], one);
    FeedIsRun(limits, Start(framing), [], other);
  }

  // ----- the limit itself ----------------------------------------------------

  // A chunk-size line of exactly the permitted length, cut between its carriage
  // return and its line feed, is one byte too long while the line feed is missing.
  lemma CutLimitLine(limits: Limits, s: bytes)
    requires LimitLine(limits, s)
    ensures limits.maxChunkLineBytes + 1 < |s|
    ensures SizeStep(limits, s[..limits.maxChunkLineBytes + 1]).ChunkReject?
  {
    hide FindCrlf, ParseChunkLine, BrokenBreaks;
    var p := s[..limits.maxChunkLineBytes + 1];
    var r := FindCrlf(p);
    assert r.Some? ==> CrlfAt(s, r.value);
  }

  lemma SizeStepLimit(limits: Limits, s: bytes)
    requires SizeStep(limits, s).ChunkAdvance? && SizeStep(limits, s).consumed == limits.maxChunkLineBytes + 2
    ensures LimitLine(limits, s)
  {
    hide FindCrlf, ParseChunkLine;
  }

  lemma CrlfPrefix(s: bytes, p: nat)
    requires FindCrlf(s).Some? && FindCrlf(s).value + 2 <= p <= |s|
    ensures FindCrlf(s[..p]) == FindCrlf(s)
  {
    hide FindCrlf;
    var at := FindCrlf(s).value;
    forall i | 0 <= i < at ensures !CrlfAt(s[..p], i) {
      assert !CrlfAt(s, i);
    }
    FirstCrlf(s[..p], at);
  }

  lemma SizeStepPrefix(limits: Limits, s: bytes, p: nat)
    requires SizeStep(limits, s).ChunkAdvance? && SizeStep(limits, s).consumed <= p <= |s|
    ensures SizeStep(limits, s[..p]) == SizeStep(limits, s)
  {
    hide FindCrlf, ParseChunkLine;
    CrlfPrefix(s, p);
    assert s[..p][..FindCrlf(s).value] == s[..FindCrlf(s).value];
  }

  lemma StepPrefix(limits: Limits, st: BodyState, s: bytes, p: nat)
    requires WellFormedState(st)
    requires var m := Step(limits, st, s);
             (m.Advance? && m.consumed <= p <= |s|) || (m.Emit? && m.consumed < p <= |s|)
    ensures Step(limits, st, s[..p]) == Step(limits, st, s)
  {
    hide SizeStep, TrailerStep;
    if st.framing.Chunked? {
      match st.chunkState
      case Size => SizeStepPrefix(limits, s, p);
      case DataTerminator => assert s[..p][..2] == s[..2];
      case _ =>
    }
  }

  lemma {:induction false} LimitCut(limits: Limits, st: BodyState, s: bytes) returns (p: nat)
    requires WellFormedState(st) && HitsLimit(limits, st, s)
    ensures 0 < p <= |s| && Run(limits, st, s[..p]).Rejected?
    decreases |s|
  {
    hide SizeStep, TrailerStep, LimitLine;
    match Step(limits, st, s)
    case Advance(next, n) =>
      if st.chunkState.Size? && n == limits.maxChunkLineBytes + 2 {
        SizeStepLimit(limits, s);
        CutLimitLine(limits, s);
        p := limits.maxChunkLineBytes + 1;
      } else {
        var q := LimitCut(limits, next, s[n..]);
        p := n + q;
        StepPrefix(limits, st, s, p);
        assert s[..p][n..] == s[n..][..q];
      }
    case Emit(next, n) =>
      var q := LimitCut(limits, next, s[n..]);
      p := n + q;
      StepPrefix(limits, st, s, p);
      assert s[..p][n..] == s[n..][..q];
  }

  // The verdict does not depend on the delivery exactly when the bytes are
  // refused anyway or no accepted chunk-size line has the limiting length.
  lemma VerdictIndependence(limits: Limits, framing: Framing, wire: bytes)
    ensures
      (forall cuts | Concat(cuts) == wire ::
         Feed(limits, Start(framing), [], cuts).Rejected? == Run(limits, Start(framing), wire).Rejected?)
      <==> (Run(limits, Start(framing), wire).Rejected? || !HitsLimit(limits, Start(framing), wire))
  {
    hide HitsLimit, Feed, Run, Start;
    var st := Start(framing);
    assert [] + wire == wire;
    forall cuts | Concat(cuts) == wire
      ensures Feed(limits, st, [], cuts) == Run(limits, st, wire)
              || (HitsLimit(limits, st, wire) && Feed(limits, st, [], cuts).Rejected?)
    {
      FeedIsRun(limits, st, [], cuts);
    }
    if HitsLimit(limits, st, wire) {
      var p := LimitCut(limits, st, wire);
      var cuts := [wire[..p], wire[p..]];
      TwoCuts(limits, st, wire, p);
      assert Concat(cuts) == wire && Feed(limits, st, [], cuts).Rejected?;
    }
  }

  lemma ConcatOne(piece: bytes)
    ensures Concat([piece]) == piece
  {
    assert Concat([piece][1..]) == [];
    assert piece + [] == piece;
  }

  lemma TwoCuts(limits: Limits, st: BodyState, wire: bytes, p: nat)
    requires WellFormedState(st) && 0 < p <= |wire| && Run(limits, st, wire[..p]).Rejected?
    ensures Concat([wire[..p], wire[p..]]) == wire
    ensures Feed(limits, st, [], [wire[..p], wire[p..]]).Rejected?
  {
    hide Step, Run;
    var cuts := [wire[..p], wire[p..]];
    assert cuts[1..] == [wire[p..]];
    ConcatOne(wire[p..]);
    RunEmpty(limits, st, wire[..p]);
    assert [] + wire[..p] == wire[..p];
  }

  // Nothing happens before bytes arrive, unless the body is already complete.
  lemma RunEmpty(limits: Limits, st: BodyState, later: bytes)
    requires WellFormedState(st) && Run(limits, st, later).Rejected?
    ensures Run(limits, st, []) == Pending(st, [], [])
  {
    hide SizeStep, TrailerStep;

    EmptySteps(limits);
  }

  lemma EmptySteps(limits: Limits)
    ensures SizeStep(limits, []) == ChunkNeed && TrailerStep(limits, []) == ChunkNeed
  {
  }

  // "0" CRLF CRLF with a one-byte line limit: a finished body in one piece, but
  // refused when the first piece ends after the carriage return.
  lemma LimitExample()
    ensures
      var limits := Limits(1, 16, 4);
      var wire: bytes := [48, 13, 10, 13, 10];
      Run(limits, Start(Chunked), wire) == Done([], [], [])
      && Concat([[48, 13], [10, 13, 10]]) == wire
      && Feed(limits, Start(Chunked), [], [[48, 13], [10, 13, 10]]).Rejected?
  {
    var limits := Limits(1, 16, 4);
    var wire: bytes := [48, 13, 10, 13, 10];
    var st := Start(Chunked);
    ZeroLine(limits, wire);
    var after := st.(chunkState := TrailerBlock);
    assert wire[3..] == CRLF && CRLF[..2] == CRLF && CRLF[2..] == [];
    assert Step(limits, after, CRLF) == Finish(after.(chunkState := Finished, complete := true), 2, []);
    assert Run(limits, after, CRLF) == Done([], [], []);
    CutLimitLine(limits, wire);
    assert wire[..2] == [48, 13] && wire[2..] == [10, 13, 10];
    assert Run(limits, st, wire[..2]).Rejected?;
    TwoCuts(limits, st, wire, 2);
  }

  lemma ZeroLine(limits: Limits, wire: bytes)
    requires limits.maxChunkLineBytes == 1 && wire == [48, 13, 10, 13, 10]
    ensures LimitLine(limits, wire)
    ensures SizeStep(limits, wire) == ChunkAdvance(TrailerBlock, 3)
  {
    hide ParseChunkLine;
    assert [48] + (CRLF + [13, 10]) == wire;
    assert OneLine([48]);
    LineEnd([48], [13, 10]);
    assert wire[..1] == [48] == Numbers.PrintHex(0);
    ParseChunkLinePrinted(0);
  }
}
