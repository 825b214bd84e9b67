// Streams that end too early: nothing cut short is taken for whole, be it a body, a
// head or a list of requests.
module Truncation {
  import opened Bytes
  import opened Headers
  import opened BodyFraming
  import opened FramingChoice
  import opened CutIndependence
  import opened RequestHead
  import opened Pipeline
  import Encoding = BodyEncoder

  // ----- bodies --------------------------------------------------------------

  lemma {:induction false} FeedOneMore(limits: Limits, st: BodyState, buffer: bytes, cuts: seq<bytes>, last: bytes)
    requires WellFormedState(st)
    ensures Concat(cuts + [last]) == Concat(cuts) + last
    ensures
      var longer := Feed(limits, st, buffer, cuts + [last]);
      match Feed(limits, st, buffer, cuts)
      case Rejected(d) => longer == Rejected(d)
      case Done(d, t, rest) => longer == Done(d, t, rest + last)
      case Pending(next, rest, d) => longer == Prepend(d, Feed(limits, next, rest + last, []))
    decreases |cuts|
  {
    hide Run;
    ConcatOne(last);
    if cuts == [] {
      assert cuts + [last] == [last] && [last][1..] == [];
      assert [] + last == last;
    } else {
      assert (cuts + [last])[0] == cuts[0] && (cuts + [last])[1..] == cuts[1..] + [last];
      assert cuts[0] + (Concat(cuts[1..]) + last) == Concat(cuts) + last;
      match Run(limits, st, buffer)
      case Pending(next, rest, d) =>
        FeedOneMore(limits, next, rest + cuts[0], cuts[1..], last);
        match Feed(limits, next, rest + cuts[0], cuts[1..]) {
          case Pending(st2, rest2, d2) => PrependPrepend(d, d2, Feed(limits, st2, rest2 + last, []));
          case _ =>
        }
      case Done(d, t, rest) =>
        FeedOneMore(limits, Start(NoBody), [], cuts[1..], last);
        assert (rest + Concat(cuts)) + last == rest + (Concat(cuts) + last);
      case _ =>
        FeedOneMore(limits, Start(NoBody), [], cuts[1..], last);
    }
  }

  // A decoder that wants more bytes is inside its body.
  lemma {:induction false} PendingIsInside(limits: Limits, st: BodyState, s: bytes)
    requires WellFormedState(st) && Run(limits, st, s).Pending?
    ensures
      var next := Run(limits, st, s).state;
      !next.complete && next.framing == st.framing && !next.framing.NoBody? && !next.framing.Tunnel?
    decreases |s|
  {
    hide ChunkStep;
    match Step(limits, st, s)
    case Advance(next, n) => PendingIsInside(limits, next, s[n..]);
    case Emit(next, n) => PendingIsInside(limits, next, s[n..]);
    case _ =>
  }

  // Reading a body to the end of the stream: what feeding the decoder says, and a body
  // that is not finished then is broken unless it was to last until then.
  lemma {:induction false} BodyAtEnd(limits: Limits, st: BodyState, buffer: bytes, cuts: seq<bytes>)
    requires WellFormedState(st)
    ensures
      var r := NextBody(limits, st, buffer, cuts);
      match Feed(limits, st, buffer, cuts)
      case Rejected(d) => r.0 == Broken(d)
      case Done(d, t, rest) => r.0 == Whole(d, t) && Unread(r.1, r.2) == rest
      case Pending(_, _, d) => r.0 == if st.framing.UntilEof? then Whole(d, []) else Broken(d)
    decreases |cuts|
  {
    hide Run, Concat;
    match Run(limits, st, buffer)
    case Pending(next, rest, d) =>
      PendingIsInside(limits, st, buffer);
      if cuts != [] {
        BodyAtEnd(limits, next, rest + cuts[0], cuts[1..]);
      }
    case _ =>
  }

  // A body of fixed length takes exactly its bytes, and a stream with fewer breaks it.
  lemma FixedBody(limits: Limits, n: u64, cuts: seq<bytes>)
    ensures
      var s := Concat(cuts);
      var r := NextBody(limits, Start(ContentLength(n)), [], cuts);
      if |s| < n then r.0 == Broken(s) else r.0 == Whole(s[..n], []) && Unread(r.1, r.2) == s[n..]
  {
    hide NextBody, Feed, Concat, Unread;
    var s := Concat(cuts);
    var st := Start(ContentLength(n));
    BodyAtEnd(limits, st, [], cuts);
    FeedIsRun(limits, st, [], cuts);
    assert [] + s == s;
    FixedRun(limits, n, s);
  }

  lemma FixedRun(limits: Limits, n: u64, s: bytes)
    ensures
      var st := Start(ContentLength(n));
      !HitsLimit(limits, st, s)
      && if |s| < n then Run(limits, st, s).Pending? && Run(limits, st, s).data == s
         else Run(limits, st, s) == Done(s[..n], [], s[n..])
  {
    hide ChunkStep;
    var st := Start(ContentLength(n));
    if |s| >= n {
      Encoding.RunFixed(limits, s[..n], s[n..]);
      assert s == s[..n] + s[n..];
    } else if s != [] {
      var next := st.(fixedRemaining := n - |s|);
      assert Step(limits, st, s) == Emit(next, |s|);
      assert s[|s|..] == [] && s[..|s|] == s && s + [] == s;
      assert Run(limits, next, []) == Pending(next, [], []);
    }
  }

  // A body until the end of the stream is whatever the stream holds.
  lemma UntilEofBody(limits: Limits, cuts: seq<bytes>)
    ensures NextBody(limits, Start(UntilEof), [], cuts).0 == Whole(Concat(cuts), [])
  {
    hide NextBody, Feed, Concat, Run, HitsLimit;
    BodyAtEnd(limits, Start(UntilEof), [], cuts);
    FeedIsRun(limits, Start(UntilEof), [], cuts);
    assert [] + Concat(cuts) == Concat(cuts);
    Encoding.RunUntilEof(limits, Concat(cuts));
  }

  // Every proper beginning of a written body, in any delivery, is broken when the stream
  // ends there, and what was handed over is a beginning of its data.
  lemma TruncatedBody(limits: Limits, framing: Framing, frames: seq<Frame>, p: nat, buffer: bytes, cuts: seq<bytes>)
    requires Encoding.AllProper(frames) && Encoding.AllFit(limits, frames, 1) && !framing.UntilEof?
    requires Encoding.EncodeAll(Encoding.EncoderStart(framing), frames).Ok?
    requires p < |Encoding.EncodeAll(Encoding.EncoderStart(framing), frames).value|
    requires Unread(buffer, cuts) == Encoding.EncodeAll(Encoding.EncoderStart(framing), frames).value[..p]
    ensures
      var r := NextBody(limits, Start(framing), buffer, cuts).0;
      r.Broken? && r.data <= Encoding.DataOf(frames)
  {
    hide NextBody, Feed, Concat, Run, HitsLimit, Encoding.EncodeAll, Encoding.AllProper, Encoding.AllFit, Start;
    var wire := Encoding.EncodeAll(Encoding.EncoderStart(framing), frames).value;
    var last := wire[p..];
    FeedOneMore(limits, Start(framing), buffer, cuts, last);
    assert buffer + (Concat(cuts) + last) == Unread(buffer, cuts) + last == wire + [];
    assert forall rest: bytes :: |rest + last| == |rest| + |last| > 0;
    Encoding.BodyRoundTripAny(limits, framing, frames, [], 1);
    FeedIsRun(limits, Start(framing), buffer, cuts + [last]);
    BodyAtEnd(limits, Start(framing), buffer, cuts);
    StartKeepsFraming(framing);
  }

  lemma StartKeepsFraming(framing: Framing)
    ensures Start(framing).framing == framing
  {
  }

  // ----- heads and requests --------------------------------------------------

  lemma {:induction false} TruncatedHead(config: Config, head: Head, p: nat, buffer: bytes, cuts: seq<bytes>)
    requires ProperHead(head) && EncodeRequestHead(config.rules, head).Ok? && HeadFits(config.rules, config.head, head)
    requires 0 < p < |EncodeRequestHead(config.rules, head).value|
    requires Unread(buffer, cuts) == EncodeRequestHead(config.rules, head).value[..p]
    ensures NextHead(config, buffer, cuts) == HeadFailed
    decreases |cuts|
  {
    hide ReadHead, EncodeRequestHead, ProperHead, HeadFits, Concat, StartLength;
    var text := EncodeRequestHead(config.rules, head).value;
    assert buffer == Unread(buffer, cuts)[..|buffer|] == text[..|buffer|];
    HeadPrefixWaits(config.rules, config.head, head, |buffer|);
    NoCuts(buffer, cuts);
    if cuts != [] {
      UnreadNext(buffer, cuts);
      TruncatedHead(config, head, p, buffer + cuts[0], cuts[1..]);
    }
  }

  // The last thing read of a request that was cut short: nothing, or its head with a
  // broken body that holds a beginning of the data.
  ghost predicate BrokenOff(read: seq<Inbound>, r: Outbound)
    requires Prepared(r).Ok?
  {
    read == []
    || (|read| == 1 && read[0] == Seen(r).(body := read[0].body) && read[0].body.Broken?
        && read[0].body.data <= Encoding.DataOf(r.frames))
  }

  lemma TruncatedRequest(config: Config, r: Outbound, p: nat, buffer: bytes, cuts: seq<bytes>, decisions: seq<bool>)
    requires Sendable(config, r) && WriteRequest(config.rules, r).Ok?
    requires 0 < p < |WriteRequest(config.rules, r).value|
    requires Unread(buffer, cuts) == WriteRequest(config.rules, r).value[..p]
    ensures Prepared(r).Ok?
    ensures
      var run := ReadRequests(config, buffer, cuts, decisions);
      run.exit == Failed && BrokenOff(run.requests, r)
  {
    hide NextHead, NextBody, EncodeRequestHead, BodyText, KeepAlive, WantsUpgrade, StaysOpen, AsksUpgrade, HeadFits,
         ProperHead, ValidateRequest, ForRequest, Encoding.AllFit, Encoding.AllProper, Prepared, Unread, Start, Streamed,
         Encoding.DataOf, Encoding.TrailersOf, ExpectsContinue, AwaitsContinue, HandledExpect, StartWhole, Tail, SeenHead,
         ReadRequests;
    var (head, framing) := Prepared(r).value;
    var headText := EncodeRequestHead(config.rules, head).value;
    var bodyText := BodyText(framing, r.frames).value;
    PreparedFields(r);
    if p < |headText| {
      assert (headText + bodyText)[..p] == headText[..p];
      TruncatedHead(config, head, p, buffer, cuts);
      NoHead(config, buffer, cuts, decisions);
    } else {
      var q := p - |headText|;
      assert (headText + bodyText)[..p] == headText + bodyText[..q];
      if StartWhole(config, head, cuts, |Unread(buffer, cuts)|) {
        HeadArrives(config, head, buffer, cuts, bodyText[..q]);
        var got := NextHead(config, buffer, cuts);
        FramingReadBack(config, r);
        BodyCutShort(config, r, q, got.buffer, got.cuts);
        LoopTurn(config, buffer, cuts, decisions);
        SeenOfRead(r);
      } else {
        SplitStartFails(config, head, buffer, cuts, bodyText[..q]);
        NoHead(config, buffer, cuts, decisions);
      }
    }
  }

  lemma NoHead(config: Config, buffer: bytes, cuts: seq<bytes>, decisions: seq<bool>)
    requires NextHead(config, buffer, cuts) == HeadFailed
    ensures ReadRequests(config, buffer, cuts, decisions) == ReaderRun([], Failed)
  {
    hide NextHead, Unread;
  }

  lemma BodyCutShort(config: Config, r: Outbound, q: nat, buffer: bytes, cuts: seq<bytes>)
    requires Sendable(config, r) && Prepared(r).Ok? && BodyText(Prepared(r).value.1, r.frames).Ok?
    requires q < |BodyText(Prepared(r).value.1, r.frames).value|
    requires Unread(buffer, cuts) == BodyText(Prepared(r).value.1, r.frames).value[..q]
    ensures
      var body := NextBody(config.body, Start(Prepared(r).value.1), buffer, cuts).0;
      body.Broken? && body.data <= Encoding.DataOf(r.frames)
  {
    hide NextBody, Start, Encoding.EncodeAll, Encoding.AllFit, Encoding.AllProper, HeadFits, ProperHead, Unread, WithoutFraming,
         Encoding.DataOf, Encoding.TrailersOf;
    TruncatedBody(config.body, Prepared(r).value.1, r.frames, q, buffer, cuts);
  }

  // What is handed over of a head the reader got is what should be seen of it.
  lemma SeenOfRead(r: Outbound)
    requires Prepared(r).Ok? && ProperHead(r.head)
    ensures
      var prepared := Prepared(r).value.0;
      forall body :: HandedOver(prepared.(fields := TrimmedAll(prepared.fields)), body) == Seen(r).(body := body)
  {
    hide Prepared, TrimmedAll, StaysOpen, AsksUpgrade, AwaitsContinue, KeepAlive, WantsUpgrade, ExpectsContinue, ProperHead;
    SeenFlags(r);
    var prepared := Prepared(r).value.0;
    HeadMeaning(prepared.(fields := TrimmedAll(prepared.fields)));
  }

  // A stream that ends inside the request behind a list of requests: the list is read
  // as sent, the last request is never taken for whole, and the connection fails.
  lemma TruncatedPipeline(config: Config, rs: seq<Outbound>, r: Outbound, p: nat, cuts: seq<bytes>, decisions: seq<bool>)
    requires AllSendable(config, rs) && WriteRequests(config.rules, rs).Ok? && EndingOf(rs, decisions).NeverStops?
    requires Sendable(config, r) && WriteRequest(config.rules, r).Ok? && 0 < p < |WriteRequest(config.rules, r).value|
    requires Concat(cuts) == WriteRequests(config.rules, rs).value + WriteRequest(config.rules, r).value[..p]
    requires StartsWhole(config, rs, cuts, p)
    ensures Prepared(r).Ok?
    ensures
      var run := ReadRequests(config, [], cuts, decisions);
      var seen := AllSeen(config.rules, rs);
      run.exit == Failed && seen <= run.requests && BrokenOff(run.requests[|seen|..], r)
  {
    hide AllSendable, Sendable, WriteRequests, WriteRequest, ReadRequests, AllSeen, EndingOf, StartsWhole, DecisionsLeft,
         Prepared, BrokenOff;
    assert Unread([], cuts) == Concat(cuts);
    var text := WriteRequest(config.rules, r).value;
    var left, later := PipeliningAny(config, rs, [], cuts, decisions, text[..p]);
    TruncatedRequest(config, r, p, left, later, DecisionsLeft(rs, decisions));
    var rest := ReadRequests(config, left, later, DecisionsLeft(rs, decisions)).requests;
    assert (AllSeen(config.rules, rs) + rest)[|AllSeen(config.rules, rs)|..] == rest;
  }
}
