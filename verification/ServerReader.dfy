// The server's read loops over its socket and read buffer, and their agreement
// with the reading of the stream as a whole.
module ServerReader {
  import opened Bytes
  import opened BodyFraming
  import opened FramingChoice
  import opened RequestHead
  import opened Pipeline
  import Decoding = BodyDecoder

  function Joined(d: bytes, r: (BodyResult, bytes, seq<bytes>)): (BodyResult, bytes, seq<bytes>) {
    (if r.0.Whole? then Whole(d + r.0.data, r.0.trailers) else Broken(d + r.0.data), r.1, r.2)
  }

  // Reading a body is one decode call and then reading what it leaves.
  lemma BodyAfterDecode(limits: Limits, st: BodyState, s: bytes, cuts: seq<bytes>)
    requires WellFormedState(st)
    ensures WellFormedState(Decode(limits, st, s).0)
    ensures
      var (next, result) := Decode(limits, st, s);
      var whole := NextBody(limits, st, s, cuts);
      match result
      case Err(_) => whole == (Broken([]), [], [])
      case Ok(Complete(n)) => n <= |s| && whole == (Whole([], []), s[n..], cuts)
      case Ok(FrameReady(TrailersFrame(t), n, end)) => end && n <= |s| && whole == (Whole([], t), s[n..], cuts)
      case Ok(FrameReady(DataFrame(d), n, end)) =>
        0 < n <= |s|
        && whole == Joined(d, if end then (Whole([], []), s[n..], cuts) else NextBody(limits, next, s[n..], cuts))
      case Ok(Incomplete(n)) =>
        n <= |s|
        && (cuts == [] ==> whole == (if DecodeEof(next).Ok? then Whole([], []) else Broken([]), s[n..], []))
        && (cuts != [] ==> whole == NextBody(limits, next, s[n..] + cuts[0], cuts[1..]))
  {
    hide Step, DecodeFrom, Run;
    assert s[0..] == s;
    DecodeThenRun(limits, st, s, 0);
    var (next, result) := Decode(limits, st, s);
    match result
    case Ok(FrameReady(DataFrame(d), n, end)) =>
      if end {
        RunComplete(limits, next, s[n..]);
      }
      BodyAfterPrefix(limits, st, next, s, s[n..], d, cuts);
    case Ok(Incomplete(n)) =>
      if cuts != [] {
        JoinedNothing(NextBody(limits, next, s[n..] + cuts[0], cuts[1..]));
      }
    case _ =>
  }

  lemma JoinedNothing(r: (BodyResult, bytes, seq<bytes>))
    ensures Joined([], r) == r
  {
    assert [] + r.0.data == r.0.data;
  }

  lemma JoinedJoined(a: bytes, b: bytes, r: (BodyResult, bytes, seq<bytes>))
    ensures Joined(a, Joined(b, r)) == Joined(a + b, r)
  {
    assert a + (b + r.0.data) == (a + b) + r.0.data;
  }

  lemma BodyAfterPrefix(limits: Limits, st: BodyState, next: BodyState, s: bytes, rest: bytes, d: bytes, cuts: seq<bytes>)
    requires WellFormedState(st) && WellFormedState(next)
    requires Run(limits, st, s) == Prepend(d, Run(limits, next, rest))
    ensures NextBody(limits, st, s, cuts) == Joined(d, NextBody(limits, next, rest, cuts))
  {
    hide Run, Unread, DecodeEof;
    match Run(limits, next, rest)
    case Pending(last, left, d0) =>
      if cuts != [] {
        var later := NextBody(limits, last, left + cuts[0], cuts[1..]);
        assert (d + d0) + later.0.data == d + (d0 + later.0.data);
      }
    case _ =>
  }

  class ServerReader {
    const config: Config
    const buffer: Decoding.ByteBuffer
    var incoming: seq<bytes>

    constructor (config: Config, incoming: seq<bytes>)
      ensures this.config == config && this.incoming == incoming
      ensures fresh(buffer) && buffer.content == []
    {
      this.config := config;
      this.incoming := incoming;
      buffer := new Decoding.ByteBuffer();
    }

    // Take what the socket delivers next; nothing more is the end of the stream.
    method ReadMore() returns (more: bool)
      modifies this, buffer
      ensures more == (old(incoming) != [])
      ensures more ==> buffer.content == old(buffer.content) + old(incoming)[0] && incoming == old(incoming)[1..]
      ensures !more ==> buffer.content == old(buffer.content) && incoming == old(incoming)
    {
      more := incoming != [];
      if more {
        buffer.Append(incoming[0]);
        incoming := incoming[1..];
      }
    }

    method AwaitHead() returns (r: HeadResult)
      modifies this, buffer
      ensures r == NextHead(config, old(buffer.content), old(incoming))
      ensures r.GotHead? ==> buffer.content == r.buffer && incoming == r.cuts
    {
      hide ReadHead;
      while true
        invariant NextHead(config, buffer.content, incoming) == NextHead(config, old(buffer.content), old(incoming))
        decreases |incoming|
      {
        match ReadHead(config.rules, config.head, buffer.content) {
          case HeadFault(_) => return HeadFailed;
          case HeadFound(head, semantics, n) =>
            buffer.Consume(n);
            return GotHead(head, semantics, buffer.content, incoming);
          case MoreNeeded =>
            var more := ReadMore();
            if !more {
              return if buffer.content == [] then CleanEnd else HeadFailed;
            }
        }
      }
    }

    // The body loop: the frames the decoder produces, in order. Nothing is lost or
    // repeated between the socket and the body channel.
    method ReadBody(framing: Framing) returns (r: BodyResult)
      modifies this, buffer
      ensures
        var (result, left, later) := NextBody(config.body, Start(framing), old(buffer.content), old(incoming));
        r == result && (r.Whole? ==> buffer.content == left && incoming == later)
    {
      hide NextBody, Decode, Run, Step, Start, Unread, WellFormedState;
      var decoder := new Decoding.BodyDecoder(framing, config.body);
      ghost var whole := NextBody(config.body, Start(framing), buffer.content, incoming);
      var data: bytes := [];
      JoinedNothing(whole);
      while true
        invariant decoder.limits == config.body && WellFormedState(decoder.State())
        invariant fresh(decoder)
        invariant whole == Joined(data, NextBody(config.body, decoder.State(), buffer.content, incoming))
        decreases |incoming|, |buffer.content|
      {
        BodyAfterDecode(config.body, decoder.State(), buffer.content, incoming);
        ghost var here := buffer.content;
        ghost var after := Decode(config.body, decoder.State(), here).0;
        var decoded := decoder.DecodeBuffer(buffer);
        match decoded {
          case Err(_) => return Broken(data);
          case Ok(Complete(_)) => return Whole(data, []);
          case Ok(FrameReady(TrailersFrame(t), _, _)) => return Whole(data, t);
          case Ok(FrameReady(DataFrame(d), _, end)) =>
            ghost var rest := if end then (Whole([], []), buffer.content, incoming)
                              else NextBody(config.body, after, buffer.content, incoming);
            JoinedJoined(data, d, rest);
            data := data + d;
            if end {
              return Whole(data, []);
            }
          case Ok(Incomplete(_)) =>
            var more := ReadMore();
            if !more {
              var ended := decoder.DecodeEnd();
              return if ended.Ok? then Whole(data, []) else Broken(data);
            }
        }
      }
    }

    // The read loop of a connection. The requests it hands over and the way it ends
    // are those of the stream read as a whole.
    method ReadAll(decisions: seq<bool>) returns (requests: seq<Inbound>, exit: ReaderExit)
      modifies this, buffer
      ensures ReaderRun(requests, exit) == ReadRequests(config, old(buffer.content), old(incoming), decisions)
    {
      hide NextHead, NextBody, KeepAlive, WantsUpgrade, HandledExpect, ExpectsContinue, Start, ForRequest, Unread;
      ghost var whole := ReadRequests(config, buffer.content, incoming, decisions);
      var answers := decisions;
      requests := [];
      while true
        invariant var rest := ReadRequests(config, buffer.content, incoming, answers);
                  whole == ReaderRun(requests + rest.requests, rest.exit)
        decreases |Unread(buffer.content, incoming)|
      {
        ReadOne(config, buffer.content, incoming, answers);
        ghost var rest := ReadRequests(config, buffer.content, incoming, answers);
        var got := AwaitHead();
        match got {
          case CleanEnd =>
            assert requests + [] == requests;
            return requests, Closed;
          case HeadFailed =>
            assert requests + [] == requests;
            return requests, Failed;
          case GotHead(parsed, semantics, _, _) =>
            var head := HandledExpect(parsed);
            var closeAfter := !KeepAlive(head);
            var wantsUpgrade := WantsUpgrade(head);
            var body := ReadBody(ForRequest(semantics));
            ghost var before := requests;
            requests := requests + [Inbound(head, closeAfter, ExpectsContinue(parsed), wantsUpgrade, body)];
            if body.Broken? {
              return requests, Failed;
            }
            if wantsUpgrade {
              if answers == [] {
                return requests, Closed;
              }
              var accepted := answers[0];
              answers := answers[1..];
              if accepted {
                return requests, Upgraded(buffer.content, incoming);
              }
            }
            if closeAfter {
              return requests, Closed;
            }
            ghost var later := ReadRequests(config, buffer.content, incoming, answers);
            assert before + ([requests[|before|]] + later.requests) == requests + later.requests;
        }
      }
    }
  }

  // A turn of the loop shortens the stream.
  lemma ReadOne(config: Config, buffer: bytes, cuts: seq<bytes>, decisions: seq<bool>)
    ensures
      var got := NextHead(config, buffer, cuts);
      got.GotHead? ==>
        var (body, left, later) := NextBody(config.body, Start(ForRequest(got.semantics)), got.buffer, got.cuts);
        body.Whole? ==> |Unread(left, later)| < |Unread(buffer, cuts)|
  {
    hide NextHead, NextBody, Start, ForRequest, Unread;
  }
}
