// A response body on its way to the client: the framing the server chose, the bytes
// its encoder wrote, and what the client's decoder makes of them with the framing it
// reads from the head.
module ResponseBody {
  import opened Bytes
  import opened Headers
  import opened FieldNames
  import opened HeaderValidation
  import opened FramingFields
  import opened BodyFraming
  import opened FramingChoice
  import opened CutIndependence
  import opened Pipeline
  import Encoding = BodyEncoder

  // What a body written with a framing says: nothing, when the framing forbids one.
  function Said(sent: Framing, frames: seq<Frame>): (bytes, Fields) {
    if sent.NoBody? || sent.Tunnel? then ([], []) else (Encoding.DataOf(frames), Encoding.TrailersOf(frames))
  }

  // Framings that end at once leave every byte to what follows.
  lemma EndsAtOnce(limits: Limits, framing: Framing, suffix: bytes)
    requires framing.NoBody? || framing.Tunnel? || framing == ContentLength(0)
    ensures Run(limits, Start(framing), suffix) == Done([], [], suffix) && !HitsLimit(limits, Start(framing), suffix)
  {
    RunComplete(limits, Start(framing), suffix);
    Encoding.NoHitComplete(limits, Start(framing), suffix);
  }

  // A body of length zero has no data.
  lemma ZeroLength(frames: seq<Frame>)
    requires Encoding.EncodeAll(Encoding.EncoderStart(ContentLength(0)), frames).Ok?
    ensures Encoding.EncodeAll(Encoding.EncoderStart(ContentLength(0)), frames).value == []
    ensures Encoding.DataOf(frames) == [] && Encoding.TrailersOf(frames) == []
  {
    hide Encoding.EncodeAll;
    Encoding.FixedText(Encoding.EncoderStart(ContentLength(0)), frames);
  }

  // Under a framing that delimits the same body as the one it was written with, a
  // written body is read to its end and no further.
  lemma SameDelimitation(limits: Limits, sent: Framing, received: Framing, frames: seq<Frame>, suffix: bytes)
    requires Delimitation(sent) == Delimitation(received) && !sent.UntilEof?
    requires BodyText(sent, frames).Ok? && Encoding.AllProper(frames) && Encoding.AllFit(limits, frames, 1)
    ensures
      var wire := BodyText(sent, frames).value + suffix;
      Run(limits, Start(received), wire) == Done(Said(sent, frames).0, Said(sent, frames).1, suffix)
      && !HitsLimit(limits, Start(received), wire)
  {
    hide Run, HitsLimit, Encoding.EncodeAll, Encoding.AllProper, Encoding.AllFit, Start;
    assert [] + suffix == suffix;
    if sent.NoBody? || sent.Tunnel? {
      EndsAtOnce(limits, received, suffix);
    } else if sent == ContentLength(0) {
      ZeroLength(frames);
      EndsAtOnce(limits, received, suffix);
    } else {
      Encoding.BodyRoundTripAny(limits, sent, frames, suffix, 1);
    }
  }

  // For every method, status, version and body hint except a 204 answer to CONNECT:
  // a response whose head is sent has its body read, under the framing the head
  // announces and in any delivery, as it was written, and every byte behind it is
  // left.
  lemma ResponseBodyArrives(limits: Limits, method_: bytes, status: nat, version: Version, fs: Fields, hint: BodyHint,
                            requestClose: bool, frames: seq<Frame>, suffix: bytes, cuts: seq<bytes>)
    requires
      var (head, sent, _) := PrepareResponseHead(method_, status, version, fs, hint, requestClose);
      ValidateResponse(status, version, head).Ok? && !sent.UntilEof? && BodyText(sent, frames).Ok?
      && Concat(cuts) == BodyText(sent, frames).value + suffix
    requires !(method_ == CONNECT && status == 204)
    requires Encoding.AllProper(frames) && Encoding.AllFit(limits, frames, 1)
    ensures
      var (head, sent, _) := PrepareResponseHead(method_, status, version, fs, hint, requestClose);
      var received := ReceivedFraming(method_, status, version, head);
      received.Ok? && Feed(limits, Start(received.value), [], cuts) == Done(Said(sent, frames).0, Said(sent, frames).1, suffix)
  {
    hide PrepareResponseHead, ValidateResponse, ReceivedFraming, Run, HitsLimit, Feed, BodyText, Encoding.AllProper,
         Encoding.AllFit, Start, Delimitation, Said;
    ResponseFramingAgreement(method_, status, version, fs, hint, requestClose);
    var (head, sent, _) := PrepareResponseHead(method_, status, version, fs, hint, requestClose);
    var received := ReceivedFraming(method_, status, version, head).value;
    SameDelimitation(limits, sent, received, frames, suffix);
    FeedIsRun(limits, Start(received), [], cuts);
    assert [] + Concat(cuts) == Concat(cuts);
  }

  // A body that lasts until the end of the stream is announced by "connection: close",
  // ends the connection, and is read whole once the stream ends.
  lemma LastBodyArrives(limits: Limits, method_: bytes, status: nat, version: Version, fs: Fields, hint: BodyHint,
                        requestClose: bool, frames: seq<Frame>)
    requires
      var (_, sent, _) := PrepareResponseHead(method_, status, version, fs, hint, requestClose);
      sent.UntilEof? && BodyText(sent, frames).Ok?
    requires Encoding.AllProper(frames) && Encoding.AllFit(limits, frames, 1)
    ensures
      var (head, sent, ends) := PrepareResponseHead(method_, status, version, fs, hint, requestClose);
      var received := ReceivedFraming(method_, status, version, head);
      ends && HasConnectionToken(head, CLOSE) && received.Ok?
      && var o := Run(limits, Start(received.value), BodyText(sent, frames).value);
         o.Pending? && o.rest == [] && o.data == Encoding.DataOf(frames) && DecodeEof(o.state).Ok?
  {
    hide PrepareResponseHead, ValidateResponse, ReceivedFraming, Run, Encoding.EncodeAll, Encoding.AllProper, Encoding.AllFit;
    UntilEofIsPlain(method_, status, version, fs, hint, requestClose);
    ResponseFramingAgreement(method_, status, version, fs, hint, requestClose);
    Encoding.BodyRoundTripAny(limits, UntilEof, frames, [], 1);
  }

  // Both ends decide alike whether the connection is used again: the server ends it
  // exactly when the client does, who looks at its own request, at the options of the
  // response it reads and at the framing they announce.
  lemma KeepAliveAgreement(method_: bytes, status: nat, version: Version, fs: Fields, hint: BodyHint, requestClose: bool)
    requires version == Http10 || version == Http11
    requires ValidateResponse(status, version, PrepareResponseHead(method_, status, version, fs, hint, requestClose).0).Ok?
    requires !(method_ == CONNECT && status == 204)
    ensures
      var (head, _, ends) := PrepareResponseHead(method_, status, version, fs, hint, requestClose);
      var received := ReceivedFraming(method_, status, version, head);
      received.Ok?
      && (ends <==> requestClose || !OptionsKeepOpen(version, head) || received.value == UntilEof || received.value == Tunnel)
  {
    hide PrepareResponseHead, ValidateResponse, ReceivedFraming, ListsOption;
    EndsAsSaid(method_, status, version, fs, hint, requestClose);
    ResponseFramingAgreement(method_, status, version, fs, hint, requestClose);
  }

  // Only a closing response is sent this way, and its head is always in order.
  lemma UntilEofIsPlain(method_: bytes, status: nat, version: Version, fs: Fields, hint: BodyHint, requestClose: bool)
    requires PrepareResponseHead(method_, status, version, fs, hint, requestClose).1.UntilEof?
    ensures !(method_ == CONNECT && status == 204)
    ensures
      var (head, _, ends) := PrepareResponseHead(method_, status, version, fs, hint, requestClose);
      ends && HasConnectionToken(head, CLOSE) && ValidateResponse(status, version, head).Ok?
  {
    hide WithoutFraming, SetField, Without, ValidateResponse, ReceivedFraming, HasConnectionToken, ConnectionOk, ReadFraming,
         ParseContentLength;
    var asked := requestClose || HasConnectionToken(fs, CLOSE);
    var (prepared, _, close) := PrepareResponseFraming(method_, status, version, fs, hint, asked);
    AnnouncedFraming(version, prepared, close);
    ResponseHeadAccepted(method_, status, version, fs, hint, requestClose);
  }
}
