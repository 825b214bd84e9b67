// What a sender announces about a body, and what it then sends: the header edits touch
// only the framing fields, and the framing chosen carries just the bodies that were
// announced.
module Announcement {
  import opened Results
  import opened Bytes
  import opened Headers
  import opened FieldNames
  import opened HeaderValidation
  import opened BodyFraming
  import opened FramingChoice
  import opened Pipeline
  import Numbers
  import Encoding = BodyEncoder

  // The frames the body producer said it would yield: so many bytes, or as many as it
  // likes with trailers behind them.
  predicate AsAnnounced(hint: BodyHint, frames: seq<Frame>) {
    if Streamed(hint) then Encoding.TrailersLast(frames)
    else Encoding.AllData(frames) && |Encoding.DataOf(frames)| == hint.exactLength.value
  }

  lemma {:induction false} WithoutCommute(fs: Fields, a: bytes, b: bytes)
    ensures Without(Without(fs, a), b) == Without(Without(fs, b), a)
  {
    hide SameName;
    if fs != [] {
      WithoutCommute(fs[1..], a, b);
    }
  }

  lemma BareAgain(fs: Fields)
    ensures WithoutFraming(WithoutFraming(fs)) == WithoutFraming(fs)
  {
    hide Without;
    WithoutCommute(Without(fs, CONTENT_LENGTH), TRANSFER_ENCODING, CONTENT_LENGTH);
    WithoutTwice(fs, CONTENT_LENGTH);
    WithoutTwice(Without(fs, CONTENT_LENGTH), TRANSFER_ENCODING);
  }

  // Setting one of the framing fields leaves the others as they are, in their order.
  lemma OnlyFramingSet(fs: Fields, name: bytes, value: bytes)
    requires name == CONTENT_LENGTH || name == TRANSFER_ENCODING
    ensures WithoutFraming(SetField(fs, name, value)) == WithoutFraming(fs)
  {
    hide Without, SetField;
    SetFieldMeaning(fs, name, value, name);
    WithoutCommute(fs, CONTENT_LENGTH, TRANSFER_ENCODING);
    WithoutCommute(SetField(fs, name, value), CONTENT_LENGTH, TRANSFER_ENCODING);
  }

  lemma RemovedFraming(fs: Fields)
    ensures WithoutFraming(Without(fs, CONTENT_LENGTH)) == WithoutFraming(fs)
    ensures WithoutFraming(Without(fs, TRANSFER_ENCODING)) == WithoutFraming(fs)
  {
    hide Without;
    WithoutTwice(fs, CONTENT_LENGTH);
    WithoutTwice(fs, TRANSFER_ENCODING);
    WithoutCommute(fs, CONTENT_LENGTH, TRANSFER_ENCODING);
    WithoutCommute(Without(fs, TRANSFER_ENCODING), CONTENT_LENGTH, TRANSFER_ENCODING);
  }

  // A request: only a body of unknown length cannot be sent, and only before HTTP/1.1;
  // every field but the two framing fields stays, in its place; and what is written
  // behind the head is a body as announced, or nothing where none was.
  lemma RequestAnnounced(r: Outbound)
    ensures Prepared(r).Ok? <==> r.head.version == Http11 || !Streamed(r.hint)
    ensures Prepared(r).Ok? ==>
      var (head, framing) := Prepared(r).value;
      head == r.head.(fields := head.fields) && WithoutFraming(head.fields) == WithoutFraming(r.head.fields)
      && (if !Streamed(r.hint) && r.hint.exactLength.value == 0 then BodyText(framing, r.frames) == Ok([])
          else BodyText(framing, r.frames).Ok? <==> AsAnnounced(r.hint, r.frames))
  {
    hide SetField, Numbers.PrintDecimal, Without, Encoding.AllData, Encoding.TrailersLast, Encoding.EncodeAll;
    var fs := r.head.fields;
    var bare := WithoutFraming(fs);
    BareAgain(fs);
    OnlyFramingSet(bare, TRANSFER_ENCODING, CHUNKED);
    if r.hint.exactLength.Some? {
      OnlyFramingSet(bare, CONTENT_LENGTH, Numbers.PrintDecimal(r.hint.exactLength.value));
    }
    if Prepared(r).Ok? {
      Encoding.EncoderAccepts(Prepared(r).value.1, r.frames);
    }
  }

  function WithoutHopFields(fs: Fields): Fields {
    Without(WithoutFraming(fs), CONNECTION)
  }

  lemma ConnectionSet(fs: Fields, value: bytes)
    ensures WithoutHopFields(SetField(fs, CONNECTION, value)) == WithoutHopFields(fs)
  {
    hide Without, SetField;
    SetFieldMeaning(fs, CONNECTION, value, CONNECTION);
    var set_ := SetField(fs, CONNECTION, value);
    forall block | block == fs || block == set_
      ensures WithoutHopFields(block) == Without(Without(Without(block, CONNECTION), CONTENT_LENGTH), TRANSFER_ENCODING)
    {
      WithoutCommute(Without(block, CONTENT_LENGTH), TRANSFER_ENCODING, CONNECTION);
      WithoutCommute(block, CONTENT_LENGTH, CONNECTION);
    }
  }

  // A response: every field but framing and Connection stays, in its place; a response
  // that may not have a body is sent without one; and otherwise what is written is a body
  // as announced, without trailers where chunks are not known.
  lemma ResponseAnnounced(method_: bytes, status: nat, version: Version, fs: Fields, hint: BodyHint, requestClose: bool,
                          frames: seq<Frame>)
    ensures
      var (sent, framing, _) := PrepareResponseHead(method_, status, version, fs, hint, requestClose);
      WithoutHopFields(sent) == WithoutHopFields(fs)
      && (if method_ == HEAD || 100 <= status < 200 || status == 204 || status == 205 || status == 304
             || (method_ == CONNECT && 200 <= status < 300)
          then BodyText(framing, frames) == Ok([])
          else BodyText(framing, frames).Ok? <==>
               AsAnnounced(hint, frames) && (Streamed(hint) && version != Http11 ==> Encoding.AllData(frames)))
  {
    hide SetField, Numbers.PrintDecimal, Without, Encoding.AllData, Encoding.TrailersLast, Encoding.EncodeAll,
         HasConnectionToken;
    var asked := requestClose || HasConnectionToken(fs, CLOSE);
    var (prepared, framing, close) := PrepareResponseFraming(method_, status, version, fs, hint, asked);
    FramingEditsOnly(method_, status, version, fs, hint, asked);
    ConnectionSet(prepared, CLOSE);
    ConnectionSet(prepared, KEEP_ALIVE);
    Encoding.EncoderAccepts(framing, frames);
    DataIsTrailersLast(frames);
  }

  lemma DataIsTrailersLast(frames: seq<Frame>)
    ensures Encoding.AllData(frames) ==> Encoding.TrailersLast(frames)
  {
  }

  lemma FramingEditsOnly(method_: bytes, status: nat, version: Version, fs: Fields, hint: BodyHint, close: bool)
    ensures WithoutFraming(PrepareResponseFraming(method_, status, version, fs, hint, close).0) == WithoutFraming(fs)
  {
    hide SetField, Numbers.PrintDecimal, WithoutFraming, Without, Success, Informational;
    var bare, plain := WithoutFraming(fs), Without(fs, TRANSFER_ENCODING);
    RemovedFraming(fs);
    RemovedFraming(plain);
    BareAgain(fs);
    OnlyFramingSet(plain, CONTENT_LENGTH, Numbers.PrintDecimal(0));
    OnlyFramingSet(bare, TRANSFER_ENCODING, CHUNKED);
    if hint.exactLength.Some? {
      OnlyFramingSet(bare, CONTENT_LENGTH, Numbers.PrintDecimal(hint.exactLength.value));
    }
  }
}
