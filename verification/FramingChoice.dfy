// How a message body is delimited: the sender's choice, written into the header
// block, and the receiver's reading of that block.
module FramingChoice {
  import opened Results
  import opened Bytes
  import opened Numbers
  import opened Headers
  import opened FieldNames
  import opened HeaderValidation
  import opened FramingFields
  import opened BodyFraming

  const HEAD: bytes := [72, 69, 65, 68]
  const CONNECT: bytes := [67, 79, 78, 78, 69, 67, 84]

  // What the body producer knows beforehand.
  datatype BodyHint = BodyHint(exactLength: Option<u64>, mayHaveTrailers: bool)

  predicate Streamed(hint: BodyHint) {
    hint.mayHaveTrailers || hint.exactLength.None?
  }

  // ----- the receiver --------------------------------------------------------

  function ForRequest(semantics: Semantics): Framing {
    if semantics.chunked then Chunked
    else if semantics.contentLength.Some? then ContentLength(semantics.contentLength.value)
    else NoBody
  }

  function ForResponse(method_: bytes, status: nat, semantics: Semantics): Framing {
    if method_ == HEAD || Informational(status) || status == 204 || status == 304 then NoBody
    else if method_ == CONNECT && Success(status) then Tunnel
    else if semantics.chunked then Chunked
    else if semantics.transferEncoded then UntilEof
    else if semantics.contentLength.Some? then ContentLength(semantics.contentLength.value)
    else UntilEof
  }

  // ----- the sender ----------------------------------------------------------

  datatype FramingError = UnknownLengthOnHttp10

  function WithoutFraming(fs: Fields): Fields {
    Without(Without(fs, CONTENT_LENGTH), TRANSFER_ENCODING)
  }

  function PrepareRequestFraming(version: Version, fs: Fields, hint: BodyHint): Result<(Fields, Framing), FramingError> {
    var bare := WithoutFraming(fs);
    if Streamed(hint) then
      if version != Http11 then Err(UnknownLengthOnHttp10)
      else Ok((SetField(bare, TRANSFER_ENCODING, CHUNKED), Chunked))
    else
      var length := hint.exactLength.value;
      if length > 0 then Ok((SetField(bare, CONTENT_LENGTH, PrintDecimal(length)), ContentLength(length)))
      else Ok((bare, NoBody))
  }

  predicate BodyForbidden(method_: bytes, status: nat) {
    method_ == HEAD || Informational(status) || status == 204 || status == 205 || status == 304
  }

  // The prepared block, the chosen framing, and whether the connection must close.
  function PrepareResponseFraming(method_: bytes, status: nat, version: Version, fs: Fields, hint: BodyHint, close: bool)
    : (Fields, Framing, bool)
  {
    var tunnel := method_ == CONNECT && Success(status);
    if BodyForbidden(method_, status) || tunnel then
      var plain := Without(fs, TRANSFER_ENCODING);
      var adjusted := if Informational(status) || status == 204 then Without(plain, CONTENT_LENGTH)
                      else if status == 205 then SetField(plain, CONTENT_LENGTH, PrintDecimal(0))
                      else plain;
      (adjusted, if tunnel then Tunnel else NoBody, close)
    else
      var bare := WithoutFraming(fs);
      if Streamed(hint) then
        if version == Http11 then (SetField(bare, TRANSFER_ENCODING, CHUNKED), Chunked, close)
        else (bare, UntilEof, true)
      else
        var length := hint.exactLength.value;
        (SetField(bare, CONTENT_LENGTH, PrintDecimal(length)), ContentLength(length), close)
  }

  // The Connection field the server writes over whatever the response carried.
  function AnnounceConnection(version: Version, fs: Fields, close: bool): Fields {
    if close then SetField(fs, CONNECTION, CLOSE)
    else if version == Http10 then SetField(fs, CONNECTION, KEEP_ALIVE)
    else fs
  }

  // A response head as it is sent: the block, the framing of its body, and whether
  // the connection ends with it.
  function PrepareResponseHead(method_: bytes, status: nat, version: Version, fs: Fields, hint: BodyHint, requestClose: bool)
    : (Fields, Framing, bool)
  {
    var asked := requestClose || HasConnectionToken(fs, CLOSE);
    var (prepared, framing, close) := PrepareResponseFraming(method_, status, version, fs, hint, asked);
    (AnnounceConnection(version, prepared, close), framing, close || framing.UntilEof? || framing.Tunnel?)
  }

  // The same edits on the header block in place.
  method PrepareRequest(headers: HeaderBlock, version: Version, hint: BodyHint) returns (r: Result<Framing, FramingError>)
    modifies headers
    ensures match PrepareRequestFraming(version, old(headers.fields), hint)
            case Err(e) => r == Err(e)
            case Ok((fields, framing)) => r == Ok(framing) && headers.fields == fields
  {
    hide Without, SetField, PrintDecimal;
    var _ := headers.Remove(CONTENT_LENGTH);
    var _ := headers.Remove(TRANSFER_ENCODING);
    if hint.mayHaveTrailers || hint.exactLength.None? {
      if version != Http11 {
        return Err(UnknownLengthOnHttp10);
      }
      FramingFieldsValid(0);
      var _ := headers.Set(TRANSFER_ENCODING, CHUNKED);
      return Ok(Chunked);
    }
    var length := hint.exactLength.value;
    if length > 0 {
      FramingFieldsValid(length);
      var _ := headers.Set(CONTENT_LENGTH, PrintDecimal(length));
      return Ok(ContentLength(length));
    }
    r := Ok(NoBody);
  }

  method PrepareResponse(method_: bytes, status: nat, version: Version, headers: HeaderBlock, hint: BodyHint, close: bool)
    returns (framing: Framing, mustClose: bool)
    modifies headers
    ensures (headers.fields, framing, mustClose)
         == PrepareResponseFraming(method_, status, version, old(headers.fields), hint, close)
  {
    hide Without, SetField, PrintDecimal, Informational, Success;
    mustClose := close;
    var noBody := BodyForbidden(method_, status);
    var tunnel := method_ == CONNECT && Success(status);
    if noBody || tunnel {
      var _ := headers.Remove(TRANSFER_ENCODING);
      if Informational(status) || status == 204 {
        var _ := headers.Remove(CONTENT_LENGTH);
      } else if status == 205 {
        FramingFieldsValid(0);
        var _ := headers.Set(CONTENT_LENGTH, PrintDecimal(0));
      }
      framing := if tunnel then Tunnel else NoBody;
      return;
    }
    var _ := headers.Remove(CONTENT_LENGTH);
    var _ := headers.Remove(TRANSFER_ENCODING);
    if hint.mayHaveTrailers || hint.exactLength.None? {
      if version == Http11 {
        FramingFieldsValid(0);
        var _ := headers.Set(TRANSFER_ENCODING, CHUNKED);
        framing := Chunked;
      } else {
        mustClose := true;
        framing := UntilEof;
      }
    } else {
      var length := hint.exactLength.value;
      FramingFieldsValid(length);
      var _ := headers.Set(CONTENT_LENGTH, PrintDecimal(length));
      framing := ContentLength(length);
    }
  }

  method WriteResponseHead(method_: bytes, status: nat, version: Version, headers: HeaderBlock, hint: BodyHint, requestClose: bool)
    returns (framing: Framing, ends: bool)
    modifies headers
    ensures (headers.fields, framing, ends)
         == PrepareResponseHead(method_, status, version, old(headers.fields), hint, requestClose)
  {
    hide PrepareResponseFraming, SetField, HasConnectionToken;
    var close := requestClose || HasConnectionToken(headers.fields, CLOSE);
    framing, close := PrepareResponse(method_, status, version, headers, hint, close);
    FramingFieldsValid(0);
    if close {
      var _ := headers.Set(CONNECTION, CLOSE);
    } else if version == Http10 {
      var _ := headers.Set(CONNECTION, KEEP_ALIVE);
    }
    ends := close || framing == UntilEof || framing == Tunnel;
  }

  // Setting the framing and Connection fields cannot fail.
  lemma FramingFieldsValid(length: u64)
    ensures ValidField(Field(CONNECTION, CLOSE)) && ValidField(Field(CONNECTION, KEEP_ALIVE))
    ensures ValidField(Field(TRANSFER_ENCODING, CHUNKED))
    ensures ValidField(Field(CONTENT_LENGTH, PrintDecimal(length)))
  {
    hide PrintDecimal;
    PlainDigits(PrintDecimal(length));
    assert AllTokenBytes(CONTENT_LENGTH) && AllTokenBytes(TRANSFER_ENCODING) && ValidValue(CHUNKED);
    assert AllTokenBytes(CONNECTION) && ValidValue(CLOSE) && ValidValue(KEEP_ALIVE);
  }

  // ----- agreement -----------------------------------------------------------

  lemma NamesDiffer()
    ensures !SameName(CONTENT_LENGTH, TRANSFER_ENCODING) && !SameName(TRANSFER_ENCODING, CONTENT_LENGTH)
    ensures !SameName(CONTENT_LENGTH, CONNECTION) && !SameName(TRANSFER_ENCODING, CONNECTION)
    ensures !SameName(CONNECTION, CONTENT_LENGTH) && !SameName(CONNECTION, TRANSFER_ENCODING)
  {
    assert |LowerAll(CONTENT_LENGTH)| == 14 && |LowerAll(TRANSFER_ENCODING)| == 17 && |LowerAll(CONNECTION)| == 10;
  }

  lemma BareBlock(fs: Fields)
    ensures GetAll(WithoutFraming(fs), CONTENT_LENGTH) == []
    ensures GetAll(WithoutFraming(fs), TRANSFER_ENCODING) == []
    ensures GetAll(WithoutFraming(fs), CONNECTION) == GetAll(fs, CONNECTION)
  {
    hide Without, GetAll, SameName;
    NamesDiffer();
    var once := Without(fs, CONTENT_LENGTH);
    WithoutTwice(fs, CONTENT_LENGTH);
    WithoutTwice(once, TRANSFER_ENCODING);
    WithoutOther(once, TRANSFER_ENCODING, CONTENT_LENGTH);
    WithoutOther(fs, CONTENT_LENGTH, CONNECTION);
    WithoutOther(once, TRANSFER_ENCODING, CONNECTION);
  }

  // What the receiver finds after each way of setting the framing.
  lemma ReadBare(version: Version, fs: Fields)
    ensures ReadFraming(version, WithoutFraming(fs)) == Ok(Semantics(None, false, false))
  {
    hide GetAll, ParseContentLength, ParseTransferEncoding, WithoutFraming;
    BareBlock(fs);
    NoLength(WithoutFraming(fs));
    NoTransferEncoding(version, WithoutFraming(fs));
  }

  lemma ReadChunked(fs: Fields)
    ensures ReadFraming(Http11, SetField(WithoutFraming(fs), TRANSFER_ENCODING, CHUNKED)) == Ok(Semantics(None, true, true))
  {
    hide GetAll, ParseContentLength, ParseTransferEncoding, WithoutFraming, SetField, SameName;
    var bare := WithoutFraming(fs);
    var set_ := SetField(bare, TRANSFER_ENCODING, CHUNKED);
    BareBlock(fs);
    NamesDiffer();
    SetFieldMeaning(bare, TRANSFER_ENCODING, CHUNKED, CONTENT_LENGTH);
    NoLength(set_);
    OneChunked(set_);
  }

  // Setting the length of a block without a transfer coding.
  lemma ReadLength(version: Version, plain: Fields, n: u64)
    requires GetAll(plain, TRANSFER_ENCODING) == []
    ensures ReadFraming(version, SetField(plain, CONTENT_LENGTH, PrintDecimal(n))) == Ok(Semantics(Some(n), false, false))
  {
    hide GetAll, ParseContentLength, ParseTransferEncoding, SetField, SameName, PrintDecimal;
    var set_ := SetField(plain, CONTENT_LENGTH, PrintDecimal(n));
    NamesDiffer();
    SetFieldMeaning(plain, CONTENT_LENGTH, PrintDecimal(n), TRANSFER_ENCODING);
    OneLength(set_, n);
    NoTransferEncoding(version, set_);
  }

  lemma ConnectionKept(fs: Fields, value: bytes)
    ensures ConnectionOk(WithoutFraming(fs)) == ConnectionOk(fs)
    ensures ConnectionOk(SetField(WithoutFraming(fs), TRANSFER_ENCODING, value)) == ConnectionOk(fs)
    ensures ConnectionOk(SetField(WithoutFraming(fs), CONTENT_LENGTH, value)) == ConnectionOk(fs)
  {
    hide GetAll, ConnectionOk, WithoutFraming, SetField, SameName, Without;
    var bare := WithoutFraming(fs);
    BareBlock(fs);
    NamesDiffer();
    SetFieldMeaning(bare, TRANSFER_ENCODING, value, CONNECTION);
    SetFieldMeaning(bare, CONTENT_LENGTH, value, CONNECTION);
    SameConnection(fs, bare);
    SameConnection(fs, SetField(bare, TRANSFER_ENCODING, value));
    SameConnection(fs, SetField(bare, CONTENT_LENGTH, value));
  }

  // A prepared request passes the framing checks exactly when its Connection
  // field does, and then the receiver selects the sender's framing.
  lemma RequestFramingAgreement(version: Version, fs: Fields, hint: BodyHint)
    requires PrepareRequestFraming(version, fs, hint).Ok?
    ensures
      var (prepared, framing) := PrepareRequestFraming(version, fs, hint).value;
      match ValidateFraming(version, prepared)
      case Ok(semantics) => ConnectionOk(fs) && ForRequest(semantics) == framing
      case Err(_) => !ConnectionOk(fs)
  {
    hide ConnectionOk, WithoutFraming, SetField, PrintDecimal, ReadFraming, GetAll;
    ConnectionKept(fs, CHUNKED);
    ReadBare(version, fs);
    ReadChunked(fs);
    if hint.exactLength.Some? {
      BareBlock(fs);
      ConnectionKept(fs, PrintDecimal(hint.exactLength.value));
      ReadLength(version, WithoutFraming(fs), hint.exactLength.value);
    }
  }

  // Framings that delimit the same body: an absent body and one of length zero
  // both end at once.
  function Delimitation(f: Framing): Framing {
    if f == ContentLength(0) then NoBody else f
  }

  // The receiver reads the values trimmed.
  function ReceivedFraming(method_: bytes, status: nat, version: Version, sent: Fields): Result<Framing, HeadError> {
    match ValidateResponse(status, version, TrimmedAll(sent))
    case Err(e) => Err(e)
    case Ok(semantics) => Ok(ForResponse(method_, status, semantics))
  }

  // ----- the Connection field ------------------------------------------------

  lemma PlainToken(fs: Fields, token: bytes)
    requires token == CLOSE || token == KEEP_ALIVE
    requires GetAll(fs, CONNECTION) == [token]
    ensures ConnectionTokens(fs) == [token] && ConnectionOk(fs)
  {
    hide GetAll, TrimOws, SplitOn;
    ItemsOne(token);
    TrimOwsClean(token);
    TrimEachOne(token);
    assert |LowerAll(token)| == |token|;
    assert |LowerAll(CONTENT_LENGTH)| == 14 && |LowerAll(TRANSFER_ENCODING)| == 17 && |LowerAll(HOST)| == 4;
    assert |LowerAll(TRAILER)| == 7 && LowerAll(CONNECTION)[1] == 111 && LowerAll(KEEP_ALIVE)[1] == 101;
    assert ConnectionTokenOk(token);
  }

  // Writing the Connection field leaves the framing as it was, and makes a block
  // acceptable whose own Connection field was not.
  lemma AnnouncedFraming(version: Version, fs: Fields, close: bool)
    ensures
      var sent := AnnounceConnection(version, fs, close);
      ReadFraming(version, sent) == ReadFraming(version, fs)
      && (ConnectionOk(sent) <==> close || version == Http10 || ConnectionOk(fs))
      && (close ==> HasConnectionToken(sent, CLOSE))
  {
    hide GetAll, SetField, ConnectionOk, ConnectionTokens, ReadFraming, SameName;
    NamesDiffer();
    var token := if close then CLOSE else KEEP_ALIVE;
    var edited := SetField(fs, CONNECTION, token);
    SetFieldMeaning(fs, CONNECTION, token, CONTENT_LENGTH);
    SetFieldMeaning(fs, CONNECTION, token, TRANSFER_ENCODING);
    SameFraming(version, edited, fs);
    PlainToken(edited, token);
    SameNameItself(CLOSE);
  }

  // ----- agreement on responses ----------------------------------------------

  // What a block says whose length is the server's to set.
  function Announced(status: nat, sent: Framing): Semantics {
    if status == 205 then Semantics(Some(0), false, false)
    else
      match sent
      case Chunked => Semantics(None, true, true)
      case ContentLength(n) => Semantics(Some(n), false, false)
      case _ => Semantics(None, false, false)
  }

  // What the block says once the framing is set.
  lemma PreparedFraming(method_: bytes, status: nat, version: Version, fs: Fields, hint: BodyHint, close: bool)
    ensures
      var (prepared, sent, _) := PrepareResponseFraming(method_, status, version, fs, hint, close);
      var kept := KeepsLength(method_, status);
      ConnectionOk(prepared) == ConnectionOk(fs)
      && (ReadFraming(version, prepared).Ok? <==> (kept ==> ParseContentLength(fs).Ok?))
      && (!kept ==> ReadFraming(version, prepared) == Ok(Announced(status, sent)))
  {
    hide ConnectionOk, WithoutFraming, SetField, PrintDecimal, ReadFraming, GetAll, Without, Success;
    var plain := Without(fs, TRANSFER_ENCODING);
    PlainBlock(version, fs);
    ConnectionKept(fs, CHUNKED);
    BareBlock(fs);
    ReadBare(version, fs);
    ReadChunked(fs);
    ReadLength(version, plain, 0);
    if hint.exactLength.Some? {
      ConnectionKept(fs, PrintDecimal(hint.exactLength.value));
      ReadLength(version, WithoutFraming(fs), hint.exactLength.value);
    }
  }

  // Responses without a body that keep the length they came with.
  predicate KeepsLength(method_: bytes, status: nat) {
    (BodyForbidden(method_, status) || (method_ == CONNECT && Success(status)))
    && !Informational(status) && status != 204 && status != 205
  }

  lemma PlainBlock(version: Version, fs: Fields)
    ensures
      var plain := Without(fs, TRANSFER_ENCODING);
      var zero := SetField(plain, CONTENT_LENGTH, PrintDecimal(0));
      var bare := Without(plain, CONTENT_LENGTH);
      GetAll(plain, TRANSFER_ENCODING) == []
      && ConnectionOk(plain) == ConnectionOk(fs) && ConnectionOk(zero) == ConnectionOk(fs)
      && ConnectionOk(bare) == ConnectionOk(fs)
      && (ReadFraming(version, plain).Ok? <==> ParseContentLength(fs).Ok?)
      && ReadFraming(version, bare) == Ok(Semantics(None, false, false))
  {
    hide GetAll, ConnectionOk, ParseTransferEncoding, SetField, SameName, Without, PrintDecimal, ParseLengthItems;
    var plain := Without(fs, TRANSFER_ENCODING);
    var zero := SetField(plain, CONTENT_LENGTH, PrintDecimal(0));
    var bare := Without(plain, CONTENT_LENGTH);
    NamesDiffer();
    WithoutTwice(fs, TRANSFER_ENCODING);
    WithoutOther(fs, TRANSFER_ENCODING, CONTENT_LENGTH);
    WithoutOther(fs, TRANSFER_ENCODING, CONNECTION);
    SameConnection(fs, plain);
    SetFieldMeaning(plain, CONTENT_LENGTH, PrintDecimal(0), CONNECTION);
    SameConnection(fs, zero);
    WithoutTwice(plain, CONTENT_LENGTH);
    WithoutOther(plain, CONTENT_LENGTH, CONNECTION);
    WithoutOther(plain, CONTENT_LENGTH, TRANSFER_ENCODING);
    SameConnection(fs, bare);
    NoTransferEncoding(version, plain);
    NoTransferEncoding(version, bare);
    NoLength(bare);
    assert ParseContentLength(plain) == ParseContentLength(fs);
  }

  lemma ReceivedAsSent(method_: bytes, status: nat, version: Version, sent: Fields)
    ensures ReceivedFraming(method_, status, version, sent)
         == match ValidateResponse(status, version, sent)
            case Err(e) => Err(e)
            case Ok(semantics) => Ok(ForResponse(method_, status, semantics))
  {
    hide ValidateFraming, TrimmedAll, ForResponse;
    FramingOfTrimmed(version, sent);
  }

  // A response head is accepted, by the sender's own checks and by the receiver's,
  // exactly when its Connection field is written over or was in order, and the
  // length it may have kept is one.
  lemma ResponseHeadAccepted(method_: bytes, status: nat, version: Version, fs: Fields, hint: BodyHint, requestClose: bool)
    ensures
      var (sent, _, _) := PrepareResponseHead(method_, status, version, fs, hint, requestClose);
      var close := PrepareResponseFraming(method_, status, version, fs, hint,
                                          requestClose || HasConnectionToken(fs, CLOSE)).2;
      (ValidateResponse(status, version, sent).Ok? <==> ReceivedFraming(method_, status, version, sent).Ok?)
      && (ValidateResponse(status, version, sent).Ok? <==>
            (close || version == Http10 || ConnectionOk(fs))
            && (KeepsLength(method_, status) ==> ParseContentLength(fs).Ok?))
  {
    hide ConnectionOk, ReadFraming, AnnounceConnection, ReceivedFraming, ForResponse, ParseContentLength,
         HasConnectionToken, WithoutFraming, SetField, PrintDecimal, Without;
    var asked := requestClose || HasConnectionToken(fs, CLOSE);
    var (prepared, _, close) := PrepareResponseFraming(method_, status, version, fs, hint, asked);
    PreparedFraming(method_, status, version, fs, hint, asked);
    AnnouncedFraming(version, prepared, close);
    ReceivedAsSent(method_, status, version, AnnounceConnection(version, prepared, close));
  }

  // Whatever response head is sent and accepted, sender and receiver delimit the same
  // body, except for a 204 answer to CONNECT and for nothing else: there the sender
  // switches to a tunnel and the receiver sees no body.
  lemma ResponseFramingAgreement(method_: bytes, status: nat, version: Version, fs: Fields, hint: BodyHint, requestClose: bool)
    requires ValidateResponse(status, version, PrepareResponseHead(method_, status, version, fs, hint, requestClose).0).Ok?
    ensures
      var (sent, framing, _) := PrepareResponseHead(method_, status, version, fs, hint, requestClose);
      var received := ReceivedFraming(method_, status, version, sent);
      received.Ok? && (Delimitation(framing) == Delimitation(received.value) <==> !(method_ == CONNECT && status == 204))
  {
    hide ConnectionOk, ReadFraming, AnnounceConnection, ReceivedFraming, HasConnectionToken, WithoutFraming, SetField,
         PrintDecimal, ParseContentLength, Without;
    var asked := requestClose || HasConnectionToken(fs, CLOSE);
    var (prepared, _, close) := PrepareResponseFraming(method_, status, version, fs, hint, asked);
    PreparedFraming(method_, status, version, fs, hint, asked);
    AnnouncedFraming(version, prepared, close);
    ReceivedAsSent(method_, status, version, AnnounceConnection(version, prepared, close));
  }

  // The exception occurs: such an answer passes the checks.
  lemma ConnectNoContent()
    ensures
      var (sent, framing, _) := PrepareResponseHead(CONNECT, 204, Http11, [], BodyHint(None, false), false);
      ValidateResponse(204, Http11, sent).Ok? && framing == Tunnel
      && ReceivedFraming(CONNECT, 204, Http11, sent) == Ok(NoBody)
  {
    hide ReceivedFraming;
    var (sent, _, _) := PrepareResponseHead(CONNECT, 204, Http11, [], BodyHint(None, false), false);
    assert sent == [] && CONNECT != HEAD;
    ReceivedAsSent(CONNECT, 204, Http11, sent);
  }

  // ----- what the receiver makes of the fields -------------------------------

  // The body of a request, by its framing fields alone.
  lemma RequestBodyMeaning(version: Version, fs: Fields)
    requires ValidateFraming(version, fs).Ok?
    ensures
      var framing := ForRequest(ValidateFraming(version, fs).value);
      (framing == Chunked <==> !NoField(fs, TRANSFER_ENCODING))
      && (framing.ContentLength? <==> !NoField(fs, CONTENT_LENGTH))
      && (framing == NoBody <==> NoField(fs, CONTENT_LENGTH) && NoField(fs, TRANSFER_ENCODING))
      && (framing.ContentLength? ==> LengthIs(fs, framing.length))
  {
    hide ConnectionInOrder, PlainChunked, NoField, LengthIs, ValidateFraming;
    FramingMeaning(version, fs, ValidateFraming(version, fs).value);
    NotBoth(fs);
  }

  // The body of a response: some have none whatever their fields say; an accepted
  // CONNECT turns into a tunnel; otherwise the framing fields decide, and without them
  // the body lasts until the end of the stream.
  lemma ResponseBodyMeaning(method_: bytes, status: nat, version: Version, fs: Fields)
    requires ValidateResponse(status, version, fs).Ok?
    ensures
      var framing := ForResponse(method_, status, ValidateResponse(status, version, fs).value);
      if method_ == HEAD || 100 <= status < 200 || status == 204 || status == 304 then framing == NoBody
      else if method_ == CONNECT && 200 <= status < 300 then framing == Tunnel
      else
        (framing == Chunked <==> !NoField(fs, TRANSFER_ENCODING))
        && (framing.ContentLength? <==> !NoField(fs, CONTENT_LENGTH))
        && (framing == UntilEof <==> NoField(fs, CONTENT_LENGTH) && NoField(fs, TRANSFER_ENCODING))
        && (framing.ContentLength? ==> LengthIs(fs, framing.length))
  {
    hide ConnectionInOrder, PlainChunked, NoField, LengthIs, ValidateResponse;
    ResponseMeaning(status, version, fs, ValidateResponse(status, version, fs).value);
    NotBoth(fs);
  }

  // ----- closing -------------------------------------------------------------

  lemma PreparedConnection(method_: bytes, status: nat, version: Version, fs: Fields, hint: BodyHint, close: bool)
    ensures
      var prepared := PrepareResponseFraming(method_, status, version, fs, hint, close).0;
      GetAll(prepared, CONNECTION) == GetAll(fs, CONNECTION)
  {
    hide GetAll, SetField, SameName, Without, PrintDecimal, Informational, Success;
    var plain := Without(fs, TRANSFER_ENCODING);
    var bare := WithoutFraming(fs);
    NamesDiffer();
    BareBlock(fs);
    WithoutOther(fs, TRANSFER_ENCODING, CONNECTION);
    WithoutOther(plain, CONTENT_LENGTH, CONNECTION);
    SetFieldMeaning(plain, CONTENT_LENGTH, PrintDecimal(0), CONNECTION);
    SetFieldMeaning(bare, TRANSFER_ENCODING, CHUNKED, CONNECTION);
    if hint.exactLength.Some? {
      SetFieldMeaning(bare, CONTENT_LENGTH, PrintDecimal(hint.exactLength.value), CONNECTION);
    }
  }

  lemma OptionsApart()
    ensures !SameName(KEEP_ALIVE, CLOSE)
  {
    assert |LowerAll(KEEP_ALIVE)| == 10 && |LowerAll(CLOSE)| == 5;
  }

  lemma SameOptions(a: Fields, b: Fields)
    requires GetAll(a, CONNECTION) == GetAll(b, CONNECTION)
    ensures forall option :: ListsOption(a, option) <==> ListsOption(b, option)
  {
    hide GetAll, TrimEach, ListsOption, Items;
    forall option ensures ListsOption(a, option) <==> ListsOption(b, option) {
      OptionMeaning(a, option);
      OptionMeaning(b, option);
    }
  }

  // The connection ends with a response exactly when the request or the response asked
  // for it or its body ends it, and the head that is sent says so.
  lemma EndsAsSaid(method_: bytes, status: nat, version: Version, fs: Fields, hint: BodyHint, requestClose: bool)
    requires version == Http10 || version == Http11
    ensures
      var (sent, framing, ends) := PrepareResponseHead(method_, status, version, fs, hint, requestClose);
      (ends <==> requestClose || ListsOption(fs, CLOSE) || framing == UntilEof || framing == Tunnel)
      && (OptionsKeepOpen(version, sent) <==> !(requestClose || ListsOption(fs, CLOSE) || framing == UntilEof))
  {
    hide GetAll, SetField, SameName, ListsOption, ConnectionTokens, WithoutFraming, Without, PrintDecimal, Success, Informational;
    OptionMeaning(fs, CLOSE);
    var asked := requestClose || HasConnectionToken(fs, CLOSE);
    var (prepared, framing, close) := PrepareResponseFraming(method_, status, version, fs, hint, asked);
    PreparedConnection(method_, status, version, fs, hint, asked);
    SameOptions(prepared, fs);
    var sent := AnnounceConnection(version, prepared, close);
    if close || version == Http10 {
      var token := if close then CLOSE else KEEP_ALIVE;
      SetFieldMeaning(prepared, CONNECTION, token, CONNECTION);
      PlainToken(sent, token);
      OptionMeaning(sent, CLOSE);
      OptionMeaning(sent, KEEP_ALIVE);
      SameNameItself(CLOSE);
      SameNameItself(KEEP_ALIVE);
      OptionsApart();
    }
  }
}
