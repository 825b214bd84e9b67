// HTTP/2 message heads (sections 8.2 and 8.3 of RFC 9113, section 4 of RFC 8441):
// from a head to its field block and back.
module Http2Head {
  import opened Results
  import opened Bytes
  import opened Text
  import opened Headers
  import opened FieldNames
  import opened FramingChoice

  // The library that holds URI parts accepts some byte strings as schemes,
  // authorities and paths, and keeps them as they are; text is decoded UTF-8.
  datatype Rules = Rules(scheme: bytes -> bool, authority: bytes -> bool, path: bytes -> bool, text: bytes -> Option<string>)

  datatype Uri = Uri(scheme: Option<bytes>, authority: Option<bytes>, path: Option<bytes>)

  datatype RequestHead = RequestHead(method_: bytes, uri: Uri, headers: Fields)

  datatype ResponseHead = ResponseHead(status: nat, headers: Fields)

  datatype Http2Error = Malformed | Violation

  const METHOD: bytes := [58, 109, 101, 116, 104, 111, 100]
  const SCHEME: bytes := [58, 115, 99, 104, 101, 109, 101]
  const AUTHORITY: bytes := [58, 97, 117, 116, 104, 111, 114, 105, 116, 121]
  const PATH: bytes := [58, 112, 97, 116, 104]
  const PROTOCOL: bytes := [58, 112, 114, 111, 116, 111, 99, 111, 108]
  const STATUS: bytes := [58, 115, 116, 97, 116, 117, 115]
  const SLASH: bytes := [47]

  predicate IsPseudo(name: bytes) {
    name != [] && name[0] == COLON
  }

  predicate IsLower(name: bytes) {
    LowerAll(name) == name
  }

  predicate ConnectionSpecific(name: bytes) {
    name == CONNECTION || name == KEEP_ALIVE || name == PROXY_CONNECTION || name == TRANSFER_ENCODING || name == UPGRADE
  }

  predicate TeOk(name: bytes, value: bytes) {
    name == TE ==> SameName(value, TRAILERS)
  }

  // ----- Connection nominations ----------------------------------------------

  function TrimLeft(s: string): string {
    if s != "" && IsSpace(s[0]) then TrimLeft(s[1..]) else s
  }

  function TrimRight(s: string): string {
    if s != "" && IsSpace(s[|s| - 1]) then TrimRight(s[..|s| - 1]) else s
  }

  function SplitCommas(s: string): seq<string> {
    if s == "" then [""]
    else
      var rest := SplitCommas(s[1..]);
      if s[0] == ',' then [""] + rest
      else if rest == [] then [[s[0]]]
      else [[s[0]] + rest[0]] + rest[1..]
  }

  // A name, in lower case, if all its characters may be in one.
  function NameOf(s: string): Option<bytes> {
    if s == "" then Some([])
    else if s[0] as int >= 128 || !IsTokenByte(s[0] as int) then None
    else
      match NameOf(s[1..])
      case None => None
      case Some(rest) => Some([Lower(s[0] as int)] + rest)
  }

  function AddNames(items: seq<string>, found: seq<bytes>): Result<seq<bytes>, Http2Error> {
    if items == [] then Ok(found)
    else
      var item := TrimRight(TrimLeft(items[0]));
      if item == "" then AddNames(items[1..], found)
      else
        match NameOf(item)
        case None => Err(Malformed)
        case Some(name) => AddNames(items[1..], if name in found then found else found + [name])
  }

  function NominatedFrom(rules: Rules, values: seq<bytes>, found: seq<bytes>): Result<seq<bytes>, Http2Error> {
    if values == [] then Ok(found)
    else
      match rules.text(values[0])
      case None => Err(Malformed)
      case Some(text) =>
        match AddNames(SplitCommas(text), found)
        case Err(e) => Err(e)
        case Ok(more) => NominatedFrom(rules, values[1..], more)
  }

  function Nominated(rules: Rules, fs: Fields): Result<seq<bytes>, Http2Error> {
    NominatedFrom(rules, GetAll(fs, CONNECTION), [])
  }

  // ----- encoding ------------------------------------------------------------

  predicate OtherPseudo(fs: Fields) {
    exists i :: 0 <= i < |fs| && IsPseudo(fs[i].name) && !SameName(fs[i].name, PROTOCOL)
  }

  function UniqueProtocol(fs: Fields): Result<Option<bytes>, Http2Error> {
    var values := GetAll(fs, PROTOCOL);
    if |values| > 1 then Err(Violation)
    else if OtherPseudo(fs) then Err(Violation)
    else Ok(if values == [] then None else Some(values[0]))
  }

  function AuthorityOf(rules: Rules, head: RequestHead): Result<bytes, Http2Error> {
    if head.uri.authority.Some? then Ok(head.uri.authority.value)
    else
      var hosts := GetAll(head.headers, HOST);
      if hosts == [] then Err(Malformed)
      else if rules.text(hosts[0]).None? then Err(Malformed)
      else Ok(hosts[0])
  }

  // The regular fields a message keeps on HTTP/2: in order, in lower case, without
  // the connection-specific and the nominated ones; a request also loses Host.
  function KeptFields(fs: Fields, nominated: seq<bytes>, request: bool): Result<Fields, Http2Error> {
    if fs == [] then Ok([])
    else
      var name := LowerAll(fs[0].name);
      if request && (IsPseudo(fs[0].name) || SameName(fs[0].name, HOST)) then KeptFields(fs[1..], nominated, request)
      else if IsPseudo(fs[0].name) then Err(Violation)
      else if ConnectionSpecific(name) || name in nominated then KeptFields(fs[1..], nominated, request)
      else if !TeOk(name, fs[0].value) then Err(Violation)
      else
        match NewField(name, fs[0].value)
        case Err(_) => Err(Malformed)
        case Ok(f) =>
          match KeptFields(fs[1..], nominated, request)
          case Err(e) => Err(e)
          case Ok(rest) => Ok([f] + rest)
  }

  // Pseudo-headers are added one by one; a value a field cannot hold is refused.
  function AddAll(fs: Fields): Result<Fields, Http2Error> {
    if ValidFields(fs) then Ok(fs) else Err(Malformed)
  }

  function RequestPseudos(head: RequestHead, authority: bytes, protocol: Option<bytes>): Result<Fields, Http2Error> {
    if head.method_ == CONNECT && protocol.None? then AddAll([Field(METHOD, head.method_), Field(AUTHORITY, authority)])
    else if head.uri.scheme.None? then Err(Malformed)
    else
      AddAll([Field(METHOD, head.method_), Field(SCHEME, head.uri.scheme.value), Field(AUTHORITY, authority),
              Field(PATH, if head.uri.path.Some? then head.uri.path.value else SLASH)]
             + (if protocol.Some? then [Field(PROTOCOL, protocol.value)] else []))
  }

  function EncodeRequest(rules: Rules, head: RequestHead): Result<Fields, Http2Error> {
    match UniqueProtocol(head.headers)
    case Err(e) => Err(e)
    case Ok(protocol) =>
      match AuthorityOf(rules, head)
      case Err(e) => Err(e)
      case Ok(authority) =>
        match RequestPseudos(head, authority, protocol)
        case Err(e) => Err(e)
        case Ok(pseudos) =>
          match Nominated(rules, head.headers)
          case Err(e) => Err(e)
          case Ok(nominated) =>
            match KeptFields(head.headers, nominated, true)
            case Err(e) => Err(e)
            case Ok(kept) => Ok(pseudos + kept)
  }

  // ----- decoding ------------------------------------------------------------

  datatype Slots = Slots(method_: Option<bytes>, scheme: Option<bytes>, authority: Option<bytes>, path: Option<bytes>,
                         protocol: Option<bytes>)

  const NO_SLOTS: Slots := Slots(None, None, None, None, None)

  function SetSlot(slots: Slots, name: bytes, value: bytes): Option<Slots> {
    if name == METHOD then if slots.method_.Some? then None else Some(slots.(method_ := Some(value)))
    else if name == SCHEME then if slots.scheme.Some? then None else Some(slots.(scheme := Some(value)))
    else if name == AUTHORITY then if slots.authority.Some? then None else Some(slots.(authority := Some(value)))
    else if name == PATH then if slots.path.Some? then None else Some(slots.(path := Some(value)))
    else if name == PROTOCOL then if slots.protocol.Some? then None else Some(slots.(protocol := Some(value)))
    else None
  }

  predicate InboundRegular(f: Field) {
    IsLower(f.name) && !ConnectionSpecific(f.name) && TeOk(f.name, f.value)
  }

  // The scan over the block: pseudo-headers into their slots, then regular fields.
  function Scan(block: Fields, slots: Slots, headers: Fields, sawRegular: bool): Result<(Slots, Fields), Http2Error> {
    if block == [] then Ok((slots, headers))
    else
      var f := block[0];
      if !IsLower(f.name) then Err(Violation)
      else if IsPseudo(f.name) then
        if sawRegular then Err(Violation)
        else
          match SetSlot(slots, f.name, f.value)
          case None => Err(Violation)
          case Some(next) => Scan(block[1..], next, headers, false)
      else if !InboundRegular(f) then Err(Violation)
      else Scan(block[1..], slots, headers + [f], true)
  }

  function DecodeUri(rules: Rules, method_: bytes, s: Slots): Result<Uri, Http2Error> {
    if method_ == CONNECT && s.protocol.None? then
      if s.scheme.Some? || s.path.Some? then Err(Violation)
      else if s.authority.None? then Err(Violation)
      else if !rules.authority(s.authority.value) then Err(Malformed)
      else Ok(Uri(None, s.authority, None))
    else if s.scheme.None? || s.authority.None? || s.path.None? then Err(Violation)
    else if !rules.scheme(s.scheme.value) || !rules.authority(s.authority.value) || !rules.path(s.path.value) then Err(Malformed)
    else Ok(Uri(s.scheme, s.authority, s.path))
  }

  function DecodeRequest(rules: Rules, block: Fields): Result<RequestHead, Http2Error> {
    match Scan(block, NO_SLOTS, [], false)
    case Err(e) => Err(e)
    case Ok((s, headers)) =>
      if s.method_.None? then Err(Violation)
      else if !IsToken(s.method_.value) then Err(Malformed)
      else if s.protocol.Some? && s.method_.value != CONNECT then Err(Violation)
      else
        match DecodeUri(rules, s.method_.value, s)
        case Err(e) => Err(e)
        case Ok(uri) =>
          Ok(RequestHead(s.method_.value, uri,
                         (if s.protocol.Some? then [Field(PROTOCOL, s.protocol.value)] else []) + headers))
  }

  // ----- the regular part ----------------------------------------------------

  ghost predicate AllInbound(fs: Fields) {
    forall i :: 0 <= i < |fs| ==> InboundRegular(fs[i]) && !IsPseudo(fs[i].name) && ValidField(fs[i])
  }

  lemma LowerTwice(name: bytes)
    ensures IsLower(LowerAll(name)) && (IsPseudo(LowerAll(name)) <==> IsPseudo(name))
  {
    assert forall i :: 0 <= i < |name| ==> Lower(Lower(name[i])) == Lower(name[i]);
    assert LowerAll(LowerAll(name)) == LowerAll(name);
  }

  // What is kept may be sent: every kept field passes the receiver's checks.
  lemma {:induction false} KeptAreInbound(fs: Fields, nominated: seq<bytes>, request: bool)
    requires KeptFields(fs, nominated, request).Ok?
    ensures
      var kept := KeptFields(fs, nominated, request).value;
      AllInbound(kept)
      && (forall f :: f in kept ==> f.name !in nominated && (request ==> f.name != HOST))
  {
    hide ConnectionSpecific, TeOk, LowerAll, ValidName, ValidValue;
    if fs != [] {
      LowerTwice(fs[0].name);
      HostIsLower();
      if KeptFields(fs[1..], nominated, request).Ok? {
        KeptAreInbound(fs[1..], nominated, request);
      }
    }
  }

  lemma HostIsLower()
    ensures LowerAll(HOST) == HOST && LowerAll(CONNECTION) == CONNECTION && LowerAll(PROTOCOL) == PROTOCOL
  {
    assert forall i :: 0 <= i < |HOST| ==> Lower(HOST[i]) == HOST[i];
    assert forall i :: 0 <= i < |CONNECTION| ==> Lower(CONNECTION[i]) == CONNECTION[i];
    assert forall i :: 0 <= i < |PROTOCOL| ==> Lower(PROTOCOL[i]) == PROTOCOL[i];
  }

  // Inbound fields without Host are kept as they are.
  lemma {:induction false} InboundKept(fs: Fields, request: bool)
    requires AllInbound(fs)
    requires request ==> forall f :: f in fs ==> f.name != HOST
    ensures KeptFields(fs, [], request) == Ok(fs)
  {
    hide ConnectionSpecific, TeOk, LowerAll, ValidName, ValidValue;
    if fs != [] {
      assert InboundRegular(fs[0]) && fs[0] in fs;
      HostIsLower();
      InboundKept(fs[1..], request);
      assert fs == [fs[0]] + fs[1..];
    }
  }

  lemma {:induction false} ScanRegular(fs: Fields, slots: Slots, headers: Fields, saw: bool)
    requires AllInbound(fs)
    ensures Scan(fs, slots, headers, saw) == Ok((slots, headers + fs))
  {
    hide ConnectionSpecific, TeOk, LowerAll, ValidField, SetSlot;
    if fs == [] {
      assert headers + fs == headers;
    } else {
      assert InboundRegular(fs[0]);
      ScanRegular(fs[1..], slots, headers + [fs[0]], true);
      assert (headers + [fs[0]]) + fs[1..] == headers + fs;
    }
  }

  lemma {:induction false} InboundHasNo(fs: Fields)
    requires AllInbound(fs)
    ensures GetAll(fs, CONNECTION) == [] && GetAll(fs, PROTOCOL) == [] && !OtherPseudo(fs)
  {
    hide LowerAll, TeOk, ValidField;
    if fs != [] {
      assert InboundRegular(fs[0]) && !IsPseudo(fs[0].name);
      HostIsLower();
      assert forall i :: 0 <= i < |fs[1..]| ==> fs[1..][i] == fs[i + 1];
      InboundHasNo(fs[1..]);
    }
  }

  // ----- the round trip ------------------------------------------------------

  function Protocol(head: RequestHead): Option<bytes> {
    match UniqueProtocol(head.headers)
    case Ok(p) => p
    case Err(_) => None
  }

  // The head as the receiver sees it.
  function CanonicalRequest(rules: Rules, head: RequestHead): RequestHead
    requires EncodeRequest(rules, head).Ok?
  {
    var protocol := Protocol(head);
    var authority := AuthorityOf(rules, head).value;
    RequestHead(head.method_,
                if head.method_ == CONNECT && protocol.None? then Uri(None, Some(authority), None)
                else Uri(head.uri.scheme, Some(authority), Some(if head.uri.path.Some? then head.uri.path.value else SLASH)),
                (if protocol.Some? then [Field(PROTOCOL, protocol.value)] else [])
                + KeptFields(head.headers, Nominated(rules, head.headers).value, true).value)
  }

  // The parts of a head a program can hold, with an authority the URI library takes.
  predicate ProperRequest(rules: Rules, head: RequestHead) {
    IsToken(head.method_)
    && (head.uri.scheme.Some? ==> rules.scheme(head.uri.scheme.value))
    && (head.uri.path.Some? ==> rules.path(head.uri.path.value)) && rules.path(SLASH)
    && (AuthorityOf(rules, head).Ok? ==> rules.authority(AuthorityOf(rules, head).value))
  }

  function SlotsOf(head: RequestHead, authority: bytes, protocol: Option<bytes>): Slots {
    if head.method_ == CONNECT && protocol.None? then Slots(Some(head.method_), None, Some(authority), None, None)
    else Slots(Some(head.method_), head.uri.scheme, Some(authority),
               Some(if head.uri.path.Some? then head.uri.path.value else SLASH), protocol)
  }

  lemma PseudoNames()
    ensures IsLower(METHOD) && IsLower(SCHEME) && IsLower(AUTHORITY) && IsLower(PATH) && IsLower(PROTOCOL) && IsLower(STATUS)
  {
    assert forall i :: 0 <= i < |METHOD| ==> Lower(METHOD[i]) == METHOD[i];
    assert forall i :: 0 <= i < |SCHEME| ==> Lower(SCHEME[i]) == SCHEME[i];
    assert forall i :: 0 <= i < |AUTHORITY| ==> Lower(AUTHORITY[i]) == AUTHORITY[i];
    assert forall i :: 0 <= i < |PATH| ==> Lower(PATH[i]) == PATH[i];
    assert forall i :: 0 <= i < |PROTOCOL| ==> Lower(PROTOCOL[i]) == PROTOCOL[i];
    assert forall i :: 0 <= i < |STATUS| ==> Lower(STATUS[i]) == STATUS[i];
  }

  lemma ScanOne(name: bytes, value: bytes, rest: Fields, slots: Slots, next: Slots)
    requires IsLower(name) && IsPseudo(name) && SetSlot(slots, name, value) == Some(next)
    ensures Scan([Field(name, value)] + rest, slots, [], false) == Scan(rest, next, [], false)
  {
    hide LowerAll, SetSlot;
    assert ([Field(name, value)] + rest)[1..] == rest;
  }

  // The scan fills the slots from the pseudo-headers the encoder wrote.
  lemma ScanPseudos(head: RequestHead, authority: bytes, protocol: Option<bytes>, rest: Fields)
    requires RequestPseudos(head, authority, protocol).Ok?
    ensures Scan(RequestPseudos(head, authority, protocol).value + rest, NO_SLOTS, [], false)
         == Scan(rest, SlotsOf(head, authority, protocol), [], false)
  {
    hide Scan, ValidFields, LowerAll;
    PseudoNames();
    var pseudos := RequestPseudos(head, authority, protocol).value;
    var method_ := head.method_;
    var s1 := NO_SLOTS.(method_ := Some(method_));
    if method_ == CONNECT && protocol.None? {
      var r1 := [Field(AUTHORITY, authority)] + rest;
      assert pseudos + rest == [Field(METHOD, method_)] + r1;
      ScanOne(METHOD, method_, r1, NO_SLOTS, s1);
      ScanOne(AUTHORITY, authority, rest, s1, s1.(authority := Some(authority)));
    } else {
      var scheme := head.uri.scheme.value;
      var path := if head.uri.path.Some? then head.uri.path.value else SLASH;
      var s2 := s1.(scheme := Some(scheme));
      var s3 := s2.(authority := Some(authority));
      var s4 := s3.(path := Some(path));
      var last := if protocol.Some? then [Field(PROTOCOL, protocol.value)] else [];
      var r4 := last + rest;
      var r3 := [Field(PATH, path)] + r4;
      var r2 := [Field(AUTHORITY, authority)] + r3;
      var r1 := [Field(SCHEME, scheme)] + r2;
      assert pseudos + rest == [Field(METHOD, method_)] + r1;
      ScanOne(METHOD, method_, r1, NO_SLOTS, s1);
      ScanOne(SCHEME, scheme, r2, s1, s2);
      ScanOne(AUTHORITY, authority, r3, s2, s3);
      ScanOne(PATH, path, r4, s3, s4);
      if protocol.Some? {
        ScanOne(PROTOCOL, protocol.value, rest, s4, s4.(protocol := protocol));
      } else {
        assert r4 == rest;
      }
    }
  }

  // An encoded request is accepted exactly when an extended :protocol comes with
  // CONNECT, and is then read as the same request, its names in lower case, without
  // Host, connection-specific and nominated fields, everything else in order.
  lemma RequestRoundTrip(rules: Rules, head: RequestHead)
    requires ProperRequest(rules, head) && EncodeRequest(rules, head).Ok?
    ensures
      var decoded := DecodeRequest(rules, EncodeRequest(rules, head).value);
      (decoded.Ok? <==> (Protocol(head).Some? ==> head.method_ == CONNECT))
      && (decoded.Ok? ==> decoded == Ok(CanonicalRequest(rules, head)))
  {
    hide Scan, KeptFields, Nominated, UniqueProtocol, AuthorityOf, RequestPseudos, ValidFields, AllTokenBytes;
    var protocol := Protocol(head);
    var authority := AuthorityOf(rules, head).value;
    var nominated := Nominated(rules, head.headers).value;
    var kept := KeptFields(head.headers, nominated, true).value;
    KeptAreInbound(head.headers, nominated, true);
    ScanPseudos(head, authority, protocol, kept);
    SchemeThere(head, authority, protocol);
    ScanRegular(kept, SlotsOf(head, authority, protocol), [], false);
    assert [] + kept == kept;
  }

  // A GET for "https://a/" that carries ":protocol: w".
  const EXTENDED_GET := RequestHead([71, 69, 84], Uri(Some([104, 116, 116, 112, 115]), Some([97]), Some(SLASH)),
                                    [Field(PROTOCOL, [119])])

  lemma ExtendedGetParts(rules: Rules)
    ensures UniqueProtocol(EXTENDED_GET.headers) == Ok(Some([119]))
    ensures Nominated(rules, EXTENDED_GET.headers) == Ok([]) && KeptFields(EXTENDED_GET.headers, [], true) == Ok([])
  {
    hide GetAll;
    var fs := EXTENDED_GET.headers;
    assert fs == [fs[0]];
    GetAllOne(fs[0], PROTOCOL);
    SameNameItself(PROTOCOL);
    assert !SameName(PROTOCOL, CONNECTION) by {
      assert |LowerAll(PROTOCOL)| == 9 && |LowerAll(CONNECTION)| == 10;
    }
    GetAllOne(fs[0], CONNECTION);
    assert fs[1..] == [];
  }

  lemma NameTokens()
    ensures AllTokenBytes(METHOD[1..]) && AllTokenBytes(SCHEME[1..]) && AllTokenBytes(AUTHORITY[1..])
    ensures AllTokenBytes(PATH[1..]) && AllTokenBytes(PROTOCOL[1..])
  {
  }

  lemma ExtendedGetPseudos()
    ensures RequestPseudos(EXTENDED_GET, [97], Some([119])).Ok?
  {
    hide AllTokenBytes;
    NameTokens();
    var parts := [EXTENDED_GET.method_, EXTENDED_GET.uri.scheme.value, [97], SLASH, [119]];
    assert forall i :: 0 <= i < |parts| ==> ValidValue(parts[i]);
    var pseudos := [Field(METHOD, parts[0]), Field(SCHEME, parts[1]), Field(AUTHORITY, parts[2]), Field(PATH, parts[3])]
                   + [Field(PROTOCOL, parts[4])];
    assert ValidFields(pseudos);
  }

  // The encoder lets it through under any rules that know its parts, and the decoder
  // refuses what comes out.
  lemma ExtendedGet(rules: Rules)
    requires rules.scheme([104, 116, 116, 112, 115]) && rules.authority([97]) && rules.path(SLASH)
    ensures EncodeRequest(rules, EXTENDED_GET).Ok? && Protocol(EXTENDED_GET) == Some([119])
    ensures DecodeRequest(rules, EncodeRequest(rules, EXTENDED_GET).value).Err?
  {
    hide DecodeRequest, UniqueProtocol, Nominated, KeptFields, RequestPseudos;
    ExtendedGetParts(rules);
    ExtendedGetPseudos();
    assert EXTENDED_GET.method_ != CONNECT && AllTokenBytes(EXTENDED_GET.method_);
    RequestRoundTrip(rules, EXTENDED_GET);
  }

  lemma SchemeThere(head: RequestHead, authority: bytes, protocol: Option<bytes>)
    requires RequestPseudos(head, authority, protocol).Ok?
    ensures !(head.method_ == CONNECT && protocol.None?) ==> head.uri.scheme.Some?
  {
    hide ValidFields;
  }

  // Encoding what was decoded from an encoding changes nothing more.
  lemma EncodeStable(rules: Rules, head: RequestHead)
    requires ProperRequest(rules, head) && EncodeRequest(rules, head).Ok?
    requires Protocol(head).Some? ==> head.method_ == CONNECT
    ensures EncodeRequest(rules, CanonicalRequest(rules, head)) == EncodeRequest(rules, head)
  {
    hide KeptFields, Nominated, UniqueProtocol, AuthorityOf, ValidFields, AllTokenBytes;
    var protocol := Protocol(head);
    var nominated := Nominated(rules, head.headers).value;
    var kept := KeptFields(head.headers, nominated, true).value;
    KeptAreInbound(head.headers, nominated, true);
    var canonical := CanonicalRequest(rules, head);
    var front := if protocol.Some? then [Field(PROTOCOL, protocol.value)] else [];
    assert canonical.headers == front + kept;
    CanonicalParts(rules, canonical, protocol, kept);
    assert AuthorityOf(rules, canonical) == AuthorityOf(rules, head) by {
      AuthorityKept(rules, canonical);
    }
  }

  lemma AuthorityKept(rules: Rules, head: RequestHead)
    requires head.uri.authority.Some?
    ensures AuthorityOf(rules, head) == Ok(head.uri.authority.value)
  {
  }

  // A canonical block: its :protocol is found, nothing is nominated, all is kept.
  lemma CanonicalParts(rules: Rules, head: RequestHead, protocol: Option<bytes>, kept: Fields)
    requires AllInbound(kept) && forall f :: f in kept ==> f.name != HOST
    requires head.headers == (if protocol.Some? then [Field(PROTOCOL, protocol.value)] else []) + kept
    ensures UniqueProtocol(head.headers) == Ok(protocol)
    ensures Nominated(rules, head.headers) == Ok([])
    ensures KeptFields(head.headers, [], true) == Ok(kept)
  {
    hide LowerAll, TeOk, ValidField, OtherPseudo, NominatedFrom;
    InboundHasNo(kept);
    InboundKept(kept, true);
    HostIsLower();
    NothingNominated(rules);
    if protocol.None? {
      assert head.headers == kept;
    } else {
      assert head.headers[1..] == kept;
      ProtocolOnly(protocol.value, kept);
      NamesApart();
    }
  }

  lemma NothingNominated(rules: Rules)
    ensures NominatedFrom(rules, [], []) == Ok([])
  {
  }

  lemma NamesApart()
    ensures !SameName(PROTOCOL, CONNECTION) && SameName(PROTOCOL, PROTOCOL) && IsPseudo(PROTOCOL)
  {
    assert |LowerAll(PROTOCOL)| == 9 && |LowerAll(CONNECTION)| == 10;
  }

  lemma ProtocolOnly(value: bytes, kept: Fields)
    requires !OtherPseudo(kept)
    ensures !OtherPseudo([Field(PROTOCOL, value)] + kept)
  {
    hide SameName;
    var fs := [Field(PROTOCOL, value)] + kept;
    NamesApart();
    forall i | 0 <= i < |fs| && IsPseudo(fs[i].name) ensures SameName(fs[i].name, PROTOCOL) {
      if i > 0 {
        assert fs[i] == kept[i - 1];
      }
    }
  }

  // ----- what the decoder accepts --------------------------------------------

  predicate Known(name: bytes) {
    name == METHOD || name == SCHEME || name == AUTHORITY || name == PATH || name == PROTOCOL
  }

  function Slot(s: Slots, name: bytes): Option<bytes> {
    if name == METHOD then s.method_
    else if name == SCHEME then s.scheme
    else if name == AUTHORITY then s.authority
    else if name == PATH then s.path
    else if name == PROTOCOL then s.protocol
    else None
  }

  function Leading(block: Fields): (n: nat)
    ensures n <= |block|
  {
    if block == [] || !IsPseudo(block[0].name) then 0 else 1 + Leading(block[1..])
  }

  // First the known pseudo-headers, each once; then only regular fields that may be
  // sent; all names in lower case.
  predicate WellOrdered(block: Fields) {
    var n := Leading(block);
    (forall i :: 0 <= i < n ==> Known(block[i].name))
    && (forall i, j :: 0 <= i < j < n ==> block[i].name != block[j].name)
    && (forall i :: n <= i < |block| ==> !IsPseudo(block[i].name) && InboundRegular(block[i]))
  }

  // The same with some slots filled already, or regular fields seen.
  predicate MayFollow(block: Fields, slots: Slots, sawRegular: bool) {
    WellOrdered(block) && (sawRegular ==> Leading(block) == 0)
    && forall i :: 0 <= i < Leading(block) ==> Slot(slots, block[i].name).None?
  }

  lemma SetSlotMeaning(slots: Slots, name: bytes, value: bytes)
    requires IsPseudo(name)
    ensures SetSlot(slots, name, value).Some? <==> Known(name) && Slot(slots, name).None?
    ensures SetSlot(slots, name, value).Some? ==>
      forall other :: Slot(SetSlot(slots, name, value).value, other) == if other == name then Some(value) else Slot(slots, other)
  {
  }

  lemma KnownIsLower(name: bytes)
    requires Known(name)
    ensures IsLower(name) && IsPseudo(name)
  {
    PseudoNames();
  }

  lemma MayFollowPseudo(block: Fields, slots: Slots, next: Slots, value: bytes)
    requires block != [] && IsPseudo(block[0].name) && block[0].value == value
    requires SetSlot(slots, block[0].name, value) == Some(next)
    ensures MayFollow(block, slots, false) <==> MayFollow(block[1..], next, false)
  {
    hide InboundRegular, Known, Slot, SetSlot;
    SetSlotMeaning(slots, block[0].name, value);
    var rest := block[1..];
    var n := Leading(block);
    assert forall i :: 0 <= i < |rest| ==> rest[i] == block[i + 1];
    assert forall i :: 1 <= i < |block| ==> block[i] == rest[i - 1];
  }

  lemma MayFollowRegular(block: Fields, slots: Slots, saw: bool)
    requires block != [] && !IsPseudo(block[0].name)
    ensures MayFollow(block, slots, saw) <==> InboundRegular(block[0]) && MayFollow(block[1..], slots, true)
  {
    hide InboundRegular, Known, Slot;
    var rest := block[1..];
    assert forall i :: 0 <= i < |rest| ==> rest[i] == block[i + 1];
    assert forall i :: 1 <= i < |block| ==> block[i] == rest[i - 1];
    if |rest| > 0 && IsPseudo(rest[0].name) {
      assert IsPseudo(block[1].name);
    }
  }

  lemma {:induction false} ScanMeaning(block: Fields, slots: Slots, headers: Fields, saw: bool)
    ensures Scan(block, slots, headers, saw).Ok? <==> MayFollow(block, slots, saw)
    ensures Scan(block, slots, headers, saw).Ok? ==>
      Scan(block, slots, headers, saw).value.1 == headers + block[Leading(block)..]
    decreases |block|
  {
    hide InboundRegular, SetSlot, Slot, MayFollow, Known, LowerAll;
    if block == [] {
      assert headers + block == headers;
      EmptyFollows(slots, saw);
    } else {
      var f := block[0];
      if IsPseudo(f.name) {
        PseudoFollows(block, slots, saw);
        if !saw && IsLower(f.name) && SetSlot(slots, f.name, f.value).Some? {
          var next := SetSlot(slots, f.name, f.value).value;
          ScanMeaning(block[1..], next, headers, false);
          MayFollowPseudo(block, slots, next, f.value);
        }
      } else {
        MayFollowRegular(block, slots, saw);
        RegularIsLower(f);
        ScanMeaning(block[1..], slots, headers + [f], true);
        if MayFollow(block[1..], slots, true) {
          NoneLeading(block[1..], slots);
          assert (headers + [f]) + block[1..] == headers + block;
        }
      }
    }
  }

  lemma EmptyFollows(slots: Slots, saw: bool)
    ensures MayFollow([], slots, saw)
  {
  }

  lemma PseudoFollows(block: Fields, slots: Slots, saw: bool)
    requires block != [] && IsPseudo(block[0].name)
    ensures MayFollow(block, slots, saw) ==>
      !saw && IsLower(block[0].name) && SetSlot(slots, block[0].name, block[0].value).Some?
  {
    hide InboundRegular, Slot, SetSlot, Known;
    SetSlotMeaning(slots, block[0].name, block[0].value);
    if MayFollow(block, slots, saw) {
      KnownIsLower(block[0].name);
    }
  }

  lemma RegularIsLower(f: Field)
    ensures InboundRegular(f) ==> IsLower(f.name)
  {
  }

  lemma NoneLeading(block: Fields, slots: Slots)
    requires MayFollow(block, slots, true)
    ensures Leading(block) == 0 && block[0..] == block
  {
  }

  // The scan accepts exactly the well-ordered blocks and keeps every regular field.
  lemma ScanAccepts(block: Fields)
    ensures Scan(block, NO_SLOTS, [], false).Ok? <==> WellOrdered(block)
    ensures WellOrdered(block) ==> Scan(block, NO_SLOTS, [], false).value.1 == block[Leading(block)..]
  {
    hide Scan, WellOrdered;
    ScanMeaning(block, NO_SLOTS, [], false);
    assert [] + block[Leading(block)..] == block[Leading(block)..];
    NothingSet(block);
  }

  lemma NothingSet(block: Fields)
    ensures MayFollow(block, NO_SLOTS, false) <==> WellOrdered(block)
  {
  }

  // ----- the loops -----------------------------------------------------------

  method ScanBlock(block: Fields) returns (r: Result<(Slots, Fields), Http2Error>)
    ensures r == Scan(block, NO_SLOTS, [], false)
  {
    hide LowerAll, InboundRegular;
    var slots := NO_SLOTS;
    var headers: Fields := [];
    var sawRegular := false;
    assert block[0..] == block;
    for i := 0 to |block|
      invariant Scan(block, NO_SLOTS, [], false) == Scan(block[i..], slots, headers, sawRegular)
    {
      var f := block[i];
      assert block[i..][0] == f && block[i..][1..] == block[i + 1..];
      if !IsLower(f.name) {
        return Err(Violation);
      }
      if IsPseudo(f.name) {
        if sawRegular {
          return Err(Violation);
        }
        var next := SetSlot(slots, f.name, f.value);
        if next.None? {
          return Err(Violation);
        }
        slots := next.value;
        continue;
      }
      sawRegular := true;
      if !InboundRegular(f) {
        return Err(Violation);
      }
      headers := headers + [f];
    }
    r := Ok((slots, headers));
  }

  method KeepFields(fs: Fields, nominated: seq<bytes>, request: bool) returns (r: Result<Fields, Http2Error>)
    ensures r == KeptFields(fs, nominated, request)
  {
    hide LowerAll, ConnectionSpecific, TeOk, SameName, ValidName, ValidValue;
    var output: Fields := [];
    ghost var whole := KeptFields(fs, nominated, request);
    assert fs[0..] == fs;
    assert forall rest: Fields :: [] + rest == rest;
    for i := 0 to |fs|
      invariant whole == match KeptFields(fs[i..], nominated, request) case Err(e) => Err(e) case Ok(rest) => Ok(output + rest)
    {
      assert fs[i..][0] == fs[i] && fs[i..][1..] == fs[i + 1..];
      var field := fs[i];
      if request && (IsPseudo(field.name) || SameName(field.name, HOST)) {
        continue;
      }
      if IsPseudo(field.name) {
        return Err(Violation);
      }
      var name := LowerAll(field.name);
      if ConnectionSpecific(name) || name in nominated {
        continue;
      }
      if !TeOk(name, field.value) {
        return Err(Violation);
      }
      var added := NewField(name, field.value);
      if added.Err? {
        return Err(Malformed);
      }
      ghost var before := output;
      output := output + [added.value];
      assert forall rest: Fields :: before + ([added.value] + rest) == output + rest;
    }
    assert output + [] == output;
    r := Ok(output);
  }

  // ----- responses -----------------------------------------------------------

  predicate StatusOk(status: nat) {
    100 <= status <= 999
  }

  function StatusText(status: nat): bytes
    requires StatusOk(status)
  {
    [48 + status / 100, 48 + status / 10 % 10, 48 + status % 10]
  }

  function ReadStatus(s: bytes): Option<nat> {
    if |s| == 3 && IsDigit(s[0]) && s[0] != 48 && IsDigit(s[1]) && IsDigit(s[2])
    then Some((s[0] as int - 48) * 100 + (s[1] as int - 48) * 10 + (s[2] as int - 48))
    else None
  }

  function EncodeResponse(rules: Rules, head: ResponseHead): Result<Fields, Http2Error>
    requires StatusOk(head.status)
  {
    match Nominated(rules, head.headers)
    case Err(e) => Err(e)
    case Ok(nominated) =>
      match KeptFields(head.headers, nominated, false)
      case Err(e) => Err(e)
      case Ok(kept) => Ok([Field(STATUS, StatusText(head.status))] + kept)
  }

  function ScanResponse(block: Fields, status: Option<bytes>, headers: Fields, sawRegular: bool): Result<(Option<bytes>, Fields), Http2Error> {
    if block == [] then Ok((status, headers))
    else
      var f := block[0];
      if !IsLower(f.name) then Err(Violation)
      else if IsPseudo(f.name) then
        if sawRegular || f.name != STATUS || status.Some? then Err(Violation)
        else ScanResponse(block[1..], Some(f.value), headers, false)
      else if !InboundRegular(f) then Err(Violation)
      else ScanResponse(block[1..], status, headers + [f], true)
  }

  function DecodeResponse(block: Fields): Result<ResponseHead, Http2Error> {
    match ScanResponse(block, None, [], false)
    case Err(e) => Err(e)
    case Ok((status, headers)) =>
      if status.None? then Err(Violation)
      else
        match ReadStatus(status.value)
        case None => Err(Malformed)
        case Some(code) => Ok(ResponseHead(code, headers))
  }

  lemma {:induction false} ScanResponseRegular(fs: Fields, status: Option<bytes>, headers: Fields, saw: bool)
    requires AllInbound(fs)
    ensures ScanResponse(fs, status, headers, saw) == Ok((status, headers + fs))
  {
    hide ConnectionSpecific, TeOk, LowerAll, ValidField;
    if fs == [] {
      assert headers + fs == headers;
    } else {
      assert InboundRegular(fs[0]);
      ScanResponseRegular(fs[1..], status, headers + [fs[0]], true);
      assert (headers + [fs[0]]) + fs[1..] == headers + fs;
    }
  }

  lemma StatusRoundTrip(status: nat)
    requires StatusOk(status)
    ensures ReadStatus(StatusText(status)) == Some(status)
  {
  }

  // An encoded response is always accepted and read with its status and kept fields,
  // and encoding that again gives the same block.
  lemma ResponseRoundTrip(rules: Rules, head: ResponseHead)
    requires StatusOk(head.status) && EncodeResponse(rules, head).Ok?
    ensures
      var block := EncodeResponse(rules, head).value;
      var decoded := DecodeResponse(block);
      decoded.Ok? && decoded.value.status == head.status
      && KeptFields(head.headers, Nominated(rules, head.headers).value, false) == Ok(decoded.value.headers)
      && EncodeResponse(rules, decoded.value) == Ok(block)
  {
    hide KeptFields, NominatedFrom, StatusText, ReadStatus, LowerAll, ConnectionSpecific;
    var nominated := Nominated(rules, head.headers).value;
    var kept := KeptFields(head.headers, nominated, false).value;
    KeptAreInbound(head.headers, nominated, false);
    PseudoNames();
    StatusRoundTrip(head.status);
    var block := EncodeResponse(rules, head).value;
    assert block[1..] == kept;
    ScanResponseRegular(kept, Some(StatusText(head.status)), [], false);
    assert [] + kept == kept;
    InboundHasNo(kept);
    InboundKept(kept, false);
    NothingNominated(rules);
  }
}
