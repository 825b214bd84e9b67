// Pipelining (section 9.3.2 of RFC 9112): the server's read loop over one
// connection, and the requests a client writes to it. Reading what was written is
// shown for one request, with anything behind it, and then for any list of requests
// up to the first that closes the connection or upgrades it.
module Pipeline {
  import opened Results
  import opened Bytes
  import opened Numbers
  import opened Headers
  import opened FieldNames
  import opened ListItems
  import opened HeaderValidation
  import opened FramingFields
  import opened BodyFraming
  import opened FramingChoice
  import opened CutIndependence
  import opened RequestHead
  import opened Lines
  import opened Trailers
  import Encoding = BodyEncoder

  datatype Config = Config(rules: UriRules, head: HeadLimits, body: Limits)

  // ----- what a head asks for ------------------------------------------------

  predicate KeepAlive(head: Head) {
    !HasConnectionToken(head.fields, CLOSE)
    && (head.version == Http11 || HasConnectionToken(head.fields, KEEP_ALIVE))
  }

  predicate WantsUpgrade(head: Head) {
    head.method_ == CONNECT
    || (Contains(head.fields, UPGRADE) && HasConnectionToken(head.fields, UPGRADE))
  }

  predicate ExpectsContinue(head: Head) {
    head.version == Http11
    && var values := GetAll(head.fields, EXPECT);
       |values| == 1 && SameName(TrimOws(values[0]), CONTINUE_100)
  }

  // The same, said of the field values.
  ghost predicate StaysOpen(head: Head) {
    OptionsKeepOpen(head.version, head.fields)
  }

  ghost predicate AsksUpgrade(head: Head) {
    head.method_ == CONNECT || (!NoField(head.fields, UPGRADE) && ListsOption(head.fields, UPGRADE))
  }

  ghost predicate AwaitsContinue(head: Head) {
    head.version == Http11
    && exists i: nat, word ::
         OnlyField(head.fields, EXPECT, i) && Padded(head.fields[i].value, word) && SameName(word, CONTINUE_100)
  }

  lemma HeadMeaning(head: Head)
    ensures KeepAlive(head) <==> StaysOpen(head)
    ensures WantsUpgrade(head) <==> AsksUpgrade(head)
    ensures ExpectsContinue(head) <==> AwaitsContinue(head)
  {
    hide GetAll, SameName, TrimOws, HasConnectionToken, ListsOption, Contains, NoField, Padded;
    OptionMeaning(head.fields, CLOSE);
    OptionMeaning(head.fields, KEEP_ALIVE);
    OptionMeaning(head.fields, UPGRADE);
    ContainsMeaning(head.fields, UPGRADE);
    NoFieldMeaning(head.fields, UPGRADE);
    ExpectMeaning(head.fields);
  }

  lemma ExpectMeaning(fs: Fields)
    ensures
      var values := GetAll(fs, EXPECT);
      |values| == 1 && SameName(TrimOws(values[0]), CONTINUE_100) <==>
      exists i: nat, word :: OnlyField(fs, EXPECT, i) && Padded(fs[i].value, word) && SameName(word, CONTINUE_100)
  {
    hide GetAll, SameName, TrimOws, Padded;
    var values := GetAll(fs, EXPECT);
    if |values| == 1 {
      OnlyFieldMeaning(fs, EXPECT, values[0]);
      assert values == [values[0]];
      PaddedIsTrimmed(values[0], TrimOws(values[0]));
    }
    if i: nat, word :| OnlyField(fs, EXPECT, i) && Padded(fs[i].value, word) && SameName(word, CONTINUE_100) {
      OnlyFieldMeaning(fs, EXPECT, fs[i].value);
      PaddedIsTrimmed(fs[i].value, word);
    }
  }

  // The server answers a 100-continue expectation itself and takes it off the head.
  function HandledExpect(head: Head): Head {
    if ExpectsContinue(head) then head.(fields := Without(head.fields, EXPECT)) else head
  }

  // ----- the reader ----------------------------------------------------------

  datatype BodyResult = Whole(data: bytes, trailers: Fields) | Broken(data: bytes)

  // A request as the reader hands it to the coordinator, with what its body
  // channel delivers.
  datatype Inbound = Inbound(head: Head, closeAfter: bool, expectContinue: bool, wantsUpgrade: bool, body: BodyResult)

  // How the read loop ends. After an accepted upgrade it returns the bytes it has
  // read ahead; the rest is still in the socket.
  datatype ReaderExit = Closed | Upgraded(readAhead: bytes, unread: seq<bytes>) | Failed

  datatype ReaderRun = ReaderRun(requests: seq<Inbound>, exit: ReaderExit)

  function Unread(buffer: bytes, cuts: seq<bytes>): bytes {
    buffer + Concat(cuts)
  }

  // Read until a head is complete. `cuts` are the reads the socket will answer, in
  // order; none left is the end of the stream.
  datatype HeadResult =
    | GotHead(head: Head, semantics: Semantics, buffer: bytes, cuts: seq<bytes>)
    | CleanEnd
    | HeadFailed

  function NextHead(config: Config, buffer: bytes, cuts: seq<bytes>): (r: HeadResult)
    ensures r.GotHead? ==> |Unread(r.buffer, r.cuts)| + 4 <= |Unread(buffer, cuts)|
    decreases |cuts|
  {
    match ReadHead(config.rules, config.head, buffer)
    case HeadFault(_) => HeadFailed
    case HeadFound(head, semantics, n) => GotHead(head, semantics, buffer[n..], cuts)
    case MoreNeeded =>
      if cuts == [] then (if buffer == [] then CleanEnd else HeadFailed)
      else
        UnreadNext(buffer, cuts);
        NextHead(config, buffer + cuts[0], cuts[1..])
  }

  lemma UnreadNext(buffer: bytes, cuts: seq<bytes>)
    requires cuts != []
    ensures Unread(buffer + cuts[0], cuts[1..]) == Unread(buffer, cuts)
  {
    assert (buffer + cuts[0]) + Concat(cuts[1..]) == buffer + (cuts[0] + Concat(cuts[1..]));
  }

  // Read a body with the incremental decoder; the end of the stream completes it
  // or breaks it.
  function NextBody(limits: Limits, st: BodyState, buffer: bytes, cuts: seq<bytes>): (r: (BodyResult, bytes, seq<bytes>))
    requires WellFormedState(st)
    ensures r.0.Whole? ==> |Unread(r.1, r.2)| <= |Unread(buffer, cuts)|
    decreases |cuts|
  {
    match Run(limits, st, buffer)
    case Rejected(d) => (Broken(d), [], [])
    case Done(d, t, rest) =>
      RunLeavesLess(limits, st, buffer);
      (Whole(d, t), rest, cuts)
    case Pending(next, rest, d) =>
      if cuts == [] then
        RunLeavesLess(limits, st, buffer);
        (if DecodeEof(next).Ok? then Whole(d, []) else Broken(d), rest, [])
      else
        UnreadNext(rest, cuts);
        RunLeavesLess(limits, st, buffer);
        var (result, left, later) := NextBody(limits, next, rest + cuts[0], cuts[1..]);
        (if result.Whole? then Whole(d + result.data, result.trailers) else Broken(d + result.data), left, later)
  }

  lemma {:induction false} RunLeavesLess(limits: Limits, st: BodyState, s: bytes)
    requires WellFormedState(st)
    ensures match Run(limits, st, s)
            case Rejected(_) => true
            case Done(_, _, rest) => |rest| <= |s|
            case Pending(_, rest, _) => |rest| <= |s|
    decreases |s|
  {
    hide Step;
    match Step(limits, st, s)
    case Advance(next, n) => RunLeavesLess(limits, next, s[n..]);
    case Emit(next, n) => RunLeavesLess(limits, next, s[n..]);
    case _ =>
  }

  // The read loop. `decisions` are the coordinator's answers to upgrade requests,
  // in order; none left means it has gone away.
  function ReadRequests(config: Config, buffer: bytes, cuts: seq<bytes>, decisions: seq<bool>): ReaderRun
    decreases |Unread(buffer, cuts)|
  {
    match NextHead(config, buffer, cuts)
    case CleanEnd => ReaderRun([], Closed)
    case HeadFailed => ReaderRun([], Failed)
    case GotHead(parsed, semantics, afterHead, cuts1) =>
      var expectContinue := ExpectsContinue(parsed);
      var head := HandledExpect(parsed);
      var closeAfter := !KeepAlive(head);
      var wantsUpgrade := WantsUpgrade(head);
      var (body, afterBody, cuts2) := NextBody(config.body, Start(ForRequest(semantics)), afterHead, cuts1);
      var inbound := Inbound(head, closeAfter, expectContinue, wantsUpgrade, body);
      if body.Broken? then ReaderRun([inbound], Failed)
      else if wantsUpgrade && decisions == [] then ReaderRun([inbound], Closed)
      else if wantsUpgrade && decisions[0] then ReaderRun([inbound], Upgraded(afterBody, cuts2))
      else if closeAfter then ReaderRun([inbound], Closed)
      else
        var later := ReadRequests(config, afterBody, cuts2, if wantsUpgrade then decisions[1..] else decisions);
        ReaderRun([inbound] + later.requests, later.exit)
  }

  // ----- the writer ----------------------------------------------------------

  // A request as a client sends it: head, what is known of the body, its frames.
  datatype Outbound = Outbound(head: Head, hint: BodyHint, frames: seq<Frame>)

  datatype WriteError = FramingRefused | HeadRefused | BodyRefused

  function Prepared(r: Outbound): Result<(Head, Framing), WriteError> {
    match PrepareRequestFraming(r.head.version, r.head.fields, r.hint)
    case Err(_) => Err(FramingRefused)
    case Ok((fields, framing)) => Ok((r.head.(fields := fields), framing))
  }

  // The body writer sends nothing for a request without a body.
  function BodyText(framing: Framing, frames: seq<Frame>): Result<bytes, WriteError> {
    if framing.NoBody? || framing.Tunnel? then Ok([])
    else
      match Encoding.EncodeAll(Encoding.EncoderStart(framing), frames)
      case Err(_) => Err(BodyRefused)
      case Ok(text) => Ok(text)
  }

  function WriteRequest(rules: UriRules, r: Outbound): Result<bytes, WriteError> {
    match Prepared(r)
    case Err(e) => Err(e)
    case Ok((head, framing)) =>
      match EncodeRequestHead(rules, head)
      case Err(_) => Err(HeadRefused)
      case Ok(headText) =>
        match BodyText(framing, r.frames)
        case Err(e) => Err(e)
        case Ok(bodyText) => Ok(headText + bodyText)
  }

  function WriteRequests(rules: UriRules, rs: seq<Outbound>): Result<bytes, WriteError> {
    if rs == [] then Ok([])
    else
      match WriteRequest(rules, rs[0])
      case Err(e) => Err(e)
      case Ok(text) =>
        match WriteRequests(rules, rs[1..])
        case Err(e) => Err(e)
        case Ok(rest) => Ok(text + rest)
  }

  // The request the server should see: the prepared head with trimmed values and
  // without a 100-continue expectation it answers itself, what the sender's head
  // asks for, and the data and trimmed trailers of the frames.
  ghost function Seen(r: Outbound): Inbound
    requires Prepared(r).Ok?
  {
    Inbound(SeenHead(Prepared(r).value.0), !StaysOpen(r.head), AwaitsContinue(r.head), AsksUpgrade(r.head),
            Whole(Encoding.DataOf(r.frames), Encoding.TrailersOf(r.frames)))
  }

  ghost function SeenHead(prepared: Head): Head {
    var read := prepared.(fields := TrimmedAll(prepared.fields));
    if AwaitsContinue(read) then read.(fields := Without(read.fields, EXPECT)) else read
  }

  ghost function AllSeen(rules: UriRules, rs: seq<Outbound>): seq<Inbound>
    requires WriteRequests(rules, rs).Ok?
  {
    if rs == [] then [] else [Seen(rs[0])] + AllSeen(rules, rs[1..])
  }

  // Its parts are values the program can hold, and a body announced as empty is empty.
  predicate ProperRequest(r: Outbound) {
    ProperHead(r.head) && Encoding.AllProper(r.frames)
    && (!Streamed(r.hint) && r.hint.exactLength.value == 0
        ==> Encoding.DataOf(r.frames) == [] && Encoding.TrailersOf(r.frames) == [])
  }

  // A request a client may send: the server's limits leave room for it.
  predicate Sendable(config: Config, r: Outbound) {
    ProperRequest(r) && Encoding.AllFit(config.body, r.frames, 1)
    && (Prepared(r).Ok? ==> HeadFits(config.rules, config.head, Prepared(r).value.0))
  }

  predicate AllSendable(config: Config, rs: seq<Outbound>) {
    forall i :: 0 <= i < |rs| ==> Sendable(config, rs[i])
  }

  // Where the server stops reading requests: after the first one whose upgrade is
  // accepted or goes unanswered, or that closes the connection.
  datatype Ending = NeverStops | StopsAfter(index: nat, accepted: bool)

  ghost function EndingOf(rs: seq<Outbound>, decisions: seq<bool>): (e: Ending)
    ensures e.StopsAfter? ==> e.index < |rs|
    decreases |rs|
  {
    if rs == [] then NeverStops
    else
      var wants := AsksUpgrade(rs[0].head);
      if wants && decisions == [] then StopsAfter(0, false)
      else if wants && decisions[0] then StopsAfter(0, true)
      else if !StaysOpen(rs[0].head) then StopsAfter(0, false)
      else
        match EndingOf(rs[1..], if wants then decisions[1..] else decisions)
        case NeverStops => NeverStops
        case StopsAfter(i, accepted) => StopsAfter(i + 1, accepted)
  }

  // ----- preparing keeps what the loop looks at ------------------------------

  lemma PreparedFields(r: Outbound)
    requires Prepared(r).Ok? && ProperHead(r.head)
    ensures ProperHead(Prepared(r).value.0)
    ensures
      var fs := Prepared(r).value.0.fields;
      GetAll(fs, CONNECTION) == GetAll(r.head.fields, CONNECTION)
      && GetAll(fs, UPGRADE) == GetAll(r.head.fields, UPGRADE)
      && GetAll(fs, EXPECT) == GetAll(r.head.fields, EXPECT)
  {
    hide Without, GetAll, SetField, SameName, PrintDecimal, WithoutFraming, ValidFields;
    var fs := r.head.fields;
    var bare := WithoutFraming(fs);
    BareBlock(fs);
    BareOthers(fs);
    BareValid(fs);
    SetLength(bare, if r.hint.exactLength.Some? then r.hint.exactLength.value else 0);
    SetChunked(bare);
  }

  lemma BareValid(fs: Fields)
    requires ValidFields(fs)
    ensures ValidFields(WithoutFraming(fs))
  {
    hide Without;
    WithoutValid(fs, CONTENT_LENGTH);
    WithoutValid(Without(fs, CONTENT_LENGTH), TRANSFER_ENCODING);
  }

  lemma OtherNames()
    ensures !SameName(CONTENT_LENGTH, UPGRADE) && !SameName(TRANSFER_ENCODING, UPGRADE)
    ensures !SameName(CONTENT_LENGTH, EXPECT) && !SameName(TRANSFER_ENCODING, EXPECT)
  {
    assert |LowerAll(CONTENT_LENGTH)| == 14 && |LowerAll(TRANSFER_ENCODING)| == 17;
    assert |LowerAll(UPGRADE)| == 7 && |LowerAll(EXPECT)| == 6;
  }

  lemma BareOthers(fs: Fields)
    ensures GetAll(WithoutFraming(fs), UPGRADE) == GetAll(fs, UPGRADE)
    ensures GetAll(WithoutFraming(fs), EXPECT) == GetAll(fs, EXPECT)
  {
    hide Without, GetAll, SameName;
    OtherNames();
    var once := Without(fs, CONTENT_LENGTH);
    WithoutOther(fs, CONTENT_LENGTH, UPGRADE);
    WithoutOther(once, TRANSFER_ENCODING, UPGRADE);
    WithoutOther(fs, CONTENT_LENGTH, EXPECT);
    WithoutOther(once, TRANSFER_ENCODING, EXPECT);
  }

  predicate KeepsOthers(before: Fields, after: Fields) {
    GetAll(after, CONNECTION) == GetAll(before, CONNECTION)
    && GetAll(after, UPGRADE) == GetAll(before, UPGRADE)
    && GetAll(after, EXPECT) == GetAll(before, EXPECT)
  }

  lemma SetLength(bare: Fields, n: u64)
    requires ValidFields(bare)
    ensures
      var fs := SetField(bare, CONTENT_LENGTH, PrintDecimal(n));
      KeepsOthers(bare, fs) && ValidFields(fs)
  {
    hide GetAll, SetField, SameName, PrintDecimal, ValidFields;
    var digits := PrintDecimal(n);
    NamesDiffer();
    OtherNames();
    SetFieldMeaning(bare, CONTENT_LENGTH, digits, CONNECTION);
    SetFieldMeaning(bare, CONTENT_LENGTH, digits, UPGRADE);
    SetFieldMeaning(bare, CONTENT_LENGTH, digits, EXPECT);
    FramingFieldsValid(n);
    SetFieldValid(bare, CONTENT_LENGTH, digits);
  }

  lemma SetChunked(bare: Fields)
    requires ValidFields(bare)
    ensures
      var fs := SetField(bare, TRANSFER_ENCODING, CHUNKED);
      KeepsOthers(bare, fs) && ValidFields(fs)
  {
    hide GetAll, SetField, SameName, ValidFields;
    NamesDiffer();
    OtherNames();
    SetFieldMeaning(bare, TRANSFER_ENCODING, CHUNKED, CONNECTION);
    SetFieldMeaning(bare, TRANSFER_ENCODING, CHUNKED, UPGRADE);
    SetFieldMeaning(bare, TRANSFER_ENCODING, CHUNKED, EXPECT);
    FramingFieldsValid(0);
    SetFieldValid(bare, TRANSFER_ENCODING, CHUNKED);
  }

  // Neither the framing edit nor the trimming on the way changes whether a request
  // closes, upgrades or expects.
  lemma {:induction false} ContainsMeaning(fs: Fields, name: bytes)
    ensures Contains(fs, name) <==> GetAll(fs, name) != []
  {
    hide SameName;
    if fs != [] {
      ContainsMeaning(fs[1..], name);
      assert Contains(fs, name) <==> SameName(fs[0].name, name) || Contains(fs[1..], name) by {
        assert fs == [fs[0]] + fs[1..];
        if Contains(fs[1..], name) {
          var i :| 0 <= i < |fs[1..]| && SameName(fs[1..][i].name, name);
          assert SameName(fs[i + 1].name, name);
        }
        if Contains(fs, name) && !SameName(fs[0].name, name) {
          var i :| 0 <= i < |fs| && SameName(fs[i].name, name);
          assert SameName(fs[1..][i - 1].name, name);
        }
      }
    }
  }

  lemma SeenFlags(r: Outbound)
    requires Prepared(r).Ok? && ProperHead(r.head)
    ensures
      var arrived := Prepared(r).value.0.(fields := TrimmedAll(Prepared(r).value.0.fields));
      KeepAlive(arrived) == StaysOpen(r.head) && WantsUpgrade(arrived) == AsksUpgrade(r.head)
      && ExpectsContinue(arrived) == AwaitsContinue(r.head)
  {
    hide GetAll, SameName, TrimOws, TrimEach, Items, Contains, TrimmedAll, StaysOpen, AsksUpgrade, AwaitsContinue;
    PreparedFields(r);
    var fs := Prepared(r).value.0.fields;
    var trimmed := TrimmedAll(fs);
    TokensOfTrimmed(fs);
    assert ConnectionTokens(fs) == ConnectionTokens(r.head.fields);
    GetAllTrimmed(fs, UPGRADE);
    GetAllTrimmed(fs, EXPECT);
    ContainsMeaning(trimmed, UPGRADE);
    ContainsMeaning(r.head.fields, UPGRADE);
    TrimEachShape(GetAll(fs, EXPECT));
    TrimEachShape(GetAll(fs, UPGRADE));
    assert KeepAlive(Prepared(r).value.0.(fields := trimmed)) == KeepAlive(r.head);
    HeadMeaning(r.head);
  }

  lemma TrimEachShape(values: seq<bytes>)
    ensures TrimEach(values) == [] <==> values == []
    ensures |values| == 1 ==> TrimEach(values)[0] == TrimOws(values[0]) && TrimOws(TrimEach(values)[0]) == TrimOws(values[0])
  {
    if |values| == 1 {
      TrimOwsIdempotent(values[0]);
    }
  }

  // Taking the Expect field off changes nothing else the loop asks.
  lemma HandledExpectFlags(head: Head)
    ensures KeepAlive(HandledExpect(head)) == KeepAlive(head)
    ensures WantsUpgrade(HandledExpect(head)) == WantsUpgrade(head)
  {
    hide GetAll, SameName, TrimOws, TrimEach, Items, Contains, Without;
    var fs := head.fields;
    var left := Without(fs, EXPECT);
    ExpectApart();
    WithoutOther(fs, EXPECT, CONNECTION);
    WithoutOther(fs, EXPECT, UPGRADE);
    ContainsMeaning(fs, UPGRADE);
    ContainsMeaning(left, UPGRADE);
    assert ConnectionTokens(left) == ConnectionTokens(fs);
  }

  lemma ExpectApart()
    ensures !SameName(EXPECT, CONNECTION) && !SameName(EXPECT, UPGRADE)
  {
    assert |LowerAll(EXPECT)| == 6 && |LowerAll(CONNECTION)| == 10 && |LowerAll(UPGRADE)| == 7;
  }

  // ----- deliveries ----------------------------------------------------------

  // No read ends with this many bytes of the stream still to come.
  predicate Unsplit(cuts: seq<bytes>, left: int) {
    forall j :: 0 <= j <= |cuts| ==> |Concat(cuts[j..])| != left
  }

  // A start line of exactly the limit is not cut between CR and LF. `left` counts
  // the bytes from the head to the end of the stream.
  predicate StartWhole(config: Config, head: Head, cuts: seq<bytes>, left: nat) {
    StartLength(head) == config.head.maxStartLineBytes ==> Unsplit(cuts, left - (StartLength(head) + 1))
  }

  predicate StartsWhole(config: Config, rs: seq<Outbound>, cuts: seq<bytes>, behind: nat)
    requires WriteRequests(config.rules, rs).Ok?
  {
    rs == []
    || (StartWhole(config, rs[0].head, cuts, |WriteRequests(config.rules, rs).value| + behind)
        && StartsWhole(config, rs[1..], cuts, behind))
  }

  // What the socket still has to deliver.
  predicate Tail(later: seq<bytes>, cuts: seq<bytes>) {
    |later| <= |cuts| && later == cuts[|cuts| - |later|..]
  }

  lemma UnsplitTail(cuts: seq<bytes>, later: seq<bytes>, left: int)
    requires Unsplit(cuts, left) && Tail(later, cuts)
    ensures Unsplit(later, left)
  {
    var k := |cuts| - |later|;
    forall j | 0 <= j <= |later| ensures |Concat(later[j..])| != left {
      assert later[j..] == cuts[k + j..];
    }
  }

  lemma {:induction false} StartsWholeTail(config: Config, rs: seq<Outbound>, cuts: seq<bytes>, later: seq<bytes>, behind: nat)
    requires WriteRequests(config.rules, rs).Ok? && StartsWhole(config, rs, cuts, behind) && Tail(later, cuts)
    ensures StartsWhole(config, rs, later, behind)
  {
    hide WriteRequest, Unsplit, StartLength, Tail;
    if rs != [] {
      var left := |WriteRequests(config.rules, rs).value| + behind;
      if StartLength(rs[0].head) == config.head.maxStartLineBytes {
        UnsplitTail(cuts, later, left - (StartLength(rs[0].head) + 1));
      }
      StartsWholeTail(config, rs[1..], cuts, later, behind);
    }
  }

  // Start lines shorter than the limit may be cut anywhere.
  lemma {:induction false} ShortStarts(config: Config, rs: seq<Outbound>, cuts: seq<bytes>, behind: nat)
    requires WriteRequests(config.rules, rs).Ok?
    requires forall i :: 0 <= i < |rs| ==> StartLength(rs[i].head) < config.head.maxStartLineBytes
    ensures StartsWhole(config, rs, cuts, behind)
  {
    hide WriteRequest, Unsplit, StartLength;
    if rs != [] {
      ShortStarts(config, rs[1..], cuts, behind);
    }
  }

  lemma {:induction false} HeadTail(config: Config, buffer: bytes, cuts: seq<bytes>)
    ensures NextHead(config, buffer, cuts).GotHead? ==> Tail(NextHead(config, buffer, cuts).cuts, cuts)
    decreases |cuts|
  {
    hide ReadHead, Concat;
    if cuts != [] {
      HeadTail(config, buffer + cuts[0], cuts[1..]);
    }
  }

  lemma {:induction false} BodyTail(limits: Limits, st: BodyState, buffer: bytes, cuts: seq<bytes>)
    requires WellFormedState(st)
    ensures NextBody(limits, st, buffer, cuts).0.Whole? ==> Tail(NextBody(limits, st, buffer, cuts).2, cuts)
    decreases |cuts|
  {
    hide Run, Concat;
    match Run(limits, st, buffer)
    case Pending(next, rest, _) =>
      if cuts != [] {
        BodyTail(limits, next, rest + cuts[0], cuts[1..]);
      }
    case _ =>
  }

  lemma TailTail(a: seq<bytes>, b: seq<bytes>, c: seq<bytes>)
    requires Tail(a, b) && Tail(b, c)
    ensures Tail(a, c)
  {
  }

  // The next read leaves the stream as it was.
  lemma StartWholeNext(config: Config, head: Head, cuts: seq<bytes>, left: nat)
    requires cuts != [] && StartWhole(config, head, cuts, left)
    ensures StartWhole(config, head, cuts[1..], left)
  {
    hide StartLength;
    if StartLength(head) == config.head.maxStartLineBytes {
      UnsplitTail(cuts, cuts[1..], left - (StartLength(head) + 1));
    }
  }

  // ----- one request ---------------------------------------------------------

  // Whatever is buffered of a stream that starts with an encoded head, the reader
  // gets that head and keeps every byte after it.
  lemma {:induction false} HeadArrives(config: Config, head: Head, buffer: bytes, cuts: seq<bytes>, suffix: bytes)
    requires ProperHead(head) && EncodeRequestHead(config.rules, head).Ok? && HeadFits(config.rules, config.head, head)
    requires Unread(buffer, cuts) == EncodeRequestHead(config.rules, head).value + suffix
    requires StartWhole(config, head, cuts, |Unread(buffer, cuts)|)
    ensures
      var r := NextHead(config, buffer, cuts);
      r.GotHead? && r.head == head.(fields := TrimmedAll(head.fields))
      && r.semantics == ValidateRequest(config.rules, head).value
      && Unread(r.buffer, r.cuts) == suffix
    decreases |cuts|
  {
    hide ReadHead, EncodeRequestHead, ProperHead, HeadFits, ValidateRequest, TrimmedAll, GetAll, Concat, StartLength;
    var text := EncodeRequestHead(config.rules, head).value;
    EncodeIsLong(config.rules, head);
    if |buffer| < |text| {
      assert buffer == Unread(buffer, cuts)[..|buffer|] == text[..|buffer|];
      HeadPrefixWaits(config.rules, config.head, head, |buffer|);
      assert cuts[0..] == cuts;
      NoCuts(buffer, cuts);
      UnreadNext(buffer, cuts);
      StartWholeNext(config, head, cuts, |Unread(buffer, cuts)|);
      HeadArrives(config, head, buffer + cuts[0], cuts[1..], suffix);
    } else {
      var rest := buffer[|text|..];
      assert buffer[..|text|] == Unread(buffer, cuts)[..|text|] == text;
      assert buffer == text + rest;
      HeadRoundTrip(config.rules, config.head, head, rest);
      assert Unread(buffer, cuts)[|text|..] == rest + Concat(cuts);
      assert (text + suffix)[|text|..] == suffix;
    }
  }

  // The condition is exact: a start line of the limit cut between CR and LF ends the
  // connection.
  lemma {:induction false} SplitStartFails(config: Config, head: Head, buffer: bytes, cuts: seq<bytes>, suffix: bytes)
    requires ProperHead(head) && EncodeRequestHead(config.rules, head).Ok? && HeadFits(config.rules, config.head, head)
    requires Unread(buffer, cuts) == EncodeRequestHead(config.rules, head).value + suffix
    requires !StartWhole(config, head, cuts, |Unread(buffer, cuts)|)
    ensures NextHead(config, buffer, cuts) == HeadFailed
    decreases |cuts|
  {
    hide ReadHead, EncodeRequestHead, ProperHead, HeadFits, Concat, StartLength;
    var text := EncodeRequestHead(config.rules, head).value;
    var at := StartLength(head) + 1;
    var left := |Unread(buffer, cuts)| - at;
    var j :| 0 <= j <= |cuts| && |Concat(cuts[j..])| == left;
    ConcatTail(cuts, j);
    StartInside(config.rules, head);
    assert buffer == Unread(buffer, cuts)[..|buffer|] == text[..|buffer|];
    HeadPrefixWaits(config.rules, config.head, head, |buffer|);
    if |buffer| < at {
      assert cuts[0..] == cuts;
      NoCuts(buffer, cuts);
      UnreadNext(buffer, cuts);
      assert cuts[1..][j - 1..] == cuts[j..];
      SplitStartFails(config, head, buffer + cuts[0], cuts[1..], suffix);
    }
  }

  lemma {:induction false} ConcatTail(cuts: seq<bytes>, j: nat)
    requires j <= |cuts|
    ensures |Concat(cuts[j..])| <= |Concat(cuts)|
  {
    if j == 0 {
      assert cuts[0..] == cuts;
    } else {
      ConcatTail(cuts[1..], j - 1);
      assert cuts[1..][j - 1..] == cuts[j..];
    }
  }

  lemma EncodeIsLong(rules: UriRules, head: Head)
    requires EncodeRequestHead(rules, head).Ok?
    ensures |EncodeRequestHead(rules, head).value| >= 4
  {
    hide ValidateRequest, GoodBreaks, EncodeHeaders;
  }

  lemma NoCuts(buffer: bytes, cuts: seq<bytes>)
    ensures cuts == [] ==> Unread(buffer, cuts) == buffer
  {
  }

  // The body reader agrees with feeding the decoder, piece for piece.
  lemma {:induction false} BodyArrives(limits: Limits, st: BodyState, buffer: bytes, cuts: seq<bytes>, d: bytes, t: Fields, rest: bytes)
    requires WellFormedState(st) && Feed(limits, st, buffer, cuts) == Done(d, t, rest)
    ensures
      var (result, left, later) := NextBody(limits, st, buffer, cuts);
      result == Whole(d, t) && Unread(left, later) == rest
    decreases |cuts|
  {
    hide Run, Concat;
    match Run(limits, st, buffer)
    case Done(_, _, _) =>
    case Pending(next, left, d0) =>
      var after := Feed(limits, next, left + cuts[0], cuts[1..]);
      BodyArrives(limits, next, left + cuts[0], cuts[1..], after.data, after.trailers, after.rest);
  }

  // A written body is read to its last byte and no further, in any delivery.
  lemma WrittenBodyArrives(config: Config, r: Outbound, buffer: bytes, cuts: seq<bytes>, suffix: bytes)
    requires Sendable(config, r) && Prepared(r).Ok? && BodyText(Prepared(r).value.1, r.frames).Ok?
    requires Unread(buffer, cuts) == BodyText(Prepared(r).value.1, r.frames).value + suffix
    ensures
      var (result, left, later) := NextBody(config.body, Start(Prepared(r).value.1), buffer, cuts);
      result == Seen(r).body && Unread(left, later) == suffix
  {
    hide Run, Feed, HitsLimit, Start, NextBody, Encoding.AllFit, Encoding.AllProper, KeepAlive, WantsUpgrade, StaysOpen, AsksUpgrade, ProperHead,
         GetAll, HeadFits, WithoutFraming, SetField;
    var framing := Prepared(r).value.1;
    var data, trailers := Encoding.DataOf(r.frames), Encoding.TrailersOf(r.frames);
    var wire := BodyText(framing, r.frames).value;
    var st := Start(framing);
    if framing.NoBody? {
      RunCompleteStart(config.body, suffix);
      assert wire + suffix == suffix;
    } else {
      Encoding.BodyRoundTripAny(config.body, framing, r.frames, suffix, 1);
    }
    assert Run(config.body, st, wire + suffix) == Done(data, trailers, suffix)
        && !HitsLimit(config.body, st, wire + suffix);
    FeedIsRun(config.body, st, buffer, cuts);
    BodyArrives(config.body, st, buffer, cuts, data, trailers, suffix);
  }

  lemma RunCompleteStart(limits: Limits, s: bytes)
    ensures Run(limits, Start(NoBody), s) == Done([], [], s) && !HitsLimit(limits, Start(NoBody), s)
  {
    RunComplete(limits, Start(NoBody), s);
    Encoding.NoHitComplete(limits, Start(NoBody), s);
  }

  // Written by this client, the semantics the server reads select the framing the
  // body was written with.
  lemma FramingReadBack(config: Config, r: Outbound)
    requires Prepared(r).Ok? && EncodeRequestHead(config.rules, Prepared(r).value.0).Ok?
    ensures ValidateRequest(config.rules, Prepared(r).value.0).Ok?
    ensures ForRequest(ValidateRequest(config.rules, Prepared(r).value.0).value) == Prepared(r).value.1
  {
    hide ValidateFraming, HostOk, EncodeHeaders, GoodBreaks, PrepareRequestFraming, ForRequest, ConnectionOk;
    RequestFramingAgreement(r.head.version, r.head.fields, r.hint);
  }

  lemma RequestArrives(config: Config, r: Outbound, buffer: bytes, cuts: seq<bytes>, suffix: bytes)
    requires Sendable(config, r) && WriteRequest(config.rules, r).Ok?
    requires Unread(buffer, cuts) == WriteRequest(config.rules, r).value + suffix
    requires StartWhole(config, r.head, cuts, |Unread(buffer, cuts)|)
    ensures
      var got := NextHead(config, buffer, cuts);
      got.GotHead? && HandledExpect(got.head) == Seen(r).head
      && KeepAlive(got.head) == StaysOpen(r.head) && WantsUpgrade(got.head) == AsksUpgrade(r.head)
      && ExpectsContinue(got.head) == AwaitsContinue(r.head)
      && var (body, left, later) := NextBody(config.body, Start(ForRequest(got.semantics)), got.buffer, got.cuts);
         body == Seen(r).body && Unread(left, later) == suffix && Tail(later, cuts)
  {
    hide NextHead, NextBody, EncodeRequestHead, BodyText, KeepAlive, WantsUpgrade, StaysOpen, AsksUpgrade, HeadFits,
         ProperHead, ValidateRequest, ForRequest, GetAll, Encoding.AllFit, Encoding.AllProper, Prepared, Unread, Start, Streamed,
         Encoding.DataOf, Encoding.TrailersOf, TrimmedAll, ExpectsContinue, AwaitsContinue, HandledExpect, StartWhole, Tail;
    var (head, framing) := Prepared(r).value;
    var headText := EncodeRequestHead(config.rules, head).value;
    var bodyText := BodyText(framing, r.frames).value;
    PreparedFields(r);
    SameStart(config, r, cuts, |Unread(buffer, cuts)|);
    assert (headText + bodyText) + suffix == headText + (bodyText + suffix);
    HeadArrives(config, head, buffer, cuts, bodyText + suffix);
    FramingReadBack(config, r);
    SeenFlags(r);
    HandledIsSeen(head);
    var got := NextHead(config, buffer, cuts);
    WrittenBodyArrives(config, r, got.buffer, got.cuts, suffix);
    HeadTail(config, buffer, cuts);
    BodyTail(config.body, Start(framing), got.buffer, got.cuts);
    TailTail(NextBody(config.body, Start(framing), got.buffer, got.cuts).2, got.cuts, cuts);
  }

  lemma HandledIsSeen(prepared: Head)
    ensures HandledExpect(prepared.(fields := TrimmedAll(prepared.fields))) == SeenHead(prepared)
  {
    hide ExpectsContinue, AwaitsContinue, TrimmedAll;
    HeadMeaning(prepared.(fields := TrimmedAll(prepared.fields)));
  }

  lemma SameStart(config: Config, r: Outbound, cuts: seq<bytes>, left: nat)
    requires Prepared(r).Ok?
    ensures StartWhole(config, Prepared(r).value.0, cuts, left) == StartWhole(config, r.head, cuts, left)
  {
    hide PrepareRequestFraming, StartLine, Unsplit;
  }

  // ----- the pipeline --------------------------------------------------------

  // One turn of the read loop on a stream that starts with a written request.
  lemma RequestRead(config: Config, r: Outbound, buffer: bytes, cuts: seq<bytes>, decisions: seq<bool>, suffix: bytes)
    returns (left: bytes, later: seq<bytes>)
    requires Sendable(config, r) && WriteRequest(config.rules, r).Ok?
    requires Unread(buffer, cuts) == WriteRequest(config.rules, r).value + suffix
    requires StartWhole(config, r.head, cuts, |Unread(buffer, cuts)|)
    ensures Prepared(r).Ok? && Unread(left, later) == suffix && Tail(later, cuts)
    ensures
      var run := ReadRequests(config, buffer, cuts, decisions);
      var wants := AsksUpgrade(r.head);
      if wants && decisions == [] then run == ReaderRun([Seen(r)], Closed)
      else if wants && decisions[0] then run == ReaderRun([Seen(r)], Upgraded(left, later))
      else if !StaysOpen(r.head) then run == ReaderRun([Seen(r)], Closed)
      else
        var rest := ReadRequests(config, left, later, if wants then decisions[1..] else decisions);
        run == ReaderRun([Seen(r)] + rest.requests, rest.exit)
  {
    hide NextHead, NextBody, EncodeRequestHead, BodyText, KeepAlive, WantsUpgrade, StaysOpen, AsksUpgrade, Sendable,
         ForRequest, Prepared, Unread, Start, Encoding.DataOf, Encoding.TrailersOf, ExpectsContinue, AwaitsContinue,
         HandledExpect, SeenHead, StartWhole, Tail;
    RequestArrives(config, r, buffer, cuts, suffix);
    var got := NextHead(config, buffer, cuts);
    HandledExpectFlags(got.head);
    var taken := NextBody(config.body, Start(ForRequest(got.semantics)), got.buffer, got.cuts);
    left, later := taken.1, taken.2;
  }

  // What is handed over of a head that was read, said of its fields.
  ghost function HandedOver(parsed: Head, body: BodyResult): Inbound {
    Inbound(if AwaitsContinue(parsed) then parsed.(fields := Without(parsed.fields, EXPECT)) else parsed,
            !StaysOpen(parsed), AwaitsContinue(parsed), AsksUpgrade(parsed), body)
  }

  // One turn of the read loop on any stream. With a whole body it goes on exactly when
  // the request's upgrade, if it asks for one, is refused and its connection stays open.
  lemma LoopTurn(config: Config, buffer: bytes, cuts: seq<bytes>, decisions: seq<bool>)
    requires NextHead(config, buffer, cuts).GotHead?
    ensures
      var got := NextHead(config, buffer, cuts);
      var run := ReadRequests(config, buffer, cuts, decisions);
      var (body, left, later) := NextBody(config.body, Start(ForRequest(got.semantics)), got.buffer, got.cuts);
      var inbound := HandedOver(got.head, body);
      var asks := AsksUpgrade(got.head);
      if body.Broken? then run == ReaderRun([inbound], Failed)
      else if asks && decisions == [] then run == ReaderRun([inbound], Closed)
      else if asks && decisions[0] then run == ReaderRun([inbound], Upgraded(left, later))
      else if !StaysOpen(got.head) then run == ReaderRun([inbound], Closed)
      else
        var rest := ReadRequests(config, left, later, if asks then decisions[1..] else decisions);
        run == ReaderRun([inbound] + rest.requests, rest.exit)
  {
    hide NextHead, NextBody, KeepAlive, WantsUpgrade, StaysOpen, AsksUpgrade, ForRequest, Unread, Start, ExpectsContinue,
         AwaitsContinue;
    var got := NextHead(config, buffer, cuts);
    HeadMeaning(got.head);
    HandledExpectFlags(got.head);
  }

  // The decisions a list of requests leaves to what follows it.
  ghost function DecisionsLeft(rs: seq<Outbound>, decisions: seq<bool>): seq<bool>
    decreases |rs|
  {
    if rs == [] then decisions
    else DecisionsLeft(rs[1..], if AsksUpgrade(rs[0].head) && decisions != [] then decisions[1..] else decisions)
  }

  // What a run of the read loop makes of these requests and the bytes behind them. If
  // no request stops the loop, it goes on with those bytes as it would on them alone.
  ghost predicate ReadAsWritten(config: Config, rs: seq<Outbound>, decisions: seq<bool>, suffix: bytes, run: ReaderRun,
                          left: bytes, later: seq<bytes>)
    requires WriteRequests(config.rules, rs).Ok?
  {
    var seen := AllSeen(config.rules, rs);
    match EndingOf(rs, decisions)
    case NeverStops =>
      var rest := ReadRequests(config, left, later, DecisionsLeft(rs, decisions));
      Unread(left, later) == suffix && run == ReaderRun(seen + rest.requests, rest.exit)
    case StopsAfter(i, accepted) =>
      i < |seen| && run.requests == seen[..i + 1]
      && (!accepted ==> run.exit == Closed)
      && (accepted ==>
            run.exit.Upgraded? && WriteRequests(config.rules, rs[i + 1..]).Ok?
            && Unread(run.exit.readAhead, run.exit.unread) == WriteRequests(config.rules, rs[i + 1..]).value + suffix)
  }

  ghost predicate StopsLoop(r: Outbound, decisions: seq<bool>) {
    (AsksUpgrade(r.head) && (decisions == [] || decisions[0])) || !StaysOpen(r.head)
  }

  lemma SeenFirst(rules: UriRules, rs: seq<Outbound>)
    requires rs != [] && WriteRequests(rules, rs).Ok?
    ensures Prepared(rs[0]).Ok? && WriteRequests(rules, rs[1..]).Ok?
    ensures AllSeen(rules, rs) == [Seen(rs[0])] + AllSeen(rules, rs[1..])
  {
    hide EncodeRequestHead, BodyText, Seen, Prepared;
  }

  // A request that does not stop the loop goes in front.
  lemma OneMoreRead(config: Config, rs: seq<Outbound>, decisions: seq<bool>, suffix: bytes, rest: ReaderRun,
                    left: bytes, later: seq<bytes>)
    requires rs != [] && WriteRequests(config.rules, rs).Ok? && !StopsLoop(rs[0], decisions)
    requires ReadAsWritten(config, rs[1..], if AsksUpgrade(rs[0].head) then decisions[1..] else decisions, suffix, rest,
                           left, later)
    ensures Prepared(rs[0]).Ok?
    ensures ReadAsWritten(config, rs, decisions, suffix, ReaderRun([Seen(rs[0])] + rest.requests, rest.exit), left, later)
  {
    hide KeepAlive, WantsUpgrade, StaysOpen, AsksUpgrade, Seen, Unread, ReadRequests, Prepared, AllSeen, WriteRequests;
    SeenFirst(config.rules, rs);
    var next := if AsksUpgrade(rs[0].head) then decisions[1..] else decisions;
    var seen := AllSeen(config.rules, rs);
    match EndingOf(rs[1..], next)
    case NeverStops =>
      var more := ReadRequests(config, left, later, DecisionsLeft(rs[1..], next));
      assert [seen[0]] + (seen[1..] + more.requests) == seen + more.requests;
    case StopsAfter(i, _) =>
      assert rs[1..][i + 1..] == rs[i + 2..];
      assert seen[..i + 2] == [seen[0]] + seen[1..][..i + 1];
  }

  // The run of the reader over written requests followed by any bytes, for any
  // answers of the coordinator and in any delivery that does not cut a start line of
  // exactly the limit between CR and LF.
  lemma {:induction false} PipeliningAny(config: Config, rs: seq<Outbound>, buffer: bytes, cuts: seq<bytes>,
                                         decisions: seq<bool>, suffix: bytes)
    returns (left: bytes, later: seq<bytes>)
    requires AllSendable(config, rs) && WriteRequests(config.rules, rs).Ok?
    requires Unread(buffer, cuts) == WriteRequests(config.rules, rs).value + suffix
    requires StartsWhole(config, rs, cuts, |suffix|)
    ensures ReadAsWritten(config, rs, decisions, suffix, ReadRequests(config, buffer, cuts, decisions), left, later)
    decreases |rs|
  {
    hide WriteRequest, Sendable, KeepAlive, WantsUpgrade, StaysOpen, AsksUpgrade, Seen, Unread, ReadRequests, Prepared, StartWhole, Tail,
         ReadAsWritten;
    if rs == [] {
      left, later := buffer, cuts;
      assert [] + suffix == suffix;
      NothingToRead(config, buffer, cuts, decisions);
    } else {
      var r := rs[0];
      assert Sendable(config, r);
      var text, rest := WriteRequest(config.rules, r).value, WriteRequests(config.rules, rs[1..]).value;
      assert (text + rest) + suffix == text + (rest + suffix);
      left, later := RequestRead(config, r, buffer, cuts, decisions, rest + suffix);
      if StopsLoop(r, decisions) {
        StopsAtFirst(config, rs, decisions, suffix, ReadRequests(config, buffer, cuts, decisions), left, later);
      } else {
        StartsWholeTail(config, rs[1..], cuts, later, |suffix|);
        var next := if AsksUpgrade(r.head) then decisions[1..] else decisions;
        var after := ReadRequests(config, left, later, next);
        left, later := PipeliningAny(config, rs[1..], left, later, next, suffix);
        OneMoreRead(config, rs, decisions, suffix, after, left, later);
      }
    }
  }

  lemma NothingToRead(config: Config, buffer: bytes, cuts: seq<bytes>, decisions: seq<bool>)
    ensures ReadAsWritten(config, [], decisions, Unread(buffer, cuts), ReadRequests(config, buffer, cuts, decisions),
                          buffer, cuts)
  {
    hide ReadRequests, Unread;
    var run := ReadRequests(config, buffer, cuts, decisions);
    assert [] + run.requests == run.requests;
  }

  lemma StopsAtFirst(config: Config, rs: seq<Outbound>, decisions: seq<bool>, suffix: bytes, run: ReaderRun,
                     left: bytes, later: seq<bytes>)
    requires rs != [] && WriteRequests(config.rules, rs).Ok? && Prepared(rs[0]).Ok? && StopsLoop(rs[0], decisions)
    requires Unread(left, later) == WriteRequests(config.rules, rs[1..]).value + suffix
    requires
      var wants := AsksUpgrade(rs[0].head);
      run == ReaderRun([Seen(rs[0])], if wants && decisions != [] && decisions[0] then Upgraded(left, later) else Closed)
    ensures ReadAsWritten(config, rs, decisions, suffix, run, left, later)
  {
    hide EncodeRequestHead, BodyText, KeepAlive, WantsUpgrade, StaysOpen, AsksUpgrade, Seen, Unread, ReadRequests, Prepared;
    var seen := AllSeen(config.rules, rs);
    assert seen[..1] == [Seen(rs[0])];
  }

  lemma {:induction false} StreamEndsHead(config: Config, buffer: bytes, cuts: seq<bytes>)
    requires Unread(buffer, cuts) == []
    ensures NextHead(config, buffer, cuts) == CleanEnd
    decreases |cuts|
  {
    assert buffer == [];
    assert FindBlankLine(buffer).None? && FindCrlf(buffer).None?;
    if cuts != [] {
      UnreadNext(buffer, cuts);
      StreamEndsHead(config, buffer + cuts[0], cuts[1..]);
    }
  }

  lemma StreamEnds(config: Config, buffer: bytes, cuts: seq<bytes>, decisions: seq<bool>)
    requires Unread(buffer, cuts) == []
    ensures ReadRequests(config, buffer, cuts, decisions) == ReaderRun([], Closed)
  {
    hide NextHead, Unread;
    StreamEndsHead(config, buffer, cuts);
  }

  lemma {:induction false} SeenOneByOne(rules: UriRules, rs: seq<Outbound>)
    requires WriteRequests(rules, rs).Ok?
    ensures |AllSeen(rules, rs)| == |rs|
    ensures forall i :: 0 <= i < |rs| ==> Prepared(rs[i]).Ok? && AllSeen(rules, rs)[i] == Seen(rs[i])
  {
    hide Prepared, EncodeRequestHead, BodyText, Seen;
    if rs != [] {
      SeenOneByOne(rules, rs[1..]);
      forall i | 0 <= i < |rs| ensures Prepared(rs[i]).Ok? && AllSeen(rules, rs)[i] == Seen(rs[i]) {
        if i > 0 {
          assert rs[i] == rs[1..][i - 1];
        }
      }
    }
  }

  // Any list of requests that neither close nor upgrade, written back to back and
  // delivered in pieces, is read as the same requests in the same order, with equal
  // bodies and trailers; the loop then ends cleanly with no byte left over.
  lemma Pipelining(config: Config, rs: seq<Outbound>, cuts: seq<bytes>)
    requires AllSendable(config, rs) && WriteRequests(config.rules, rs).Ok?
    requires forall i :: 0 <= i < |rs| ==> StaysOpen(rs[i].head) && !AsksUpgrade(rs[i].head)
    requires Concat(cuts) == WriteRequests(config.rules, rs).value && StartsWhole(config, rs, cuts, 0)
    ensures ReadRequests(config, [], cuts, []).exit == Closed
    ensures
      var read := ReadRequests(config, [], cuts, []).requests;
      |read| == |rs| && forall i :: 0 <= i < |rs| ==> Prepared(rs[i]).Ok? && read[i] == Seen(rs[i])
  {
    hide AllSendable, WriteRequests, ReadRequests, AllSeen, KeepAlive, WantsUpgrade, StaysOpen, AsksUpgrade, Seen, Prepared, StartsWhole;
    assert Unread([], cuts) == Concat(cuts);
    assert Concat(cuts) + [] == Concat(cuts);
    NeverEnds(rs, []);
    var left, later := PipeliningAny(config, rs, [], cuts, [], []);
    StreamEnds(config, left, later, DecisionsLeft(rs, []));
    assert AllSeen(config.rules, rs) + [] == AllSeen(config.rules, rs);
    SeenOneByOne(config.rules, rs);
  }

  // With seventeen bytes for a size line, what is left to ask of a request is that its
  // head and trailers are within the limits, the start line below its own.
  predicate Modest(config: Config, r: Outbound) {
    ProperRequest(r) && Encoding.TrailersFit(config.body, r.frames)
    && StartLength(r.head) < config.head.maxStartLineBytes
    && (Prepared(r).Ok? ==> HeadFits(config.rules, config.head, Prepared(r).value.0))
  }

  // Under such a configuration the delivery does not matter at all.
  lemma PipeliningConfigured(config: Config, rs: seq<Outbound>, cuts: seq<bytes>)
    requires Encoding.Roomy(config.body) && WriteRequests(config.rules, rs).Ok?
    requires forall i :: 0 <= i < |rs| ==> Modest(config, rs[i])
    requires forall i :: 0 <= i < |rs| ==> StaysOpen(rs[i].head) && !AsksUpgrade(rs[i].head)
    requires Concat(cuts) == WriteRequests(config.rules, rs).value
    ensures ReadRequests(config, [], cuts, []).exit == Closed
    ensures
      var read := ReadRequests(config, [], cuts, []).requests;
      |read| == |rs| && forall i :: 0 <= i < |rs| ==> Prepared(rs[i]).Ok? && read[i] == Seen(rs[i])
  {
    hide WriteRequests, ReadRequests, KeepAlive, WantsUpgrade, StaysOpen, AsksUpgrade, Seen, Prepared, HeadFits, StartsWhole, ProperHead,
         Encoding.AllProper, Encoding.AllFit, Encoding.TrailersFit, Encoding.Roomy, StartLength, Streamed;
    forall i | 0 <= i < |rs| ensures Sendable(config, rs[i]) {
      assert Modest(config, rs[i]);
      Encoding.RoomyFits(config.body, rs[i].frames);
    }
    ShortStarts(config, rs, cuts, 0);
    Pipelining(config, rs, cuts);
  }

  lemma {:induction false} NeverEnds(rs: seq<Outbound>, decisions: seq<bool>)
    requires forall i :: 0 <= i < |rs| ==> StaysOpen(rs[i].head) && !AsksUpgrade(rs[i].head)
    ensures EndingOf(rs, decisions) == NeverStops
  {
    hide StaysOpen, AsksUpgrade;
    if rs != [] {
      NeverEnds(rs[1..], decisions);
    }
  }

  // An accepted upgrade keeps the stream: with any requests before it, refused
  // upgrades among them, nothing of the bytes behind that request's body has been
  // parsed. What the reader holds ahead and what is still in the socket are exactly
  // those bytes, whatever they are.
  lemma UpgradeKeepsStream(config: Config, rs: seq<Outbound>, cuts: seq<bytes>, decisions: seq<bool>, later: bytes)
    requires AllSendable(config, rs) && WriteRequests(config.rules, rs).Ok?
    requires rs != [] && EndingOf(rs, decisions) == StopsAfter(|rs| - 1, true)
    requires Concat(cuts) == WriteRequests(config.rules, rs).value + later && StartsWhole(config, rs, cuts, |later|)
    ensures
      var run := ReadRequests(config, [], cuts, decisions);
      run.requests == AllSeen(config.rules, rs)
      && run.exit.Upgraded? && run.exit.readAhead + Concat(run.exit.unread) == later
  {
    hide AllSendable, ReadRequests, WriteRequests, EndingOf, StartsWhole, ReadAsWritten;
    assert Unread([], cuts) == Concat(cuts);
    var left, more := PipeliningAny(config, rs, [], cuts, decisions, later);
    UpgradedAtEnd(config, rs, decisions, later, ReadRequests(config, [], cuts, decisions), left, more);
  }

  lemma UpgradedAtEnd(config: Config, rs: seq<Outbound>, decisions: seq<bool>, later: bytes, run: ReaderRun,
                      left: bytes, more: seq<bytes>)
    requires rs != [] && WriteRequests(config.rules, rs).Ok? && EndingOf(rs, decisions) == StopsAfter(|rs| - 1, true)
    requires ReadAsWritten(config, rs, decisions, later, run, left, more)
    ensures run.requests == AllSeen(config.rules, rs)
    ensures run.exit.Upgraded? && Unread(run.exit.readAhead, run.exit.unread) == later
  {
    hide ReadRequests, AllSeen, WriteRequests, EndingOf, DecisionsLeft, Unread, Seen;
    SeenOneByOne(config.rules, rs);
    NothingWritten(config.rules);
    assert rs[|rs|..] == [] && [] + later == later;
  }

  lemma NothingWritten(rules: UriRules)
    ensures WriteRequests(rules, []) == Ok([])
  {
  }
}
