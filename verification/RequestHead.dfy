// HTTP/1 request heads: the serializer with its validation, and the reader's
// search for a head in a partly filled buffer.
module RequestHead {
  import opened Results
  import opened Bytes
  import opened Headers
  import opened FieldNames
  import opened Lines
  import opened Trailers
  import opened HeaderValidation

  datatype Head = Head(method_: bytes, target: bytes, version: Version, fields: Fields)

  // URI and authority parsing belong to other libraries; they are parameters.
  datatype UriRules = UriRules(targetOk: (bytes, bytes) -> bool, authorityOk: bytes -> bool)

  datatype HeadLimits = HeadLimits(maxHeadBytes: nat, maxStartLineBytes: nat, maxHeaders: nat)

  const HTTP_1_0: bytes := [72, 84, 84, 80, 47, 49, 46, 48]
  const HTTP_1_1: bytes := [72, 84, 84, 80, 47, 49, 46, 49]

  function VersionText(version: Version): Option<bytes> {
    match version
    case Http10 => Some(HTTP_1_0)
    case Http11 => Some(HTTP_1_1)
    case OtherVersion => None
  }

  function ReadVersion(text: bytes): Option<Version> {
    if text == HTTP_1_0 then Some(Http10)
    else if text == HTTP_1_1 then Some(Http11)
    else None
  }

  // ----- validation ----------------------------------------------------------

  predicate HostOk(rules: UriRules, version: Version, fs: Fields) {
    version == Http11 ==>
      var hosts := GetAll(fs, HOST);
      |hosts| == 1 && TrimOws(hosts[0]) != [] && rules.authorityOk(TrimOws(hosts[0]))
  }

  // The checks on a complete head, beyond the form of its lines.
  function ValidateRequest(rules: UriRules, head: Head): Result<Semantics, HeadError> {
    if !rules.targetOk(head.method_, head.target) then Err(InvalidTarget)
    else if !HostOk(rules, head.version, head.fields) then Err(InvalidHost)
    else ValidateFraming(head.version, head.fields)
  }

  // Trimming every value changes nothing the checks look at: they trim for themselves.
  lemma ValidateTrimmed(rules: UriRules, head: Head)
    ensures ValidateRequest(rules, head.(fields := TrimmedAll(head.fields))) == ValidateRequest(rules, head)
  {
    hide TrimOws, GetAll, TrimmedAll, ValidateFraming;
    FramingOfTrimmed(head.version, head.fields);
    GetAllTrimmed(head.fields, HOST);
    var hosts := GetAll(head.fields, HOST);
    if |hosts| == 1 {
      TrimEachOne(hosts[0]);
      assert hosts == [hosts[0]];
      TrimOwsIdempotent(hosts[0]);
    }
  }

  // ----- writing -------------------------------------------------------------

  function StartLine(method_: bytes, target: bytes, version: bytes): bytes {
    method_ + ([SP] + (target + ([SP] + version)))
  }

  function StartLength(head: Head): nat {
    match VersionText(head.version)
    case None => 0
    case Some(version) => |StartLine(head.method_, head.target, version)|
  }

  function HeadLines(head: Head, version: bytes): seq<bytes> {
    [StartLine(head.method_, head.target, version)] + FieldLines(head.fields)
  }

  // A head a Rust program can hold: the method is a token, the target one word,
  // and the fields have passed validation.
  predicate IsWord(s: bytes) {
    s != [] && OneLine(s) && SP !in s
  }

  predicate ProperHead(head: Head) {
    IsToken(head.method_) && IsWord(head.target) && ValidFields(head.fields)
  }

  function EncodeRequestHead(rules: UriRules, head: Head): Result<bytes, HeadError> {
    match VersionText(head.version)
    case None => Err(MalformedHead)
    case Some(version) =>
      match EncodeHeaders(head.fields, false)
      case None => Err(MalformedHead)
      case Some(fields) =>
        var text := (StartLine(head.method_, head.target, version) + (CRLF + fields)) + CRLF;
        if !GoodBreaks(text) then Err(MalformedHead)
        else
          match ValidateRequest(rules, head)
          case Err(e) => Err(e)
          case Ok(_) => Ok(text)
  }

  // ----- reading -------------------------------------------------------------

  function ParseStartLine(line: bytes): Option<(bytes, bytes, Version)> {
    match FindByte(line, SP)
    case None => None
    case Some(i) =>
      var afterMethod := line[i + 1..];
      match FindByte(afterMethod, SP)
      case None => None
      case Some(j) =>
        match ReadVersion(afterMethod[j + 1..])
        case None => None
        case Some(version) =>
          if IsToken(line[..i]) && IsWord(afterMethod[..j]) then Some((line[..i], afterMethod[..j], version)) else None
  }

  function ParseFieldLines(lines: seq<bytes>): Option<Fields> {
    if lines == [] then Some([])
    else
      match ParseFieldLine(lines[0])
      case None => None
      case Some(field) =>
        match ParseFieldLines(lines[1..])
        case None => None
        case Some(rest) => Some([field] + rest)
  }

  // A complete head, with its closing CRLFCRLF.
  function ParseHead(rules: UriRules, limits: HeadLimits, text: bytes): Result<(Head, Semantics), HeadError>
    requires |text| >= 4
  {
    var lines := CutLines(text[..|text| - 4]);
    if !GoodBreaks(text) || lines == [] then Err(MalformedHead)
    else if |lines| - 1 > limits.maxHeaders then Err(TooManyHeaders)
    else
      match ParseStartLine(lines[0])
      case None => Err(MalformedHead)
      case Some((method_, target, version)) =>
        match ParseFieldLines(lines[1..])
        case None => Err(MalformedHead)
        case Some(fields) =>
          var head := Head(method_, target, version, fields);
          match ValidateRequest(rules, head)
          case Err(e) => Err(e)
          case Ok(semantics) => Ok((head, semantics))
  }

  // What is too long already, whatever is still to come.
  function PrefixFault(limits: HeadLimits, buffer: bytes): Option<HeadError> {
    var headLength := match FindBlankLine(buffer) case None => |buffer| case Some(i) => i + 4;
    var startLength := match FindCrlf(buffer) case None => |buffer| case Some(i) => i;
    if headLength > limits.maxHeadBytes then Some(HeadTooLarge)
    else if startLength > limits.maxStartLineBytes then Some(StartLineTooLarge)
    else None
  }

  datatype HeadStatus = MoreNeeded | HeadFound(head: Head, semantics: Semantics, consumed: nat) | HeadFault(error: HeadError)

  // What the reader makes of the bytes buffered so far.
  function ReadHead(rules: UriRules, limits: HeadLimits, buffer: bytes): (r: HeadStatus)
    ensures r.HeadFound? ==> 4 <= r.consumed <= |buffer|
  {
    var fault := PrefixFault(limits, buffer);
    if fault.Some? then HeadFault(fault.value)
    else
      match FindBlankLine(buffer)
      case None => MoreNeeded
      case Some(i) =>
        match ParseHead(rules, limits, buffer[..i + 4])
        case Err(e) => HeadFault(e)
        case Ok((head, semantics)) => HeadFound(head, semantics, i + 4)
  }

  // ----- the round trip ------------------------------------------------------

  lemma TokenIsWord(token: bytes)
    requires AllTokenBytes(token)
    ensures OneLine(token) && SP !in token
  {
    forall i | 0 <= i < |token| ensures token[i] != SP && !IsLineBreak(token[i]) {
      assert IsTokenByte(token[i]);
    }
  }

  lemma StartLineRoundTrip(method_: bytes, target: bytes, version: Version)
    requires IsToken(method_) && IsWord(target) && VersionText(version).Some?
    ensures IsLine(StartLine(method_, target, VersionText(version).value))
    ensures ParseStartLine(StartLine(method_, target, VersionText(version).value)) == Some((method_, target, version))
  {
    hide FindByte, AllTokenBytes;
    var v := VersionText(version).value;
    var line := StartLine(method_, target, v);
    var afterMethod := target + ([SP] + v);
    TokenIsWord(method_);
    FirstByte(line, SP, |method_|);
    assert line[..|method_|] == method_;
    assert line[|method_| + 1..] == afterMethod;
    FirstByte(afterMethod, SP, |target|);
    assert afterMethod[..|target|] == target && afterMethod[|target| + 1..] == v;
    OneLineConcat([SP], v);
    OneLineConcat(target, [SP] + v);
    OneLineConcat([SP], afterMethod);
    OneLineConcat(method_, [SP] + afterMethod);
  }

  lemma {:induction false} ParseWrittenFieldLines(fs: Fields)
    requires ValidFields(fs) && AllWritable(fs, false)
    ensures ParseFieldLines(FieldLines(fs)) == Some(TrimmedAll(fs))
  {
    hide ParseFieldLine, ValidField, TrimOws, FieldLine;
    if fs != [] {
      assert ValidField(fs[0]) && Writable(fs[0], false);
      ParseWrittenLine(fs[0], false);
      ParseWrittenFieldLines(fs[1..]);
      assert FieldLines(fs)[1..] == FieldLines(fs[1..]);
    }
  }

  lemma HeadLinesAreLines(head: Head)
    requires ProperHead(head) && VersionText(head.version).Some?
    ensures AllLines(HeadLines(head, VersionText(head.version).value))
  {
    hide StartLine, FieldLine, IsLine, ValidFields;
    var v := VersionText(head.version).value;
    StartLineRoundTrip(head.method_, head.target, head.version);
    FieldLinesAreLines(head.fields);
    var lines := HeadLines(head, v);
    forall i | 0 <= i < |lines| ensures IsLine(lines[i]) {
      if i > 0 {
        assert lines[i] == FieldLines(head.fields)[i - 1];
      }
    }
  }

  // The text of an encoded head is its lines and a blank line.
  lemma EncodedText(rules: UriRules, head: Head)
    requires EncodeRequestHead(rules, head).Ok?
    ensures VersionText(head.version).Some? && AllWritable(head.fields, false)
    ensures ValidateRequest(rules, head).Ok?
    ensures EncodeRequestHead(rules, head).value == WriteLines(HeadLines(head, VersionText(head.version).value)) + CRLF
  {
    hide StartLine, ValidateRequest, GoodBreaks, AllWritable;
    var v := VersionText(head.version).value;
    var lines := HeadLines(head, v);
    assert lines[1..] == FieldLines(head.fields);
  }

  // Reading an encoded head gives it back with its values trimmed.
  lemma ParseEncoded(rules: UriRules, limits: HeadLimits, head: Head)
    requires ProperHead(head) && EncodeRequestHead(rules, head).Ok? && |head.fields| <= limits.maxHeaders
    ensures |EncodeRequestHead(rules, head).value| >= 4
    ensures ParseHead(rules, limits, EncodeRequestHead(rules, head).value)
         == Ok((head.(fields := TrimmedAll(head.fields)), ValidateRequest(rules, head).value))
  {
    hide StartLine, ValidateRequest, GoodBreaks, AllWritable, EncodeRequestHead, WriteLines, WriteLinesOpen, CutLines,
         ParseStartLine, ParseFieldLines, FieldLines, TrimmedAll, ProperHead;
    EncodedText(rules, head);
    var v := VersionText(head.version).value;
    var lines := HeadLines(head, v);
    var text := EncodeRequestHead(rules, head).value;
    HeadLinesAreLines(head);
    WriteLinesOpenMeaning(lines);
    var content := WriteLinesOpen(lines);
    assert text[..|text| - 4] == content;
    CutWrittenLines(lines);
    WriteLinesGoodBreaks(lines);
    CrlfGoodBreaks();
    GoodBreaksConcat(WriteLines(lines), CRLF);
    ProperHeadParts(head);
    StartLineRoundTrip(head.method_, head.target, head.version);
    ParseWrittenFieldLines(head.fields);
    assert lines[1..] == FieldLines(head.fields);
    ValidateTrimmed(rules, head);
  }

  lemma ProperHeadParts(head: Head)
    requires ProperHead(head)
    ensures IsToken(head.method_) && IsWord(head.target) && ValidFields(head.fields)
  {
  }

  // The reader finds an encoded head whole at the front of its buffer, whatever
  // follows; its start line may have exactly the limit.
  lemma HeadRoundTrip(rules: UriRules, limits: HeadLimits, head: Head, suffix: bytes)
    requires ProperHead(head) && EncodeRequestHead(rules, head).Ok? && HeadFits(rules, limits, head)
    ensures ReadHead(rules, limits, EncodeRequestHead(rules, head).value + suffix)
         == HeadFound(head.(fields := TrimmedAll(head.fields)), ValidateRequest(rules, head).value,
                      |EncodeRequestHead(rules, head).value|)
  {
    hide ParseHead, EncodeRequestHead, WriteLines, AllLines, StartLine, AllWritable, ValidateRequest,
         TrimmedAll, FindBlankLine, ProperHead, BlankLineAt, FieldLines;
    var text := EncodeRequestHead(rules, head).value;
    EncodedText(rules, head);
    var lines := HeadLines(head, VersionText(head.version).value);
    HeadLinesAreLines(head);
    BlockEnd(lines, suffix);
    assert text + suffix == WriteLines(lines) + (CRLF + suffix);
    HeadStart(head, suffix);
    ParseEncoded(rules, limits, head);
    assert (text + suffix)[..|text|] == text;
  }

  // The receiver's limits leave room for the head, though perhaps not a byte more on
  // its start line.
  predicate HeadFits(rules: UriRules, limits: HeadLimits, head: Head) {
    |head.fields| <= limits.maxHeaders
    && StartLength(head) <= limits.maxStartLineBytes
    && (EncodeRequestHead(rules, head).Ok? ==> |EncodeRequestHead(rules, head).value| <= limits.maxHeadBytes)
  }

  lemma HeadStart(head: Head, suffix: bytes)
    requires ProperHead(head) && VersionText(head.version).Some?
    ensures
      var v := VersionText(head.version).value;
      FindCrlf(WriteLines(HeadLines(head, v)) + (CRLF + suffix)) == Some(|StartLine(head.method_, head.target, v)|)
  {
    hide StartLine, FieldLines, FindCrlf;
    var v := VersionText(head.version).value;
    var lines := HeadLines(head, v);
    StartLineRoundTrip(head.method_, head.target, head.version);
    var rest := WriteLines(lines[1..]) + (CRLF + suffix);
    assert WriteLines(lines) + (CRLF + suffix) == lines[0] + (CRLF + rest);
    LineEnd(lines[0], rest);
  }

  // The reader waits on every proper part of a head but one: a start line of exactly
  // the limit is refused when it is cut between CR and LF, where it looks too long.
  lemma HeadPrefixWaits(rules: UriRules, limits: HeadLimits, head: Head, p: nat)
    requires ProperHead(head) && EncodeRequestHead(rules, head).Ok? && HeadFits(rules, limits, head)
    requires p < |EncodeRequestHead(rules, head).value|
    ensures ReadHead(rules, limits, EncodeRequestHead(rules, head).value[..p])
         == if StartLength(head) == limits.maxStartLineBytes && p == StartLength(head) + 1 then HeadFault(StartLineTooLarge)
            else MoreNeeded
  {
    hide ParseHead, EncodeRequestHead, WriteLines, AllLines, StartLine, AllWritable, ValidateRequest,
         FindBlankLine, ProperHead, FindCrlf, FieldLines;
    var text := EncodeRequestHead(rules, head).value;
    EncodedText(rules, head);
    var lines := HeadLines(head, VersionText(head.version).value);
    HeadLinesAreLines(head);
    BlockEnd(lines, []);
    assert text == WriteLines(lines) + (CRLF + []);
    HeadStart(head, []);
    BlankLinePrefix(text, p);
    CrlfOfPrefix(text, p);
  }

  // Given room otherwise, every part of a head waits for the rest exactly when its
  // start line is shorter than the limit.
  lemma PrefixesWait(rules: UriRules, limits: HeadLimits, head: Head)
    requires ProperHead(head) && EncodeRequestHead(rules, head).Ok? && HeadFits(rules, limits, head)
    ensures
      var text := EncodeRequestHead(rules, head).value;
      (forall p :: 0 <= p < |text| ==> ReadHead(rules, limits, text[..p]) == MoreNeeded)
      <==> StartLength(head) < limits.maxStartLineBytes
  {
    hide ReadHead, EncodeRequestHead, StartLength, ProperHead;
    var text := EncodeRequestHead(rules, head).value;
    StartInside(rules, head);
    forall p | 0 <= p < |text|
      ensures ReadHead(rules, limits, text[..p])
           == if StartLength(head) == limits.maxStartLineBytes && p == StartLength(head) + 1 then HeadFault(StartLineTooLarge)
              else MoreNeeded
    {
      HeadPrefixWaits(rules, limits, head, p);
    }
    assert ReadHead(rules, limits, text[..StartLength(head) + 1]).HeadFault? || StartLength(head) < limits.maxStartLineBytes;
  }

  // A head goes on behind its start line.
  lemma StartInside(rules: UriRules, head: Head)
    requires ProperHead(head) && EncodeRequestHead(rules, head).Ok?
    ensures StartLength(head) + 4 <= |EncodeRequestHead(rules, head).value|
  {
    hide StartLine, ValidateRequest, GoodBreaks, EncodeHeaders, ProperHead;
  }

  lemma BlankLinePrefix(s: bytes, p: nat)
    requires FindBlankLine(s).Some? && p < FindBlankLine(s).value + 4 <= |s|
    ensures FindBlankLine(s[..p]).None?
  {
    hide FindBlankLine;
    var r := FindBlankLine(s[..p]);
    assert r.Some? ==> BlankLineAt(s, r.value);
  }

  lemma CrlfOfPrefix(s: bytes, p: nat)
    requires FindCrlf(s).Some? && p <= |s|
    ensures match FindCrlf(s[..p])
            case None => p <= FindCrlf(s).value + 1
            case Some(i) => i == FindCrlf(s).value
  {
    hide FindCrlf;
    var at := FindCrlf(s).value;
    var r := FindCrlf(s[..p]);
    assert r.Some? ==> CrlfAt(s, r.value);
    assert at + 1 < p ==> CrlfAt(s[..p], at);
  }
}
