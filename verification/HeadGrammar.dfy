// What a request head says, as a relation between text and head, and which heads are in
// order: the reader finds exactly those, and the writer writes them.
module HeadGrammar {
  import opened Results
  import opened Bytes
  import opened Headers
  import opened FieldNames
  import opened ListItems
  import opened HeaderValidation
  import opened FramingFields
  import opened Lines
  import opened Trailers
  import opened FieldText
  import opened RequestHead

  // The start line, a line for every field, and a blank line.
  ghost predicate HeadSays(text: bytes, head: Head) {
    IsToken(head.method_) && IsWord(head.target)
    && exists version, lines ::
         VersionText(head.version) == Some(version) && LinesSay(lines, head.fields)
         && text == WriteLines([StartLine(head.method_, head.target, version)] + lines) + CRLF
  }

  // HTTP/1.1 asks for one Host field, with an authority in it.
  ghost predicate HostInOrder(rules: UriRules, version: Version, fs: Fields) {
    version == Http11 ==>
      exists i: nat, host :: OnlyField(fs, HOST, i) && Padded(fs[i].value, host) && host != [] && rules.authorityOk(host)
  }

  ghost predicate RequestInOrder(rules: UriRules, head: Head, r: Semantics) {
    rules.targetOk(head.method_, head.target) && HostInOrder(rules, head.version, head.fields)
    && FramingSays(head.version, head.fields, r)
  }

  lemma HostMeaning(rules: UriRules, version: Version, fs: Fields)
    ensures HostOk(rules, version, fs) <==> HostInOrder(rules, version, fs)
  {
    hide GetAll, TrimOws, Padded;
    var hosts := GetAll(fs, HOST);
    if |hosts| == 1 {
      OnlyFieldMeaning(fs, HOST, hosts[0]);
      PaddedIsTrimmed(hosts[0], TrimOws(hosts[0]));
      assert hosts == [hosts[0]];
    }
    if i: nat, host :| OnlyField(fs, HOST, i) && Padded(fs[i].value, host) && host != [] && rules.authorityOk(host) {
      OnlyFieldMeaning(fs, HOST, fs[i].value);
      PaddedIsTrimmed(fs[i].value, host);
    }
  }

  lemma RequestMeaning(rules: UriRules, head: Head, r: Semantics)
    ensures ValidateRequest(rules, head) == Ok(r) <==> RequestInOrder(rules, head, r)
  {
    hide HostOk, HostInOrder, ValidateFraming, FramingSays;
    HostMeaning(rules, head.version, head.fields);
    FramingMeaning(head.version, head.fields, r);
  }

  // ----- the start line and the fields ---------------------------------------

  lemma ParsedStart(line: bytes)
    requires ParseStartLine(line).Some?
    ensures
      var (method_, target, version) := ParseStartLine(line).value;
      IsToken(method_) && IsWord(target) && VersionText(version).Some?
      && line == StartLine(method_, target, VersionText(version).value)
  {
    hide FindByte, IsToken, IsWord;
    var i := FindByte(line, SP).value;
    var afterMethod := line[i + 1..];
    var j := FindByte(afterMethod, SP).value;
    var v := afterMethod[j + 1..];
    assert VersionText(ReadVersion(v).value) == Some(v);
    assert afterMethod == afterMethod[..j] + ([SP] + v);
    assert line == line[..i] + ([SP] + afterMethod);
  }

  lemma StartMeaning(line: bytes, method_: bytes, target: bytes, version: Version)
    ensures
      ParseStartLine(line) == Some((method_, target, version)) <==>
      IsToken(method_) && IsWord(target) && VersionText(version).Some?
      && line == StartLine(method_, target, VersionText(version).value)
  {
    hide ParseStartLine, StartLine, IsToken, IsWord;
    if IsToken(method_) && IsWord(target) && VersionText(version).Some? {
      StartLineRoundTrip(method_, target, version);
    }
    if ParseStartLine(line).Some? {
      ParsedStart(line);
    }
  }

  lemma {:induction false} FieldLinesMeaning(lines: seq<bytes>, fs: Fields)
    ensures ParseFieldLines(lines) == Some(fs) <==> LinesSay(lines, fs)
  {
    hide ParseFieldLine, LineSays;
    if lines != [] && fs != [] {
      LineMeaning(lines[0], fs[0]);
      FieldLinesMeaning(lines[1..], fs[1..]);
      SayFirst(lines, fs);
      assert fs == [fs[0]] + fs[1..];
    }
  }

  lemma SaidHeadLines(head: Head, version: bytes, lines: seq<bytes>)
    requires IsToken(head.method_) && IsWord(head.target) && VersionText(head.version) == Some(version)
    requires LinesSay(lines, head.fields)
    ensures AllLines([StartLine(head.method_, head.target, version)] + lines)
  {
    hide StartLine, IsLine, LinesSay;
    StartLineRoundTrip(head.method_, head.target, head.version);
    SaidAreLines(lines, head.fields);
  }

  // ----- the whole head ------------------------------------------------------

  lemma ParseMeaning(rules: UriRules, limits: HeadLimits, text: bytes, head: Head, r: Semantics)
    requires |text| >= 4 && text[|text| - 4..] == CRLF + CRLF
    ensures ParseHead(rules, limits, text) == Ok((head, r)) <==>
            HeadSays(text, head) && |head.fields| <= limits.maxHeaders && RequestInOrder(rules, head, r)
  {
    hide ParseStartLine, ParseFieldLines, CutLines, GoodBreaks, WriteLines, StartLine, LinesSay, ValidateRequest,
         RequestInOrder, AllLines, IsWord, AllTokenBytes;
    RequestMeaning(rules, head, r);
    var s := text[..|text| - 4];
    var lines := CutLines(s);
    assert text == (s + CRLF) + CRLF;
    if ParseHead(rules, limits, text) == Ok((head, r)) {
      StartMeaning(lines[0], head.method_, head.target, head.version);
      FieldLinesMeaning(lines[1..], head.fields);
      GoodPrefix(s);
      CutThenWritten(s);
      WriteLinesOpenMeaning(lines);
      assert lines == [lines[0]] + lines[1..];
      assert |lines[1..]| == |head.fields| by { SaidCount(lines[1..], head.fields); }
    }
    if HeadSays(text, head) && |head.fields| <= limits.maxHeaders && RequestInOrder(rules, head, r) {
      var version, said :|
        VersionText(head.version) == Some(version) && LinesSay(said, head.fields)
        && text == WriteLines([StartLine(head.method_, head.target, version)] + said) + CRLF;
      SaidIsParsed(text, s, head, version, said);
      StartMeaning(lines[0], head.method_, head.target, head.version);
      FieldLinesMeaning(lines[1..], head.fields);
      SaidCount(said, head.fields);
    }
  }

  lemma SaidCount(lines: seq<bytes>, fs: Fields)
    requires LinesSay(lines, fs)
    ensures |lines| == |fs|
  {
  }

  lemma SaidIsParsed(text: bytes, s: bytes, head: Head, version: bytes, said: seq<bytes>)
    requires IsToken(head.method_) && IsWord(head.target) && VersionText(head.version) == Some(version)
    requires LinesSay(said, head.fields) && text == (s + CRLF) + CRLF
    requires text == WriteLines([StartLine(head.method_, head.target, version)] + said) + CRLF
    ensures GoodBreaks(text) && CutLines(s) == [StartLine(head.method_, head.target, version)] + said
  {
    hide CutLines, GoodBreaks, WriteLines, StartLine, LinesSay, AllLines, IsWord, AllTokenBytes;
    var lines := [StartLine(head.method_, head.target, version)] + said;
    SaidHeadLines(head, version, said);
    assert WriteLines(lines) == text[..|text| - 2] == s + CRLF;
    CutOfLines(lines, s);
    CrlfGoodBreaks();
    GoodBreaksConcat(s + CRLF, CRLF);
  }

  // Where the head at the front of a buffer ends, and how long its start line is.
  lemma SaidIsFound(text: bytes, head: Head, suffix: bytes)
    requires HeadSays(text, head)
    ensures |text| >= 4 && text[|text| - 4..] == CRLF + CRLF
    ensures FindBlankLine(text + suffix) == Some(|text| - 4)
    ensures FindCrlf(text + suffix) == Some(StartLength(head))
  {
    hide FindBlankLine, FindCrlf, StartLine, LinesSay, AllLines, IsWord, AllTokenBytes;
    var version, said :|
      VersionText(head.version) == Some(version) && LinesSay(said, head.fields)
      && text == WriteLines([StartLine(head.method_, head.target, version)] + said) + CRLF;
    var line := StartLine(head.method_, head.target, version);
    var lines := [line] + said;
    SaidHeadLines(head, version, said);
    BlockEnd(lines, suffix);
    WrittenNotBare(lines);
    assert text + suffix == WriteLines(lines) + (CRLF + suffix);
    StartLineRoundTrip(head.method_, head.target, head.version);
    assert lines[1..] == said;
    assert text + suffix == line + (CRLF + (WriteLines(said) + (CRLF + suffix)));
    LineEnd(line, WriteLines(said) + (CRLF + suffix));
  }

  // The reader finds this head in a buffer exactly when the buffer starts with text that
  // says it, within the limits, and it is in order.
  lemma ReadMeaning(rules: UriRules, limits: HeadLimits, buffer: bytes, head: Head, r: Semantics, n: nat)
    ensures ReadHead(rules, limits, buffer) == HeadFound(head, r, n) <==>
            n <= |buffer| && HeadSays(buffer[..n], head) && RequestInOrder(rules, head, r)
            && n <= limits.maxHeadBytes && StartLength(head) <= limits.maxStartLineBytes
            && |head.fields| <= limits.maxHeaders
  {
    hide ParseHead, FindBlankLine, FindCrlf, HeadSays, RequestInOrder, StartLength, BlankLineAt;
    if ReadHead(rules, limits, buffer) == HeadFound(head, r, n) {
      BlankEnds(buffer, n);
      ParseMeaning(rules, limits, buffer[..n], head, r);
      SaidIsFound(buffer[..n], head, buffer[n..]);
      assert buffer == buffer[..n] + buffer[n..];
    }
    if n <= |buffer| && HeadSays(buffer[..n], head) {
      SaidIsFound(buffer[..n], head, buffer[n..]);
      assert buffer == buffer[..n] + buffer[n..];
      ParseMeaning(rules, limits, buffer[..n], head, r);
    }
  }

  lemma BlankEnds(buffer: bytes, n: nat)
    requires FindBlankLine(buffer) == Some(n - 4) && 4 <= n <= |buffer|
    ensures buffer[..n][n - 4..] == CRLF + CRLF
  {
    hide FindBlankLine;
    assert BlankLineAt(buffer, n - 4);
  }

  // ----- writing -------------------------------------------------------------

  // A head is written exactly when its version is one of the two, none of its fields is a
  // pseudo-header, and it is in order.
  lemma WriteMeaning(rules: UriRules, head: Head)
    requires ProperHead(head)
    ensures EncodeRequestHead(rules, head).Ok? <==>
            (head.version == Http10 || head.version == Http11)
            && (forall i :: 0 <= i < |head.fields| ==> !([COLON] <= head.fields[i].name))
            && exists r :: RequestInOrder(rules, head, r)
  {
    hide StartLine, ValidateRequest, GoodBreaks, RequestInOrder, ValidField, AllLines, WriteLines, FieldLines;
    forall r ensures ValidateRequest(rules, head) == Ok(r) <==> RequestInOrder(rules, head, r) {
      RequestMeaning(rules, head, r);
    }
    forall i | 0 <= i < |head.fields| ensures Writable(head.fields[i], false) <==> !([COLON] <= head.fields[i].name) {
      assert ValidField(head.fields[i]);
      ValidFieldShape(head.fields[i]);
    }
    if VersionText(head.version).Some? {
      var version := VersionText(head.version).value;
      HeadLinesAreLines(head);
      HeadTextGood(head, version);
    }
  }

  lemma HeadTextGood(head: Head, version: bytes)
    requires AllLines(HeadLines(head, version))
    ensures GoodBreaks((StartLine(head.method_, head.target, version) + (CRLF + WriteLines(FieldLines(head.fields)))) + CRLF)
  {
    hide StartLine, GoodBreaks, AllLines, FieldLines;
    var lines := HeadLines(head, version);
    assert lines[1..] == FieldLines(head.fields);
    WriteLinesGoodBreaks(lines);
    CrlfGoodBreaks();
    GoodBreaksConcat(WriteLines(lines), CRLF);
  }
}
