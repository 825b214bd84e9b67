// The chunk-size line of section 7.1 of RFC 9112: a hexadecimal size and
// optional chunk extensions.
module ChunkLine {
  import opened Results
  import opened Bytes
  import opened Numbers

  datatype LineError = InvalidChunkSize | InvalidChunkExtension

  // ----- chunk extensions as the grammar lists them --------------------------

  // "=" before content after
  datatype Assignment = Assignment(before: bytes, content: bytes, after: bytes)

  // ";" lead name trail [ assignment ]
  datatype Extension = Extension(lead: bytes, name: bytes, trail: bytes, value: Option<Assignment>)

  // Text inside double quotes: qdtext characters and backslash pairs.
  predicate IsQdText(b: byte) {
    b == HTAB || b == SP || b == 33 || 35 <= b <= 91 || 93 <= b <= 126 || b >= 128
  }

  predicate IsQuotable(b: byte) {
    b == HTAB || b == SP || 33 <= b <= 126 || b >= 128
  }

  predicate QuotedBody(s: bytes) {
    s == []
    || (IsQdText(s[0]) && QuotedBody(s[1..]))
    || (|s| >= 2 && s[0] == BACKSLASH && IsQuotable(s[1]) && QuotedBody(s[2..]))
  }

  // A token or a quoted string, quotes included.
  predicate IsContent(c: bytes) {
    IsToken(c)
    || (|c| >= 2 && c[0] == DQUOTE && c[|c| - 1] == DQUOTE && QuotedBody(c[1..|c| - 1]))
  }

  predicate WellFormedAssignment(a: Assignment) {
    AllOws(a.before) && IsContent(a.content) && AllOws(a.after)
  }

  predicate WellFormed(e: Extension) {
    AllOws(e.lead) && IsToken(e.name) && AllOws(e.trail)
    && (e.value.Some? ==> WellFormedAssignment(e.value.value))
  }

  predicate AllWellFormed(es: seq<Extension>) {
    forall i :: 0 <= i < |es| ==> WellFormed(es[i])
  }

  function RenderAssignment(a: Option<Assignment>, rest: bytes): bytes {
    match a
    case None => rest
    case Some(x) => [EQUALS] + (x.before + (x.content + (x.after + rest)))
  }

  function RenderOne(e: Extension, rest: bytes): (s: bytes)
    ensures s != [] && s[0] == SEMICOLON
  {
    [SEMICOLON] + (e.lead + (e.name + (e.trail + RenderAssignment(e.value, rest))))
  }

  function Render(es: seq<Extension>): (s: bytes)
    ensures s != [] ==> s[0] == SEMICOLON
  {
    if es == [] then [] else RenderOne(es[0], Render(es[1..]))
  }

  // ----- the validator -------------------------------------------------------

  function TokenLength(s: bytes): (n: nat)
    ensures n <= |s|
  {
    if s == [] || !IsTokenByte(s[0]) then 0 else 1 + TokenLength(s[1..])
  }

  lemma {:induction false} TokenLengthMeaning(s: bytes)
    ensures AllTokenBytes(s[..TokenLength(s)])
  {
    if s != [] && IsTokenByte(s[0]) {
      TokenLengthMeaning(s[1..]);
      assert s[..TokenLength(s)] == [s[0]] + s[1..][..TokenLength(s[1..])];
    }
  }

  // Length of the quoted text that starts after an opening quote, up to but not
  // including its closing quote.
  function QuotedLength(s: bytes): (r: Option<nat>)
    ensures r.Some? ==> r.value < |s| && s[r.value] == DQUOTE
  {
    if s == [] then None
    else if s[0] == DQUOTE then Some(0)
    else if s[0] == BACKSLASH then
      if |s| >= 2 && IsQuotable(s[1]) then
        match QuotedLength(s[2..])
        case None => None
        case Some(n) => Some(n + 2)
      else None
    else if IsQdText(s[0]) then
      match QuotedLength(s[1..])
      case None => None
      case Some(n) => Some(n + 1)
    else None
  }

  // Length of the token or quoted string at the start of the input.
  function ContentLength(s: bytes): (r: Option<nat>)
    ensures r.Some? ==> 0 < r.value <= |s|
  {
    if s != [] && s[0] == DQUOTE then
      match QuotedLength(s[1..])
      case None => None
      case Some(q) => Some(q + 2)
    else if TokenLength(s) == 0 then None
    else Some(TokenLength(s))
  }

  // What follows "=" in an extension, and the rest of the line.
  function ParseAssignment(s: bytes): (r: Option<(Assignment, bytes)>)
    ensures r.Some? ==> |r.value.1| < |s| && (r.value.1 == [] || !IsOws(r.value.1[0]))
  {
    var t := TrimStart(s);
    match ContentLength(t)
    case None => None
    case Some(n) => Some((Assignment(LeadingOws(s), t[..n], LeadingOws(t[n..])), TrimStart(t[n..])))
  }

  // What follows ";": one extension, and the rest of the line.
  function ParseOne(s: bytes): (r: Option<(Extension, bytes)>)
    ensures r.Some? ==> |r.value.1| < |s| && (r.value.1 == [] || !IsOws(r.value.1[0]))
  {
    var t := TrimStart(s);
    var n := TokenLength(t);
    if n == 0 then None
    else
      var u := t[n..];
      var v := TrimStart(u);
      if v == [] || v[0] != EQUALS then Some((Extension(LeadingOws(s), t[..n], LeadingOws(u), None), v))
      else
        match ParseAssignment(v[1..])
        case None => None
        case Some((a, rest)) => Some((Extension(LeadingOws(s), t[..n], LeadingOws(u), Some(a)), rest))
  }

  function ParseExtensions(s: bytes): Option<seq<Extension>>
    decreases |s|
  {
    if s == [] then Some([])
    else if s[0] != SEMICOLON then None
    else
      match ParseOne(s[1..])
      case None => None
      case Some((e, rest)) =>
        match ParseExtensions(rest)
        case None => None
        case Some(es) => Some([e] + es)
  }

  // ----- the validator accepts exactly the grammar ---------------------------

  lemma {:induction false} QuotedLengthSound(s: bytes)
    requires QuotedLength(s).Some?
    ensures QuotedBody(s[..QuotedLength(s).value])
    decreases |s|
  {
    var n := QuotedLength(s).value;
    if n > 0 {
      if s[0] == BACKSLASH {
        QuotedLengthSound(s[2..]);
        assert s[..n][2..] == s[2..][..n - 2];
      } else {
        QuotedLengthSound(s[1..]);
        assert s[..n][1..] == s[1..][..n - 1];
      }
    }
  }

  lemma {:induction false} QuotedLengthComplete(body: bytes, rest: bytes)
    requires QuotedBody(body)
    ensures QuotedLength(body + [DQUOTE] + rest) == Some(|body|)
    decreases |body|
  {
    var s := body + [DQUOTE] + rest;
    if body != [] {
      if IsQdText(body[0]) && QuotedBody(body[1..]) {
        QuotedLengthComplete(body[1..], rest);
        assert s[1..] == body[1..] + [DQUOTE] + rest;
      } else {
        QuotedLengthComplete(body[2..], rest);
        assert s[2..] == body[2..] + [DQUOTE] + rest;
      }
    }
  }

  lemma ContentLengthSound(s: bytes)
    requires ContentLength(s).Some?
    ensures IsContent(s[..ContentLength(s).value])
  {
    var n := ContentLength(s).value;
    if s != [] && s[0] == DQUOTE {
      QuotedLengthSound(s[1..]);
      assert s[..n][1..n - 1] == s[1..][..n - 2];
      assert s[n - 1] == s[1..][n - 2];
    } else {
      TokenLengthMeaning(s);
    }
  }

  lemma ParseAssignmentSound(s: bytes)
    requires ParseAssignment(s).Some?
    ensures WellFormedAssignment(ParseAssignment(s).value.0)
    ensures
      var (a, rest) := ParseAssignment(s).value;
      s == a.before + (a.content + (a.after + rest))
  {
    hide TrimStart, TokenLength, QuotedLength, QuotedBody, LeadingOws, AllOws, IsContent, ContentLength;
    var t := TrimStart(s);
    var n := ContentLength(t).value;
    LeadingOwsMeaning(s);
    ContentLengthSound(t);
    LeadingOwsMeaning(t[n..]);
    assert t == t[..n] + t[n..];
  }

  lemma ParseOneSound(s: bytes)
    requires ParseOne(s).Some?
    ensures WellFormed(ParseOne(s).value.0)
    ensures RenderOne(ParseOne(s).value.0, ParseOne(s).value.1) == [SEMICOLON] + s
  {
    hide TrimStart, TokenLength, ParseAssignment, LeadingOws, AllOws, WellFormedAssignment, AllTokenBytes;
    var t := TrimStart(s);
    var n := TokenLength(t);
    var u := t[n..];
    var v := TrimStart(u);
    TokenLengthMeaning(t);
    LeadingOwsMeaning(s);
    LeadingOwsMeaning(u);
    assert t == t[..n] + u;
    if v != [] && v[0] == EQUALS {
      ParseAssignmentSound(v[1..]);
      assert v == [EQUALS] + v[1..];
    }
  }

  lemma TokenLengthOf(token: bytes, rest: bytes)
    requires AllTokenBytes(token) && (rest == [] || !IsTokenByte(rest[0]))
    ensures TokenLength(token + rest) == |token|
  {
    if token == [] {
      assert token + rest == rest;
    } else {
      assert (token + rest)[1..] == token[1..] + rest;
      TokenLengthOf(token[1..], rest);
    }
  }

  lemma ContentLengthComplete(c: bytes, rest: bytes)
    requires IsContent(c) && (rest == [] || !IsTokenByte(rest[0]))
    ensures ContentLength(c + rest) == Some(|c|)
    ensures !IsOws(c[0])
  {
    var s := c + rest;
    if IsToken(c) {
      assert IsTokenByte(c[0]);
      TokenLengthOf(c, rest);
    } else {
      var body := c[1..|c| - 1];
      assert s[1..] == body + [DQUOTE] + rest;
      QuotedLengthComplete(body, rest);
    }
  }

  lemma ParseAssignmentComplete(a: Assignment, rest: bytes)
    requires WellFormedAssignment(a) && (rest == [] || rest[0] == SEMICOLON)
    ensures ParseAssignment(a.before + (a.content + (a.after + rest))) == Some((a, rest))
  {
    var t := a.content + (a.after + rest);
    ContentLengthComplete(a.content, a.after + rest);
    TrimStartOf(a.before, t);
    TrimStartOf(a.after, rest);
    assert t[|a.content|..] == a.after + rest && t[..|a.content|] == a.content;
  }

  lemma NotTokenAfterName(trail: bytes, v: bytes)
    requires AllOws(trail) && (v == [] || !IsTokenByte(v[0]))
    ensures trail + v == [] || !IsTokenByte((trail + v)[0])
  {
    if trail != [] {
      assert IsOws(trail[0]);
    }
  }

  lemma ParseOneComplete(e: Extension, rest: bytes)
    requires WellFormed(e) && (rest == [] || rest[0] == SEMICOLON)
    ensures ParseOne(RenderOne(e, rest)[1..]) == Some((e, rest))
  {
    hide TrimStart, TokenLength, ParseAssignment, LeadingOws, AllOws, WellFormedAssignment;
    var v := RenderAssignment(e.value, rest);
    var u := e.trail + v;
    var t := e.name + u;
    assert RenderOne(e, rest)[1..] == e.lead + t;
    assert IsTokenByte(e.name[0]);
    TrimStartOf(e.lead, t);
    TrimStartOf(e.trail, v);
    NotTokenAfterName(e.trail, v);
    TokenLengthOf(e.name, u);
    assert t[|e.name|..] == u && t[..|e.name|] == e.name;
    if e.value.Some? {
      var a := e.value.value;
      ParseAssignmentComplete(a, rest);
      assert v[1..] == a.before + (a.content + (a.after + rest));
    }
  }

  // Accepted text is the rendering of the extensions found in it ...
  lemma {:induction false} ParseExtensionsSound(s: bytes)
    requires ParseExtensions(s).Some?
    ensures AllWellFormed(ParseExtensions(s).value)
    ensures Render(ParseExtensions(s).value) == s
    decreases |s|
  {
    hide ParseOne, RenderOne;
    if s != [] {
      var (e, rest) := ParseOne(s[1..]).value;
      ParseOneSound(s[1..]);
      ParseExtensionsSound(rest);
      assert ([e] + ParseExtensions(rest).value)[1..] == ParseExtensions(rest).value;
      assert [SEMICOLON] + s[1..] == s;
    }
  }

  // ... and every list of well-formed extensions is found again in its rendering.
  lemma {:induction false} ParseExtensionsComplete(es: seq<Extension>)
    requires AllWellFormed(es)
    ensures ParseExtensions(Render(es)) == Some(es)
  {
    hide ParseOne, RenderOne, WellFormed;
    if es != [] {
      ParseExtensionsComplete(es[1..]);
      ParseOneComplete(es[0], Render(es[1..]));
      assert [es[0]] + es[1..] == es;
    }
  }

  lemma QuotedBodyOneLine(s: bytes)
    requires QuotedBody(s)
    ensures OneLine(s)
    decreases |s|
  {
    if s != [] {
      if IsQdText(s[0]) && QuotedBody(s[1..]) {
        QuotedBodyOneLine(s[1..]);
        assert s == [s[0]] + s[1..];
      } else {
        QuotedBodyOneLine(s[2..]);
        assert s == [s[0], s[1]] + s[2..];
      }
    }
  }

  lemma ContentOneLine(c: bytes)
    requires IsContent(c)
    ensures OneLine(c)
  {
    if IsToken(c) {
      assert forall i :: 0 <= i < |c| ==> IsTokenByte(c[i]);
    } else {
      var body := c[1..|c| - 1];
      QuotedBodyOneLine(body);
      assert forall i :: 1 <= i < |c| - 1 ==> c[i] == body[i - 1];
    }
  }

  lemma OwsOneLine(ws: bytes)
    requires AllOws(ws)
    ensures OneLine(ws)
  {
    assert forall i :: 0 <= i < |ws| ==> IsOws(ws[i]);
  }

  lemma RenderOneIsOneLine(e: Extension, rest: bytes)
    requires WellFormed(e) && OneLine(rest)
    ensures OneLine(RenderOne(e, rest))
  {
    if e.value.Some? {
      var a := e.value.value;
      OwsOneLine(a.before);
      OwsOneLine(a.after);
      ContentOneLine(a.content);
      OneLineConcat(a.after, rest);
      OneLineConcat(a.content, a.after + rest);
      OneLineConcat(a.before, a.content + (a.after + rest));
    }
    assert forall i :: 0 <= i < |e.name| ==> IsTokenByte(e.name[i]);
    OwsOneLine(e.lead);
    OwsOneLine(e.trail);
    var v := RenderAssignment(e.value, rest);
    assert OneLine(v);
    OneLineConcat(e.trail, v);
    OneLineConcat(e.name, e.trail + v);
    OneLineConcat(e.lead, e.name + (e.trail + v));
  }

  lemma RenderOneLine(es: seq<Extension>)
    requires AllWellFormed(es)
    ensures OneLine(Render(es))
  {
    if es != [] {
      RenderOneLine(es[1..]);
      RenderOneIsOneLine(es[0], Render(es[1..]));
    }
  }

  // ----- the whole line ------------------------------------------------------

  function SizeText(line: bytes): bytes {
    match FindByte(line, SEMICOLON)
    case None => line
    case Some(i) => line[..i]
  }

  function ExtensionText(line: bytes): (r: bytes)
    ensures r == [] || r[0] == SEMICOLON
    ensures line == SizeText(line) + r
  {
    match FindByte(line, SEMICOLON)
    case None => []
    case Some(i) => line[i..]
  }

  function ParseChunkLine(line: bytes): Result<u64, LineError> {
    var size := TrimOws(SizeText(line));
    if size == [] || !AllHex(size) then Err(InvalidChunkSize)
    else
      match ParseHexFrom(size, 0)
      case None => Err(InvalidChunkSize)
      case Some(n) => if ParseExtensions(ExtensionText(line)).None? then Err(InvalidChunkExtension) else Ok(n)
  }

  // A line is accepted exactly when it is white space, a hexadecimal numeral
  // below 2^64, white space and well-formed extensions; the size is the numeral's.
  lemma ParseChunkLineExact(line: bytes)
    ensures
      var size := TrimOws(SizeText(line));
      ParseChunkLine(line).Ok? <==>
        size != [] && AllHex(size) && HexNumber(size) < U64_LIMIT
        && exists es :: AllWellFormed(es) && Render(es) == ExtensionText(line)
    ensures ParseChunkLine(line).Ok? ==> ParseChunkLine(line).value == HexNumber(TrimOws(SizeText(line)))
  {
    var size := TrimOws(SizeText(line));
    var ext := ExtensionText(line);
    if size != [] && AllHex(size) {
      ParseHexExact(size);
    }
    if ParseExtensions(ext).Some? {
      ParseExtensionsSound(ext);
      var found := ParseExtensions(ext).value;
      assert AllWellFormed(found) && Render(found) == ext;
    }
    forall es | AllWellFormed(es) && Render(es) == ext
      ensures ParseExtensions(ext).Some?
    {
      ParseExtensionsComplete(es);
    }
  }

  // Printing a size and reading the line back gives the size: the encoder's
  // chunk header is always accepted.
  lemma ParseChunkLinePrinted(v: u64)
    ensures ParseChunkLine(PrintHex(v)) == Ok(v)
    ensures OneLine(PrintHex(v))
  {
    var s := PrintHex(v);
    assert forall i :: 0 <= i < |s| ==> IsHexDigit(s[i]);
    assert FindByte(s, SEMICOLON).None?;
    assert IsHexDigit(s[0]) && IsHexDigit(s[|s| - 1]);
    TrimOwsClean(s);
    assert SizeText(s) == s && ExtensionText(s) == [];
    HexRoundTrip(v);
  }

  // No accepted chunk-size line contains a carriage return or a line feed.
  lemma AcceptedLineIsOneLine(line: bytes)
    requires ParseChunkLine(line).Ok?
    ensures OneLine(line)
  {
    ParseExtensionsSound(ExtensionText(line));
    RenderOneLine(ParseExtensions(ExtensionText(line)).value);
    var text := SizeText(line);
    var size := TrimOws(text);
    var before, after := TrimOwsMeaning(text);
    OwsOneLine(before);
    OwsOneLine(after);
    assert OneLine(size) by {
      assert forall i :: 0 <= i < |size| ==> IsHexDigit(size[i]);
    }
    OneLineConcat(size, after);
    OneLineConcat(before, size + after);
    OneLineConcat(text, ExtensionText(line));
  }

  // ----- the slice-cursor loops ----------------------------------------------

  // Reads a quoted string whose opening quote is at index 0; `None` when it is
  // malformed or unterminated, otherwise what follows the closing quote.
  method ConsumeQuotedString(input: bytes) returns (r: Option<bytes>)
    requires input != []
    ensures r == match QuotedLength(input[1..]) case None => None case Some(q) => Some(input[q + 2..])
  {
    var index := 1;
    while index < |input|
      invariant 1 <= index <= |input|
      invariant QuotedLength(input[1..]) ==
        match QuotedLength(input[index..]) case None => None case Some(q) => Some(q + index - 1)
    {
      var b := input[index];
      if b == DQUOTE {
        return Some(input[index + 1..]);
      } else if b == BACKSLASH {
        if index + 1 >= |input| || !IsQuotable(input[index + 1]) {
          return None;
        }
        assert input[index..][2..] == input[index + 2..];
        index := index + 2;
      } else if IsQdText(b) {
        assert input[index..][1..] == input[index + 1..];
        index := index + 1;
      } else {
        return None;
      }
    }
    r := None;
  }

  method ValidateChunkExtensions(text: bytes) returns (ok: bool)
    requires text == [] || text[0] == SEMICOLON
    ensures ok == ParseExtensions(text).Some?
  {
    hide TrimStart, TokenLength, QuotedLength, LeadingOws;
    var input := text;
    while input != []
      invariant StartsClean(input)
      invariant ParseExtensions(text).Some? == ParseExtensions(input).Some?
      decreases |input|
    {
      TrimStartClean(input);
      input := TrimStart(input);
      if input[0] != SEMICOLON {
        return false;
      }
      input := input[1..];
      ghost var s := input;
      input := TrimStart(input);
      var nameLength := TokenLength(input);
      if nameLength == 0 {
        return false;
      }
      input := input[nameLength..];
      input := TrimStart(input);
      if input != [] && input[0] == EQUALS {
        input := input[1..];
        ghost var w := input;
        input := TrimStart(input);
        if input != [] && input[0] == DQUOTE {
          var rest := ConsumeQuotedString(input);
          if rest.None? {
            assert ParseAssignment(w).None?;
            return false;
          }
          input := rest.value;
        } else {
          var valueLength := TokenLength(input);
          if valueLength == 0 {
            assert ParseAssignment(w).None?;
            return false;
          }
          input := input[valueLength..];
        }
        assert ParseAssignment(w).Some? && ParseAssignment(w).value.1 == TrimStart(input);
        input := TrimStart(input);
      } else {
        TrimStartClean(input);
        input := TrimStart(input);
      }
      assert ParseOne(s).Some? && ParseOne(s).value.1 == input;
    }
    ok := true;
  }
}
