// The framing-relevant header checks of section 6.3 of RFC 9112: Connection,
// Content-Length and Transfer-Encoding.
module HeaderValidation {
  import opened Results
  import opened Bytes
  import opened Numbers
  import opened Headers
  import opened FieldNames

  datatype Version = Http10 | Http11 | OtherVersion

  datatype HeadError =
    | InvalidConnection
    | InvalidContentLength
    | ConflictingContentLength
    | InvalidTransferEncoding
    | AmbiguousFraming
    | MalformedHead
    | InvalidHost
    | InvalidTarget
    | HeadTooLarge
    | StartLineTooLarge
    | TooManyHeaders

  datatype Semantics = Semantics(contentLength: Option<u64>, transferEncoded: bool, chunked: bool)

  // Every comma-separated item of every value of a field, in order.
  function Items(values: seq<bytes>): seq<bytes> {
    if values == [] then [] else SplitOn(values[0], COMMA) + Items(values[1..])
  }

  lemma ItemsOne(value: bytes)
    requires COMMA !in value
    ensures Items([value]) == [value]
  {
    SplitOnAbsent(value, COMMA);
    assert Items([value][1..]) == [];
  }

  // ----- Connection ----------------------------------------------------------

  predicate ConnectionTokenOk(token: bytes) {
    token != [] && AllTokenBytes(token)
    && !SameName(token, CONTENT_LENGTH) && !SameName(token, TRANSFER_ENCODING) && !SameName(token, HOST)
    && !SameName(token, CONNECTION) && !SameName(token, TRAILER)
  }

  function TrimEach(items: seq<bytes>): (r: seq<bytes>)
    ensures |r| == |items|
  {
    if items == [] then [] else [TrimOws(items[0])] + TrimEach(items[1..])
  }

  // The tokens of every Connection value, in order.
  function ConnectionTokens(fs: Fields): seq<bytes> {
    TrimEach(Items(GetAll(fs, CONNECTION)))
  }

  predicate ConnectionOk(fs: Fields) {
    forall token :: token in ConnectionTokens(fs) ==> ConnectionTokenOk(token)
  }

  predicate HasConnectionToken(fs: Fields, expected: bytes) {
    exists token :: token in ConnectionTokens(fs) && SameName(token, expected)
  }

  // ----- Content-Length ------------------------------------------------------

  function ParseLengthItem(item: bytes): Option<u64> {
    var digits := TrimOws(item);
    if digits == [] || !AllDigits(digits) then None else ParseDecimalFrom(digits, 0)
  }

  function ParseLengthItems(items: seq<bytes>, parsed: Option<u64>): Result<Option<u64>, HeadError> {
    if items == [] then Ok(parsed)
    else
      match ParseLengthItem(items[0])
      case None => Err(InvalidContentLength)
      case Some(n) =>
        if parsed.Some? && parsed.value != n then Err(ConflictingContentLength)
        else ParseLengthItems(items[1..], Some(n))
  }

  function ParseContentLength(fs: Fields): Result<Option<u64>, HeadError> {
    ParseLengthItems(Items(GetAll(fs, CONTENT_LENGTH)), None)
  }

  predicate DenotesLength(item: bytes, n: u64) {
    var digits := TrimOws(item);
    digits != [] && AllDigits(digits) && DecimalNumber(digits) == n
  }

  lemma LengthItemMeaning(item: bytes, n: u64)
    ensures ParseLengthItem(item) == Some(n) <==> DenotesLength(item, n)
  {
    var digits := TrimOws(item);
    if digits != [] && AllDigits(digits) {
      ParseDecimalExact(digits);
    }
  }

  lemma {:induction false} LengthItemsMeaning(items: seq<bytes>, parsed: Option<u64>, n: u64)
    ensures ParseLengthItems(items, parsed) == Ok(Some(n)) <==>
            (parsed == Some(n) || (parsed == None && items != []))
            && forall i :: 0 <= i < |items| ==> DenotesLength(items[i], n)
  {
    hide ParseLengthItem, DenotesLength;
    if items != [] {
      LengthItemMeaning(items[0], n);
      match ParseLengthItem(items[0]) {
        case None =>
        case Some(m) => LengthItemsMeaning(items[1..], Some(m), n);
      }
      assert (forall i :: 0 <= i < |items| ==> DenotesLength(items[i], n))
        <==> DenotesLength(items[0], n) && forall i :: 0 <= i < |items[1..]| ==> DenotesLength(items[1..][i], n);
    }
  }

  // A length is accepted exactly when there is at least one item and every item
  // is a decimal numeral for that same length below 2^64.
  lemma ContentLengthMeaning(fs: Fields, n: u64)
    ensures
      var items := Items(GetAll(fs, CONTENT_LENGTH));
      ParseContentLength(fs) == Ok(Some(n)) <==>
        items != [] && forall i :: 0 <= i < |items| ==> DenotesLength(items[i], n)
  {
    LengthItemsMeaning(Items(GetAll(fs, CONTENT_LENGTH)), None, n);
  }

  // The loop over values and items.
  method ParseContentLengthLoop(fs: Fields) returns (r: Result<Option<u64>, HeadError>)
    ensures r == ParseContentLength(fs)
  {
    hide ParseLengthItem, GetAll, SplitOn;
    var values := GetAll(fs, CONTENT_LENGTH);
    var parsed: Option<u64> := None;
    assert values[0..] == values;
    for v := 0 to |values|
      invariant ParseContentLength(fs) == ParseLengthItems(Items(values[v..]), parsed)
    {
      var items := SplitOn(values[v], COMMA);
      ghost var later := Items(values[v + 1..]);
      assert values[v..][0] == values[v] && values[v..][1..] == values[v + 1..];
      assert items[0..] + later == Items(values[v..]);
      for k := 0 to |items|
        invariant ParseContentLength(fs) == ParseLengthItems(items[k..] + later, parsed)
      {
        assert (items[k..] + later)[0] == items[k] && (items[k..] + later)[1..] == items[k + 1..] + later;
        var value := ParseLengthItem(items[k]);
        if value.None? {
          return Err(InvalidContentLength);
        }
        if parsed.Some? && parsed.value != value.value {
          return Err(ConflictingContentLength);
        }
        parsed := Some(value.value);
      }
      assert items[|items|..] + later == later;
    }
    r := Ok(parsed);
  }

  // ----- Transfer-Encoding ---------------------------------------------------

  // One coding: a token before any ";", with a note whether parameters follow.
  function CodingName(item: bytes): bytes {
    TrimOws(SplitOn(TrimOws(item), SEMICOLON)[0])
  }

  predicate HasParameters(item: bytes) {
    SEMICOLON in TrimOws(item)
  }

  predicate IsPlainChunked(item: bytes) {
    SameName(CodingName(item), CHUNKED) && !HasParameters(item)
  }

  predicate CodingOk(item: bytes) {
    CodingName(item) != [] && AllTokenBytes(CodingName(item)) && IsPlainChunked(item)
  }

  function ParseTransferEncoding(version: Version, fs: Fields): Result<(bool, bool), HeadError> {
    var values := GetAll(fs, TRANSFER_ENCODING);
    if values == [] then Ok((false, false))
    else if version != Http11 then Err(InvalidTransferEncoding)
    else
      var items := Items(values);
      if (forall item :: item in items ==> CodingOk(item)) && |items| == 1 then Ok((true, true))
      else Err(InvalidTransferEncoding)
  }

  method ParseTransferEncodingLoop(version: Version, fs: Fields) returns (r: Result<(bool, bool), HeadError>)
    ensures r == ParseTransferEncoding(version, fs)
  {
    hide GetAll, SplitOn, CodingName, HasParameters, SameName;
    var values := GetAll(fs, TRANSFER_ENCODING);
    if values == [] {
      return Ok((false, false));
    }
    if version != Http11 {
      return Err(InvalidTransferEncoding);
    }
    var items := Items(values);
    var codingCount := 0;
    for k := 0 to |items|
      invariant codingCount == k
      invariant forall i :: 0 <= i < k ==> CodingOk(items[i])
    {
      var coding := CodingName(items[k]);
      if coding == [] || !AllTokenBytes(coding) {
        assert items[k] in items;
        return Err(InvalidTransferEncoding);
      }
      if SameName(coding, CHUNKED) && HasParameters(items[k]) {
        assert items[k] in items;
        return Err(InvalidTransferEncoding);
      }
      if !SameName(coding, CHUNKED) {
        assert items[k] in items;
        return Err(InvalidTransferEncoding);
      }
      codingCount := codingCount + 1;
    }
    if codingCount != 1 {
      return Err(InvalidTransferEncoding);
    }
    r := Ok((true, true));
  }

  // ----- together ------------------------------------------------------------

  function ReadFraming(version: Version, fs: Fields): Result<Semantics, HeadError> {
    match ParseContentLength(fs)
    case Err(e) => Err(e)
    case Ok(length) =>
      match ParseTransferEncoding(version, fs)
      case Err(e) => Err(e)
      case Ok((transferEncoded, chunked)) =>
        if length.Some? && transferEncoded then Err(AmbiguousFraming)
        else Ok(Semantics(length, transferEncoded, chunked))
  }

  function ValidateFraming(version: Version, fs: Fields): Result<Semantics, HeadError> {
    if !ConnectionOk(fs) then Err(InvalidConnection) else ReadFraming(version, fs)
  }

  predicate Informational(status: nat) {
    100 <= status < 200
  }

  predicate Success(status: nat) {
    200 <= status < 300
  }

  function ValidateResponse(status: nat, version: Version, fs: Fields): Result<Semantics, HeadError> {
    match ValidateFraming(version, fs)
    case Err(e) => Err(e)
    case Ok(semantics) =>
      if (Informational(status) || status == 204) && (semantics.contentLength.Some? || semantics.transferEncoded)
      then Err(AmbiguousFraming)
      else Ok(semantics)
  }

  // What the checks make of a block, from the values of its framing fields alone.
  lemma NoLength(fs: Fields)
    requires GetAll(fs, CONTENT_LENGTH) == []
    ensures ParseContentLength(fs) == Ok(None)
  {
  }

  lemma OneLength(fs: Fields, n: u64)
    requires GetAll(fs, CONTENT_LENGTH) == [PrintDecimal(n)]
    ensures ParseContentLength(fs) == Ok(Some(n))
  {
    hide PrintDecimal, TrimOws;
    var digits := PrintDecimal(n);
    PlainDigits(digits);
    ItemsOne(digits);
    TrimOwsClean(digits);
    DecimalRoundTrip(n);
    assert ParseLengthItem(digits) == Some(n);
    assert ParseLengthItems([digits][1..], Some(n)) == Ok(Some(n));
  }

  lemma PlainDigits(digits: bytes)
    requires AllDigits(digits)
    ensures COMMA !in digits && StartsClean(digits) && EndsClean(digits) && ValidValue(digits)
  {
    forall i | 0 <= i < |digits| ensures digits[i] != COMMA && !IsOws(digits[i]) && IsValueByte(digits[i]) {
      assert IsDigit(digits[i]);
    }
  }

  lemma NoTransferEncoding(version: Version, fs: Fields)
    requires GetAll(fs, TRANSFER_ENCODING) == []
    ensures ParseTransferEncoding(version, fs) == Ok((false, false))
  {
  }

  lemma OneChunked(fs: Fields)
    requires GetAll(fs, TRANSFER_ENCODING) == [CHUNKED]
    ensures ParseTransferEncoding(Http11, fs) == Ok((true, true))
  {
    hide SplitOn, TrimOws;
    ItemsOne(CHUNKED);
    TrimOwsClean(CHUNKED);
    SplitOnAbsent(CHUNKED, SEMICOLON);
    assert CodingName(CHUNKED) == CHUNKED && CodingOk(CHUNKED);
  }

  // Only the values of the framing fields matter.
  lemma SameFraming(version: Version, a: Fields, b: Fields)
    requires GetAll(a, CONTENT_LENGTH) == GetAll(b, CONTENT_LENGTH)
    requires GetAll(a, TRANSFER_ENCODING) == GetAll(b, TRANSFER_ENCODING)
    ensures ReadFraming(version, a) == ReadFraming(version, b)
  {
    hide GetAll, Items, ParseLengthItems, CodingOk;
  }

  lemma SameConnection(a: Fields, b: Fields)
    requires GetAll(a, CONNECTION) == GetAll(b, CONNECTION)
    ensures ConnectionOk(a) == ConnectionOk(b)
  {
  }

  // ----- trimmed values ------------------------------------------------------

  lemma {:induction false} TrimEachAppend(a: seq<bytes>, b: seq<bytes>)
    ensures TrimEach(a + b) == TrimEach(a) + TrimEach(b)
  {
    if a == [] {
      assert a + b == b;
    } else {
      assert (a + b)[1..] == a[1..] + b;
      TrimEachAppend(a[1..], b);
    }
  }

  lemma OwsHasNoComma(ws: bytes)
    requires AllOws(ws)
    ensures COMMA !in ws
  {
    forall i | 0 <= i < |ws| ensures ws[i] != COMMA {
      assert IsOws(ws[i]);
    }
  }

  // White space in front of a value stays with its first item ...
  lemma SplitAfterOws(ws: bytes, s: bytes)
    requires AllOws(ws)
    ensures SplitOn(ws + s, COMMA) == [ws + SplitOn(s, COMMA)[0]] + SplitOn(s, COMMA)[1..]
  {
    hide FindByte;
    OwsHasNoComma(ws);
    var t := ws + s;
    match FindByte(s, COMMA)
    case None =>
      assert FindByte(t, COMMA).None?;
    case Some(i) =>
      assert t[|ws| + i] == COMMA;
      FirstByte(t, COMMA, |ws| + i);
      assert t[..|ws| + i] == ws + s[..i];
      assert t[|ws| + i + 1..] == s[i + 1..];
  }

  // ... and white space behind it with its last.
  lemma {:induction false} SplitBeforeOws(s: bytes, ws: bytes)
    requires AllOws(ws)
    ensures
      var items := SplitOn(s, COMMA);
      SplitOn(s + ws, COMMA) == items[..|items| - 1] + [items[|items| - 1] + ws]
    decreases |s|
  {
    hide FindByte;
    OwsHasNoComma(ws);
    var t := s + ws;
    match FindByte(s, COMMA)
    case None =>
      assert FindByte(t, COMMA).None?;
    case Some(i) =>
      assert s[..i] == t[..i];
      FirstByte(t, COMMA, i);
      assert t[i + 1..] == s[i + 1..] + ws;
      SplitBeforeOws(s[i + 1..], ws);
  }

  lemma TrimAfterOws(ws: bytes, s: bytes)
    requires AllOws(ws)
    ensures TrimOws(ws + s) == TrimOws(s)
  {
    hide TrimOws, AllOws;
    var before, after := TrimOwsMeaning(s);
    OwsConcat(ws, before);
    TrimOwsOf(ws + before, TrimOws(s), after);
    assert ws + (before + (TrimOws(s) + after)) == (ws + before) + (TrimOws(s) + after);
  }

  lemma TrimBeforeOws(s: bytes, ws: bytes)
    requires AllOws(ws)
    ensures TrimOws(s + ws) == TrimOws(s)
  {
    hide TrimOws, AllOws;
    var before, after := TrimOwsMeaning(s);
    OwsConcat(after, ws);
    TrimOwsOf(before, TrimOws(s), after + ws);
    assert (before + (TrimOws(s) + after)) + ws == before + (TrimOws(s) + (after + ws));
  }

  lemma OwsConcat(a: bytes, b: bytes)
    requires AllOws(a) && AllOws(b)
    ensures AllOws(a + b)
  {
  }

  lemma TrimEachOne(item: bytes)
    ensures TrimEach([item]) == [TrimOws(item)]
  {
    assert TrimEach([item][1..]) == [];
  }

  // Items are trimmed one by one, so trimming the whole value first changes none.
  lemma ItemsOfTrimmed(value: bytes)
    ensures TrimEach(SplitOn(TrimOws(value), COMMA)) == TrimEach(SplitOn(value, COMMA))
  {
    hide TrimOws, SplitOn, TrimEach, AllOws;
    var before, after := TrimOwsMeaning(value);
    var core := TrimOws(value);
    var items := SplitOn(core, COMMA);
    SplitBeforeOws(core, after);
    SplitAfterOws(before, core + after);
    var n := |items|;
    var last := items[n - 1];
    var init := items[..n - 1];
    assert items == init + [last];
    TrimEachAppend(init, [last]);
    TrimEachAppend(init, [last + after]);
    TrimEachOne(last);
    TrimEachOne(last + after);
    TrimBeforeOws(last, after);
    var middle := init + [last + after];
    assert TrimEach(middle) == TrimEach(items);
    assert middle == [middle[0]] + middle[1..];
    TrimEachAppend([middle[0]], middle[1..]);
    TrimEachAppend([before + middle[0]], middle[1..]);
    TrimEachOne(middle[0]);
    TrimEachOne(before + middle[0]);
    TrimAfterOws(before, middle[0]);
  }

  lemma ItemsCons(value: bytes, rest: seq<bytes>)
    ensures Items([value] + rest) == SplitOn(value, COMMA) + Items(rest)
  {
    hide SplitOn;
    assert ([value] + rest)[1..] == rest;
  }

  lemma {:induction false} ItemsOfTrimEach(values: seq<bytes>)
    ensures TrimEach(Items(TrimEach(values))) == TrimEach(Items(values))
  {
    hide TrimOws, SplitOn;
    if values != [] {
      var value, rest := values[0], values[1..];
      ItemsOfTrimEach(rest);
      ItemsOfTrimmed(value);
      ItemsCons(TrimOws(value), TrimEach(rest));
      TrimEachAppend(SplitOn(value, COMMA), Items(rest));
      TrimEachAppend(SplitOn(TrimOws(value), COMMA), Items(TrimEach(rest)));
    }
  }

  lemma {:induction false} GetAllTrimmed(fs: Fields, name: bytes)
    ensures GetAll(TrimmedAll(fs), name) == TrimEach(GetAll(fs, name))
  {
    hide TrimOws, SameName;
    if fs != [] {
      GetAllTrimmed(fs[1..], name);
      assert TrimmedAll(fs)[0] == Trimmed(fs[0]) && TrimmedAll(fs)[1..] == TrimmedAll(fs[1..]);
      if SameName(fs[0].name, name) {
        var rest := GetAll(fs[1..], name);
        assert ([fs[0].value] + rest)[1..] == rest;
      }
    }
  }

  // The items of a field, trimmed, are the same whether or not its values were.
  lemma TrimmedItems(fs: Fields, name: bytes)
    ensures TrimEach(Items(GetAll(TrimmedAll(fs), name))) == TrimEach(Items(GetAll(fs, name)))
  {
    hide TrimOws, SplitOn, TrimEach, GetAll;
    GetAllTrimmed(fs, name);
    ItemsOfTrimEach(GetAll(fs, name));
  }

  lemma TokensOfTrimmed(fs: Fields)
    ensures ConnectionTokens(TrimmedAll(fs)) == ConnectionTokens(fs)
  {
    hide GetAll, TrimEach, Items;
    TrimmedItems(fs, CONNECTION);
  }

  lemma {:induction false} LengthOfTrimEach(a: seq<bytes>, b: seq<bytes>, parsed: Option<u64>)
    requires TrimEach(a) == TrimEach(b)
    ensures ParseLengthItems(a, parsed) == ParseLengthItems(b, parsed)
  {
    hide TrimOws, ParseDecimalFrom, AllDigits;
    if a != [] {
      TrimEachAt(a, 0);
      TrimEachAt(b, 0);
      assert ParseLengthItem(a[0]) == ParseLengthItem(b[0]);
      assert TrimEach(a)[1..] == TrimEach(a[1..]) && TrimEach(b)[1..] == TrimEach(b[1..]);
      if ParseLengthItem(a[0]).Some? {
        LengthOfTrimEach(a[1..], b[1..], ParseLengthItem(a[0]));
      }
    }
  }

  lemma {:induction false} TrimEachAt(items: seq<bytes>, i: nat)
    requires i < |items|
    ensures TrimEach(items)[i] == TrimOws(items[i])
  {
    hide TrimOws;
    if i > 0 {
      TrimEachAt(items[1..], i - 1);
    }
  }

  lemma CodingOfTrimmed(a: bytes, b: bytes)
    requires TrimOws(a) == TrimOws(b)
    ensures CodingOk(a) == CodingOk(b)
  {
    hide TrimOws, SplitOn, SameName, AllTokenBytes;
  }

  lemma CodingsOfTrimEach(a: seq<bytes>, b: seq<bytes>)
    requires TrimEach(a) == TrimEach(b)
    ensures |a| == |b|
    ensures (forall item :: item in a ==> CodingOk(item)) ==> forall item :: item in b ==> CodingOk(item)
  {
    hide TrimOws, TrimEach, CodingOk;
    forall i | 0 <= i < |b| ensures CodingOk(a[i]) == CodingOk(b[i]) {
      TrimEachAt(a, i);
      TrimEachAt(b, i);
      CodingOfTrimmed(a[i], b[i]);
    }
  }

  // The framing fields are read item by item, and each item is trimmed: white space
  // around their values changes nothing.
  lemma FramingOfTrimmed(version: Version, fs: Fields)
    ensures ValidateFraming(version, TrimmedAll(fs)) == ValidateFraming(version, fs)
  {
    hide TrimOws, TrimEach, Items, TrimmedAll, GetAll, ParseLengthItems, CodingOk;
    TokensOfTrimmed(fs);
    var trimmed := TrimmedAll(fs);
    assert ParseContentLength(trimmed) == ParseContentLength(fs) by {
      TrimmedItems(fs, CONTENT_LENGTH);
      LengthOfTrimEach(Items(GetAll(trimmed, CONTENT_LENGTH)), Items(GetAll(fs, CONTENT_LENGTH)), None);
    }
    assert ParseTransferEncoding(version, trimmed) == ParseTransferEncoding(version, fs) by {
      TrimmedItems(fs, TRANSFER_ENCODING);
      GetAllTrimmed(fs, TRANSFER_ENCODING);
      CodingsOfTrimEach(Items(GetAll(trimmed, TRANSFER_ENCODING)), Items(GetAll(fs, TRANSFER_ENCODING)));
      CodingsOfTrimEach(Items(GetAll(fs, TRANSFER_ENCODING)), Items(GetAll(trimmed, TRANSFER_ENCODING)));
    }
  }
}
