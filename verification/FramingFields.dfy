// What the checks on Connection, Content-Length and Transfer-Encoding accept, said of
// the field values themselves.
module FramingFields {
  import opened Results
  import opened Bytes
  import opened Numbers
  import opened Headers
  import opened FieldNames
  import opened ListItems
  import opened HeaderValidation

  ghost predicate NoField(fs: Fields, name: bytes) {
    forall i :: 0 <= i < |fs| ==> !SameName(fs[i].name, name)
  }

  // One of the Connection options, up to case.
  ghost predicate ListsOption(fs: Fields, option: bytes) {
    exists item, token :: FieldItem(fs, CONNECTION, item) && Padded(item, token) && SameName(token, option)
  }

  // A connection stays open unless an option of it is "close", and before HTTP/1.1 only
  // if one is "keep-alive".
  ghost predicate OptionsKeepOpen(version: Version, fs: Fields) {
    !ListsOption(fs, CLOSE) && (version == Http11 || ListsOption(fs, KEEP_ALIVE))
  }

  const ROUTING_NAMES: set<bytes> := {CONTENT_LENGTH, TRANSFER_ENCODING, HOST, CONNECTION, TRAILER}

  // A field name, and none that routing or framing needs.
  ghost predicate MayNominate(token: bytes) {
    IsToken(token) && forall name :: name in ROUTING_NAMES ==> !SameName(token, name)
  }

  ghost predicate ConnectionInOrder(fs: Fields) {
    forall item :: FieldItem(fs, CONNECTION, item) ==> exists token :: Padded(item, token) && MayNominate(token)
  }

  ghost predicate SaysLength(item: bytes, n: int) {
    exists digits :: Padded(item, digits) && digits != [] && AllDigits(digits) && DecimalNumber(digits) == n
  }

  // There is a Content-Length, and every item of it says n.
  ghost predicate LengthIs(fs: Fields, n: int) {
    !NoField(fs, CONTENT_LENGTH) && forall item :: FieldItem(fs, CONTENT_LENGTH, item) ==> SaysLength(item, n)
  }

  ghost predicate OnlyField(fs: Fields, name: bytes, i: nat) {
    i < |fs| && SameName(fs[i].name, name) && forall j :: 0 <= j < |fs| && SameName(fs[j].name, name) ==> j == i
  }

  // There is one Transfer-Encoding field, and it says "chunked" and nothing else.
  ghost predicate PlainChunked(fs: Fields) {
    exists i: nat, coding ::
      OnlyField(fs, TRANSFER_ENCODING, i) && Padded(fs[i].value, coding) && SameName(coding, CHUNKED)
  }

  lemma {:induction false} ItemsMeaning(fs: Fields, name: bytes, item: bytes)
    ensures item in Items(GetAll(fs, name)) <==> FieldItem(fs, name, item)
  {
    hide SplitOn, SameName, IsItem;
    if fs != [] {
      var rest := fs[1..];
      ItemsMeaning(rest, name, item);
      SplitOnMeaning(fs[0].value, COMMA, item);
      if FieldItem(rest, name, item) {
        var i :| 0 <= i < |rest| && SameName(rest[i].name, name) && IsItem(rest[i].value, COMMA, item);
        assert fs[i + 1] == rest[i];
      }
      if FieldItem(fs, name, item) {
        var i :| 0 <= i < |fs| && SameName(fs[i].name, name) && IsItem(fs[i].value, COMMA, item);
        assert i > 0 ==> rest[i - 1] == fs[i];
      }
      if SameName(fs[0].name, name) {
        ItemsCons(fs[0].value, GetAll(rest, name));
      }
    }
  }

  lemma {:induction false} TrimEachMeaning(items: seq<bytes>, core: bytes)
    ensures core in TrimEach(items) <==> exists item :: item in items && Padded(item, core)
  {
    hide TrimOws, Padded;
    if items != [] {
      TrimEachMeaning(items[1..], core);
      PaddedIsTrimmed(items[0], core);
      assert items == [items[0]] + items[1..];
    }
  }

  lemma OptionMeaning(fs: Fields, option: bytes)
    ensures HasConnectionToken(fs, option) <==> ListsOption(fs, option)
  {
    hide GetAll, Items, TrimEach, FieldItem, Padded, SameName;
    var items := Items(GetAll(fs, CONNECTION));
    forall token ensures token in ConnectionTokens(fs) <==> exists item :: FieldItem(fs, CONNECTION, item) && Padded(item, token) {
      TrimEachMeaning(items, token);
      forall item ensures item in items <==> FieldItem(fs, CONNECTION, item) {
        ItemsMeaning(fs, CONNECTION, item);
      }
    }
  }

  lemma ConnectionMeaning(fs: Fields)
    ensures ConnectionOk(fs) <==> ConnectionInOrder(fs)
  {
    hide GetAll, Items, FieldItem, Padded, TrimOws, ConnectionTokenOk, MayNominate;
    var items := Items(GetAll(fs, CONNECTION));
    forall item ensures item in items <==> FieldItem(fs, CONNECTION, item) {
      ItemsMeaning(fs, CONNECTION, item);
    }
    forall token ensures token in ConnectionTokens(fs) <==> exists item :: item in items && Padded(item, token) {
      TrimEachMeaning(items, token);
    }
    forall item: bytes, token ensures Padded(item, token) <==> TrimOws(item) == token {
      PaddedIsTrimmed(item, token);
    }
    forall token ensures ConnectionTokenOk(token) <==> MayNominate(token) {
      TokenMayNominate(token);
    }
    if ConnectionOk(fs) {
      forall item | FieldItem(fs, CONNECTION, item) ensures exists token :: Padded(item, token) && MayNominate(token) {
        assert Padded(item, TrimOws(item)) && TrimOws(item) in ConnectionTokens(fs);
      }
    }
  }

  lemma TokenMayNominate(token: bytes)
    ensures ConnectionTokenOk(token) <==> MayNominate(token)
  {
    hide SameName, AllTokenBytes;
    assert CONTENT_LENGTH in ROUTING_NAMES && TRANSFER_ENCODING in ROUTING_NAMES && HOST in ROUTING_NAMES;
    assert CONNECTION in ROUTING_NAMES && TRAILER in ROUTING_NAMES;
  }

  lemma {:induction false} NoFieldMeaning(fs: Fields, name: bytes)
    ensures GetAll(fs, name) == [] <==> NoField(fs, name)
    ensures Items(GetAll(fs, name)) == [] <==> NoField(fs, name)
  {
    hide SplitOn, SameName;
    if fs != [] {
      NoFieldMeaning(fs[1..], name);
      assert NoField(fs, name) <==> !SameName(fs[0].name, name) && NoField(fs[1..], name) by {
        assert fs == [fs[0]] + fs[1..];
        assert NoField(fs, name) ==> forall i :: 0 <= i < |fs[1..]| ==> fs[1..][i] == fs[i + 1];
      }
    }
  }

  lemma FirstIsOnly(fs: Fields, name: bytes)
    requires fs != [] && SameName(fs[0].name, name)
    ensures OnlyField(fs, name, 0) <==> NoField(fs[1..], name)
  {
    hide SameName;
    var rest := fs[1..];
    assert forall i :: 0 <= i < |rest| ==> rest[i] == fs[i + 1];
    if OnlyField(fs, name, 0) {
      forall i | 0 <= i < |rest| ensures !SameName(rest[i].name, name) {
        assert fs[i + 1] == rest[i];
      }
    }
    if NoField(rest, name) {
      forall i | 1 <= i < |fs| ensures !SameName(fs[i].name, name) {
        assert rest[i - 1] == fs[i];
      }
    }
  }

  lemma {:induction false} OnlyFieldMeaning(fs: Fields, name: bytes, v: bytes)
    ensures GetAll(fs, name) == [v] <==> exists i: nat :: OnlyField(fs, name, i) && fs[i].value == v
  {
    hide SameName;
    if fs != [] {
      var rest := fs[1..];
      OnlyFieldMeaning(rest, name, v);
      NoFieldMeaning(rest, name);
      if SameName(fs[0].name, name) {
        FirstIsOnly(fs, name);
        assert forall i: nat :: OnlyField(fs, name, i) ==> i == 0;
        assert GetAll(fs, name) == [v] <==> fs[0].value == v && GetAll(rest, name) == [];
      } else {
        if i: nat :| OnlyField(rest, name, i) && rest[i].value == v {
          assert OnlyField(fs, name, i + 1);
        }
        if i: nat :| OnlyField(fs, name, i) && fs[i].value == v {
          assert fs[i] == rest[i - 1] && OnlyField(rest, name, i - 1);
        }
      }
    }
  }

  lemma SaysMeaning(item: bytes, n: u64)
    ensures DenotesLength(item, n) <==> SaysLength(item, n)
  {
    hide TrimOws, Padded, AllDigits, DecimalNumber;
    PaddedIsTrimmed(item, TrimOws(item));
    forall digits | Padded(item, digits) ensures digits == TrimOws(item) {
      PaddedIsTrimmed(item, digits);
    }
  }

  lemma {:induction false} SomeLength(items: seq<bytes>, parsed: Option<u64>)
    ensures ParseLengthItems(items, parsed) == Ok(None) <==> items == [] && parsed.None?
  {
    hide ParseLengthItem;
    if items != [] && ParseLengthItem(items[0]).Some? {
      SomeLength(items[1..], ParseLengthItem(items[0]));
    }
  }

  // Content-Length is read as nothing, as a length, or refused.
  lemma LengthMeaning(fs: Fields)
    ensures ParseContentLength(fs) == Ok(None) <==> NoField(fs, CONTENT_LENGTH)
    ensures forall n: u64 :: ParseContentLength(fs) == Ok(Some(n)) <==> LengthIs(fs, n)
  {
    hide GetAll, Items, ParseLengthItems, DenotesLength, SaysLength, FieldItem;
    var items := Items(GetAll(fs, CONTENT_LENGTH));
    NoFieldMeaning(fs, CONTENT_LENGTH);
    SomeLength(items, None);
    forall n: u64 ensures ParseContentLength(fs) == Ok(Some(n)) <==> LengthIs(fs, n) {
      ContentLengthMeaning(fs, n);
      forall item ensures item in items <==> FieldItem(fs, CONTENT_LENGTH, item) {
        ItemsMeaning(fs, CONTENT_LENGTH, item);
      }
      forall item ensures DenotesLength(item, n) <==> SaysLength(item, n) {
        SaysMeaning(item, n);
      }
      assert (forall i :: 0 <= i < |items| ==> DenotesLength(items[i], n)) <==> forall item :: item in items ==> DenotesLength(item, n);
    }
  }

  lemma ChunkedName(coding: bytes)
    requires SameName(coding, CHUNKED)
    ensures IsToken(coding) && COMMA !in coding && SEMICOLON !in coding && StartsClean(coding) && EndsClean(coding)
  {
    assert |LowerAll(coding)| == |coding| && |LowerAll(CHUNKED)| == 7;
    forall i | 0 <= i < |coding| ensures IsTokenByte(coding[i]) && coding[i] != COMMA && coding[i] != SEMICOLON {
      assert LowerAll(coding)[i] == LowerAll(CHUNKED)[i] == CHUNKED[i];
    }
  }

  lemma PaddedNoComma(s: bytes, core: bytes)
    requires Padded(s, core) && COMMA !in core
    ensures COMMA !in s
  {
    var before, after :| s == before + (core + after) && AllOws(before) && AllOws(after);
    OwsHasNoComma(before);
    OwsHasNoComma(after);
  }

  // One value that is nothing but the coding "chunked".
  lemma OneCodingMeaning(v: bytes)
    ensures COMMA !in v && CodingOk(v) <==> exists coding :: Padded(v, coding) && SameName(coding, CHUNKED)
  {
    hide TrimOws, SplitOn, SameName, Padded, AllTokenBytes;
    var core := TrimOws(v);
    PaddedIsTrimmed(v, core);
    if COMMA !in v && CodingOk(v) {
      SplitOnAbsent(core, SEMICOLON);
      TrimOwsIdempotent(v);
      assert Padded(v, core) && SameName(core, CHUNKED);
    }
    if coding :| Padded(v, coding) && SameName(coding, CHUNKED) {
      PaddedIsTrimmed(v, coding);
      ChunkedName(coding);
      PaddedNoComma(v, coding);
      SplitOnAbsent(coding, SEMICOLON);
      TrimOwsIdempotent(v);
    }
  }

  lemma ItemsCount(values: seq<bytes>)
    ensures |Items(values)| >= |values|
    ensures |Items(values)| == 1 && values != [] ==> |values| == 1 && Items(values) == SplitOn(values[0], COMMA)
  {
    hide SplitOn;
    if values != [] {
      assert values == [values[0]] + values[1..];
      assert |values| == 1 ==> Items(values[1..]) == [];
    }
  }

  lemma {:induction false} OneItem(s: bytes)
    ensures |SplitOn(s, COMMA)| == 1 ==> COMMA !in s && SplitOn(s, COMMA) == [s]
  {
    hide FindByte;
  }

  lemma OneCodingField(fs: Fields)
    ensures PlainChunked(fs) <==>
            exists v :: GetAll(fs, TRANSFER_ENCODING) == [v] && COMMA !in v && CodingOk(v)
  {
    hide GetAll, SameName, CodingOk, Padded;
    var values := GetAll(fs, TRANSFER_ENCODING);
    if PlainChunked(fs) {
      var i: nat, coding :|
        OnlyField(fs, TRANSFER_ENCODING, i) && Padded(fs[i].value, coding) && SameName(coding, CHUNKED);
      OnlyFieldMeaning(fs, TRANSFER_ENCODING, fs[i].value);
      OneCodingMeaning(fs[i].value);
      assert values == [fs[i].value];
    }
    if v :| values == [v] && COMMA !in v && CodingOk(v) {
      OnlyFieldMeaning(fs, TRANSFER_ENCODING, v);
      OneCodingMeaning(v);
    }
  }

  lemma OneItemCoding(values: seq<bytes>)
    ensures |Items(values)| == 1 && (forall item :: item in Items(values) ==> CodingOk(item)) <==>
            exists v :: values == [v] && COMMA !in v && CodingOk(v)
  {
    hide SplitOn, CodingOk;
    ItemsCount(values);
    if values != [] && |Items(values)| == 1 {
      var v := values[0];
      OneItem(v);
      assert values == [v] && Items(values) == [v];
      assert v in Items(values);
    }
    if v :| values == [v] && COMMA !in v && CodingOk(v) {
      ItemsOne(v);
    }
  }

  // Transfer-Encoding is absent, plain "chunked" on HTTP/1.1, or refused.
  lemma CodingMeaning(version: Version, fs: Fields)
    ensures ParseTransferEncoding(version, fs) == Ok((false, false)) <==> NoField(fs, TRANSFER_ENCODING)
    ensures ParseTransferEncoding(version, fs) == Ok((true, true)) <==> version == Http11 && PlainChunked(fs)
    ensures ParseTransferEncoding(version, fs)
            in {Ok((false, false)), Ok((true, true)), Err(InvalidTransferEncoding)}
  {
    hide GetAll, Items, CodingOk, PlainChunked, NoField;
    NoFieldMeaning(fs, TRANSFER_ENCODING);
    OneCodingField(fs);
    OneItemCoding(GetAll(fs, TRANSFER_ENCODING));
  }

  // What the framing fields say, in one of three ways: no body is announced; a length
  // is; or HTTP/1.1 chunks are. No block says two of them.
  ghost predicate FramingSays(version: Version, fs: Fields, r: Semantics) {
    ConnectionInOrder(fs)
    && ((NoField(fs, CONTENT_LENGTH) && NoField(fs, TRANSFER_ENCODING) && r == Semantics(None, false, false))
        || (NoField(fs, TRANSFER_ENCODING) && r.contentLength.Some? && LengthIs(fs, r.contentLength.value)
            && !r.transferEncoded && !r.chunked)
        || (NoField(fs, CONTENT_LENGTH) && version == Http11 && PlainChunked(fs) && r == Semantics(None, true, true)))
  }

  // Nothing else passes the checks.
  lemma FramingMeaning(version: Version, fs: Fields, r: Semantics)
    ensures ValidateFraming(version, fs) == Ok(r) <==> FramingSays(version, fs, r)
  {
    hide ParseContentLength, ParseTransferEncoding, ConnectionOk, ConnectionInOrder, PlainChunked, NoField, LengthIs;
    ConnectionMeaning(fs);
    LengthMeaning(fs);
    CodingMeaning(version, fs);
    NotBoth(fs);
  }

  // Informational responses and 204 must not announce a body at all.
  lemma ResponseMeaning(status: nat, version: Version, fs: Fields, r: Semantics)
    ensures ValidateResponse(status, version, fs) == Ok(r) <==>
            FramingSays(version, fs, r)
            && (100 <= status < 200 || status == 204 ==> NoField(fs, CONTENT_LENGTH) && NoField(fs, TRANSFER_ENCODING))
  {
    hide ValidateFraming, ConnectionInOrder, PlainChunked, NoField, LengthIs;
    FramingMeaning(version, fs, r);
    NotBoth(fs);
  }

  lemma NotBoth(fs: Fields)
    ensures !(NoField(fs, TRANSFER_ENCODING) && PlainChunked(fs))
    ensures forall n :: !(NoField(fs, CONTENT_LENGTH) && LengthIs(fs, n))
  {
  }
}
