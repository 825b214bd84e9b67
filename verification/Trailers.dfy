// Field lines on the wire and the trailer block of a chunked body (section 7.1.2
// of RFC 9112).
module Trailers {
  import opened Results
  import opened Bytes
  import opened Headers
  import opened FieldNames
  import opened Lines

  datatype TrailerError = InvalidTrailer | TooManyFields

  predicate IsForbiddenTrailer(name: bytes) {
    SameName(name, CONTENT_LENGTH) || SameName(name, TRANSFER_ENCODING) || SameName(name, HOST)
    || SameName(name, TRAILER) || SameName(name, CONNECTION) || SameName(name, UPGRADE)
  }

  // ----- writing -------------------------------------------------------------

  function FieldLine(f: Field): bytes {
    f.name + ([COLON, SP] + f.value)
  }

  function FieldLines(fs: Fields): (r: seq<bytes>)
    ensures |r| == |fs|
  {
    if fs == [] then [] else [FieldLine(fs[0])] + FieldLines(fs[1..])
  }

  // A field the serializer writes: valid, not a pseudo-header, and in a trailer
  // block not one of the forbidden names.
  predicate Writable(f: Field, trailers: bool) {
    f.name != [] && f.name[0] != COLON && (trailers ==> !IsForbiddenTrailer(f.name))
  }

  predicate AllWritable(fs: Fields, trailers: bool) {
    forall i :: 0 <= i < |fs| ==> Writable(fs[i], trailers)
  }

  function EncodeHeaders(fs: Fields, trailers: bool): Option<bytes>
  {
    if AllWritable(fs, trailers) then Some(WriteLines(FieldLines(fs))) else None
  }

  // The serializer's loop: it appends field by field and stops at the first one
  // that may not be written.
  method AppendHeaders(output: bytes, fs: Fields, trailers: bool) returns (r: Option<bytes>)
    requires ValidFields(fs)
    ensures r == match EncodeHeaders(fs, trailers) case None => None case Some(text) => Some(output + text)
  {
    hide Writable, FieldLine, FieldLines, WriteLines, ValidField;
    var written := output;
    NoFields();
    assert fs[..0] == [];
    for i := 0 to |fs|
      invariant AllWritable(fs[..i], trailers)
      invariant written == output + WriteLines(FieldLines(fs[..i]))
    {
      assert ValidField(fs[i]);
      if !CanWrite(fs[i], trailers) {
        return None;
      }
      written := written + fs[i].name;
      written := written + [COLON, SP];
      written := written + fs[i].value;
      written := written + CRLF;
      AppendOneField(output, fs, i);
    }
    assert fs[..|fs|] == fs;
    r := Some(written);
  }

  lemma NoFields()
    ensures WriteLines(FieldLines([])) == []
  {
  }

  lemma AppendOneField(output: bytes, fs: Fields, i: nat)
    requires i < |fs|
    ensures (((((output + WriteLines(FieldLines(fs[..i]))) + fs[i].name) + [COLON, SP]) + fs[i].value) + CRLF)
         == output + WriteLines(FieldLines(fs[..i + 1]))
  {
    hide FieldLine, FieldLines, WriteLines;
    var before := WriteLines(FieldLines(fs[..i]));
    FieldLinesAppend(fs[..i], [fs[i]]);
    assert fs[..i] + [fs[i]] == fs[..i + 1];
    WriteLinesAppend(FieldLines(fs[..i]), FieldLines([fs[i]]));
    OneFieldText(fs[i]);
    FieldLineMeaning(fs[i]);
    assert ((((output + before) + fs[i].name) + [COLON, SP]) + fs[i].value) + CRLF
        == output + (before + ((fs[i].name + ([COLON, SP] + fs[i].value)) + CRLF));
  }

  predicate CanWrite(f: Field, trailers: bool)
    requires ValidField(f)
    ensures CanWrite(f, trailers) == Writable(f, trailers)
  {
    if f.name[0] == COLON then false
    else if trailers && IsForbiddenTrailer(f.name) then false
    else true
  }

  lemma FieldLineMeaning(f: Field)
    ensures FieldLine(f) == f.name + ([COLON, SP] + f.value)
  {
  }

  lemma OneFieldText(f: Field)
    ensures WriteLines(FieldLines([f])) == FieldLine(f) + CRLF
  {
    assert FieldLines([f][1..]) == [];
    assert FieldLines([f]) == [FieldLine(f)];
    assert WriteLines([FieldLine(f)][1..]) == [];
  }

  lemma {:induction false} FieldLinesAppend(a: Fields, b: Fields)
    ensures FieldLines(a + b) == FieldLines(a) + FieldLines(b)
  {
    if a == [] {
      assert a + b == b;
    } else {
      assert (a + b)[1..] == a[1..] + b;
      FieldLinesAppend(a[1..], b);
    }
  }

  lemma {:induction false} FieldLinesAreLines(fs: Fields)
    requires ValidFields(fs)
    ensures AllLines(FieldLines(fs))
  {
    if fs != [] {
      FieldLinesAreLines(fs[1..]);
      ValidFieldShape(fs[0]);
      FieldLineIsLine(fs[0]);
    }
  }

  lemma FieldLineIsLine(f: Field)
    requires OneLine(f.name) && OneLine(f.value)
    ensures IsLine(FieldLine(f))
  {
  }

  // ----- reading -------------------------------------------------------------

  // One field line without its line ending, as both the head validator and the
  // trailer parser read it.
  function ParseFieldLine(line: bytes): Option<Field> {
    if line == [] || IsOws(line[0]) then None
    else
      match FindByte(line, COLON)
      case None => None
      case Some(colon) =>
        if colon == 0 || IsOws(line[colon - 1]) then None
        else
          match NewField(line[..colon], TrimOws(line[colon + 1..]))
          case Err(_) => None
          case Ok(field) => Some(field)
  }

  function ParseTrailerLines(lines: seq<bytes>, maxTrailers: nat, seen: nat): Result<Fields, TrailerError> {
    if lines == [] then Ok([])
    else
      match ParseFieldLine(lines[0])
      case None => Err(InvalidTrailer)
      case Some(field) =>
        if IsForbiddenTrailer(field.name) then Err(InvalidTrailer)
        else if seen + 1 > maxTrailers then Err(TooManyFields)
        else
          match ParseTrailerLines(lines[1..], maxTrailers, seen + 1)
          case Err(e) => Err(e)
          case Ok(rest) => Ok([field] + rest)
  }

  // A block as found on the wire: either the bare CRLF, or everything up to and
  // including the first CRLFCRLF.
  function ParseTrailers(block: bytes, maxTrailers: nat): Result<Fields, TrailerError>
    requires block == CRLF || |block| >= 4
  {
    if block == CRLF then Ok([])
    else if !GoodBreaks(block) then Err(InvalidTrailer)
    else ParseTrailerLines(CutLines(block[..|block| - 4]), maxTrailers, 0)
  }

  // Length of the trailer block at the start of the input.
  function FindTrailerEnd(s: bytes): (r: Option<nat>)
    ensures r.Some? ==> r.value <= |s| && (r.value == 2 || r.value >= 4)
    ensures r.Some? && r.value == 2 ==> CrlfAt(s, 0)
  {
    if CrlfAt(s, 0) then Some(2)
    else
      match FindBlankLine(s)
      case None => None
      case Some(i) => Some(i + 4)
  }

  // The block a list of fields is written as.
  function WriteTrailerBlock(fs: Fields): (r: bytes)
    ensures |r| >= 2
  {
    WriteLines(FieldLines(fs)) + CRLF
  }

  lemma ParseWrittenLine(f: Field, trailers: bool)
    requires ValidField(f) && Writable(f, trailers)
    ensures ParseFieldLine(FieldLine(f)) == Some(Trimmed(f))
  {
    ValidFieldShape(f);
    var line := FieldLine(f);
    assert line[0] == f.name[0] && line[|f.name| - 1] == f.name[|f.name| - 1];
    assert forall i :: 0 <= i < |f.name| ==> line[i] == f.name[i];
    FirstByte(line, COLON, |f.name|);
    assert line[..|f.name|] == f.name;
    assert line[|f.name| + 1..] == [SP] + f.value;
    TrimLeadingSpace(f.value);
    TrimValid(f.value);
  }

  lemma TrimLeadingSpace(value: bytes)
    ensures TrimOws([SP] + value) == TrimOws(value)
  {
    assert ([SP] + value)[1..] == value;
  }

  lemma TrimValid(value: bytes)
    requires ValidValue(value)
    ensures ValidValue(TrimOws(value))
  {
    var before, after := TrimOwsMeaning(value);
    var core := TrimOws(value);
    forall i | 0 <= i < |core| ensures IsValueByte(core[i]) {
      assert value[|before| + i] == core[i];
    }
  }

  lemma {:induction false} ParseWrittenLines(fs: Fields, maxTrailers: nat, seen: nat)
    requires ValidFields(fs) && AllWritable(fs, true)
    requires seen + |fs| <= maxTrailers
    ensures ParseTrailerLines(FieldLines(fs), maxTrailers, seen) == Ok(TrimmedAll(fs))
  {
    hide ParseFieldLine, IsForbiddenTrailer, ValidField, TrimOws;
    if fs != [] {
      assert ValidField(fs[0]) && Writable(fs[0], true);
      ParseWrittenLine(fs[0], true);
      ParseWrittenLines(fs[1..], maxTrailers, seen + 1);
      assert FieldLines(fs)[1..] == FieldLines(fs[1..]);
    }
  }

  // The written block is found whole at the start of any longer input, and
  // reading it gives the fields back with their values trimmed.
  lemma TrailersRoundTrip(fs: Fields, maxTrailers: nat, suffix: bytes)
    requires ValidFields(fs) && AllWritable(fs, true) && |fs| <= maxTrailers
    ensures FindTrailerEnd(WriteTrailerBlock(fs) + suffix) == Some(|WriteTrailerBlock(fs)|)
    ensures WriteTrailerBlock(fs) == CRLF || |WriteTrailerBlock(fs)| >= 4
    ensures ParseTrailers(WriteTrailerBlock(fs), maxTrailers) == Ok(TrimmedAll(fs))
  {
    var ls := FieldLines(fs);
    if fs == [] {
      assert WriteLines(ls) == [];
      assert WriteTrailerBlock(fs) + suffix == CRLF + suffix;
      assert WriteTrailerBlock(fs) == CRLF;
    } else {
      FieldLinesAreLines(fs);
      BlockIsFound(ls, suffix);
      WrittenBlockParses(fs, maxTrailers);
    }
  }

  lemma BlockIsFound(ls: seq<bytes>, suffix: bytes)
    requires ls != [] && AllLines(ls)
    ensures |WriteLines(ls)| >= 2
    ensures FindTrailerEnd((WriteLines(ls) + CRLF) + suffix) == Some(|WriteLines(ls)| + 2)
  {
    hide WriteLines, AllLines;
    BlockEnd(ls, suffix);
    FirstLineNotCrlf(ls, CRLF + suffix);
    assert (WriteLines(ls) + CRLF) + suffix == WriteLines(ls) + (CRLF + suffix);
  }

  lemma WrittenBlockParses(fs: Fields, maxTrailers: nat)
    requires fs != [] && ValidFields(fs) && AllWritable(fs, true) && |fs| <= maxTrailers
    ensures |WriteTrailerBlock(fs)| >= 4
    ensures ParseTrailers(WriteTrailerBlock(fs), maxTrailers) == Ok(TrimmedAll(fs))
  {
    hide WriteLines, WriteLinesOpen, CutLines, GoodBreaks, ParseTrailerLines, TrimmedAll, FieldLines;
    var ls := FieldLines(fs);
    var block := WriteTrailerBlock(fs);
    FieldLinesAreLines(fs);
    WriteLinesOpenMeaning(ls);
    var content := WriteLinesOpen(ls);
    assert block == (content + CRLF) + CRLF;
    assert block[..|block| - 4] == content;
    WriteLinesGoodBreaks(ls);
    CrlfGoodBreaks();
    GoodBreaksConcat(WriteLines(ls), CRLF);
    CutWrittenLines(ls);
    ParseWrittenLines(fs, maxTrailers, 0);
  }

  lemma CrlfGoodBreaks()
    ensures GoodBreaks(CRLF)
  {
    assert GoodBreakAt(CRLF, 0) && GoodBreakAt(CRLF, 1);
  }
}
