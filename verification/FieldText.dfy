// What field lines and trailer blocks say: the grammar of section 5 of RFC 9112, as
// relations between text and fields, and the parsers' agreement with it.
module FieldText {
  import opened Results
  import opened Bytes
  import opened Headers
  import opened FieldNames
  import opened ListItems
  import opened Lines
  import opened Trailers

  // name ":" white space value white space
  ghost predicate LineSays(line: bytes, f: Field) {
    IsToken(f.name) && ValidValue(f.value)
    && exists padded :: line == f.name + ([COLON] + padded) && Padded(padded, f.value)
  }

  ghost predicate LinesSay(lines: seq<bytes>, fs: Fields) {
    |lines| == |fs| && forall i :: 0 <= i < |lines| ==> LineSays(lines[i], fs[i])
  }

  const NOT_IN_TRAILERS: set<bytes> := {CONTENT_LENGTH, TRANSFER_ENCODING, HOST, TRAILER, CONNECTION, UPGRADE}

  ghost predicate MayTrail(f: Field) {
    forall name :: name in NOT_IN_TRAILERS ==> !SameName(f.name, name)
  }

  // Lines of fields that may be trailers, and a blank line.
  ghost predicate BlockSays(block: bytes, fs: Fields, maxTrailers: nat) {
    |fs| <= maxTrailers && (forall i :: 0 <= i < |fs| ==> MayTrail(fs[i]))
    && exists lines :: block == WriteLines(lines) + CRLF && LinesSay(lines, fs)
  }

  // ----- one line ------------------------------------------------------------

  lemma TokenHasNoOws(name: bytes)
    requires AllTokenBytes(name)
    ensures COLON !in name && forall i :: 0 <= i < |name| ==> !IsOws(name[i])
    ensures NameToken(name) == name
  {
    forall i | 0 <= i < |name| ensures name[i] != COLON && !IsOws(name[i]) {
      assert IsTokenByte(name[i]);
    }
  }

  lemma LineMeaning(line: bytes, f: Field)
    ensures ParseFieldLine(line) == Some(f) <==> LineSays(line, f)
  {
    hide FindByte, TrimOws, Padded, AllTokenBytes, ValidValue, IsOws;
    if ParseFieldLine(line) == Some(f) {
      var colon := FindByte(line, COLON).value;
      var padded := line[colon + 1..];
      assert line == line[..colon] + ([COLON] + padded);
      assert line[..colon][0] == line[0];
      PaddedIsTrimmed(padded, f.value);
    }
    if LineSays(line, f) {
      var padded :| line == f.name + ([COLON] + padded) && Padded(padded, f.value);
      TokenHasNoOws(f.name);
      PaddedIsTrimmed(padded, f.value);
      var n := |f.name|;
      assert line[..n] == f.name && line[n + 1..] == padded;
      assert line[0] == f.name[0] && line[n - 1] == f.name[n - 1];
      assert forall i :: 0 <= i < n ==> line[i] == f.name[i];
      FirstByte(line, COLON, n);
    }
  }

  lemma SaidIsLine(line: bytes, f: Field)
    requires LineSays(line, f)
    ensures IsLine(line)
  {
    var padded :| line == f.name + ([COLON] + padded) && Padded(padded, f.value);
    var before, after :| padded == before + (f.value + after) && AllOws(before) && AllOws(after);
    forall s | s == f.name || s == before || s == f.value || s == after ensures OneLine(s) {
      forall i | 0 <= i < |s| ensures !IsLineBreak(s[i]) {
        assert s == f.name ==> IsTokenByte(s[i]);
        assert s == f.value ==> IsValueByte(s[i]);
        assert s == before || s == after ==> IsOws(s[i]);
      }
    }
    OneLineConcat(f.value, after);
    OneLineConcat(before, f.value + after);
    OneLineConcat([COLON], padded);
    OneLineConcat(f.name, [COLON] + padded);
  }

  lemma SaidAreLines(lines: seq<bytes>, fs: Fields)
    requires LinesSay(lines, fs)
    ensures AllLines(lines)
  {
    hide LineSays, IsLine;
    forall i | 0 <= i < |lines| ensures IsLine(lines[i]) {
      SaidIsLine(lines[i], fs[i]);
    }
  }

  // ----- cutting text into lines ---------------------------------------------

  lemma GoodTail(s: bytes, i: nat)
    requires i < |s| && s[i] == LF && GoodBreaks(s + CRLF)
    ensures i > 0 && s[i - 1] == CR && GoodBreaks(s[i + 1..] + CRLF)
  {
    var t, rest := s + CRLF, s[i + 1..] + CRLF;
    assert GoodBreakAt(t, i);
    assert forall k :: 0 <= k < |rest| ==> rest[k] == t[i + 1 + k];
    forall k | 0 <= k < |rest| ensures GoodBreakAt(rest, k) {
      assert GoodBreakAt(t, i + 1 + k);
    }
  }

  // Text with good line breaks is what its lines are written as.
  lemma {:induction false} CutThenWritten(s: bytes)
    requires GoodBreaks(s + CRLF)
    ensures CutLines(s) != [] && WriteLinesOpen(CutLines(s)) == s
    decreases |s|
  {
    hide FindByte, GoodBreaks, StripCr, CutLines;
    match FindByte(s, LF)
    case None => UncutLine(s);
    case Some(i) =>
      GoodTail(s, i);
      var rest := s[i + 1..];
      CutThenWritten(rest);
      FirstCut(s, i);
      assert ([s[..i - 1]] + CutLines(rest))[1..] == CutLines(rest);
      assert s == s[..i - 1] + (CRLF + rest);
  }

  lemma UncutLine(s: bytes)
    requires GoodBreaks(s + CRLF) && FindByte(s, LF).None?
    ensures CutLines(s) == [s]
  {
    hide FindByte;
    assert StripCr(s) == s by {
      assert s != [] ==> (s + CRLF)[|s| - 1] == s[|s| - 1] && (s + CRLF)[|s|] == CR && GoodBreakAt(s + CRLF, |s| - 1);
    }
    assert StripAll([s][1..]) == [];
  }

  lemma FirstCut(s: bytes, i: nat)
    requires FindByte(s, LF) == Some(i) && i < |s| && i > 0 && s[i - 1] == CR
    ensures CutLines(s) == [s[..i - 1]] + CutLines(s[i + 1..])
  {
    hide FindByte;
    var rest := s[i + 1..];
    assert StripCr(s[..i]) == s[..i - 1];
    assert ([s[..i]] + SplitOn(rest, LF))[1..] == SplitOn(rest, LF);
  }

  lemma CutOfLines(lines: seq<bytes>, s: bytes)
    requires lines != [] && AllLines(lines) && WriteLines(lines) == s + CRLF
    ensures CutLines(s) == lines && GoodBreaks(s + CRLF)
  {
    hide CutLines, WriteLines, WriteLinesOpen, AllLines, GoodBreaks;
    CutWrittenLines(lines);
    WriteLinesOpenMeaning(lines);
    WriteLinesGoodBreaks(lines);
    assert (s + CRLF)[..|s|] == s && (WriteLinesOpen(lines) + CRLF)[..|s|] == WriteLinesOpen(lines);
  }

  // ----- the trailer block ---------------------------------------------------

  lemma ForbiddenMeaning(f: Field)
    ensures IsForbiddenTrailer(f.name) <==> !MayTrail(f)
  {
    hide SameName;
    assert CONTENT_LENGTH in NOT_IN_TRAILERS && TRANSFER_ENCODING in NOT_IN_TRAILERS && HOST in NOT_IN_TRAILERS;
    assert TRAILER in NOT_IN_TRAILERS && CONNECTION in NOT_IN_TRAILERS && UPGRADE in NOT_IN_TRAILERS;
  }

  lemma {:induction false} TrailerLinesMeaning(lines: seq<bytes>, maxTrailers: nat, seen: nat, fs: Fields)
    ensures ParseTrailerLines(lines, maxTrailers, seen) == Ok(fs) <==>
            LinesSay(lines, fs) && (lines == [] || seen + |fs| <= maxTrailers) && forall i :: 0 <= i < |fs| ==> MayTrail(fs[i])
  {
    hide ParseFieldLine, LineSays, IsForbiddenTrailer, MayTrail;
    if lines != [] {
      if fs != [] {
        LineMeaning(lines[0], fs[0]);
        ForbiddenMeaning(fs[0]);
        TrailerLinesMeaning(lines[1..], maxTrailers, seen + 1, fs[1..]);
        assert fs == [fs[0]] + fs[1..];
        assert LinesSay(lines, fs) <==> LineSays(lines[0], fs[0]) && LinesSay(lines[1..], fs[1..]) by {
          SayFirst(lines, fs);
        }
        assert (forall i :: 0 <= i < |fs| ==> MayTrail(fs[i]))
          <==> MayTrail(fs[0]) && forall i :: 0 <= i < |fs[1..]| ==> MayTrail(fs[1..][i]);
      }
    }
  }

  lemma SayFirst(lines: seq<bytes>, fs: Fields)
    requires lines != [] && fs != []
    ensures LinesSay(lines, fs) <==> LineSays(lines[0], fs[0]) && LinesSay(lines[1..], fs[1..])
  {
    hide LineSays;
    if LineSays(lines[0], fs[0]) && LinesSay(lines[1..], fs[1..]) {
      forall i | 0 <= i < |lines| ensures LineSays(lines[i], fs[i]) {
        assert i > 0 ==> lines[i] == lines[1..][i - 1] && fs[i] == fs[1..][i - 1];
      }
    }
  }

  lemma WrittenNotBare(lines: seq<bytes>)
    requires lines != [] && AllLines(lines)
    ensures |WriteLines(lines)| >= 3 && WriteLines(lines)[|WriteLines(lines)| - 2..] == CRLF
  {
    hide WriteLinesOpen;
    WriteLinesOpenMeaning(lines);
    assert IsLine(lines[0]);
  }

  lemma BlockMeaning(block: bytes, fs: Fields, maxTrailers: nat)
    requires block == CRLF || (|block| >= 4 && block[|block| - 4..] == CRLF + CRLF)
    ensures ParseTrailers(block, maxTrailers) == Ok(fs) <==> BlockSays(block, fs, maxTrailers)
  {
    hide ParseTrailerLines, LinesSay, MayTrail, WriteLines, CutLines, AllLines;
    NoLines();
    if block == CRLF {
      BareBlock(block, fs);
    } else {
      var s := block[..|block| - 4];
      assert block == (s + CRLF) + CRLF;
      TrailerLinesMeaning(CutLines(s), maxTrailers, 0, fs);
      if ParseTrailers(block, maxTrailers) == Ok(fs) {
        GoodPrefix(s);
        CutThenWritten(s);
        WriteLinesOpenMeaning(CutLines(s));
        assert LinesSay(CutLines(s), fs);
        assert block == WriteLines(CutLines(s)) + CRLF;
      }
      if BlockSays(block, fs, maxTrailers) {
        var lines :| block == WriteLines(lines) + CRLF && LinesSay(lines, fs);
        SaidAreLines(lines, fs);
        assert WriteLines(lines) == block[..|block| - 2] == s + CRLF;
        CutOfLines(lines, s);
        CrlfGoodBreaks();
        GoodBreaksConcat(s + CRLF, CRLF);
        CutThenWritten(s);
      }
    }
  }

  lemma NoLines()
    ensures WriteLines([]) == [] && LinesSay([], [])
  {
  }

  lemma BareBlock(block: bytes, fs: Fields)
    requires block == CRLF
    ensures (exists lines :: block == WriteLines(lines) + CRLF && LinesSay(lines, fs)) <==> fs == []
  {
    hide WriteLines, AllLines;
    NoLines();
    if fs == [] {
      assert block == WriteLines([]) + CRLF;
    }
    if lines :| block == WriteLines(lines) + CRLF && LinesSay(lines, fs) {
      if lines != [] {
        SaidAreLines(lines, fs);
        WrittenNotBare(lines);
      }
    }
  }

  lemma GoodPrefix(s: bytes)
    requires GoodBreaks((s + CRLF) + CRLF)
    ensures GoodBreaks(s + CRLF)
  {
    forall i | 0 <= i < |s + CRLF| ensures GoodBreakAt(s + CRLF, i) {
      assert GoodBreakAt((s + CRLF) + CRLF, i);
    }
  }

  // The trailer block at the start of a stream is found and read exactly when the stream
  // starts with one.
  lemma TrailerBlockMeaning(s: bytes, fs: Fields, maxTrailers: nat, rest: bytes)
    ensures
      (FindTrailerEnd(s).Some?
       && ParseTrailers(s[..FindTrailerEnd(s).value], maxTrailers) == Ok(fs) && s[FindTrailerEnd(s).value..] == rest)
      <==> exists block :: s == block + rest && BlockSays(block, fs, maxTrailers)
  {
    hide FindTrailerEnd, ParseTrailers, BlockSays;
    match FindTrailerEnd(s) {
      case Some(n) =>
        FoundBlock(s);
        BlockMeaning(s[..n], fs, maxTrailers);
        assert s == s[..n] + s[n..];
      case None =>
    }
    if block :| s == block + rest && BlockSays(block, fs, maxTrailers) {
      SaidBlockFound(block, fs, maxTrailers, rest);
      BlockMeaning(block, fs, maxTrailers);
      assert s[..|block|] == block && s[|block|..] == rest;
    }
  }

  lemma FoundBlock(s: bytes)
    requires FindTrailerEnd(s).Some?
    ensures
      var block := s[..FindTrailerEnd(s).value];
      block == CRLF || (|block| >= 4 && block[|block| - 4..] == CRLF + CRLF)
  {
    hide FindBlankLine;
    if CrlfAt(s, 0) {
      assert s[..2] == CRLF;
    } else {
      var i := FindBlankLine(s).value;
      assert s[..i + 4][i..] == CRLF + CRLF;
    }
  }

  lemma SaidBlockFound(block: bytes, fs: Fields, maxTrailers: nat, rest: bytes)
    requires BlockSays(block, fs, maxTrailers)
    ensures FindTrailerEnd(block + rest) == Some(|block|)
    ensures block == CRLF || (|block| >= 4 && block[|block| - 4..] == CRLF + CRLF)
  {
    hide FindBlankLine, WriteLines, AllLines, LinesSay, MayTrail;
    var lines :| block == WriteLines(lines) + CRLF && LinesSay(lines, fs);
    if lines == [] {
      NoLines();
      assert block == CRLF;
    } else {
      SaidAreLines(lines, fs);
      BlockIsFound(lines, rest);
      WrittenNotBare(lines);
    }
  }
}
