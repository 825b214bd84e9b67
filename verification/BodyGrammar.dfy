// The chunked body of section 7.1 of RFC 9112 as a relation between a stream, the data
// and trailers it carries and the bytes behind it, and the decoder's agreement with it:
// a stream is a finished body exactly when it starts with the text of one.
module BodyGrammar {
  import opened Results
  import opened Bytes
  import opened Numbers
  import opened Headers
  import opened ListItems
  import opened ChunkLine
  import opened Lines
  import opened Trailers
  import opened FieldText
  import opened BodyFraming

  // [white space] hexadecimal digits [white space] extensions
  ghost predicate SizeLineSays(line: bytes, n: int) {
    exists head, size, es ::
      line == head + Render(es) && SEMICOLON !in head && AllWellFormed(es)
      && Padded(head, size) && size != [] && AllHex(size) && HexNumber(size) == n < U64_LIMIT
  }

  ghost predicate TrailerPart(limits: Limits, s: bytes, trailers: Fields, rest: bytes) {
    exists block :: s == block + rest && |block| <= limits.maxTrailerBytes && BlockSays(block, trailers, limits.maxTrailers)
  }

  // Chunks, the last of them empty, then a trailer block, then the rest.
  ghost predicate ChunkedStream(limits: Limits, s: bytes, data: bytes, trailers: Fields, rest: bytes)
    decreases |s|
  {
    exists line, after, n ::
      s == line + (CRLF + after) && |line| <= limits.maxChunkLineBytes && SizeLineSays(line, n)
      && (n == 0 ==> data == [] && TrailerPart(limits, after, trailers, rest))
      && (n != 0 ==>
            0 < n && n + 2 <= |after| && after[n..n + 2] == CRLF && after[..n] <= data
            && ChunkedStream(limits, after[n + 2..], data[n..], trailers, rest))
  }

  lemma SizeLineMeaning(line: bytes, n: u64)
    ensures ParseChunkLine(line) == Ok(n) <==> SizeLineSays(line, n)
  {
    hide TrimOws, Padded, AllHex, HexNumber, Render, AllWellFormed, FindByte, ParseChunkLine;
    ParseChunkLineExact(line);
    var head, ext := SizeText(line), ExtensionText(line);
    PaddedIsTrimmed(head, TrimOws(head));
    SizeTextPlain(line);
    if ParseChunkLine(line) == Ok(n) {
      var es :| AllWellFormed(es) && Render(es) == ext;
      assert line == head + Render(es);
    }
    if SizeLineSays(line, n) {
      var h, size, es :|
        line == h + Render(es) && SEMICOLON !in h && AllWellFormed(es)
        && Padded(h, size) && size != [] && AllHex(size) && HexNumber(size) == n < U64_LIMIT;
      SplitAtSemicolon(line, h, Render(es));
      PaddedIsTrimmed(h, size);
    }
  }

  lemma SizeTextPlain(line: bytes)
    ensures SEMICOLON !in SizeText(line)
  {
    hide FindByte;
  }

  lemma SplitAtSemicolon(line: bytes, head: bytes, ext: bytes)
    requires line == head + ext && SEMICOLON !in head && (ext == [] || ext[0] == SEMICOLON)
    ensures SizeText(line) == head && ExtensionText(line) == ext
  {
    hide FindByte;
    if ext != [] {
      FirstByte(line, SEMICOLON, |head|);
      assert line[..|head|] == head && line[|head|..] == ext;
    } else {
      assert line == head;
    }
  }

  // ----- one state after the other -------------------------------------------

  lemma {:induction false} RunData(limits: Limits, n: u64, s: bytes)
    requires n > 0
    ensures
      var st := Start(Chunked).(chunkState := Data(n));
      if |s| < n then Run(limits, st, s).Pending?
      else Run(limits, st, s) == Prepend(s[..n], Run(limits, Start(Chunked).(chunkState := DataTerminator), s[n..]))
  {
    hide SizeStep, TrailerStep;
    var st := Start(Chunked).(chunkState := Data(n));
    if 0 < |s| < n {
      var next := st.(chunkState := Data(n - |s|));
      assert Step(limits, st, s) == Emit(next, |s|);
      assert s[|s|..] == [];
      assert Run(limits, next, []) == Pending(next, [], []);
    } else if |s| >= n {
      assert Step(limits, st, s) == Emit(st.(chunkState := DataTerminator), n);
    }
  }

  lemma RunTerminator(limits: Limits, s: bytes)
    ensures
      var o := Run(limits, Start(Chunked).(chunkState := DataTerminator), s);
      if |s| < 2 then o.Pending?
      else if s[..2] == CRLF then o == Run(limits, Start(Chunked), s[2..])
      else o.Rejected?
  {
    hide SizeStep, TrailerStep;
  }

  lemma RunTrailersSaid(limits: Limits, s: bytes, trailers: Fields, rest: bytes)
    requires TrailerPart(limits, s, trailers, rest)
    ensures Run(limits, Start(Chunked).(chunkState := TrailerBlock), s) == Done([], trailers, rest)
  {
    hide SizeStep, FindTrailerEnd, ParseTrailers, BlockSays;
    var block :| s == block + rest && |block| <= limits.maxTrailerBytes && BlockSays(block, trailers, limits.maxTrailers);
    SaidBlockFound(block, trailers, limits.maxTrailers, rest);
    BlockMeaning(block, trailers, limits.maxTrailers);
    assert s[..|block|] == block && s[|block|..] == rest;
    assert TrailerStep(limits, s) == ChunkFinish(|block|, trailers);
  }

  lemma RunTrailersFound(limits: Limits, s: bytes)
    ensures
      var o := Run(limits, Start(Chunked).(chunkState := TrailerBlock), s);
      o.Done? ==> o.data == [] && TrailerPart(limits, s, o.trailers, o.rest)
  {
    hide SizeStep, FindTrailerEnd, ParseTrailers, BlockSays, BrokenBreaks;
    var m := TrailerStep(limits, s);
    if m.ChunkFinish? {
      var n := FindTrailerEnd(s).value;
      FoundBlock(s);
      BlockMeaning(s[..n], m.trailers, limits.maxTrailers);
      assert s == s[..n] + s[n..];
    }
  }

  lemma RunSizeSaid(limits: Limits, line: bytes, n: u64, after: bytes)
    requires |line| <= limits.maxChunkLineBytes && SizeLineSays(line, n)
    ensures Run(limits, Start(Chunked), line + (CRLF + after))
         == Run(limits, Start(Chunked).(chunkState := if n == 0 then TrailerBlock else Data(n)), after)
  {
    hide FindCrlf, ParseChunkLine, TrailerStep, SizeLineSays;
    var s := line + (CRLF + after);
    SizeLineMeaning(line, n);
    AcceptedLineIsOneLine(line);
    LineEnd(line, after);
    assert s[..|line|] == line && s[|line| + 2..] == after;
    assert SizeStep(limits, s) == ChunkAdvance(if n == 0 then TrailerBlock else Data(n), |line| + 2);
  }

  // From the size state a body can only go on behind a line that says a size.
  lemma RunSizeFound(limits: Limits, s: bytes) returns (line: bytes, n: u64, after: bytes)
    requires Run(limits, Start(Chunked), s).Done?
    ensures s == line + (CRLF + after) && |line| <= limits.maxChunkLineBytes && SizeLineSays(line, n)
    ensures Run(limits, Start(Chunked), s)
         == Run(limits, Start(Chunked).(chunkState := if n == 0 then TrailerBlock else Data(n)), after)
  {
    hide FindCrlf, ParseChunkLine, TrailerStep, SizeLineSays, BrokenBreaks;
    var m := SizeStep(limits, s);
    assert m.ChunkAdvance?;
    var at := FindCrlf(s).value;
    line, after := s[..at], s[at + 2..];
    n := ParseChunkLine(line).value;
    SizeLineMeaning(line, n);
    assert s == line + (CRLF + after);
  }

  // Chunk data is complete exactly when a CRLF follows it.
  lemma RunChunkData(limits: Limits, n: u64, after: bytes)
    requires n > 0
    ensures
      var o := Run(limits, Start(Chunked).(chunkState := Data(n)), after);
      if n + 2 <= |after| && after[n..n + 2] == CRLF then o == Prepend(after[..n], Run(limits, Start(Chunked), after[n + 2..]))
      else !o.Done?
  {
    hide Run;
    RunData(limits, n, after);
    if n <= |after| {
      RunTerminator(limits, after[n..]);
      if n + 2 <= |after| {
        assert after[n..][..2] == after[n..n + 2] && after[n..][2..] == after[n + 2..];
      }
    }
  }

  // ----- the decoder is the grammar ------------------------------------------

  lemma {:induction false} StreamIsRead(limits: Limits, s: bytes, data: bytes, trailers: Fields, rest: bytes)
    requires ChunkedStream(limits, s, data, trailers, rest)
    ensures Run(limits, Start(Chunked), s) == Done(data, trailers, rest)
    decreases |s|
  {
    hide Run, SizeLineSays, TrailerPart, Start, ChunkedStream;
    var line, after, n := StreamParts(limits, s, data, trailers, rest);
    RunSizeSaid(limits, line, n, after);
    if n == 0 {
      RunTrailersSaid(limits, after, trailers, rest);
    } else {
      StreamIsRead(limits, after[n + 2..], data[n..], trailers, rest);
      RunChunkData(limits, n, after);
      assert after[..n] + data[n..] == data;
    }
  }

  lemma StreamParts(limits: Limits, s: bytes, data: bytes, trailers: Fields, rest: bytes)
    returns (line: bytes, after: bytes, n: u64)
    requires ChunkedStream(limits, s, data, trailers, rest)
    ensures s == line + (CRLF + after) && |line| <= limits.maxChunkLineBytes && SizeLineSays(line, n)
    ensures n == 0 ==> data == [] && TrailerPart(limits, after, trailers, rest)
    ensures n != 0 ==> n + 2 <= |after| && after[n..n + 2] == CRLF && after[..n] <= data
                       && ChunkedStream(limits, after[n + 2..], data[n..], trailers, rest)
  {
    hide SizeLineSays, TrailerPart;
    var l, a, m :|
      s == l + (CRLF + a) && |l| <= limits.maxChunkLineBytes && SizeLineSays(l, m)
      && (m == 0 ==> data == [] && TrailerPart(limits, a, trailers, rest))
      && (m != 0 ==>
            0 < m && m + 2 <= |a| && a[m..m + 2] == CRLF && a[..m] <= data
            && ChunkedStream(limits, a[m + 2..], data[m..], trailers, rest));
    SizeIsU64(l, m);
    line, after, n := l, a, m;
  }

  lemma SizeIsU64(line: bytes, n: int)
    requires SizeLineSays(line, n)
    ensures 0 <= n < U64_LIMIT
  {
  }

  lemma OneChunk(limits: Limits, line: bytes, n: u64, after: bytes, data: bytes, trailers: Fields, rest: bytes)
    requires n > 0 && |line| <= limits.maxChunkLineBytes && SizeLineSays(line, n)
    requires n + 2 <= |after| && after[n..n + 2] == CRLF && ChunkedStream(limits, after[n + 2..], data, trailers, rest)
    ensures ChunkedStream(limits, line + (CRLF + after), after[..n] + data, trailers, rest)
  {
    hide SizeLineSays, TrailerPart;
    assert (after[..n] + data)[n..] == data;
  }

  lemma {:induction false} ReadIsStream(limits: Limits, s: bytes)
    requires Run(limits, Start(Chunked), s).Done?
    ensures
      var o := Run(limits, Start(Chunked), s);
      ChunkedStream(limits, s, o.data, o.trailers, o.rest)
    decreases |s|
  {
    hide Run, SizeLineSays, TrailerPart, Start;
    var line, n, after := RunSizeFound(limits, s);
    if n == 0 {
      RunTrailersFound(limits, after);
    } else {
      hide ChunkedStream;
      RunChunkData(limits, n, after);
      ReadIsStream(limits, after[n + 2..]);
      var o := Run(limits, Start(Chunked), after[n + 2..]);
      OneChunk(limits, line, n, after, o.data, o.trailers, o.rest);
    }
  }

  // The decoder finishes a chunked body with this data, these trailers and these bytes
  // behind it exactly when the stream says so.
  lemma ChunkedMeaning(limits: Limits, s: bytes, data: bytes, trailers: Fields, rest: bytes)
    ensures Run(limits, Start(Chunked), s) == Done(data, trailers, rest) <==> ChunkedStream(limits, s, data, trailers, rest)
  {
    hide Run, ChunkedStream;
    if Run(limits, Start(Chunked), s) == Done(data, trailers, rest) {
      ReadIsStream(limits, s);
    }
    if ChunkedStream(limits, s, data, trailers, rest) {
      StreamIsRead(limits, s, data, trailers, rest);
    }
  }
}
