// Byte strings, the searches the HTTP/1 code makes in them, and the trimming of
// optional white space.
module Bytes {
  import opened Results

  type byte = b: int | 0 <= b < 256
  type bytes = seq<byte>

  const U64_LIMIT: int := 0x1_0000_0000_0000_0000
  type u64 = n: int | 0 <= n < U64_LIMIT

  function Min(a: nat, b: nat): nat {
    if a < b then a else b
  }

  const HTAB: byte := 9
  const LF: byte := 10
  const CR: byte := 13
  const SP: byte := 32
  const DQUOTE: byte := 34
  const COMMA: byte := 44
  const COLON: byte := 58
  const SEMICOLON: byte := 59
  const EQUALS: byte := 61
  const BACKSLASH: byte := 92

  const CRLF: bytes := [13, 10]

  predicate IsOws(b: byte) {
    b == SP || b == HTAB
  }

  predicate IsDigit(b: byte) {
    48 <= b <= 57
  }

  predicate IsUpper(b: byte) {
    65 <= b <= 90
  }

  predicate IsAlpha(b: byte) {
    IsUpper(b) || 97 <= b <= 122
  }

  // Token characters of RFC 9110: letters, digits and !#$%&'*+-.^_`|~
  predicate IsTokenByte(b: byte) {
    IsAlpha(b) || IsDigit(b) || b == 33 || 35 <= b <= 39 || b == 42 || b == 43 || b == 45 || b == 46
    || b == 94 || b == 95 || b == 96 || b == 124 || b == 126
  }

  predicate IsLineBreak(b: byte) {
    b == CR || b == LF
  }

  // No carriage return and no line feed: the text fits on one line.
  predicate OneLine(s: bytes) {
    forall i :: 0 <= i < |s| ==> !IsLineBreak(s[i])
  }

  predicate AllTokenBytes(s: bytes) {
    forall i :: 0 <= i < |s| ==> IsTokenByte(s[i])
  }

  predicate IsToken(s: bytes) {
    s != [] && AllTokenBytes(s)
  }

  function Lower(b: byte): byte {
    if IsUpper(b) then b + 32 else b
  }

  function LowerAll(s: bytes): (r: bytes)
    ensures |r| == |s| && forall i :: 0 <= i < |s| ==> r[i] == Lower(s[i])
  {
    seq(|s|, i requires 0 <= i < |s| => Lower(s[i]))
  }

  // ASCII case-insensitive equality of names.
  predicate SameName(a: bytes, b: bytes) {
    LowerAll(a) == LowerAll(b)
  }

  predicate CrlfAt(s: bytes, i: int) {
    0 <= i && i + 1 < |s| && s[i] == CR && s[i + 1] == LF
  }

  predicate BlankLineAt(s: bytes, i: int) {
    CrlfAt(s, i) && CrlfAt(s, i + 2)
  }

  // Index of the first CRLF, at or after `from`.
  function FindCrlfFrom(s: bytes, from: nat): (r: Option<nat>)
    requires from <= |s|
    ensures r.Some? ==> from <= r.value && CrlfAt(s, r.value) && forall i :: from <= i < r.value ==> !CrlfAt(s, i)
    ensures r.None? ==> forall i :: from <= i ==> !CrlfAt(s, i)
    decreases |s| - from
  {
    if from + 1 >= |s| then None
    else if CrlfAt(s, from) then Some(from)
    else FindCrlfFrom(s, from + 1)
  }

  function FindCrlf(s: bytes): (r: Option<nat>)
    ensures r.Some? ==> CrlfAt(s, r.value) && forall i :: 0 <= i < r.value ==> !CrlfAt(s, i)
    ensures r.None? ==> forall i :: 0 <= i ==> !CrlfAt(s, i)
  {
    FindCrlfFrom(s, 0)
  }

  // Index of the first CRLFCRLF, at or after `from`.
  function FindBlankLineFrom(s: bytes, from: nat): (r: Option<nat>)
    requires from <= |s|
    ensures r.Some? ==> from <= r.value && BlankLineAt(s, r.value) && forall i :: from <= i < r.value ==> !BlankLineAt(s, i)
    ensures r.None? ==> forall i :: from <= i ==> !BlankLineAt(s, i)
    decreases |s| - from
  {
    if from + 3 >= |s| then None
    else if BlankLineAt(s, from) then Some(from)
    else FindBlankLineFrom(s, from + 1)
  }

  function FindBlankLine(s: bytes): (r: Option<nat>)
    ensures r.Some? ==> BlankLineAt(s, r.value) && forall i :: 0 <= i < r.value ==> !BlankLineAt(s, i)
    ensures r.None? ==> forall i :: 0 <= i ==> !BlankLineAt(s, i)
  {
    FindBlankLineFrom(s, 0)
  }

  // Index of the first occurrence of a byte.
  function FindByte(s: bytes, b: byte): (r: Option<nat>)
    ensures r.Some? ==> r.value < |s| && s[r.value] == b && forall i :: 0 <= i < r.value ==> s[i] != b
    ensures r.None? ==> b !in s
  {
    if s == [] then None
    else if s[0] == b then Some(0)
    else
      match FindByte(s[1..], b)
      case None => None
      case Some(i) => Some(i + 1)
  }

  lemma FirstByte(s: bytes, b: byte, at: nat)
    requires at < |s| && s[at] == b && forall i :: 0 <= i < at ==> s[i] != b
    ensures FindByte(s, b) == Some(at)
  {
    hide FindByte;
  }

  lemma OneLineConcat(a: bytes, b: bytes)
    requires OneLine(a) && OneLine(b)
    ensures OneLine(a + b)
  {
  }

  // The pieces between occurrences of a separator; there is always at least one.
  function SplitOn(s: bytes, separator: byte): (r: seq<bytes>)
    ensures |r| >= 1
    decreases |s|
  {
    match FindByte(s, separator)
    case None => [s]
    case Some(i) => [s[..i]] + SplitOn(s[i + 1..], separator)
  }

  lemma SplitOnAbsent(s: bytes, separator: byte)
    requires separator !in s
    ensures SplitOn(s, separator) == [s]
  {
  }

  // A line feed without a carriage return before it, or a carriage return with
  // something other than a line feed after it. A final carriage return is not
  // (yet) a fault.
  predicate BrokenBreakAt(s: bytes, i: int) {
    0 <= i < |s|
    && ((s[i] == LF && (i == 0 || s[i - 1] != CR))
        || (s[i] == CR && i + 1 < |s| && s[i + 1] != LF))
  }

  predicate BrokenBreaks(s: bytes) {
    exists i :: 0 <= i < |s| && BrokenBreakAt(s, i)
  }

  predicate AllOws(s: bytes) {
    forall i :: 0 <= i < |s| ==> IsOws(s[i])
  }

  predicate StartsClean(s: bytes) {
    s == [] || !IsOws(s[0])
  }

  predicate EndsClean(s: bytes) {
    s == [] || !IsOws(s[|s| - 1])
  }

  function TrimStart(s: bytes): (r: bytes)
    ensures |r| <= |s| && StartsClean(r)
  {
    if s != [] && IsOws(s[0]) then TrimStart(s[1..]) else s
  }

  function TrimEnd(s: bytes): (r: bytes)
    ensures |r| <= |s| && EndsClean(r)
  {
    if s != [] && IsOws(s[|s| - 1]) then TrimEnd(s[..|s| - 1]) else s
  }

  function TrimOws(s: bytes): bytes {
    TrimEnd(TrimStart(s))
  }

  // The white space TrimStart drops.
  function LeadingOws(s: bytes): bytes {
    s[..|s| - |TrimStart(s)|]
  }

  lemma {:induction false} LeadingOwsMeaning(s: bytes)
    ensures AllOws(LeadingOws(s))
    ensures s == LeadingOws(s) + TrimStart(s)
  {
    if s != [] && IsOws(s[0]) {
      LeadingOwsMeaning(s[1..]);
      assert LeadingOws(s) == [s[0]] + LeadingOws(s[1..]);
    }
  }

  lemma {:induction false} TrimStartOf(ws: bytes, rest: bytes)
    requires AllOws(ws) && StartsClean(rest)
    ensures TrimStart(ws + rest) == rest && LeadingOws(ws + rest) == ws
  {
    if ws == [] {
      assert ws + rest == rest;
    } else {
      assert (ws + rest)[1..] == ws[1..] + rest;
      TrimStartOf(ws[1..], rest);
    }
  }

  lemma TrimStartClean(s: bytes)
    requires StartsClean(s)
    ensures TrimStart(s) == s
  {
  }

  lemma {:induction false} TrimEndOf(core: bytes, ws: bytes)
    requires AllOws(ws) && EndsClean(core)
    ensures TrimEnd(core + ws) == core
  {
    if ws == [] {
      assert core + ws == core;
    } else {
      assert (core + ws)[..|core + ws| - 1] == core + ws[..|ws| - 1];
      TrimEndOf(core, ws[..|ws| - 1]);
    }
  }

  lemma {:induction false} TrimEndMeaning(s: bytes)
    ensures s == TrimEnd(s) + s[|TrimEnd(s)|..] && AllOws(s[|TrimEnd(s)|..])
  {
    if s != [] && IsOws(s[|s| - 1]) {
      TrimEndMeaning(s[..|s| - 1]);
      assert s[|TrimEnd(s)|..] == s[..|s| - 1][|TrimEnd(s)|..] + [s[|s| - 1]];
    }
  }

  // Trimming removes exactly the outer white space: any way to write `s` as a
  // core between two runs of white space, where the core has none at its ends,
  // yields that core.
  lemma TrimOwsOf(before: bytes, core: bytes, after: bytes)
    requires AllOws(before) && AllOws(after) && StartsClean(core) && EndsClean(core)
    ensures TrimOws(before + (core + after)) == core
  {
    if core == [] {
      assert before + (core + after) == (before + after) + [];
      TrimStartOf(before + after, []);
    } else {
      TrimStartOf(before, core + after);
      TrimEndOf(core, after);
    }
  }

  // The shape trimming leaves, and what it dropped.
  lemma TrimOwsMeaning(s: bytes) returns (before: bytes, after: bytes)
    ensures AllOws(before) && AllOws(after)
    ensures s == before + (TrimOws(s) + after)
    ensures StartsClean(TrimOws(s)) && EndsClean(TrimOws(s))
  {
    var t := TrimStart(s);
    LeadingOwsMeaning(s);
    TrimEndMeaning(t);
    before, after := LeadingOws(s), t[|TrimEnd(t)|..];
    assert TrimEnd(t) != [] ==> TrimEnd(t)[0] == t[0];
  }

  lemma TrimOwsClean(s: bytes)
    requires StartsClean(s) && EndsClean(s)
    ensures TrimOws(s) == s
  {
    TrimOwsOf([], s, []);
    assert [] + (s + []) == s;
  }

  lemma TrimOwsIdempotent(s: bytes)
    ensures TrimOws(TrimOws(s)) == TrimOws(s)
  {
    var _, _ := TrimOwsMeaning(s);
    TrimOwsClean(TrimOws(s));
  }

  // The two cursor loops of the trimming code.
  method TrimOwsLoop(s: bytes) returns (r: bytes)
    ensures r == TrimOws(s)
  {
    r := s;
    while r != [] && IsOws(r[0])
      invariant TrimStart(r) == TrimStart(s)
      decreases |r|
    {
      r := r[1..];
    }
    ghost var t := r;
    while r != [] && IsOws(r[|r| - 1])
      invariant TrimEnd(r) == TrimEnd(t)
      decreases |r|
    {
      r := r[..|r| - 1];
    }
  }
}
