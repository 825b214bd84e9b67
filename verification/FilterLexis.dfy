// The pieces filter text is made of, and the tokens they stand for.
module FilterLexis {
  import opened Results
  import opened Text
  import opened FilterSyntax
  import opened FilterText

  // A character between quotes, which a backslash may precede.
  datatype Mark = Mark(escaped: bool, c: char)

  // A character of a bare word, or a quoted stretch of it.
  datatype Part = Plain(c: char) | Stretch(quote: char, marks: seq<Mark>)

  datatype Piece = Blank(c: char) | Sign(token: Token) | Value(quote: char, marks: seq<Mark>) | Name(parts: seq<Part>)

  predicate MarksOk(quote: char, marks: seq<Mark>) {
    (quote == '"' || quote == '\'')
    && forall i :: 0 <= i < |marks| && !marks[i].escaped ==> marks[i].c != quote && marks[i].c != '\\'
  }

  predicate IsSign(c: char) {
    c == '&' || c == '|' || c == '!' || c == '(' || c == ')'
  }

  predicate PartOk(p: Part) {
    match p
    case Plain(c) => c != '"' && c != '\'' && !IsSpace(c) && !IsSign(c)
    case Stretch(quote, marks) => MarksOk(quote, marks)
  }

  predicate PartsOk(parts: seq<Part>) {
    forall i :: 0 <= i < |parts| ==> PartOk(parts[i])
  }

  predicate PieceOk(p: Piece) {
    match p
    case Blank(c) => IsSpace(c)
    case Sign(token) => !token.Word?
    case Value(quote, marks) => MarksOk(quote, marks)
    case Name(parts) => parts != [] && parts[0].Plain? && PartsOk(parts)
  }

  // A bare word goes on until a blank or a sign ends it.
  predicate PiecesOk(pieces: seq<Piece>) {
    forall i :: 0 <= i < |pieces| ==>
      PieceOk(pieces[i])
      && (i + 1 < |pieces| && pieces[i].Name? ==> pieces[i + 1].Blank? || pieces[i + 1].Sign?)
  }

  function MarkText(m: Mark): string {
    if m.escaped then ['\\', m.c] else [m.c]
  }

  function MarksText(marks: seq<Mark>): string {
    if marks == [] then "" else MarkText(marks[0]) + MarksText(marks[1..])
  }

  function MarksValue(marks: seq<Mark>): string {
    if marks == [] then "" else [marks[0].c] + MarksValue(marks[1..])
  }

  function PartText(p: Part): string {
    match p
    case Plain(c) => [c]
    case Stretch(quote, marks) => [quote] + (MarksText(marks) + [quote])
  }

  function PartValue(p: Part): string {
    match p
    case Plain(c) => [c]
    case Stretch(_, marks) => MarksValue(marks)
  }

  function PartsText(parts: seq<Part>): string {
    if parts == [] then "" else PartText(parts[0]) + PartsText(parts[1..])
  }

  function PartsValue(parts: seq<Part>): string {
    if parts == [] then "" else PartValue(parts[0]) + PartsValue(parts[1..])
  }

  function SignText(t: Token): string {
    match t
    case AndToken => "&"
    case OrToken => "|"
    case NotToken => "!"
    case LeftParen => "("
    case RightParen => ")"
    case Word(_) => ""
  }

  function PieceText(p: Piece): string {
    match p
    case Blank(c) => [c]
    case Sign(token) => SignText(token)
    case Value(quote, marks) => PartText(Stretch(quote, marks))
    case Name(parts) => PartsText(parts)
  }

  function PieceTokens(p: Piece): seq<Token> {
    match p
    case Blank(_) => []
    case Sign(token) => [token]
    case Value(_, marks) => [Word(MarksValue(marks))]
    case Name(parts) => [Word(PartsValue(parts))]
  }

  function PiecesText(pieces: seq<Piece>): string {
    if pieces == [] then "" else PieceText(pieces[0]) + PiecesText(pieces[1..])
  }

  function PiecesTokens(pieces: seq<Piece>): seq<Token> {
    if pieces == [] then [] else PieceTokens(pieces[0]) + PiecesTokens(pieces[1..])
  }

  // ----- quoted text ---------------------------------------------------------

  lemma {:induction false} QuotedIsRead(marks: seq<Mark>, quote: char, rest: string)
    requires MarksOk(quote, marks)
    ensures Quoted(MarksText(marks) + ([quote] + rest), quote) == Some((MarksValue(marks), |MarksText(marks)| + 1))
    decreases |marks|
  {
    hide Quoted, MarkText;
    if marks == [] {
      assert MarksText(marks) + ([quote] + rest) == [quote] + rest;
      QuoteCloses(quote, rest);
    } else {
      QuotedIsRead(marks[1..], quote, rest);
      var tail := MarksText(marks[1..]) + ([quote] + rest);
      assert MarksText(marks) + ([quote] + rest) == MarkText(marks[0]) + tail;
      MarkIsRead(marks[0], quote, tail);
    }
  }

  lemma QuoteCloses(quote: char, rest: string)
    ensures Quoted([quote] + rest, quote) == Some(("", 1))
  {
  }

  lemma MarkIsRead(m: Mark, quote: char, tail: string)
    requires (quote == '"' || quote == '\'') && (!m.escaped ==> m.c != quote && m.c != '\\')
    ensures Quoted(MarkText(m) + tail, quote) == Prefixed([m.c], |MarkText(m)|, Quoted(tail, quote))
  {
    var s := MarkText(m) + tail;
    assert s[|MarkText(m)|..] == tail;
  }

  // The first mark of quoted text that is not closed at once.
  lemma FirstMark(s: string, quote: char) returns (m: Mark, n: nat)
    requires (quote == '"' || quote == '\'') && Quoted(s, quote).Some? && s[0] != quote
    ensures 1 <= n <= |s| && MarkText(m) == s[..n] && (!m.escaped ==> m.c != quote && m.c != '\\')
    ensures Quoted(s, quote) == Prefixed([m.c], n, Quoted(s[n..], quote))
  {
    if s[0] == '\\' {
      m, n := Mark(true, s[1]), 2;
    } else {
      m, n := Mark(false, s[0]), 1;
    }
  }

  lemma {:induction false} ReadQuote(s: string, quote: char) returns (marks: seq<Mark>)
    requires (quote == '"' || quote == '\'') && Quoted(s, quote).Some?
    ensures
      var (value, n) := Quoted(s, quote).value;
      MarksOk(quote, marks) && MarksText(marks) + [quote] == s[..n] && value == MarksValue(marks)
    decreases |s|
  {
    hide MarkText;
    if s[0] == quote {
      marks := [];
      assert s[..1] == [quote];
    } else {
      var first, used := FirstMark(s, quote);
      var n := Quoted(s, quote).value.1;
      hide Quoted;
      var more := ReadQuote(s[used..], quote);
      marks := [first] + more;
      assert marks[1..] == more;
      assert s[..n] == s[..used] + s[used..][..n - used];
    }
  }

  // ----- bare words ----------------------------------------------------------

  predicate Ends(s: string) {
    s == "" || IsSpace(s[0]) || IsSign(s[0])
  }

  lemma {:induction false} WordIsRead(parts: seq<Part>, rest: string)
    requires PartsOk(parts) && Ends(rest)
    ensures BareWord(PartsText(parts) + rest) == Some((PartsValue(parts), |PartsText(parts)|))
    decreases |parts|
  {
    hide BareWord, PartText, PartValue, PartOk, Ends;
    if parts == [] {
      assert PartsText(parts) + rest == rest;
      NothingMore(rest);
    } else {
      var p := parts[0];
      var tail := PartsText(parts[1..]) + rest;
      WordIsRead(parts[1..], rest);
      assert PartsText(parts) + rest == PartText(p) + tail;
      PartIsRead(p, tail, PartsValue(parts[1..]), |PartsText(parts[1..])|);
    }
  }

  lemma NoQuoteFirst(s: string)
    requires Ends(s)
    ensures s == "" || !IsQuote(s[0])
  {
  }

  lemma PartIsRead(p: Part, tail: string, value: string, n: nat)
    requires PartOk(p) && n <= |tail| && BareWord(tail) == Some((value, n))
    ensures BareWord(PartText(p) + tail) == Some((PartValue(p) + value, |PartText(p)| + n))
  {
    hide Quoted, BareWord, IsSpace, MarksText, MarksValue;
    var s := PartText(p) + tail;
    match p
    case Plain(c) =>
      assert s[1..] == tail;
      PlainStep(s);
    case Stretch(quote, marks) =>
      QuoteAhead(quote, MarksText(marks), tail);
      QuotedIsRead(marks, quote, tail);
      StretchStep(s);
  }

  lemma QuoteAhead(quote: char, text: string, tail: string)
    ensures
      var s := ([quote] + (text + [quote])) + tail;
      s[0] == quote && s[1..] == text + ([quote] + tail) && s[1 + (|text| + 1)..] == tail
  {
  }

  // The first part of a bare word that does not end at once.
  lemma FirstPart(s: string) returns (p: Part, n: nat)
    requires !Ends(s) && BareWord(s).Some?
    ensures 1 <= n <= |s| && PartOk(p) && PartText(p) == s[..n] && p.Plain? == !IsQuote(s[0])
    ensures BareWord(s) == Prefixed(PartValue(p), n, BareWord(s[n..]))
  {
    hide Quoted, BareWord, IsSpace, MarksText, MarksValue;
    if IsQuote(s[0]) {
      StretchStep(s);
      var marks := ReadQuote(s[1..], s[0]);
      p, n := Stretch(s[0], marks), 1 + Quoted(s[1..], s[0]).value.1;
      assert s[..n] == [s[0]] + s[1..][..n - 1];
    } else {
      p, n := Part.Plain(s[0]), 1;
      PlainStep(s);
    }
  }

  lemma NothingMore(s: string)
    requires Ends(s)
    ensures BareWord(s) == Some(("", 0))
  {
    hide Quoted, IsSpace;
    NoQuoteFirst(s);
  }

  lemma {:induction false} ReadName(s: string) returns (parts: seq<Part>)
    requires BareWord(s).Some?
    ensures
      var (value, n) := BareWord(s).value;
      PartsOk(parts) && PartsText(parts) == s[..n] && PartsValue(parts) == value && Ends(s[n..])
    ensures if Ends(s) then parts == [] else parts != [] && parts[0].Plain? == !IsQuote(s[0])
    decreases |s|
  {
    hide Quoted, BareWord, Ends, PartText, PartValue, PartOk, IsQuote;
    if Ends(s) {
      parts := [];
      NothingMore(s);
      assert s[0..] == s;
    } else {
      var first, used := FirstPart(s);
      var more := ReadName(s[used..]);
      parts := [first] + more;
      assert parts[1..] == more;
      var n := BareWord(s).value.1;
      assert s[..n] == s[..used] + s[used..][..n - used] && s[used..][n - used..] == s[n..];
    }
  }

  // ----- tokens --------------------------------------------------------------

  lemma EndsText(pieces: seq<Piece>)
    requires PiecesOk(pieces) && (pieces == [] || pieces[0].Blank? || pieces[0].Sign?)
    ensures Ends(PiecesText(pieces))
  {
    hide IsSpace;
    assert pieces != [] ==> PieceOk(pieces[0]);
  }

  lemma PieceIsRead(p: Piece, rest: string)
    requires PieceOk(p) && (p.Name? ==> Ends(rest))
    ensures Tokenize(PieceText(p) + rest) == After(PieceTokens(p), rest)
  {
    hide Quoted, BareWord, IsSpace, PartsText, PartsValue, MarksText, MarksValue;
    var s := PieceText(p) + rest;
    match p
    case Blank(c) =>
      assert s[1..] == rest;
      SpaceIsNoSign(c);
      assert After([], rest) == Tokenize(rest) by {
        assert Tokenize(rest).Ok? ==> [] + Tokenize(rest).value == Tokenize(rest).value;
      }
    case Sign(_) => assert s[1..] == rest; SignIsNoSpace(s[0]);
    case Value(quote, marks) =>
      QuoteAhead(quote, MarksText(marks), rest);
      QuotedIsRead(marks, quote, rest);
      QuoteIsNoSpace(quote);
    case Name(parts) =>
      WordIsRead(parts, rest);
      FirstOfName(parts);
      assert s[|PartsText(parts)|..] == rest;
  }

  lemma FirstOfName(parts: seq<Part>)
    requires parts != [] && parts[0].Plain? && PartsOk(parts)
    ensures PartsText(parts) != "" && PartsText(parts)[0] == parts[0].c && PartsValue(parts) != ""
    ensures !IsSpace(parts[0].c) && Operator(parts[0].c).None? && !IsQuote(parts[0].c)
  {
    hide IsSpace;
    assert PartOk(parts[0]);
  }

  lemma SpaceIsNoSign(c: char)
    requires IsSpace(c)
    ensures Operator(c).None? && !IsQuote(c)
  {
  }

  lemma SignIsNoSpace(c: char)
    requires IsSign(c)
    ensures !IsSpace(c) && !IsQuote(c)
  {
  }

  lemma QuoteIsNoSpace(c: char)
    requires c == '"' || c == '\''
    ensures !IsSpace(c) && Operator(c).None?
  {
  }

  lemma {:induction false} PiecesAreRead(pieces: seq<Piece>)
    requires PiecesOk(pieces)
    ensures Tokenize(PiecesText(pieces)) == Ok(PiecesTokens(pieces))
    decreases |pieces|
  {
    hide PieceText, PieceTokens, Tokenize, PieceOk, Ends;
    if pieces == [] {
      NoText();
    } else {
      assert PieceOk(pieces[0]);
      PiecesAreRead(pieces[1..]);
      if pieces[0].Name? {
        assert |pieces| > 1 ==> pieces[1..][0] == pieces[1];
        EndsText(pieces[1..]);
      }
      PieceIsRead(pieces[0], PiecesText(pieces[1..]));
    }
  }

  lemma NoText()
    ensures Tokenize("") == Ok([])
  {
  }

  // The first piece of text that can be tokenized.
  lemma FirstPiece(s: string) returns (p: Piece, n: nat)
    requires s != "" && Tokenize(s).Ok?
    ensures 1 <= n <= |s| && PieceOk(p) && PieceText(p) == s[..n] && (p.Name? ==> Ends(s[n..]))
    ensures Tokenize(s) == After(PieceTokens(p), s[n..])
  {
    hide Quoted, BareWord, IsSpace, PartsText, PartsValue, MarksText, MarksValue;
    if IsSpace(s[0]) {
      p, n := Blank(s[0]), 1;
      assert Tokenize(s[1..]).Ok? ==> [] + Tokenize(s[1..]).value == Tokenize(s[1..]).value;
    } else if Operator(s[0]).Some? {
      p, n := Sign(Operator(s[0]).value), 1;
    } else if IsQuote(s[0]) {
      var marks := ReadQuote(s[1..], s[0]);
      p, n := Value(s[0], marks), 1 + Quoted(s[1..], s[0]).value.1;
      assert s[..n] == [s[0]] + s[1..][..n - 1];
    } else {
      var parts := ReadName(s);
      p, n := Name(parts), BareWord(s).value.1;
      FirstOfName(parts);
    }
  }

  lemma {:induction false} ReadPieces(s: string) returns (pieces: seq<Piece>)
    requires Tokenize(s).Ok?
    ensures PiecesOk(pieces) && PiecesText(pieces) == s && PiecesTokens(pieces) == Tokenize(s).value
    decreases |s|
  {
    hide Tokenize, PieceText, PieceTokens, PieceOk, Ends;
    if s == "" {
      pieces := [];
      NoText();
    } else {
      var p, n := FirstPiece(s);
      var more := ReadPieces(s[n..]);
      pieces := [p] + more;
      assert pieces[1..] == more;
      assert s == s[..n] + s[n..];
      if p.Name? && more != [] {
        assert PieceOk(more[0]);
        EndsFirst(more);
      }
      forall i | 0 <= i < |pieces|
        ensures PieceOk(pieces[i])
        ensures i + 1 < |pieces| && pieces[i].Name? ==> pieces[i + 1].Blank? || pieces[i + 1].Sign?
      {
        if i > 0 {
          assert PieceOk(more[i - 1]);
        }
      }
    }
  }

  lemma EndsFirst(pieces: seq<Piece>)
    requires pieces != [] && PieceOk(pieces[0]) && Ends(PiecesText(pieces))
    ensures pieces[0].Blank? || pieces[0].Sign?
  {
    hide IsSpace, MarksText;
    match pieces[0]
    case Value(quote, _) => QuoteIsNoSpace(quote);
    case Name(parts) => FirstOfName(parts);
    case _ =>
  }

  // Text is accepted exactly when it is made of such pieces, and its tokens are theirs.
  lemma TokensMeaning(s: string, tokens: seq<Token>)
    ensures Tokenize(s) == Ok(tokens)
       <==> exists pieces :: PiecesOk(pieces) && PiecesText(pieces) == s && PiecesTokens(pieces) == tokens
    ensures Tokenize(s).Err? ==> Tokenize(s).error == UnterminatedQuote
  {
    hide Tokenize, PiecesOk, PiecesText, PiecesTokens;
    if Tokenize(s).Ok? {
      var pieces := ReadPieces(s);
    }
    if pieces :| PiecesOk(pieces) && PiecesText(pieces) == s && PiecesTokens(pieces) == tokens {
      PiecesAreRead(pieces);
    }
    OnlyFault(s);
  }

  lemma {:induction false} OnlyFault(s: string)
    ensures Tokenize(s).Err? ==> Tokenize(s).error == UnterminatedQuote
    decreases |s|
  {
    hide Quoted, BareWord, IsSpace;
    if s != "" {
      OnlyFault(s[1..]);
      if !IsSpace(s[0]) && Operator(s[0]).None? {
        if IsQuote(s[0]) {
          if Quoted(s[1..], s[0]).Some? {
            OnlyFault(s[1 + Quoted(s[1..], s[0]).value.1..]);
          }
        } else if BareWord(s).Some? {
          OnlyFault(s[BareWord(s).value.1..]);
        }
      }
    }
  }

  // A filter is read as the expression its tokens are derived from; none matches all.
  lemma FilterMeaning(pieces: seq<Piece>, e: Expression)
    requires PiecesOk(pieces)
    ensures
      var tokens := PiecesTokens(pieces);
      ParseFilter(PiecesText(pieces)) == Ok(e)
      <==> if tokens == [] then e == MatchAll else exists t :: OrValid(t) && OrYield(t) == tokens && OrBuild(t) == e
  {
    hide Tokenize, PiecesOk, PiecesText, PiecesTokens, OrValid, OrYield, OrBuild, ParseTokens;
    PiecesAreRead(pieces);
    var tokens := PiecesTokens(pieces);
    if t :| OrValid(t) && OrYield(t) == tokens && OrBuild(t) == e {
      ParserIsGrammar(tokens, t);
    }
    if ParseTokens(tokens).Ok? {
      ParserIsGrammar(tokens, ParseTokens(tokens).value);
    }
  }
}
