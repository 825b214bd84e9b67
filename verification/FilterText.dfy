// Filter expressions as text: the tokenizer, and printing an expression so that it
// is read back.
module FilterText {
  import opened Results
  import opened Text
  import opened FilterSyntax

  // ----- tokens --------------------------------------------------------------

  function Operator(c: char): Option<Token> {
    if c == '&' then Some(AndToken)
    else if c == '|' then Some(OrToken)
    else if c == '!' then Some(NotToken)
    else if c == '(' then Some(LeftParen)
    else if c == ')' then Some(RightParen)
    else None
  }

  predicate IsQuote(c: char) {
    c == '"' || c == '\''
  }

  // The value read so far and what is still to be read.
  function Prefixed(value: string, used: nat, r: Option<(string, nat)>): Option<(string, nat)> {
    match r
    case None => None
    case Some((more, n)) => Some((value + more, used + n))
  }

  // The text up to the closing quote, with what a backslash precedes taken as it is;
  // and the characters used, the closing quote included.
  function Quoted(s: string, quote: char): (r: Option<(string, nat)>)
    ensures r.Some? ==> 1 <= r.value.1 <= |s|
    decreases |s|
  {
    if s == "" then None
    else if s[0] == quote then Some(("", 1))
    else if s[0] == '\\' then if |s| < 2 then None else Prefixed([s[1]], 2, Quoted(s[2..], quote))
    else Prefixed([s[0]], 1, Quoted(s[1..], quote))
  }

  // A bare word; quoted stretches may be part of it.
  function BareWord(s: string): (r: Option<(string, nat)>)
    ensures r.Some? ==> r.value.1 <= |s|
    ensures r.Some? && s != "" && !IsSpace(s[0]) && Operator(s[0]).None? ==> 1 <= r.value.1
    decreases |s|
  {
    if s == "" then Some(("", 0))
    else if IsQuote(s[0]) then
      match Quoted(s[1..], s[0])
      case None => None
      case Some((value, n)) => Prefixed(value, 1 + n, BareWord(s[1 + n..]))
    else if IsSpace(s[0]) || Operator(s[0]).Some? then Some(("", 0))
    else Prefixed([s[0]], 1, BareWord(s[1..]))
  }

  function Tokenize(s: string): Result<seq<Token>, FilterError>
    decreases |s|, 0
  {
    if s == "" then Ok([])
    else if IsSpace(s[0]) then Tokenize(s[1..])
    else if Operator(s[0]).Some? then After([Operator(s[0]).value], s[1..])
    else if IsQuote(s[0]) then
      match Quoted(s[1..], s[0])
      case None => Err(UnterminatedQuote)
      case Some((value, n)) => After([Word(value)], s[1 + n..])
    else
      match BareWord(s)
      case None => Err(UnterminatedQuote)
      case Some((value, n)) => After(if value != "" then [Word(value)] else [], s[n..])
  }

  function After(tokens: seq<Token>, s: string): Result<seq<Token>, FilterError>
    decreases |s|, 1
  {
    match Tokenize(s)
    case Err(e) => Err(e)
    case Ok(rest) => Ok(tokens + rest)
  }

  function ParseFilter(input: string): Result<Expression, FilterError> {
    match Tokenize(input)
    case Err(e) => Err(e)
    case Ok(tokens) =>
      if tokens == [] then Ok(MatchAll)
      else
        match ParseTokens(tokens)
        case Err(e) => Err(e)
        case Ok(t) => ParserIsGrammar(tokens, t); Ok(OrBuild(t))
  }

  // ----- printing tokens -----------------------------------------------------

  function Escaped(s: string): string {
    if s == "" then ""
    else (if s[0] == '"' || s[0] == '\\' then ['\\', s[0]] else [s[0]]) + Escaped(s[1..])
  }

  function PrintToken(t: Token): string {
    match t
    case Word(text) => ['"'] + (Escaped(text) + ['"'])
    case AndToken => "&"
    case OrToken => "|"
    case NotToken => "!"
    case LeftParen => "("
    case RightParen => ")"
  }

  function PrintTokens(tokens: seq<Token>): string {
    if tokens == [] then "" else PrintToken(tokens[0]) + ([' '] + PrintTokens(tokens[1..]))
  }

  lemma {:induction false} QuotedRoundTrip(text: string, rest: string)
    ensures Quoted(Escaped(text) + (['"'] + rest), '"') == Some((text, |Escaped(text)| + 1))
  {
    if text != "" {
      QuotedRoundTrip(text[1..], rest);
      var tail := Escaped(text[1..]) + (['"'] + rest);
      var head := if text[0] == '"' || text[0] == '\\' then ['\\', text[0]] else [text[0]];
      assert Escaped(text) + (['"'] + rest) == head + tail;
      assert (head + tail)[|head|..] == tail;
      assert text == [text[0]] + text[1..];
    }
  }

  lemma TokenRoundTrip(t: Token, rest: string)
    ensures Tokenize(PrintToken(t) + rest) == After([t], rest)
  {
    hide Quoted, BareWord, Escaped;
    var s := PrintToken(t) + rest;
    if t.Word? {
      QuotedRoundTrip(t.text, rest);
      var after := Escaped(t.text) + (['"'] + rest);
      assert s == ['"'] + after;
      assert s[1..] == after;
      assert s[1 + (|Escaped(t.text)| + 1)..] == rest;
    } else {
      assert s[1..] == rest;
    }
  }

  // Tokenizing printed tokens gives them back, whatever their words hold.
  lemma {:induction false} TokensRoundTrip(tokens: seq<Token>)
    ensures Tokenize(PrintTokens(tokens)) == Ok(tokens)
  {
    hide PrintToken, Quoted, BareWord;
    if tokens != [] {
      TokensRoundTrip(tokens[1..]);
      var spaced := [' '] + PrintTokens(tokens[1..]);
      TokenRoundTrip(tokens[0], spaced);
      assert spaced[1..] == PrintTokens(tokens[1..]);
      assert tokens == [tokens[0]] + tokens[1..];
    }
  }

  // ----- printing terms ------------------------------------------------------

  function FieldName(f: Field): string {
    match f
    case Time => "time"
    case Proto => "proto"
    case Path => "path"
    case Url => "url"
    case Size => "size"
    case Duration => "duration"
    case RequestBody => "req-body"
    case ResponseBody => "res-body"
    case RequestHeader => "req-header"
    case ResponseHeader => "res-header"
    case _ => ""
  }

  function AliasOf(f: Field): Option<string> {
    match f
    case Host => Some("~d")
    case Method => Some("~m")
    case Status => Some("~s")
    case ContentType => Some("~t")
    case Body => Some("~b")
    case Header => Some("~h")
    case _ => None
  }

  // A bare needle that would be taken for an alias is written in capitals: aliases
  // are recognised in lower case only, and needles are lowered.
  function BareNeedle(needle: string): string {
    if Alias(needle).Some? then ['~', Capital(needle[1])] else needle
  }

  function Capital(c: char): char {
    if 'a' <= c <= 'z' then c - 32 as char else c
  }

  lemma AliasShape(word: string)
    requires Alias(word).Some?
    ensures |word| == 2 && word[0] == '~' && 'a' <= word[1] <= 'z'
  {
  }

  lemma CapitalIsNoAlias(c: char)
    requires 'a' <= c <= 'z'
    ensures Alias(['~', Capital(c)]).None? && LowerChar(Capital(c)) == c && Capital(c) != ':'
  {
    var word := ['~', Capital(c)];
    assert word[1] == Capital(c);
    if Alias(word).Some? {
      AliasShape(word);
    }
  }

  function TermTree(t: Term): UnaryTree {
    if t.field.Any? then Plain(BareNeedle(t.needle))
    else
      match AliasOf(t.field)
      case Some(alias) => Aliased(alias, t.needle)
      case None => Plain(FieldName(t.field) + ([':'] + t.needle))
  }

  // The terms the parser makes: lowered needles, empty only after an alias, and a
  // bare one that does not read as field:value.
  predicate ParsedTerm(t: Term) {
    LowerText(t.needle) == t.needle
    && (t.field.Any? ==> FieldAndValue(t.needle).None?)
    && (AliasOf(t.field).None? ==> t.needle != "")
  }

  lemma {:induction false} LowerMeaning(s: string)
    ensures forall i :: 0 <= i < |s| ==> LowerText(s)[i] == LowerChar(s[i])
    ensures LowerText(LowerText(s)) == LowerText(s)
  {
    if s != "" {
      LowerMeaning(s[1..]);
      assert LowerText(s)[1..] == LowerText(s[1..]);
    }
  }

  lemma {:induction false} LowerSlices(s: string, i: nat)
    requires i <= |s|
    ensures LowerText(s[..i]) == LowerText(s)[..i] && LowerText(s[i..]) == LowerText(s)[i..]
  {
    hide LowerChar;
    if i > 0 {
      LowerSlices(s[1..], i - 1);
      assert s[..i][1..] == s[1..][..i - 1] && s[1..][i - 1..] == s[i..];
      assert LowerText(s) == [LowerChar(s[0])] + LowerText(s[1..]);
      assert LowerText(s)[i..] == LowerText(s[1..])[i - 1..];
    }
  }

  lemma {:induction false} IndexLowered(s: string)
    ensures IndexOf(LowerText(s), ':') == IndexOf(s, ':')
  {
    if s != "" {
      IndexLowered(s[1..]);
      assert LowerText(s)[1..] == LowerText(s[1..]);
    }
  }

  lemma FieldLowered(name: string)
    ensures ParseField(LowerText(name)) == ParseField(name)
  {
    hide FieldNamed, LowerText;
    LowerMeaning(name);
  }

  lemma FieldValueLowered(word: string)
    ensures FieldAndValue(LowerText(word)).None? <==> FieldAndValue(word).None?
  {
    hide LowerText, ParseField, IndexOf;
    IndexLowered(word);
    var i := IndexOf(word, ':');
    if i.Some? {
      LowerSlices(word, i.value);
      FieldLowered(word[..i.value]);
    }
  }

  lemma ParsedFieldIsNotAny(name: string)
    ensures ParseField(name) != Some(Any)
  {
    hide LowerText;
  }

  // Every term the parser makes can be printed.
  lemma PlainIsParsed(word: string)
    requires PlainTerm(word).Ok?
    ensures ParsedTerm(PlainTerm(word).value)
  {
    hide LowerText, ParseField, IndexOf, AliasOf;
    FieldValueLowered(word);
    var i := IndexOf(word, ':');
    if i.Some? {
      ParsedFieldIsNotAny(word[..i.value]);
      LowerMeaning(word[i.value + 1..]);
    }
    LowerMeaning(word);
  }

  lemma {:induction false} IndexAfter(name: string, rest: string)
    requires ':' !in name
    ensures IndexOf(name + ([':'] + rest), ':') == Some(|name|)
  {
    var s := name + ([':'] + rest);
    if name != "" {
      assert s[1..] == name[1..] + ([':'] + rest);
      assert name[0] in name;
      IndexAfter(name[1..], rest);
    }
  }

  lemma {:induction false} AlreadyLower(s: string)
    requires forall i :: 0 <= i < |s| ==> LowerChar(s[i]) == s[i]
    ensures LowerText(s) == s
  {
    if s != "" {
      AlreadyLower(s[1..]);
    }
  }

  lemma FieldNameParses(f: Field)
    requires !f.Any? && AliasOf(f).None?
    ensures ParseField(FieldName(f)) == Some(f) && ':' !in FieldName(f) && FieldName(f) != "" && FieldName(f)[0] != '~'
  {
    hide LowerText, FieldNamed;
    AlreadyLower(FieldName(f));
    FieldNameNamed(f);
  }

  lemma FieldNameNamed(f: Field)
    requires !f.Any? && AliasOf(f).None?
    ensures FieldNamed(FieldName(f)) == Some(f)
  {
  }

  lemma AliasMeaning(f: Field)
    requires AliasOf(f).Some?
    ensures Alias(AliasOf(f).value) == Some(f)
  {
  }

  lemma BareNeedleReads(needle: string)
    requires needle != "" && LowerText(needle) == needle && FieldAndValue(needle).None?
    ensures Alias(BareNeedle(needle)).None? && PlainTerm(BareNeedle(needle)) == Ok(Term(Any, needle))
  {
    hide Alias, ParseField;
    if Alias(needle).Some? {
      AliasShape(needle);
      CapitalIsNoAlias(needle[1]);
      TwoCharacters('~', Capital(needle[1]));
      assert needle == ['~', needle[1]];
    }
  }

  lemma TwoCharacters(a: char, b: char)
    requires a != ':' && b != ':'
    ensures LowerText([a, b]) == [LowerChar(a), LowerChar(b)] && IndexOf([a, b], ':').None?
  {
    hide LowerChar;
    assert [a, b][1..] == [b] && [b][1..] == "";
    assert LowerText([b]) == [LowerChar(b)];
    assert IndexOf([b], ':').None?;
  }

  lemma FieldTermReads(t: Term)
    requires ParsedTerm(t) && !t.field.Any? && AliasOf(t.field).None?
    ensures
      var word := FieldName(t.field) + ([':'] + t.needle);
      Alias(word).None? && PlainTerm(word) == Ok(t)
  {
    hide LowerText, ParseField, IndexOf, FieldName;
    FieldNameParses(t.field);
    var name := FieldName(t.field);
    var word := name + ([':'] + t.needle);
    IndexAfter(name, t.needle);
    assert word[0] == name[0];
    assert word[..|name|] == name && word[|name| + 1..] == t.needle;
  }

  // A printed term is read back as the term.
  lemma TermReads(t: Term)
    requires ParsedTerm(t)
    ensures UnaryValid(TermTree(t)) && UnaryBuild(TermTree(t)) == Leaf(t)
  {
    hide LowerText, PlainTerm, FieldAndValue, Alias, FieldName, BareNeedle;
    if t.field.Any? {
      BareNeedleReads(t.needle);
    } else if AliasOf(t.field).Some? {
      AliasMeaning(t.field);
    } else {
      FieldTermReads(t);
    }
  }

  // ----- printing expressions ------------------------------------------------

  predicate ParsedExpression(e: Expression) {
    match e
    case MatchAll => false
    case Leaf(t) => ParsedTerm(t)
    case Not(x) => ParsedExpression(x)
    case And(x, y) => ParsedExpression(x) && ParsedExpression(y)
    case Or(x, y) => ParsedExpression(x) && ParsedExpression(y)
  }

  // The derivation with the fewest parentheses.
  function OrTreeOf(e: Expression): OrTree
    requires ParsedExpression(e)
    decreases e, if e.Or? then 0 else 2
  {
    if e.Or? then OrOf(OrTreeOf(e.left), AndTreeOf(e.right)) else OneAnd(AndTreeOf(e))
  }

  function AndTreeOf(e: Expression): AndTree
    requires ParsedExpression(e)
    decreases e, 1
  {
    match e
    case And(x, y) => AndOf(AndTreeOf(x), true, UnaryTreeOf(y))
    case Or(_, _) => OneUnary(Paren(OrTreeOf(e)))
    case Not(x) => OneUnary(NotOf(UnaryTreeOf(x)))
    case Leaf(t) => OneUnary(TermTree(t))
  }

  function UnaryTreeOf(e: Expression): UnaryTree
    requires ParsedExpression(e)
    decreases e, 3
  {
    if e.Not? then NotOf(UnaryTreeOf(e.inner))
    else if e.Leaf? then TermTree(e.term)
    else Paren(OrTreeOf(e))
  }

  lemma {:induction false} OrTreeReads(e: Expression)
    requires ParsedExpression(e)
    ensures OrValid(OrTreeOf(e)) && OrBuild(OrTreeOf(e)) == e
    decreases e, if e.Or? then 0 else 2
  {
    if e.Or? {
      OrTreeReads(e.left);
      AndTreeReads(e.right);
    } else {
      AndTreeReads(e);
    }
  }

  lemma {:induction false} AndTreeReads(e: Expression)
    requires ParsedExpression(e)
    ensures AndValid(AndTreeOf(e)) && AndBuild(AndTreeOf(e)) == e
    decreases e, 1
  {
    match e
    case And(x, y) =>
      AndTreeReads(x);
      UnaryTreeReads(y);
    case Or(_, _) => OrTreeReads(e);
    case Not(x) => UnaryTreeReads(x);
    case Leaf(t) => TermReads(t);
  }

  lemma {:induction false} UnaryTreeReads(e: Expression)
    requires ParsedExpression(e)
    ensures UnaryValid(UnaryTreeOf(e)) && UnaryBuild(UnaryTreeOf(e)) == e
    decreases e, 3
  {
    if e.Not? {
      UnaryTreeReads(e.inner);
    } else if e.Leaf? {
      TermReads(e.term);
    } else {
      OrTreeReads(e);
    }
  }

  predicate PrintableFilter(e: Expression) {
    e.MatchAll? || ParsedExpression(e)
  }

  function PrintFilter(e: Expression): string
    requires PrintableFilter(e)
  {
    if e.MatchAll? then "" else PrintTokens(OrYield(OrTreeOf(e)))
  }

  lemma {:induction false} YieldNonEmpty(t: OrTree)
    ensures OrYield(t) != []
  {
    match t
    case OneAnd(a) => AndYieldNonEmpty(a);
    case OrOf(_, _) =>
  }

  lemma {:induction false} AndYieldNonEmpty(t: AndTree)
    ensures AndYield(t) != []
  {
  }

  // Tokenizing and parsing a printed expression gives the expression back.
  lemma FilterRoundTrip(e: Expression)
    requires PrintableFilter(e)
    ensures ParseFilter(PrintFilter(e)) == Ok(e)
  {
    hide OrYield, Tokenize, PrintTokens, ParseTokens, OrValid, OrTreeOf, ParsedExpression;
    if e.MatchAll? {
      EmptyFilter();
    } else {
      var t := OrTreeOf(e);
      OrTreeReads(e);
      TokensRoundTrip(OrYield(t));
      YieldNonEmpty(t);
      ParserIsGrammar(OrYield(t), t);
    }
  }

  lemma EmptyFilter()
    ensures Tokenize("") == Ok([])
  {
  }

  lemma {:induction false} OrBuilds(t: OrTree)
    requires OrValid(t)
    ensures ParsedExpression(OrBuild(t))
  {
    match t
    case OneAnd(a) => AndBuilds(a);
    case OrOf(l, a) =>
      OrBuilds(l);
      AndBuilds(a);
  }

  lemma {:induction false} AndBuilds(t: AndTree)
    requires AndValid(t)
    ensures ParsedExpression(AndBuild(t))
  {
    match t
    case OneUnary(u) => UnaryBuilds(u);
    case AndOf(l, _, u) =>
      AndBuilds(l);
      UnaryBuilds(u);
  }

  lemma {:induction false} UnaryBuilds(t: UnaryTree)
    requires UnaryValid(t)
    ensures ParsedExpression(UnaryBuild(t))
  {
    hide PlainTerm, LowerText, FieldAndValue;
    match t
    case NotOf(u) => UnaryBuilds(u);
    case Paren(o) => OrBuilds(o);
    case Plain(word) => PlainIsParsed(word);
    case Aliased(alias, value) => LowerMeaning(value);
  }

  // Every accepted input has a printed form with the same meaning, so that printing
  // a parsed filter and parsing it again changes nothing.
  lemma AcceptedPrints(input: string)
    requires ParseFilter(input).Ok?
    ensures PrintableFilter(ParseFilter(input).value)
    ensures ParseFilter(PrintFilter(ParseFilter(input).value)) == ParseFilter(input)
  {
    hide Tokenize, PrintFilter, OrValid, OrYield, ParsedExpression;
    var tokens := Tokenize(input).value;
    if tokens != [] {
      var t := ParseTokens(tokens).value;
      ParserIsGrammar(tokens, t);
      OrBuilds(t);
    }
    FilterRoundTrip(ParseFilter(input).value);
  }

  // ----- the tokenizer's loops -----------------------------------------------

  lemma QuotedStep(s: string, quote: char)
    requires s != ""
    ensures Quoted(s, quote) ==
      if s[0] == quote then Some(("", 1))
      else if s[0] == '\\' then (if |s| < 2 then None else Prefixed([s[1]], 2, Quoted(s[2..], quote)))
      else Prefixed([s[0]], 1, Quoted(s[1..], quote))
  {
  }

  lemma StretchStep(s: string)
    requires s != "" && IsQuote(s[0])
    ensures
      BareWord(s) == match Quoted(s[1..], s[0])
                     case None => None
                     case Some((value, n)) => Prefixed(value, 1 + n, BareWord(s[1 + n..]))
  {
    hide Quoted, IsSpace, Operator, Prefixed;
  }

  lemma PlainStep(s: string)
    requires s != "" && !IsQuote(s[0]) && !IsSpace(s[0]) && Operator(s[0]).None?
    ensures BareWord(s) == Prefixed([s[0]], 1, BareWord(s[1..]))
  {
    hide Quoted, IsSpace, Operator, Prefixed;
  }

  lemma EndStep(s: string)
    requires s != "" && !IsQuote(s[0]) && (IsSpace(s[0]) || Operator(s[0]).Some?)
    ensures BareWord(s) == Some(("", 0))
  {
    hide Quoted, IsSpace, Operator, Prefixed;
  }

  lemma BareWordStep(s: string)
    requires s != ""
    ensures BareWord(s) ==
      if IsQuote(s[0]) then
        match Quoted(s[1..], s[0])
        case None => None
        case Some((value, n)) => Prefixed(value, 1 + n, BareWord(s[1 + n..]))
      else if IsSpace(s[0]) || Operator(s[0]).Some? then Some(("", 0))
      else Prefixed([s[0]], 1, BareWord(s[1..]))
  {
    hide BareWord, Quoted, IsSpace, Operator, Prefixed, IsQuote;
    if IsQuote(s[0]) {
      StretchStep(s);
    } else if IsSpace(s[0]) || Operator(s[0]).Some? {
      EndStep(s);
    } else {
      PlainStep(s);
    }
  }

  lemma Ended()
    ensures BareWord("") == Some(("", 0)) && forall quote :: Quoted("", quote) == None
  {
  }

  lemma JoinEnd(value: string, used: nat, n: nat)
    ensures Prefixed(value, used, Some(("", n))) == Some((value, used + n))
  {
    assert value + "" == value;
  }

  method ReadQuoted(s: string, start: nat, quote: char) returns (r: Option<(string, nat)>)
    requires start <= |s|
    ensures r == Quoted(s[start..], quote)
  {
    hide Quoted, Prefixed;
    var value := "";
    var i := start;
    ghost var whole := Quoted(s[start..], quote);
    JoinNothing(whole);
    while i < |s|
      invariant start <= i <= |s|
      invariant whole == Prefixed(value, i - start, Quoted(s[i..], quote))
    {
      var current := s[i];
      ghost var here, used := s[i..], i - start;
      QuotedStep(here, quote);
      i := i + 1;
      assert here[1..] == s[i..];
      if current == quote {
        JoinEnd(value, used, 1);
        return Some((value, i - start));
      }
      if current == '\\' {
        if i < |s| {
          assert here[2..] == s[i + 1..] && here[1] == s[i];
          JoinOne(value, s[i], used, 2, Quoted(s[i + 1..], quote));
          value := value + [s[i]];
          i := i + 1;
        } else {
          NothingJoined(value, used);
          return None;
        }
      } else {
        JoinOne(value, current, used, 1, Quoted(s[i..], quote));
        value := value + [current];
      }
    }
    assert s[i..] == "";
    Ended();
    NothingJoined(value, i - start);
    r := None;
  }

  lemma NothingJoined(value: string, used: nat)
    ensures Prefixed(value, used, None) == None
  {
  }

  lemma JoinNothing(r: Option<(string, nat)>)
    ensures Prefixed("", 0, r) == r
  {
    if r.Some? {
      assert "" + r.value.0 == r.value.0;
    }
  }

  lemma JoinOne(value: string, c: char, used: nat, n: nat, r: Option<(string, nat)>)
    ensures Prefixed(value, used, Prefixed([c], n, r)) == Prefixed(value + [c], used + n, r)
  {
    if r.Some? {
      assert value + ([c] + r.value.0) == (value + [c]) + r.value.0;
    }
  }

  lemma JoinMany(value: string, more: string, used: nat, n: nat, r: Option<(string, nat)>)
    ensures Prefixed(value, used, Prefixed(more, n, r)) == Prefixed(value + more, used + n, r)
  {
    if r.Some? {
      assert value + (more + r.value.0) == (value + more) + r.value.0;
    }
  }

  method ReadWord(s: string, start: nat) returns (r: Option<(string, nat)>)
    requires start <= |s|
    ensures r == BareWord(s[start..])
  {
    hide Quoted, IsSpace, BareWord, Prefixed, IsQuote, Operator;
    var value := "";
    var i := start;
    ghost var whole := BareWord(s[start..]);
    JoinNothing(whole);
    while i < |s|
      invariant start <= i <= |s|
      invariant whole == Prefixed(value, i - start, BareWord(s[i..]))
    {
      var current := s[i];
      ghost var here, used := s[i..], i - start;
      BareWordStep(here);
      assert here[1..] == s[i + 1..];
      if IsQuote(current) {
        var quoted := ReadQuoted(s, i + 1, current);
        if quoted.None? {
          NothingJoined(value, used);
          return None;
        }
        var n := quoted.value.1;
        assert here[1 + n..] == s[i + 1 + n..];
        JoinMany(value, quoted.value.0, used, 1 + n, BareWord(s[i + 1 + n..]));
        value := value + quoted.value.0;
        i := i + 1 + n;
      } else if IsSpace(current) || Operator(current).Some? {
        JoinEnd(value, used, 0);
        return Some((value, i - start));
      } else {
        JoinOne(value, current, used, 1, BareWord(s[i + 1..]));
        value := value + [current];
        i := i + 1;
      }
    }
    assert s[i..] == "";
    Ended();
    JoinEnd(value, i - start, 0);
    r := Some((value, i - start));
  }

  method ReadTokens(s: string) returns (r: Result<seq<Token>, FilterError>)
    ensures r == Tokenize(s)
  {
    hide Quoted, BareWord, IsSpace;
    var tokens: seq<Token> := [];
    var i := 0;
    ghost var whole := Tokenize(s);
    assert s[0..] == s;
    assert forall rest: seq<Token> :: [] + rest == rest;
    while i < |s|
      invariant 0 <= i <= |s|
      invariant whole == After(tokens, s[i..])
    {
      var c := s[i];
      ghost var here, before := s[i..], tokens;
      assert here[1..] == s[i + 1..];
      if IsSpace(c) {
        i := i + 1;
        continue;
      }
      var operator := Operator(c);
      if operator.Some? {
        tokens := tokens + [operator.value];
        i := i + 1;
        JoinTokens(before, [operator.value], s[i..]);
      } else if IsQuote(c) {
        var quoted := ReadQuoted(s, i + 1, c);
        if quoted.None? {
          return Err(UnterminatedQuote);
        }
        tokens := tokens + [Word(quoted.value.0)];
        assert here[1 + quoted.value.1..] == s[i + 1 + quoted.value.1..];
        i := i + 1 + quoted.value.1;
        JoinTokens(before, [Word(quoted.value.0)], s[i..]);
      } else {
        var word := ReadWord(s, i);
        if word.None? {
          return Err(UnterminatedQuote);
        }
        assert here[word.value.1..] == s[i + word.value.1..];
        i := i + word.value.1;
        if word.value.0 != "" {
          tokens := tokens + [Word(word.value.0)];
        } else {
          assert tokens + [] == tokens;
        }
        JoinTokens(before, if word.value.0 != "" then [Word(word.value.0)] else [], s[i..]);
      }
    }
    assert tokens + [] == tokens;
    r := Ok(tokens);
  }

  lemma JoinTokens(a: seq<Token>, b: seq<Token>, s: string)
    ensures match After(b, s)
            case Err(e) => After(a + b, s) == Err(e)
            case Ok(rest) => After(a + b, s) == Ok(a + rest)
  {
    hide Tokenize;
    var r := Tokenize(s);
    if r.Ok? {
      assert After(b, s) == Ok(b + r.value);
      assert a + (b + r.value) == (a + b) + r.value;
    }
  }
}
