// The flow filter language: its tokens, its terms, its grammar, and the recursive
// descent parser against that grammar.
module FilterSyntax {
  import opened Results

  datatype Field =
    | Any | Time | Proto | Method | Host | Path | Url | Status | ContentType | Size | Duration | Body
    | RequestBody | ResponseBody | Header | RequestHeader | ResponseHeader

  datatype Term = Term(field: Field, needle: string)

  datatype Expression = MatchAll | Leaf(term: Term) | Not(inner: Expression)
    | And(left: Expression, right: Expression) | Or(left: Expression, right: Expression)

  datatype Token = Word(text: string) | AndToken | OrToken | NotToken | LeftParen | RightParen

  datatype FilterError =
    | UnterminatedQuote
    | TrailingToken
    | MissingParen
    | UnexpectedParen
    | MissingOperand
    | EndedUnexpectedly
    | AliasNeedsValue
    | EmptyTerm

  // ----- terms ---------------------------------------------------------------

  function LowerChar(c: char): char {
    if 'A' <= c <= 'Z' then c + 32 as char else c
  }

  function LowerText(s: string): (r: string)
    ensures |r| == |s|
  {
    if s == "" then "" else [LowerChar(s[0])] + LowerText(s[1..])
  }

  function ParseField(name: string): Option<Field> {
    FieldNamed(LowerText(name))
  }

  function FieldNamed(n: string): Option<Field> {
    if n == "time" then Some(Time)
    else if n == "proto" || n == "protocol" then Some(Proto)
    else if n == "method" then Some(Method)
    else if n == "host" || n == "domain" then Some(Host)
    else if n == "path" then Some(Path)
    else if n == "url" || n == "uri" then Some(Url)
    else if n == "status" || n == "status-code" || n == "status_code" then Some(Status)
    else if n == "type" || n == "content-type" || n == "content_type" then Some(ContentType)
    else if n == "size" then Some(Size)
    else if n == "duration" || n == "time-ms" || n == "time_ms" then Some(Duration)
    else if n == "body" then Some(Body)
    else if n == "request-body" || n == "request_body" || n == "req-body" || n == "req_body" then Some(RequestBody)
    else if n == "response-body" || n == "response_body" || n == "res-body" || n == "res_body" then Some(ResponseBody)
    else if n == "header" then Some(Header)
    else if n == "request-header" || n == "request_header" || n == "req-header" || n == "req_header" then Some(RequestHeader)
    else if n == "response-header" || n == "response_header" || n == "res-header" || n == "res_header" then Some(ResponseHeader)
    else None
  }

  function Alias(word: string): Option<Field> {
    if word == "~d" then Some(Host)
    else if word == "~m" then Some(Method)
    else if word == "~s" then Some(Status)
    else if word == "~t" then Some(ContentType)
    else if word == "~b" then Some(Body)
    else if word == "~h" then Some(Header)
    else None
  }

  function IndexOf(s: string, c: char): (r: Option<nat>)
    ensures r.Some? ==> r.value < |s|
  {
    if s == "" then None
    else if s[0] == c then Some(0)
    else
      match IndexOf(s[1..], c)
      case None => None
      case Some(i) => Some(i + 1)
  }

  // A word of the form field:value, for a field there is.
  function FieldAndValue(word: string): Option<(Field, string)> {
    match IndexOf(word, ':')
    case None => None
    case Some(i) =>
      match ParseField(word[..i])
      case None => None
      case Some(field) => Some((field, word[i + 1..]))
  }

  function PlainTerm(word: string): Result<Term, FilterError> {
    var (field, value) := match FieldAndValue(word) case Some(pair) => pair case None => (Any, word);
    if value == "" then Err(EmptyTerm) else Ok(Term(field, LowerText(value)))
  }

  // ----- the grammar ---------------------------------------------------------

  // Derivations. An or-expression is and-expressions separated by bars; an
  // and-expression is unary ones, with or without an ampersand between; a term is a
  // word, or an alias and a word. Both lists lean to the left.
  datatype OrTree = OneAnd(AndTree) | OrOf(OrTree, AndTree)
  datatype AndTree = OneUnary(UnaryTree) | AndOf(AndTree, explicit: bool, UnaryTree)
  datatype UnaryTree = NotOf(UnaryTree) | Paren(OrTree) | Plain(word: string) | Aliased(alias: string, value: string)

  function OrYield(t: OrTree): seq<Token> {
    match t
    case OneAnd(a) => AndYield(a)
    case OrOf(l, a) => OrYield(l) + ([OrToken] + AndYield(a))
  }

  function AndYield(t: AndTree): seq<Token> {
    match t
    case OneUnary(u) => UnaryYield(u)
    case AndOf(l, explicit, u) => AndYield(l) + ((if explicit then [AndToken] else []) + UnaryYield(u))
  }

  function UnaryYield(t: UnaryTree): seq<Token> {
    match t
    case NotOf(u) => [NotToken] + UnaryYield(u)
    case Paren(o) => [LeftParen] + (OrYield(o) + [RightParen])
    case Plain(word) => [Word(word)]
    case Aliased(alias, value) => [Word(alias), Word(value)]
  }

  // The leaves are terms.
  predicate OrValid(t: OrTree) {
    match t
    case OneAnd(a) => AndValid(a)
    case OrOf(l, a) => OrValid(l) && AndValid(a)
  }

  predicate AndValid(t: AndTree) {
    match t
    case OneUnary(u) => UnaryValid(u)
    case AndOf(l, _, u) => AndValid(l) && UnaryValid(u)
  }

  predicate UnaryValid(t: UnaryTree) {
    match t
    case NotOf(u) => UnaryValid(u)
    case Paren(o) => OrValid(o)
    case Plain(word) => Alias(word).None? && PlainTerm(word).Ok?
    case Aliased(alias, _) => Alias(alias).Some?
  }

  // The expression a derivation stands for: ! over & over |, left to right, and
  // neighbours joined by &.
  function OrBuild(t: OrTree): Expression
    requires OrValid(t)
  {
    match t
    case OneAnd(a) => AndBuild(a)
    case OrOf(l, a) => Or(OrBuild(l), AndBuild(a))
  }

  function AndBuild(t: AndTree): Expression
    requires AndValid(t)
  {
    match t
    case OneUnary(u) => UnaryBuild(u)
    case AndOf(l, _, u) => And(AndBuild(l), UnaryBuild(u))
  }

  function UnaryBuild(t: UnaryTree): Expression
    requires UnaryValid(t)
  {
    match t
    case NotOf(u) => Not(UnaryBuild(u))
    case Paren(o) => OrBuild(o)
    case Plain(word) => Leaf(PlainTerm(word).value)
    case Aliased(alias, value) => Leaf(Term(Alias(alias).value, LowerText(value)))
  }

  // ----- the parser ----------------------------------------------------------

  predicate StartsUnary(tokens: seq<Token>) {
    tokens != [] && (tokens[0].Word? || tokens[0].NotToken? || tokens[0].LeftParen?)
  }

  predicate ContinuesAnd(tokens: seq<Token>) {
    (tokens != [] && tokens[0].AndToken?) || StartsUnary(tokens)
  }

  predicate ContinuesOr(tokens: seq<Token>) {
    tokens != [] && tokens[0].OrToken?
  }

  function ParseOr(tokens: seq<Token>): (r: Result<(OrTree, seq<Token>), FilterError>)
    ensures r.Ok? ==> |r.value.1| < |tokens|
    decreases |tokens|, 4
  {
    match ParseAnd(tokens)
    case Err(e) => Err(e)
    case Ok((a, rest)) => MoreOr(OneAnd(a), rest)
  }

  function MoreOr(t: OrTree, tokens: seq<Token>): (r: Result<(OrTree, seq<Token>), FilterError>)
    ensures r.Ok? ==> |r.value.1| <= |tokens|
    decreases |tokens|, 5
  {
    if ContinuesOr(tokens) then
      match ParseAnd(tokens[1..])
      case Err(e) => Err(e)
      case Ok((a, rest)) => MoreOr(OrOf(t, a), rest)
    else Ok((t, tokens))
  }

  function ParseAnd(tokens: seq<Token>): (r: Result<(AndTree, seq<Token>), FilterError>)
    ensures r.Ok? ==> |r.value.1| < |tokens|
    decreases |tokens|, 2
  {
    match ParseUnary(tokens)
    case Err(e) => Err(e)
    case Ok((u, rest)) => MoreAnd(OneUnary(u), rest)
  }

  function MoreAnd(t: AndTree, tokens: seq<Token>): (r: Result<(AndTree, seq<Token>), FilterError>)
    ensures r.Ok? ==> |r.value.1| <= |tokens|
    decreases |tokens|, 3
  {
    if !ContinuesAnd(tokens) then Ok((t, tokens))
    else
      var explicit := tokens[0].AndToken?;
      match ParseUnary(if explicit then tokens[1..] else tokens)
      case Err(e) => Err(e)
      case Ok((u, rest)) => MoreAnd(AndOf(t, explicit, u), rest)
  }

  function ParseUnary(tokens: seq<Token>): (r: Result<(UnaryTree, seq<Token>), FilterError>)
    ensures r.Ok? ==> |r.value.1| < |tokens|
    decreases |tokens|, 1
  {
    if tokens != [] && tokens[0].NotToken? then
      match ParseUnary(tokens[1..])
      case Err(e) => Err(e)
      case Ok((u, rest)) => Ok((NotOf(u), rest))
    else ParsePrimary(tokens)
  }

  function ParsePrimary(tokens: seq<Token>): (r: Result<(UnaryTree, seq<Token>), FilterError>)
    requires tokens == [] || !tokens[0].NotToken?
    ensures r.Ok? ==> |r.value.1| < |tokens|
    decreases |tokens|, 0
  {
    if tokens == [] then Err(EndedUnexpectedly)
    else
      match tokens[0]
      case LeftParen =>
        (match ParseOr(tokens[1..])
         case Err(e) => Err(e)
         case Ok((o, rest)) =>
           if rest == [] || !rest[0].RightParen? then Err(MissingParen) else Ok((Paren(o), rest[1..])))
      case Word(word) => ParseTerm(word, tokens[1..])
      case RightParen => Err(UnexpectedParen)
      case _ => Err(MissingOperand)
  }

  function ParseTerm(word: string, tokens: seq<Token>): (r: Result<(UnaryTree, seq<Token>), FilterError>)
    ensures r.Ok? ==> |r.value.1| <= |tokens|
  {
    if Alias(word).Some? then
      if tokens == [] || !tokens[0].Word? then Err(AliasNeedsValue) else Ok((Aliased(word, tokens[0].text), tokens[1..]))
    else
      match PlainTerm(word)
      case Err(e) => Err(e)
      case Ok(_) => Ok((Plain(word), tokens))
  }

  // What the parser makes of a whole list of tokens.
  function ParseTokens(tokens: seq<Token>): Result<OrTree, FilterError> {
    match ParseOr(tokens)
    case Err(e) => Err(e)
    case Ok((t, rest)) => if rest != [] then Err(TrailingToken) else Ok(t)
  }

  // ----- what is parsed was derived ------------------------------------------

  lemma {:induction false} OrSound(tokens: seq<Token>)
    requires ParseOr(tokens).Ok?
    ensures
      var (t, rest) := ParseOr(tokens).value;
      OrValid(t) && OrYield(t) + rest == tokens
    decreases |tokens|, 4
  {
    hide ParseAnd;
    AndSound(tokens);
    var (a, rest) := ParseAnd(tokens).value;
    MoreOrSound(OneAnd(a), rest);
  }

  lemma {:induction false} MoreOrSound(t: OrTree, tokens: seq<Token>)
    requires OrValid(t) && MoreOr(t, tokens).Ok?
    ensures
      var (whole, rest) := MoreOr(t, tokens).value;
      OrValid(whole) && OrYield(whole) + rest == OrYield(t) + tokens
    decreases |tokens|, 5
  {
    hide ParseAnd;
    if ContinuesOr(tokens) {
      AndSound(tokens[1..]);
      var (a, rest) := ParseAnd(tokens[1..]).value;
      MoreOrSound(OrOf(t, a), rest);
      assert tokens == [OrToken] + (AndYield(a) + rest);
      assert (OrYield(t) + ([OrToken] + AndYield(a))) + rest == OrYield(t) + tokens;
    }
  }

  lemma {:induction false} AndSound(tokens: seq<Token>)
    requires ParseAnd(tokens).Ok?
    ensures
      var (t, rest) := ParseAnd(tokens).value;
      AndValid(t) && AndYield(t) + rest == tokens
    decreases |tokens|, 2
  {
    hide ParseUnary;
    UnarySound(tokens);
    var (u, rest) := ParseUnary(tokens).value;
    MoreAndSound(OneUnary(u), rest);
  }

  lemma Regrouped(a: seq<Token>, b: seq<Token>, c: seq<Token>, d: seq<Token>)
    ensures (a + (b + c)) + d == a + (b + (c + d))
  {
  }

  lemma {:induction false} MoreAndSound(t: AndTree, tokens: seq<Token>)
    requires AndValid(t) && MoreAnd(t, tokens).Ok?
    ensures
      var (whole, rest) := MoreAnd(t, tokens).value;
      AndValid(whole) && AndYield(whole) + rest == AndYield(t) + tokens
    decreases |tokens|, 3
  {
    hide ParseUnary, UnaryYield, UnaryValid;
    if ContinuesAnd(tokens) {
      var explicit := tokens[0].AndToken?;
      var from := if explicit then tokens[1..] else tokens;
      var mark: seq<Token> := if explicit then [AndToken] else [];
      assert tokens == mark + from;
      UnarySound(from);
      var (u, rest) := ParseUnary(from).value;
      MoreAndSound(AndOf(t, explicit, u), rest);
      Regrouped(AndYield(t), mark, UnaryYield(u), rest);
    }
  }

  lemma {:induction false} UnarySound(tokens: seq<Token>)
    requires ParseUnary(tokens).Ok?
    ensures
      var (t, rest) := ParseUnary(tokens).value;
      UnaryValid(t) && UnaryYield(t) + rest == tokens
    decreases |tokens|, 1
  {
    hide ParseOr, ParseTerm;
    if tokens[0].NotToken? {
      UnarySound(tokens[1..]);
      var (u, rest) := ParseUnary(tokens[1..]).value;
      assert tokens == [NotToken] + tokens[1..];
      assert ([NotToken] + UnaryYield(u)) + rest == [NotToken] + (UnaryYield(u) + rest);
    } else if tokens[0].LeftParen? {
      OrSound(tokens[1..]);
      var (o, rest) := ParseOr(tokens[1..]).value;
      assert tokens == [LeftParen] + tokens[1..];
      assert rest == [RightParen] + rest[1..];
      assert ([LeftParen] + (OrYield(o) + [RightParen])) + rest[1..] == [LeftParen] + (OrYield(o) + ([RightParen] + rest[1..]));
    } else {
      TermSound(tokens[0].text, tokens[1..]);
      assert tokens == [tokens[0]] + tokens[1..];
    }
  }

  lemma TermSound(word: string, tokens: seq<Token>)
    requires ParseTerm(word, tokens).Ok?
    ensures
      var (t, rest) := ParseTerm(word, tokens).value;
      UnaryValid(t) && UnaryYield(t) + rest == [Word(word)] + tokens
  {
    hide Alias, PlainTerm;
    if Alias(word).Some? {
      assert tokens == [tokens[0]] + tokens[1..];
      assert [Word(word), tokens[0]] + tokens[1..] == [Word(word)] + ([tokens[0]] + tokens[1..]);
    }
  }

  // ----- what is derived is parsed, as derived -------------------------------

  lemma {:induction false} UnaryComplete(t: UnaryTree, rest: seq<Token>)
    requires UnaryValid(t)
    ensures ParseUnary(UnaryYield(t) + rest) == Ok((t, rest))
    decreases t
  {
    hide ParseOr, Alias, PlainTerm, OrYield, OrValid;
    var tokens := UnaryYield(t) + rest;
    match t
    case NotOf(u) =>
      UnaryComplete(u, rest);
      assert tokens[1..] == UnaryYield(u) + rest;
    case Paren(o) =>
      var after := [RightParen] + rest;
      OrComplete(o, after);
      assert tokens[1..] == OrYield(o) + after;
      assert after[1..] == rest;
    case Plain(word) => assert tokens[1..] == rest;
    case Aliased(alias, value) =>
      assert tokens[1..] == [Word(value)] + rest;
      assert ([Word(value)] + rest)[1..] == rest;
  }

  lemma UnaryYieldStarts(t: UnaryTree, rest: seq<Token>)
    ensures StartsUnary(UnaryYield(t) + rest)
  {
  }

  lemma {:induction false} AndComplete(t: AndTree, rest: seq<Token>)
    requires AndValid(t)
    ensures ParseAnd(AndYield(t) + rest) == MoreAnd(t, rest)
    decreases t
  {
    hide ParseUnary, UnaryYield, UnaryValid;
    match t
    case OneUnary(u) => UnaryComplete(u, rest);
    case AndOf(l, explicit, u) =>
      var mark: seq<Token> := if explicit then [AndToken] else [];
      var from := UnaryYield(u) + rest;
      var after := mark + from;
      assert AndYield(t) + rest == AndYield(l) + after;
      AndComplete(l, after);
      UnaryYieldStarts(u, rest);
      UnaryComplete(u, rest);
      assert explicit ==> after[0].AndToken? && after[1..] == from;
      assert !explicit ==> after == from;
  }

  lemma {:induction false} OrComplete(t: OrTree, rest: seq<Token>)
    requires OrValid(t) && !ContinuesAnd(rest)
    ensures ParseOr(OrYield(t) + rest) == MoreOr(t, rest)
    ensures !ContinuesOr(rest) ==> ParseOr(OrYield(t) + rest) == Ok((t, rest))
    decreases t
  {
    hide ParseUnary, UnaryYield, AndYield, AndValid;
    match t
    case OneAnd(a) => AndComplete(a, rest);
    case OrOf(l, a) =>
      var from := AndYield(a) + rest;
      var after := [OrToken] + from;
      assert OrYield(t) + rest == OrYield(l) + after;
      OrComplete(l, after);
      AndComplete(a, rest);
      assert after[1..] == from;
  }

  // The parser accepts exactly the token lists the grammar derives, and returns
  // their derivation.
  lemma ParserIsGrammar(tokens: seq<Token>, t: OrTree)
    ensures ParseTokens(tokens) == Ok(t) <==> OrValid(t) && OrYield(t) == tokens
  {
    hide ParseOr, OrYield, OrValid;
    if ParseTokens(tokens) == Ok(t) {
      OrSound(tokens);
      assert OrYield(t) + [] == OrYield(t);
    }
    if OrValid(t) && OrYield(t) == tokens {
      OrComplete(t, []);
      assert OrYield(t) + [] == tokens;
    }
  }

  // The grammar is unambiguous.
  lemma OneDerivation(t: OrTree, u: OrTree)
    requires OrValid(t) && OrValid(u) && OrYield(t) == OrYield(u)
    ensures t == u
  {
    hide OrYield, OrValid;
    ParserIsGrammar(OrYield(t), t);
    ParserIsGrammar(OrYield(t), u);
  }

  lemma OneAndBuilt(a: AndTree)
    requires AndValid(a)
    ensures OrValid(OneAnd(a)) && OrBuild(OneAnd(a)) == AndBuild(a)
  {
  }

  lemma OrOfBuilt(l: OrTree, a: AndTree)
    requires OrValid(l) && AndValid(a)
    ensures OrValid(OrOf(l, a)) && OrBuild(OrOf(l, a)) == Or(OrBuild(l), AndBuild(a))
  {
  }

  lemma OneUnaryBuilt(u: UnaryTree)
    requires UnaryValid(u)
    ensures AndValid(OneUnary(u)) && AndBuild(OneUnary(u)) == UnaryBuild(u)
  {
  }

  lemma AndOfBuilt(l: AndTree, explicit: bool, u: UnaryTree)
    requires AndValid(l) && UnaryValid(u)
    ensures AndValid(AndOf(l, explicit, u)) && AndBuild(AndOf(l, explicit, u)) == And(AndBuild(l), UnaryBuild(u))
  {
  }

  // ----- the parser with its cursor ------------------------------------------

  // What a step of the parser returns and where it leaves the cursor.
  ghost predicate Outcome(whole: Result<(Expression, seq<Token>), FilterError>, r: Result<Expression, FilterError>, left: seq<Token>) {
    match whole
    case Err(e) => r == Err(e)
    case Ok((e, rest)) => r == Ok(e) && left == rest
  }

  ghost function OrResult(tokens: seq<Token>): Result<(Expression, seq<Token>), FilterError> {
    match ParseOr(tokens)
    case Err(e) => Err(e)
    case Ok((t, rest)) => OrSound(tokens); Ok((OrBuild(t), rest))
  }

  ghost function MoreOrResult(t: OrTree, tokens: seq<Token>): Result<(Expression, seq<Token>), FilterError>
    requires OrValid(t)
  {
    match MoreOr(t, tokens)
    case Err(e) => Err(e)
    case Ok((whole, rest)) => MoreOrSound(t, tokens); Ok((OrBuild(whole), rest))
  }

  ghost function AndResult(tokens: seq<Token>): Result<(Expression, seq<Token>), FilterError> {
    match ParseAnd(tokens)
    case Err(e) => Err(e)
    case Ok((t, rest)) => AndSound(tokens); Ok((AndBuild(t), rest))
  }

  ghost function MoreAndResult(t: AndTree, tokens: seq<Token>): Result<(Expression, seq<Token>), FilterError>
    requires AndValid(t)
  {
    match MoreAnd(t, tokens)
    case Err(e) => Err(e)
    case Ok((whole, rest)) => MoreAndSound(t, tokens); Ok((AndBuild(whole), rest))
  }

  ghost function UnaryResult(tokens: seq<Token>): Result<(Expression, seq<Token>), FilterError> {
    match ParseUnary(tokens)
    case Err(e) => Err(e)
    case Ok((t, rest)) => UnarySound(tokens); Ok((UnaryBuild(t), rest))
  }

  ghost function TermResult(word: string, tokens: seq<Token>): Result<(Expression, seq<Token>), FilterError> {
    match ParseTerm(word, tokens)
    case Err(e) => Err(e)
    case Ok((t, rest)) => TermSound(word, tokens); Ok((UnaryBuild(t), rest))
  }

  class Parser {
    const tokens: seq<Token>
    var cursor: nat

    ghost predicate Valid()
      reads this
    {
      cursor <= |tokens|
    }

    ghost function Left(): seq<Token>
      requires Valid()
      reads this
    {
      tokens[cursor..]
    }

    constructor (tokens: seq<Token>)
      ensures this.tokens == tokens && cursor == 0
    {
      this.tokens := tokens;
      cursor := 0;
    }

    method Peek() returns (t: Option<Token>)
      requires Valid()
      ensures t == if Left() == [] then None else Some(Left()[0])
    {
      t := if cursor < |tokens| then Some(tokens[cursor]) else None;
    }

    method Next() returns (t: Option<Token>)
      requires Valid()
      modifies this
      ensures Valid()
      ensures old(Left()) == [] ==> t == None && cursor == old(cursor)
      ensures old(Left()) != [] ==> t == Some(old(Left())[0]) && cursor == old(cursor) + 1 && Left() == old(Left())[1..]
    {
      if cursor >= |tokens| {
        return None;
      }
      t := Some(tokens[cursor]);
      cursor := cursor + 1;
    }

    method DescendOr() returns (r: Result<Expression, FilterError>)
      requires Valid()
      modifies this
      ensures Valid() && cursor >= old(cursor)
      ensures Outcome(OrResult(old(Left())), r, Left())
      ensures r.Ok? ==> cursor > old(cursor)
      decreases |tokens| - cursor, 4
    {
      hide ParseAnd, OrBuild, AndBuild, OrValid, AndValid;
      ghost var start := Left();
      r := DescendAnd();
      if r.Err? {
        return;
      }
      AndSound(start);
      OneAndBuilt(ParseAnd(start).value.0);
      ghost var tree := OneAnd(ParseAnd(start).value.0);
      var more := Peek();
      while more == Some(OrToken)
        invariant Valid() && cursor > old(cursor)
        invariant OrValid(tree) && r == Ok(OrBuild(tree))
        invariant more == if Left() == [] then None else Some(Left()[0])
        invariant OrResult(start) == MoreOrResult(tree, Left())
        decreases |tokens| - cursor
      {
        ghost var here := Left();
        var _ := Next();
        var right := DescendAnd();
        if right.Err? {
          return right;
        }
        AndSound(here[1..]);
        OrOfBuilt(tree, ParseAnd(here[1..]).value.0);
        r := Ok(Or(r.value, right.value));
        tree := OrOf(tree, ParseAnd(here[1..]).value.0);
        more := Peek();
      }
    }

    method DescendAnd() returns (r: Result<Expression, FilterError>)
      requires Valid()
      modifies this
      ensures Valid() && cursor >= old(cursor)
      ensures Outcome(AndResult(old(Left())), r, Left())
      ensures r.Ok? ==> cursor > old(cursor)
      decreases |tokens| - cursor, 2
    {
      hide ParseUnary, AndBuild, UnaryBuild, AndValid, UnaryValid;
      ghost var start := Left();
      r := DescendUnary();
      if r.Err? {
        return;
      }
      UnarySound(start);
      OneUnaryBuilt(ParseUnary(start).value.0);
      ghost var tree := OneUnary(ParseUnary(start).value.0);
      while true
        invariant Valid() && cursor > old(cursor)
        invariant AndValid(tree) && r == Ok(AndBuild(tree))
        invariant AndResult(start) == MoreAndResult(tree, Left())
        decreases |tokens| - cursor
      {
        ghost var here := Left();
        var more := Peek();
        var explicit := more == Some(AndToken);
        if explicit {
          var _ := Next();
        } else if more.None? || !(more.value.Word? || more.value.NotToken? || more.value.LeftParen?) {
          return;
        }
        ghost var from := if explicit then here[1..] else here;
        var right := DescendUnary();
        if right.Err? {
          return right;
        }
        UnarySound(from);
        AndOfBuilt(tree, explicit, ParseUnary(from).value.0);
        r := Ok(And(r.value, right.value));
        tree := AndOf(tree, explicit, ParseUnary(from).value.0);
      }
    }

    method DescendUnary() returns (r: Result<Expression, FilterError>)
      requires Valid()
      modifies this
      ensures Valid() && cursor >= old(cursor)
      ensures Outcome(UnaryResult(old(Left())), r, Left())
      ensures r.Ok? ==> cursor > old(cursor)
      decreases |tokens| - cursor, 1
    {
      var first := Peek();
      if first == Some(NotToken) {
        var _ := Next();
        var inner := DescendUnary();
        return match inner case Err(e) => Err(e) case Ok(e) => Ok(Not(e));
      }
      r := DescendPrimary();
    }

    method DescendPrimary() returns (r: Result<Expression, FilterError>)
      requires Valid() && (Left() == [] || !Left()[0].NotToken?)
      modifies this
      ensures Valid() && cursor >= old(cursor)
      ensures Outcome(UnaryResult(old(Left())), r, Left())
      ensures r.Ok? ==> cursor > old(cursor)
      decreases |tokens| - cursor, 0
    {
      hide ParseOr, ParseTerm;
      ghost var start := Left();
      var token := Next();
      assert ParseUnary(start) == ParsePrimary(start);
      if token.None? {
        assert start == [];
        return Err(EndedUnexpectedly);
      }
      match token.value
      case LeftParen =>
        var inner := DescendOr();
        if inner.Err? {
          return inner;
        }
        var closing := Next();
        if closing != Some(RightParen) {
          return Err(MissingParen);
        }
        r := inner;
      case Word(word) => r := DescendTerm(word);
      case RightParen => r := Err(UnexpectedParen);
      case _ => r := Err(MissingOperand);
    }

    method DescendTerm(word: string) returns (r: Result<Expression, FilterError>)
      requires Valid()
      modifies this
      ensures Valid() && cursor >= old(cursor)
      ensures Outcome(TermResult(word, old(Left())), r, Left())
    {
      hide PlainTerm;
      var alias := Alias(word);
      if alias.Some? {
        var value := Next();
        if value.None? || !value.value.Word? {
          return Err(AliasNeedsValue);
        }
        return Ok(Leaf(Term(alias.value, LowerText(value.value.text))));
      }
      var term := PlainTerm(word);
      r := match term case Err(e) => Err(e) case Ok(t) => Ok(Leaf(t));
    }
  }
}
