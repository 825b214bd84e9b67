// What a term of the filter language selects: the field its name or alias stands for,
// and the text to look for in it.
module FilterTerms {
  import opened Results
  import opened FilterSyntax

  // The names of each field, in lower case.
  function NamesOf(f: Field): set<string> {
    match f
    case Any => {}
    case Time => {"time"}
    case Proto => {"proto", "protocol"}
    case Method => {"method"}
    case Host => {"host", "domain"}
    case Path => {"path"}
    case Url => {"url", "uri"}
    case Status => {"status", "status-code", "status_code"}
    case ContentType => {"type", "content-type", "content_type"}
    case Size => {"size"}
    case Duration => {"duration", "time-ms", "time_ms"}
    case Body => {"body"}
    case RequestBody => {"request-body", "request_body", "req-body", "req_body"}
    case ResponseBody => {"response-body", "response_body", "res-body", "res_body"}
    case Header => {"header"}
    case RequestHeader => {"request-header", "request_header", "req-header", "req_header"}
    case ResponseHeader => {"response-header", "response_header", "res-header", "res_header"}
  }

  // The text with its ASCII letters in lower case.
  ghost predicate IsLowered(text: string, lowered: string) {
    |text| == |lowered| && forall i :: 0 <= i < |text| ==> lowered[i] == LowerChar(text[i])
  }

  ghost predicate Names(word: string, f: Field) {
    exists n :: n in NamesOf(f) && IsLowered(word, n)
  }

  lemma {:induction false} LowerMeaning(s: string)
    ensures forall t :: t == LowerText(s) <==> IsLowered(s, t)
  {
    hide LowerChar;
    if s != "" {
      LowerMeaning(s[1..]);
      assert IsLowered(s[1..], LowerText(s[1..]));
      assert forall i :: 1 <= i < |s| ==> s[i] == s[1..][i - 1] && LowerText(s)[i] == LowerText(s[1..])[i - 1];
      assert IsLowered(s, LowerText(s));
    }
  }

  lemma FoundShort(n: string, f: Field)
    requires FieldNamed(n) == Some(f) && (f.Any? || f.Time? || f.Proto? || f.Method? || f.Host? || f.Path? || f.Url? || f.Status?)
    ensures n in NamesOf(f)
  {
  }

  lemma FoundOther(n: string, f: Field)
    requires FieldNamed(n) == Some(f) && (f.ContentType? || f.Size? || f.Duration? || f.Body? || f.Header?)
    ensures n in NamesOf(f)
  {
  }

  lemma FoundLong(n: string, f: Field)
    requires FieldNamed(n) == Some(f) && (f.RequestBody? || f.ResponseBody? || f.RequestHeader? || f.ResponseHeader?)
    ensures n in NamesOf(f)
  {
  }

  lemma NamedShort(n: string, f: Field)
    requires n in NamesOf(f) && (f.Time? || f.Proto? || f.Method? || f.Host? || f.Path? || f.Url?)
    ensures FieldNamed(n) == Some(f)
  {
  }

  lemma NamedStatus(n: string, f: Field)
    requires n in NamesOf(f) && (f.Status? || f.Size? || f.Body?)
    ensures FieldNamed(n) == Some(f)
  {
  }

  lemma NamedType(n: string, f: Field)
    requires n in NamesOf(f) && (f.ContentType? || f.Header?)
    ensures FieldNamed(n) == Some(f)
  {
  }

  lemma NamedDuration(n: string, f: Field)
    requires n in NamesOf(f) && f.Duration?
    ensures FieldNamed(n) == Some(f)
  {
  }

  lemma NamedRequestBody(n: string, f: Field)
    requires n in NamesOf(f) && f.RequestBody?
    ensures FieldNamed(n) == Some(f)
  {
  }

  lemma NamedResponseBody(n: string, f: Field)
    requires n in NamesOf(f) && f.ResponseBody?
    ensures FieldNamed(n) == Some(f)
  {
  }

  lemma NamedRequestHeader(n: string, f: Field)
    requires n in NamesOf(f) && f.RequestHeader?
    ensures FieldNamed(n) == Some(f)
  {
  }

  lemma NamedResponseHeader(n: string, f: Field)
    requires n in NamesOf(f) && f.ResponseHeader?
    ensures FieldNamed(n) == Some(f)
  {
  }

  lemma FieldTable(n: string, f: Field)
    ensures FieldNamed(n) == Some(f) <==> n in NamesOf(f)
  {
    hide FieldNamed, NamesOf;
    AnyHasNoNames();
    if FieldNamed(n) == Some(f) {
      match f
      case RequestBody => FoundLong(n, f);
      case ResponseBody => FoundLong(n, f);
      case RequestHeader => FoundLong(n, f);
      case ResponseHeader => FoundLong(n, f);
      case ContentType => FoundOther(n, f);
      case Size => FoundOther(n, f);
      case Duration => FoundOther(n, f);
      case Body => FoundOther(n, f);
      case Header => FoundOther(n, f);
      case _ => FoundShort(n, f);
    }
    if n in NamesOf(f) {
      match f
      case Any =>
      case Status => NamedStatus(n, f);
      case Size => NamedStatus(n, f);
      case Body => NamedStatus(n, f);
      case ContentType => NamedType(n, f);
      case Header => NamedType(n, f);
      case Duration => NamedDuration(n, f);
      case RequestBody => NamedRequestBody(n, f);
      case ResponseBody => NamedResponseBody(n, f);
      case RequestHeader => NamedRequestHeader(n, f);
      case ResponseHeader => NamedResponseHeader(n, f);
      case _ => NamedShort(n, f);
    }
  }

  lemma AnyHasNoNames()
    ensures NamesOf(Any) == {}
  {
  }

  // A name stands for a field when it is one of its names, in any case.
  lemma FieldMeaning(name: string, f: Field)
    ensures ParseField(name) == Some(f) <==> Names(name, f)
  {
    hide FieldNamed, NamesOf, LowerText, LowerChar;
    FieldTable(LowerText(name), f);
    LowerMeaning(name);
    assert IsLowered(name, LowerText(name));
  }

  lemma {:induction false} FirstColon(s: string)
    ensures match IndexOf(s, ':')
            case None => ':' !in s
            case Some(i) => s[i] == ':' && ':' !in s[..i]
  {
    if s != "" && s[0] != ':' {
      FirstColon(s[1..]);
      match IndexOf(s[1..], ':')
      case Some(i) => assert s[..i + 1] == [s[0]] + s[1..][..i];
      case None =>
    }
  }

  lemma ColonAt(name: string, value: string)
    requires ':' !in name
    ensures IndexOf(name + (":" + value), ':') == Some(|name|)
  {
    var s := name + (":" + value);
    FirstColon(s);
    assert s[|name|] == ':';
    var i := IndexOf(s, ':').value;
    assert forall k :: 0 <= k < |name| ==> s[k] == name[k] != ':';
    assert forall k :: 0 <= k < i ==> s[k] == s[..i][k] != ':';
  }

  // "name:value" asks for the value in that field; a word that does not start with a
  // field name asks for itself anywhere; either way something must be asked for.
  lemma PlainMeaning(word: string, r: Term)
    ensures PlainTerm(word) == Ok(r) <==>
      r.needle != ""
      && ((exists name, value ::
             word == name + (":" + value) && ':' !in name && Names(name, r.field) && IsLowered(value, r.needle))
          || (r.field == Any && IsLowered(word, r.needle)
              && forall name, value, f :: word == name + (":" + value) && ':' !in name ==> !Names(name, f)))
  {
    hide ParseField, Names, LowerText, LowerChar, IndexOf;
    FirstColon(word);
    LowerMeaning(word);
    if IndexOf(word, ':').Some? {
      var i := IndexOf(word, ':').value;
      var name, value := word[..i], word[i + 1..];
      assert word == name + (":" + value);
      LowerMeaning(value);
      AnyHasNoName(name);
      forall f ensures ParseField(name) == Some(f) <==> Names(name, f) {
        FieldMeaning(name, f);
      }
      forall n, v | word == n + (":" + v) && ':' !in n ensures n == name && v == value {
        ColonAt(n, v);
        assert word[..|n|] == n && word[|n| + 1..] == v;
      }
    } else {
      forall n, v ensures word != n + (":" + v) {
        assert ':' in n + (":" + v) by {
          assert (n + (":" + v))[|n|] == ':';
        }
      }
    }
  }

  lemma AnyHasNoName(name: string)
    ensures !Names(name, Any)
  {
  }

  const ALIASES: map<string, Field> :=
    map["~d" := Host, "~m" := Method, "~s" := Status, "~t" := ContentType, "~b" := Body, "~h" := Header]

  lemma AliasMeaning(word: string, f: Field)
    ensures Alias(word) == Some(f) <==> word in ALIASES && ALIASES[word] == f
  {
  }

  // An alias and a word ask for what the field's name and that word ask for.
  lemma AliasIsName(alias: string, name: string, value: string)
    requires alias in ALIASES && ':' !in name && Names(name, ALIASES[alias]) && value != ""
    requires Alias(name + (":" + value)).None?
    ensures
      var short := ParseTokens([Word(alias), Word(value)]);
      var long := ParseTokens([Word(name + (":" + value))]);
      short.Ok? && long.Ok? && OrValid(short.value) && OrValid(long.value)
      && OrBuild(short.value) == OrBuild(long.value) == Leaf(Term(ALIASES[alias], LowerText(value)))
  {
    hide Names, LowerText, PlainTerm, Alias, NamesOf, ParseTokens, OrValid, OrBuild;
    var word := name + (":" + value);
    var f := ALIASES[alias];
    AliasMeaning(alias, f);
    LowerMeaning(value);
    assert IsLowered(value, LowerText(value));
    PlainMeaning(word, Term(f, LowerText(value)));
    OneWord(word);
    TwoWords(alias, value);
    PlainParts(word);
    AliasedParts(alias, value);
  }

  lemma PlainParts(word: string)
    requires Alias(word).None? && PlainTerm(word).Ok?
    ensures
      var t := OneAnd(OneUnary(Plain(word)));
      OrYield(t) == [Word(word)] && OrValid(t) && OrBuild(t) == Leaf(PlainTerm(word).value)
  {
    hide Alias, PlainTerm;
    assert AndValid(OneUnary(Plain(word))) && UnaryValid(Plain(word));
    assert AndYield(OneUnary(Plain(word))) == UnaryYield(Plain(word));
    assert AndBuild(OneUnary(Plain(word))) == UnaryBuild(Plain(word));
  }

  lemma AliasedParts(alias: string, value: string)
    requires Alias(alias).Some?
    ensures
      var t := OneAnd(OneUnary(Aliased(alias, value)));
      OrYield(t) == [Word(alias), Word(value)] && OrValid(t)
      && OrBuild(t) == Leaf(Term(Alias(alias).value, LowerText(value)))
  {
    hide Alias, LowerText;
    var u := Aliased(alias, value);
    assert AndValid(OneUnary(u)) && UnaryValid(u);
    assert AndYield(OneUnary(u)) == UnaryYield(u);
    assert AndBuild(OneUnary(u)) == UnaryBuild(u);
  }

  lemma OneWord(word: string)
    requires Alias(word).None? && PlainTerm(word).Ok?
    ensures ParseTokens([Word(word)]) == Ok(OneAnd(OneUnary(Plain(word))))
  {
    hide Alias, PlainTerm, ParseTokens;
    PlainParts(word);
    ParserIsGrammar([Word(word)], OneAnd(OneUnary(Plain(word))));
  }

  lemma TwoWords(alias: string, value: string)
    requires Alias(alias).Some?
    ensures ParseTokens([Word(alias), Word(value)]) == Ok(OneAnd(OneUnary(Aliased(alias, value))))
  {
    hide Alias, PlainTerm, ParseTokens;
    AliasedParts(alias, value);
    ParserIsGrammar([Word(alias), Word(value)], OneAnd(OneUnary(Aliased(alias, value))));
  }
}
