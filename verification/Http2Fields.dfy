// What HTTP/2 keeps of a message's fields, said field by field: which are nominated by
// the Connection fields, which are dropped, and where each kept one came from.
module Http2Fields {
  import opened Results
  import opened Bytes
  import opened Text
  import opened Headers
  import opened FieldNames
  import opened ListItems
  import opened FramingFields
  import opened FramingChoice
  import opened Http2Head

  // ----- nominated names -----------------------------------------------------

  ghost predicate AllSpace(s: string) {
    forall i :: 0 <= i < |s| ==> IsSpace(s[i])
  }

  // A core with spaces around it and none at its ends.
  ghost predicate Spaced(s: string, core: string) {
    (core == "" || (!IsSpace(core[0]) && !IsSpace(core[|core| - 1])))
    && exists before, after :: s == before + (core + after) && AllSpace(before) && AllSpace(after)
  }

  // The name in lower case, character for character.
  ghost predicate SpellsName(text: string, name: bytes) {
    |text| == |name|
    && forall i :: 0 <= i < |text| ==> (text[i] as int) < 128 && IsTokenByte(text[i] as int) && name[i] == Lower(text[i] as int)
  }

  // Some Connection field, as text, has this as one of its comma-separated items.
  ghost predicate ConnectionLists(rules: Rules, fs: Fields, word: string) {
    exists i, text, item ::
      0 <= i < |fs| && SameName(fs[i].name, CONNECTION) && rules.text(fs[i].value) == Some(text)
      && IsItem(text, ',', item) && Spaced(item, word)
  }

  ghost predicate Nominates(rules: Rules, fs: Fields, name: bytes) {
    name != [] && exists word :: ConnectionLists(rules, fs, word) && SpellsName(word, name)
  }

  // Every Connection field is text, and what it lists are names.
  ghost predicate ConnectionIsNames(rules: Rules, fs: Fields) {
    (forall i :: 0 <= i < |fs| && SameName(fs[i].name, CONNECTION) ==> rules.text(fs[i].value).Some?)
    && (forall word :: ConnectionLists(rules, fs, word) ==> exists name :: SpellsName(word, name))
  }

  lemma {:induction false} FirstPiece(s: string)
    ensures SplitCommas(s) != []
    ensures
      var first := SplitCommas(s)[0];
      ',' !in first && first <= s
      && if |first| == |s| then SplitCommas(s) == [s]
         else s[|first|] == ',' && SplitCommas(s) == [first] + SplitCommas(s[|first| + 1..])
  {
    if s != "" {
      FirstPiece(s[1..]);
      var rest := SplitCommas(s[1..]);
      if s[0] == ',' {
        assert SplitCommas(s) == [""] + rest;
      } else {
        assert SplitCommas(s) == [[s[0]] + rest[0]] + rest[1..];
        hide SplitCommas;
        var first := [s[0]] + rest[0];
        assert s == [s[0]] + s[1..];
        if |rest[0]| < |s[1..]| {
          assert s[|first|] == s[1..][|rest[0]|];
          assert s[|first| + 1..] == s[1..][|rest[0]| + 1..];
          assert rest[1..] == SplitCommas(s[|first| + 1..]);
        }
      }
    }
  }

  lemma UpToComma(s: string, a: string, b: string)
    requires ',' !in a && a <= s && (|a| < |s| ==> s[|a|] == ',')
    requires ',' !in b && b <= s && (|b| < |s| ==> s[|b|] == ',')
    ensures a == b
  {
    assert forall i :: 0 <= i < |a| ==> s[i] == a[i] != ',';
    assert forall i :: 0 <= i < |b| ==> s[i] == b[i] != ',';
  }

  lemma {:induction false} PieceIsItem(s: string, item: string)
    requires item in SplitCommas(s)
    ensures IsItem(s, ',', item)
    decreases |s|
  {
    hide SplitCommas;
    FirstPiece(s);
    var first := SplitCommas(s)[0];
    if item == first {
      assert s == [] + (item + s[|item|..]);
      assert ItemBetween(s, ',', [], item, s[|item|..]);
    } else {
      var n := |first| + 1;
      PieceIsItem(s[n..], item);
      var before, after :| ItemBetween(s[n..], ',', before, item, after);
      assert s == (s[..n] + before) + (item + after);
      assert ItemBetween(s, ',', s[..n] + before, item, after);
    }
  }

  lemma {:induction false} ItemIsPiece(s: string, before: string, item: string, after: string)
    requires ItemBetween(s, ',', before, item, after)
    ensures item in SplitCommas(s)
    decreases |s|
  {
    hide SplitCommas;
    FirstPiece(s);
    var first := SplitCommas(s)[0];
    assert forall i :: 0 <= i < |first| ==> s[i] == first[i] != ',';
    if before == [] {
      assert s == item + after;
      UpToComma(s, first, item);
    } else {
      assert s[|before| - 1] == ',';
      var n := |first| + 1;
      assert s[n..] == before[n..] + (item + after);
      ItemIsPiece(s[n..], before[n..], item, after);
    }
  }

  lemma SplitCommasMeaning(s: string, item: string)
    ensures item in SplitCommas(s) <==> IsItem(s, ',', item)
  {
    hide SplitCommas;
    if item in SplitCommas(s) {
      PieceIsItem(s, item);
    }
    if IsItem(s, ',', item) {
      var before, after :| ItemBetween(s, ',', before, item, after);
      ItemIsPiece(s, before, item, after);
    }
  }

  // ----- trimming and lowering -----------------------------------------------

  lemma {:induction false} TrimLeftMeaning(s: string) returns (before: string)
    ensures s == before + TrimLeft(s) && AllSpace(before) && (TrimLeft(s) == "" || !IsSpace(TrimLeft(s)[0]))
  {
    if s != "" && IsSpace(s[0]) {
      var b := TrimLeftMeaning(s[1..]);
      before := [s[0]] + b;
    } else {
      before := "";
    }
  }

  lemma {:induction false} TrimRightMeaning(s: string) returns (after: string)
    ensures s == TrimRight(s) + after && AllSpace(after) && (TrimRight(s) == "" || !IsSpace(TrimRight(s)[|TrimRight(s)| - 1]))
    ensures TrimRight(s) != "" ==> TrimRight(s)[0] == s[0]
  {
    if s != "" && IsSpace(s[|s| - 1]) {
      var a := TrimRightMeaning(s[..|s| - 1]);
      after := a + [s[|s| - 1]];
      assert s == s[..|s| - 1] + [s[|s| - 1]];
    } else {
      after := "";
      assert s + "" == s;
    }
  }

  lemma {:induction false} TrimLeftOf(before: string, rest: string)
    requires AllSpace(before) && (rest == "" || !IsSpace(rest[0]))
    ensures TrimLeft(before + rest) == rest
  {
    if before == "" {
      assert before + rest == rest;
    } else {
      assert (before + rest)[1..] == before[1..] + rest;
      TrimLeftOf(before[1..], rest);
    }
  }

  lemma {:induction false} TrimRightOf(core: string, after: string)
    requires AllSpace(after) && (core == "" || !IsSpace(core[|core| - 1]))
    ensures TrimRight(core + after) == core
  {
    if after == "" {
      assert core + after == core;
    } else {
      assert (core + after)[..|core + after| - 1] == core + after[..|after| - 1];
      TrimRightOf(core, after[..|after| - 1]);
    }
  }

  lemma TrimIsSpaced(s: string)
    ensures Spaced(s, TrimRight(TrimLeft(s)))
  {
    hide TrimLeft, TrimRight, IsSpace;
    var before := TrimLeftMeaning(s);
    var after := TrimRightMeaning(TrimLeft(s));
    assert s == before + (TrimRight(TrimLeft(s)) + after);
  }

  lemma SpaceTwice(a: string, b: string)
    requires AllSpace(a) && AllSpace(b)
    ensures AllSpace(a + b)
  {
    hide IsSpace;
  }

  lemma SpacedIsTrimmed(before: string, core: string, after: string)
    requires core == "" || (!IsSpace(core[0]) && !IsSpace(core[|core| - 1]))
    requires AllSpace(before) && AllSpace(after)
    ensures TrimRight(TrimLeft(before + (core + after))) == core
  {
    hide TrimLeft, TrimRight, IsSpace, AllSpace;
    if core == "" {
      assert before + (core + after) == (before + after) + "";
      SpaceTwice(before, after);
      TrimLeftOf(before + after, "");
      TrimRightOf("", "");
      NoSpace();
      assert "" + "" == "";
    } else {
      TrimLeftOf(before, core + after);
      TrimRightOf(core, after);
    }
  }

  lemma NoSpace()
    ensures AllSpace("")
  {
  }

  lemma TrimMeaning(s: string, core: string)
    ensures TrimRight(TrimLeft(s)) == core <==> Spaced(s, core)
  {
    hide TrimLeft, TrimRight, IsSpace, AllSpace;
    TrimIsSpaced(s);
    if Spaced(s, core) {
      var before, after :| s == before + (core + after) && AllSpace(before) && AllSpace(after);
      SpacedIsTrimmed(before, core, after);
    }
  }

  lemma {:induction false} NameOfMeaning(s: string)
    ensures forall name :: NameOf(s) == Some(name) <==> SpellsName(s, name)
  {
    hide IsTokenByte, Lower;
    if s != "" {
      NameOfMeaning(s[1..]);
      forall name ensures NameOf(s) == Some(name) <==> SpellsName(s, name) {
        if |name| == |s| {
          assert name == [name[0]] + name[1..] && s == [s[0]] + s[1..];
          assert SpellsName(s[1..], name[1..]) <==> forall i :: 1 <= i < |s| ==>
            (s[i] as int) < 128 && IsTokenByte(s[i] as int) && name[i] == Lower(s[i] as int) by {
            assert forall i :: 1 <= i < |s| ==> s[i] == s[1..][i - 1] && name[i] == name[1..][i - 1];
          }
        }
      }
    }
  }

  // ----- the nominated names -------------------------------------------------

  // What a list of items adds.
  ghost predicate Adds(items: seq<string>, name: bytes) {
    name != [] && exists item, word :: item in items && Spaced(item, word) && SpellsName(word, name)
  }

  ghost predicate AllNames(items: seq<string>) {
    forall item, word :: item in items && Spaced(item, word) ==> exists name :: SpellsName(word, name)
  }

  lemma EmptyName()
    ensures SpellsName("", []) && forall name :: SpellsName("", name) ==> name == []
  {
  }

  lemma SpelledOnce(word: string)
    ensures forall a, b :: SpellsName(word, a) && SpellsName(word, b) ==> a == b
    ensures forall a :: SpellsName(word, a) ==> (a == [] <==> word == "")
  {
  }

  lemma {:induction false} AddNamesMeaning(items: seq<string>, found: seq<bytes>)
    ensures AddNames(items, found).Ok? <==> AllNames(items)
    ensures AddNames(items, found).Ok? ==>
      forall name :: name in AddNames(items, found).value <==> name in found || Adds(items, name)
  {
    hide Spaced, SpellsName, NameOf, TrimLeft, TrimRight;
    if items != [] {
      var word := TrimRight(TrimLeft(items[0]));
      var rest := items[1..];
      forall core ensures core == word <==> Spaced(items[0], core) {
        TrimMeaning(items[0], core);
      }
      NameOfMeaning(word);
      EmptyName();
      SpelledOnce(word);
      assert items == [items[0]] + rest;
      FirstAdds(items, word);
      if word == "" {
        AddNamesMeaning(rest, found);
      } else if NameOf(word).Some? {
        AddNamesMeaning(rest, if NameOf(word).value in found then found else found + [NameOf(word).value]);
      }
    }
  }

  lemma FirstAdds(items: seq<string>, word: string)
    requires items != [] && forall core :: core == word <==> Spaced(items[0], core)
    ensures AllNames(items) <==> (exists name :: SpellsName(word, name)) && AllNames(items[1..])
    ensures forall name :: Adds(items, name) <==> (name != [] && SpellsName(word, name)) || Adds(items[1..], name)
  {
    hide Spaced, SpellsName;
    var first, rest := items[0], items[1..];
    assert Spaced(first, word);
    forall item ensures item in items <==> item == first || item in rest {
      assert items == [first] + rest;
    }
    forall name ensures Adds(items, name) <==> (name != [] && SpellsName(word, name)) || Adds(rest, name) {
      if Adds(items, name) {
        var item, w :| item in items && Spaced(item, w) && SpellsName(w, name);
        assert item in rest || w == word;
      }
    }
    if AllNames(items) {
      assert first in items;
    }
  }

  ghost predicate ValueAdds(rules: Rules, value: bytes, name: bytes) {
    rules.text(value).Some? && Adds(SplitCommas(rules.text(value).value), name)
  }

  ghost predicate ValueIsNames(rules: Rules, value: bytes) {
    rules.text(value).Some? && AllNames(SplitCommas(rules.text(value).value))
  }

  lemma {:induction false} NominatedFromMeaning(rules: Rules, values: seq<bytes>, found: seq<bytes>)
    ensures NominatedFrom(rules, values, found).Ok? <==> forall v :: v in values ==> ValueIsNames(rules, v)
    ensures NominatedFrom(rules, values, found).Ok? ==>
      forall name :: name in NominatedFrom(rules, values, found).value <==>
                     name in found || exists v :: v in values && ValueAdds(rules, v, name)
  {
    hide SplitCommas, AddNames, Adds, AllNames;
    if values != [] {
      forall v ensures v in values <==> v == values[0] || v in values[1..] {
        assert values == [values[0]] + values[1..];
      }
      assert values[0] in values;
      if rules.text(values[0]).Some? {
        var items := SplitCommas(rules.text(values[0]).value);
        AddNamesMeaning(items, found);
        if AddNames(items, found).Ok? {
          NominatedFromMeaning(rules, values[1..], AddNames(items, found).value);
        }
      }
    }
  }

  lemma ListsMeaning(rules: Rules, fs: Fields, word: string)
    ensures ConnectionLists(rules, fs, word) <==>
            exists v, item :: v in GetAll(fs, CONNECTION) && rules.text(v).Some?
                              && item in SplitCommas(rules.text(v).value) && Spaced(item, word)
  {
    hide GetAll, SplitCommas, Spaced, SameName, IsItem;
    if ConnectionLists(rules, fs, word) {
      var i, text, item :|
        0 <= i < |fs| && SameName(fs[i].name, CONNECTION) && rules.text(fs[i].value) == Some(text)
        && IsItem(text, ',', item) && Spaced(item, word);
      ValueOf(fs, CONNECTION, fs[i].value);
      assert fs[i] in fs;
      SplitCommasMeaning(text, item);
    }
    if v, item :| v in GetAll(fs, CONNECTION) && rules.text(v).Some? && item in SplitCommas(rules.text(v).value)
                  && Spaced(item, word) {
      ValueOf(fs, CONNECTION, v);
      var f :| f in fs && SameName(f.name, CONNECTION) && f.value == v;
      var i :| 0 <= i < |fs| && fs[i] == f;
      SplitCommasMeaning(rules.text(v).value, item);
      assert SameName(fs[i].name, CONNECTION) && rules.text(fs[i].value) == Some(rules.text(v).value);
    }
  }

  lemma ValueOf(fs: Fields, name: bytes, v: bytes)
    ensures v in GetAll(fs, name) <==> exists f :: f in fs && SameName(f.name, name) && f.value == v
  {
  }

  lemma TextsMeaning(rules: Rules, fs: Fields)
    ensures (forall v :: v in GetAll(fs, CONNECTION) ==> rules.text(v).Some?) <==>
            forall i :: 0 <= i < |fs| && SameName(fs[i].name, CONNECTION) ==> rules.text(fs[i].value).Some?
  {
    hide GetAll, SameName;
    forall v ensures v in GetAll(fs, CONNECTION) <==> exists f :: f in fs && SameName(f.name, CONNECTION) && f.value == v {
      ValueOf(fs, CONNECTION, v);
    }
    assert forall i :: 0 <= i < |fs| ==> fs[i] in fs;
  }

  // The nominated names are those the Connection fields list, in lower case; a Connection
  // field that is not a list of names makes the message unusable.
  lemma NominatedMeaning(rules: Rules, fs: Fields)
    ensures Nominated(rules, fs).Ok? <==> ConnectionIsNames(rules, fs)
    ensures Nominated(rules, fs).Ok? ==> forall name :: name in Nominated(rules, fs).value <==> Nominates(rules, fs, name)
  {
    hide GetAll, SplitCommas, NominatedFrom, ConnectionLists, Spaced, SpellsName, SameName;
    var values := GetAll(fs, CONNECTION);
    NominatedFromMeaning(rules, values, []);
    TextsMeaning(rules, fs);
    forall word ensures ConnectionLists(rules, fs, word) <==>
      exists v, item :: v in values && rules.text(v).Some? && item in SplitCommas(rules.text(v).value) && Spaced(item, word)
    {
      ListsMeaning(rules, fs, word);
    }
    if forall v :: v in values ==> ValueIsNames(rules, v) {
      forall word | ConnectionLists(rules, fs, word) ensures exists name :: SpellsName(word, name) {
        var v, item :|
          v in values && rules.text(v).Some? && item in SplitCommas(rules.text(v).value) && Spaced(item, word);
        assert ValueIsNames(rules, v);
      }
    }
    if ConnectionIsNames(rules, fs) {
      forall v | v in values ensures ValueIsNames(rules, v) {
        forall item, word | item in SplitCommas(rules.text(v).value) && Spaced(item, word)
          ensures exists name :: SpellsName(word, name)
        {
          assert ConnectionLists(rules, fs, word);
        }
      }
    }
  }

  // ----- what is kept --------------------------------------------------------

  const HOP_NAMES: set<bytes> := {CONNECTION, KEEP_ALIVE, PROXY_CONNECTION, TRANSFER_ENCODING, UPGRADE}

  // Not sent on HTTP/2: names that belong to one connection, nominated names, and in a
  // request the pseudo-headers, which are written anew, and Host.
  ghost predicate Dropped(f: Field, nominated: seq<bytes>, request: bool) {
    (request && (IsPseudo(f.name) || SameName(f.name, HOST)))
    || (exists name :: name in HOP_NAMES && SameName(f.name, name))
    || LowerAll(f.name) in nominated
  }

  lemma HopMeaning(f: Field)
    ensures ConnectionSpecific(LowerAll(f.name)) <==> exists name :: name in HOP_NAMES && SameName(f.name, name)
  {
    hide LowerAll;
    LowerHopNames();
    assert CONNECTION in HOP_NAMES && KEEP_ALIVE in HOP_NAMES && PROXY_CONNECTION in HOP_NAMES;
    assert TRANSFER_ENCODING in HOP_NAMES && UPGRADE in HOP_NAMES;
  }

  lemma LowerHopNames()
    ensures LowerAll(CONNECTION) == CONNECTION && LowerAll(KEEP_ALIVE) == KEEP_ALIVE
    ensures LowerAll(PROXY_CONNECTION) == PROXY_CONNECTION && LowerAll(TRANSFER_ENCODING) == TRANSFER_ENCODING
    ensures LowerAll(UPGRADE) == UPGRADE
  {
    forall name | name in HOP_NAMES ensures LowerAll(name) == name {
      assert forall i :: 0 <= i < |name| ==> Lower(name[i]) == name[i];
    }
    assert CONNECTION in HOP_NAMES && KEEP_ALIVE in HOP_NAMES && PROXY_CONNECTION in HOP_NAMES;
    assert TRANSFER_ENCODING in HOP_NAMES && UPGRADE in HOP_NAMES;
  }

  // Positions in a list, in order.
  ghost predicate Ascending(idx: seq<nat>, n: nat) {
    (forall k :: 0 <= k < |idx| ==> idx[k] < n) && (forall k, l :: 0 <= k < l < |idx| ==> idx[k] < idx[l])
  }

  // These positions hold exactly the fields that are not dropped, and the kept fields are
  // theirs with names in lower case.
  ghost predicate KeptAt(fs: Fields, nominated: seq<bytes>, request: bool, kept: Fields, idx: seq<nat>) {
    Ascending(idx, |fs|) && |kept| == |idx|
    && (forall k :: 0 <= k < |idx| ==> kept[k] == Field(LowerAll(fs[idx[k]].name), fs[idx[k]].value))
    && (forall i: nat :: i < |fs| ==> (i in idx <==> !Dropped(fs[i], nominated, request)))
  }

  function Shifted(idx: seq<nat>): (r: seq<nat>)
    ensures |r| == |idx| && forall k :: 0 <= k < |idx| ==> r[k] == idx[k] + 1
  {
    seq(|idx|, k requires 0 <= k < |idx| => idx[k] + 1)
  }

  lemma KeptSkip(fs: Fields, nominated: seq<bytes>, request: bool, kept: Fields, idx: seq<nat>)
    requires fs != [] && Dropped(fs[0], nominated, request) && KeptAt(fs[1..], nominated, request, kept, idx)
    ensures KeptAt(fs, nominated, request, kept, Shifted(idx))
  {
    hide Dropped;
    var s := Shifted(idx);
    forall i: nat | i < |fs| ensures i in s <==> !Dropped(fs[i], nominated, request) {
      if i > 0 {
        assert fs[i] == fs[1..][i - 1];
        InShifted(idx, i);
      } else {
        InShifted(idx, i);
      }
    }
  }

  lemma InShifted(idx: seq<nat>, i: nat)
    ensures i in Shifted(idx) <==> i > 0 && i - 1 in idx
  {
    var s := Shifted(idx);
    if i in s {
      var k :| 0 <= k < |s| && s[k] == i;
      assert idx[k] == i - 1;
    }
    if i > 0 && i - 1 in idx {
      var k :| 0 <= k < |idx| && idx[k] == i - 1;
      assert s[k] == i;
    }
  }

  lemma KeptNext(fs: Fields, nominated: seq<bytes>, request: bool, kept: Fields, idx: seq<nat>)
    requires fs != [] && !Dropped(fs[0], nominated, request) && KeptAt(fs[1..], nominated, request, kept, idx)
    ensures KeptAt(fs, nominated, request, [Field(LowerAll(fs[0].name), fs[0].value)] + kept, [0] + Shifted(idx))
  {
    hide Dropped, LowerAll;
    var s := Shifted(idx);
    forall i: nat | i < |fs| ensures i in [0] + s <==> !Dropped(fs[i], nominated, request) {
      if i > 0 {
        assert fs[i] == fs[1..][i - 1];
      }
      InShifted(idx, i);
    }
  }

  // A field that stops the message: a pseudo-header among a response's fields; or one
  // that is not dropped and has a TE that asks for more than trailers, or a name or value
  // that no field can have.
  ghost predicate Refused(f: Field, nominated: seq<bytes>, request: bool) {
    (!request && IsPseudo(f.name))
    || (!Dropped(f, nominated, request)
        && ((SameName(f.name, TE) && !SameName(f.value, TRAILERS)) || !ValidField(Field(LowerAll(f.name), f.value))))
  }

  // What the filter keeps, position by position.
  lemma {:induction false} KeptMeaning(fs: Fields, nominated: seq<bytes>, request: bool) returns (idx: seq<nat>)
    ensures KeptFields(fs, nominated, request).Ok? ==>
            KeptAt(fs, nominated, request, KeptFields(fs, nominated, request).value, idx)
  {
    hide ConnectionSpecific, TeOk, LowerAll, ValidName, ValidValue, KeptAt, Dropped, SameName;
    idx := [];
    if fs == [] {
      KeptNothing(nominated, request);
    } else {
      var rest := KeptMeaning(fs[1..], nominated, request);
      DroppedMeaning(fs[0], nominated, request);
      if KeptFields(fs, nominated, request).Ok? {
        if Dropped(fs[0], nominated, request) {
          KeptSkip(fs, nominated, request, KeptFields(fs[1..], nominated, request).value, rest);
          idx := Shifted(rest);
        } else {
          KeptNext(fs, nominated, request, KeptFields(fs[1..], nominated, request).value, rest);
          idx := [0] + Shifted(rest);
        }
      }
    }
  }

  lemma KeptNothing(nominated: seq<bytes>, request: bool)
    ensures KeptAt([], nominated, request, [], [])
  {
  }

  lemma DroppedMeaning(f: Field, nominated: seq<bytes>, request: bool)
    ensures
      var name := LowerAll(f.name);
      Dropped(f, nominated, request) <==>
      (request && (IsPseudo(f.name) || SameName(f.name, HOST))) || ConnectionSpecific(name) || name in nominated
  {
    hide LowerAll, SameName;
    HopMeaning(f);
  }

  lemma TeMeaning(f: Field)
    ensures TeOk(LowerAll(f.name), f.value) <==> (SameName(f.name, TE) ==> SameName(f.value, TRAILERS))
  {
    assert LowerAll(TE) == TE by {
      assert forall i :: 0 <= i < |TE| ==> Lower(TE[i]) == TE[i];
    }
  }

  // The filter goes through exactly when no field is refused.
  lemma {:induction false} KeptAccepts(fs: Fields, nominated: seq<bytes>, request: bool)
    ensures KeptFields(fs, nominated, request).Ok? <==> forall i :: 0 <= i < |fs| ==> !Refused(fs[i], nominated, request)
  {
    hide ConnectionSpecific, TeOk, LowerAll, ValidName, ValidValue, Dropped, SameName;
    if fs != [] {
      KeptAccepts(fs[1..], nominated, request);
      DroppedMeaning(fs[0], nominated, request);
      TeMeaning(fs[0]);
      assert (forall i :: 0 <= i < |fs| ==> !Refused(fs[i], nominated, request))
        <==> !Refused(fs[0], nominated, request) && forall i :: 0 <= i < |fs[1..]| ==> !Refused(fs[1..][i], nominated, request) by {
        hide Refused;
        assert fs == [fs[0]] + fs[1..];
      }
    }
  }

  // ----- the whole request ---------------------------------------------------

  ghost predicate FirstNamed(fs: Fields, name: bytes, value: bytes) {
    exists i :: 0 <= i < |fs| && SameName(fs[i].name, name) && fs[i].value == value
                && forall j :: 0 <= j < i ==> !SameName(fs[j].name, name)
  }

  lemma {:induction false} FirstValue(fs: Fields, name: bytes)
    requires GetAll(fs, name) != []
    ensures FirstNamed(fs, name, GetAll(fs, name)[0])
  {
    hide SameName;
    if !SameName(fs[0].name, name) {
      FirstValue(fs[1..], name);
      var v := GetAll(fs[1..], name)[0];
      var i :| 0 <= i < |fs[1..]| && SameName(fs[1..][i].name, name) && fs[1..][i].value == v
               && forall j :: 0 <= j < i ==> !SameName(fs[1..][j].name, name);
      forall j | 0 <= j < i + 1 ensures !SameName(fs[j].name, name) {
        assert j > 0 ==> fs[j] == fs[1..][j - 1];
      }
      assert fs[i + 1] == fs[1..][i];
    }
  }

  lemma ProtocolMeaning(head: RequestHead)
    requires UniqueProtocol(head.headers).Ok?
    ensures Protocol(head).None? <==> NoField(head.headers, PROTOCOL)
    ensures Protocol(head).Some? ==> FirstNamed(head.headers, PROTOCOL, Protocol(head).value)
  {
    hide GetAll, SameName, OtherPseudo;
    NoFieldMeaning(head.headers, PROTOCOL);
    if GetAll(head.headers, PROTOCOL) != [] {
      FirstValue(head.headers, PROTOCOL);
    }
  }

  lemma AuthorityMeaning(rules: Rules, head: RequestHead)
    requires AuthorityOf(rules, head).Ok?
    ensures
      var authority := AuthorityOf(rules, head).value;
      head.uri.authority == Some(authority) || (head.uri.authority.None? && FirstNamed(head.headers, HOST, authority))
  {
    hide GetAll, SameName;
    if head.uri.authority.None? {
      FirstValue(head.headers, HOST);
    }
  }

  // A request through HTTP/2 and back: its method, its URI with the authority it names or
  // else that of the first Host field, its :protocol, and behind it, in their order and
  // with names in lower case, exactly the fields that are not dropped.
  lemma RequestArrives(rules: Rules, head: RequestHead) returns (nominated: seq<bytes>, kept: Fields, idx: seq<nat>)
    requires ProperRequest(rules, head) && EncodeRequest(rules, head).Ok?
    requires DecodeRequest(rules, EncodeRequest(rules, head).value).Ok?
    ensures forall name :: name in nominated <==> Nominates(rules, head.headers, name)
    ensures KeptAt(head.headers, nominated, true, kept, idx)
    ensures
      var got := DecodeRequest(rules, EncodeRequest(rules, head).value).value;
      var plainConnect := head.method_ == CONNECT && NoField(head.headers, PROTOCOL);
      got.method_ == head.method_
      && got.uri.scheme == (if plainConnect then None else head.uri.scheme)
      && got.uri.path == (if plainConnect then None else Some(if head.uri.path.Some? then head.uri.path.value else [47]))
      && got.uri.authority.Some?
      && (head.uri.authority == got.uri.authority
          || (head.uri.authority.None? && FirstNamed(head.headers, HOST, got.uri.authority.value)))
      && (if NoField(head.headers, PROTOCOL) then got.headers == kept
          else exists protocol :: FirstNamed(head.headers, PROTOCOL, protocol)
                                  && got.headers == [Field([58, 112, 114, 111, 116, 111, 99, 111, 108], protocol)] + kept)
  {
    hide KeptFields, Nominated, UniqueProtocol, AuthorityOf, DecodeRequest, KeptAt, FirstNamed, NoField, Nominates,
         RequestPseudos, AllTokenBytes;
    RequestRoundTrip(rules, head);
    nominated := Nominated(rules, head.headers).value;
    kept := KeptFields(head.headers, nominated, true).value;
    NominatedMeaning(rules, head.headers);
    idx := KeptMeaning(head.headers, nominated, true);
    ProtocolMeaning(head);
    AuthorityMeaning(rules, head);
    assert [] + kept == kept;
  }

  // A response: its status, and exactly the fields that are not dropped.
  lemma ResponseArrives(rules: Rules, head: ResponseHead) returns (nominated: seq<bytes>, idx: seq<nat>)
    requires StatusOk(head.status) && EncodeResponse(rules, head).Ok?
    ensures forall name :: name in nominated <==> Nominates(rules, head.headers, name)
    ensures
      var got := DecodeResponse(EncodeResponse(rules, head).value);
      got.Ok? && got.value.status == head.status && KeptAt(head.headers, nominated, false, got.value.headers, idx)
  {
    hide KeptFields, Nominated, DecodeResponse, KeptAt, Nominates;
    ResponseRoundTrip(rules, head);
    nominated := Nominated(rules, head.headers).value;
    NominatedMeaning(rules, head.headers);
    idx := KeptMeaning(head.headers, nominated, false);
  }

  // ----- what the decoder accepts --------------------------------------------

  const PSEUDO_NAMES: set<bytes> := {METHOD, SCHEME, AUTHORITY, PATH, PROTOCOL}

  ghost predicate RegularInOrder(f: Field) {
    LowerAll(f.name) == f.name && !IsPseudo(f.name) && f.name !in HOP_NAMES && (f.name == TE ==> SameName(f.value, TRAILERS))
  }

  // So many known pseudo-headers, each once, and then regular fields.
  ghost predicate SplitInOrder(block: Fields, n: nat) {
    n <= |block|
    && (forall i :: 0 <= i < n ==> block[i].name in PSEUDO_NAMES)
    && (forall i, j :: 0 <= i < j < n ==> block[i].name != block[j].name)
    && (forall i :: n <= i < |block| ==> RegularInOrder(block[i]))
  }

  ghost predicate BlockInOrder(block: Fields) {
    exists n: nat :: SplitInOrder(block, n)
  }

  lemma RegularMeaning(f: Field)
    ensures !IsPseudo(f.name) && InboundRegular(f) <==> RegularInOrder(f)
  {
    hide LowerAll, SameName;
    assert CONNECTION in HOP_NAMES && KEEP_ALIVE in HOP_NAMES && PROXY_CONNECTION in HOP_NAMES;
    assert TRANSFER_ENCODING in HOP_NAMES && UPGRADE in HOP_NAMES;
  }

  lemma KnownMeaning(name: bytes)
    ensures Known(name) <==> name in PSEUDO_NAMES
    ensures Known(name) ==> IsPseudo(name)
  {
    assert METHOD in PSEUDO_NAMES && SCHEME in PSEUDO_NAMES && AUTHORITY in PSEUDO_NAMES;
    assert PATH in PSEUDO_NAMES && PROTOCOL in PSEUDO_NAMES;
  }

  lemma {:induction false} LeadingMeaning(block: Fields)
    ensures forall i :: 0 <= i < Leading(block) ==> IsPseudo(block[i].name)
    ensures Leading(block) < |block| ==> !IsPseudo(block[Leading(block)].name)
  {
    if block != [] && IsPseudo(block[0].name) {
      LeadingMeaning(block[1..]);
      assert forall i :: 1 <= i < |block| ==> block[i] == block[1..][i - 1];
    }
  }

  lemma LeadingIs(block: Fields, n: nat)
    requires SplitInOrder(block, n)
    ensures Leading(block) == n
  {
    hide Leading, IsPseudo, Known;
    LeadingMeaning(block);
    forall i | 0 <= i < |block| ensures IsPseudo(block[i].name) <==> i < n {
      KnownMeaning(block[i].name);
    }
    var m := Leading(block);
    if m < |block| {
      assert !IsPseudo(block[m].name);
    }
    if n < |block| {
      assert !IsPseudo(block[n].name);
    }
  }

  lemma OrderMeaning(block: Fields)
    ensures WellOrdered(block) <==> BlockInOrder(block)
  {
    hide InboundRegular, Known, RegularInOrder, IsPseudo, Leading;
    LeadingMeaning(block);
    forall i | 0 <= i < |block|
      ensures !IsPseudo(block[i].name) && InboundRegular(block[i]) <==> RegularInOrder(block[i])
      ensures Known(block[i].name) <==> block[i].name in PSEUDO_NAMES
      ensures Known(block[i].name) ==> IsPseudo(block[i].name)
    {
      RegularMeaning(block[i]);
      KnownMeaning(block[i].name);
    }
    if WellOrdered(block) {
      assert SplitInOrder(block, Leading(block));
    }
    if n: nat :| SplitInOrder(block, n) {
      LeadingIs(block, n);
    }
  }

  ghost predicate Carries(block: Fields, name: bytes, value: bytes) {
    exists i :: 0 <= i < |block| && block[i] == Field(name, value)
  }

  lemma {:induction false} SlotsMeaning(block: Fields, slots: Slots, headers: Fields, saw: bool, name: bytes, value: bytes)
    requires Known(name) && Scan(block, slots, headers, saw).Ok?
    ensures Slot(Scan(block, slots, headers, saw).value.0, name) == Some(value) <==>
            Slot(slots, name) == Some(value) || Carries(block, name, value)
    decreases |block|
  {
    hide InboundRegular, SetSlot, Slot, Known, LowerAll;
    if block != [] {
      var f := block[0];
      KnownMeaning(name);
      CarriesFirst(block, name, value);
      if IsPseudo(f.name) {
        SetSlotMeaning(slots, f.name, f.value);
        SlotsMeaning(block[1..], SetSlot(slots, f.name, f.value).value, headers, false, name, value);
        ScanKeeps(block[1..], SetSlot(slots, f.name, f.value).value, headers, false, f.name);
      } else {
        SlotsMeaning(block[1..], slots, headers + [f], true, name, value);
      }
    }
  }

  lemma CarriesFirst(block: Fields, name: bytes, value: bytes)
    requires block != []
    ensures Carries(block, name, value) <==> block[0] == Field(name, value) || Carries(block[1..], name, value)
  {
    if Carries(block[1..], name, value) {
      var i :| 0 <= i < |block[1..]| && block[1..][i] == Field(name, value);
      assert block[i + 1] == Field(name, value);
    }
    if Carries(block, name, value) && block[0] != Field(name, value) {
      var i :| 0 <= i < |block| && block[i] == Field(name, value);
      assert block[1..][i - 1] == Field(name, value);
    }
  }

  // A slot that is filled is not filled again.
  lemma {:induction false} ScanKeeps(block: Fields, slots: Slots, headers: Fields, saw: bool, name: bytes)
    requires Slot(slots, name).Some? && IsPseudo(name) && Scan(block, slots, headers, saw).Ok?
    ensures forall value :: !Carries(block, name, value)
    decreases |block|
  {
    hide InboundRegular, SetSlot, Slot, Known, LowerAll;
    if block != [] {
      var f := block[0];
      forall value ensures Carries(block, name, value) <==> block[0] == Field(name, value) || Carries(block[1..], name, value) {
        CarriesFirst(block, name, value);
      }
      if IsPseudo(f.name) {
        SetSlotMeaning(slots, f.name, f.value);
        ScanKeeps(block[1..], SetSlot(slots, f.name, f.value).value, headers, false, name);
      } else {
        ScanKeeps(block[1..], slots, headers + [f], true, name);
      }
    }
  }

  ghost predicate Lacks(block: Fields, name: bytes) {
    forall value :: !Carries(block, name, value)
  }

  // The pseudo-headers of a request: a method; with a plain CONNECT only an authority,
  // and otherwise scheme, authority and path; :protocol only with CONNECT.
  ghost predicate PseudosInOrder(rules: Rules, block: Fields) {
    exists method_ ::
      Carries(block, METHOD, method_) && IsToken(method_)
      && (!Lacks(block, PROTOCOL) ==> method_ == CONNECT)
      && (exists authority :: Carries(block, AUTHORITY, authority) && rules.authority(authority))
      && if method_ == CONNECT && Lacks(block, PROTOCOL) then Lacks(block, SCHEME) && Lacks(block, PATH)
         else (exists scheme :: Carries(block, SCHEME, scheme) && rules.scheme(scheme))
              && (exists path :: Carries(block, PATH, path) && rules.path(path))
  }

  lemma SlotMeaning(block: Fields, name: bytes)
    requires Known(name) && Scan(block, NO_SLOTS, [], false).Ok?
    ensures
      var slot := Slot(Scan(block, NO_SLOTS, [], false).value.0, name);
      (slot.None? <==> Lacks(block, name)) && forall value :: slot == Some(value) <==> Carries(block, name, value)
  {
    hide Scan, Carries;
    forall value ensures Slot(Scan(block, NO_SLOTS, [], false).value.0, name) == Some(value) <==> Carries(block, name, value) {
      SlotsMeaning(block, NO_SLOTS, [], false, name, value);
    }
  }

  // The decoder accepts a block exactly when its fields and pseudo-headers are in order.
  lemma DecoderAccepts(rules: Rules, block: Fields)
    ensures DecodeRequest(rules, block).Ok? <==> BlockInOrder(block) && PseudosInOrder(rules, block)
  {
    hide Scan, WellOrdered, BlockInOrder, Carries, Lacks, AllTokenBytes;
    ScanAccepts(block);
    OrderMeaning(block);
    if WellOrdered(block) {
      SlotMeaning(block, METHOD);
      SlotMeaning(block, SCHEME);
      SlotMeaning(block, AUTHORITY);
      SlotMeaning(block, PATH);
      SlotMeaning(block, PROTOCOL);
      NamesDistinct();
    }
  }

  ghost predicate Gives(block: Fields, name: bytes, value: Option<bytes>) {
    match value
    case None => Lacks(block, name)
    case Some(v) => Carries(block, name, v)
  }

  // The head that is read: what the pseudo-headers carry, and the regular fields behind
  // them as they are, with :protocol in front.
  lemma DecoderReads(rules: Rules, block: Fields) returns (n: nat, protocol: Option<bytes>)
    requires DecodeRequest(rules, block).Ok?
    ensures SplitInOrder(block, n) && Gives(block, PROTOCOL, protocol)
    ensures
      var head := DecodeRequest(rules, block).value;
      Carries(block, METHOD, head.method_) && Gives(block, SCHEME, head.uri.scheme)
      && Gives(block, AUTHORITY, head.uri.authority) && Gives(block, PATH, head.uri.path)
      && head.headers == (if protocol.Some? then [Field(PROTOCOL, protocol.value)] else []) + block[n..]
  {
    hide Scan, WellOrdered, SplitInOrder, Carries, Lacks, AllTokenBytes, Leading;
    ScanAccepts(block);
    OrderMeaning(block);
    n := LeadingSplits(block);
    protocol := Scan(block, NO_SLOTS, [], false).value.0.protocol;
    SlotMeaning(block, METHOD);
    SlotMeaning(block, SCHEME);
    SlotMeaning(block, AUTHORITY);
    SlotMeaning(block, PATH);
    SlotMeaning(block, PROTOCOL);
    NamesDistinct();
  }

  lemma LeadingSplits(block: Fields) returns (n: nat)
    requires BlockInOrder(block)
    ensures n == Leading(block) && SplitInOrder(block, n)
  {
    hide SplitInOrder, Leading;
    n :| SplitInOrder(block, n);
    LeadingIs(block, n);
  }

  lemma NamesDistinct()
    ensures METHOD != SCHEME && METHOD != AUTHORITY && METHOD != PATH && METHOD != PROTOCOL && SCHEME != AUTHORITY
    ensures SCHEME != PATH && SCHEME != PROTOCOL && AUTHORITY != PATH && AUTHORITY != PROTOCOL && PATH != PROTOCOL
  {
    assert METHOD[1] == 109 && SCHEME[1] == 115 && AUTHORITY[1] == 97 && PATH[1] == 112 && PROTOCOL[1] == 112;
    assert |PATH| == 5 && |PROTOCOL| == 9;
  }

  // ----- the response decoder ------------------------------------------------

  lemma {:induction false} ScanTail(block: Fields, status: Option<bytes>, headers: Fields, saw: bool, r: (Option<bytes>, Fields))
    requires status.Some? || saw
    ensures ScanResponse(block, status, headers, saw) == Ok(r) <==>
            r == (status, headers + block) && forall i :: 0 <= i < |block| ==> RegularInOrder(block[i])
    decreases |block|
  {
    hide RegularInOrder, IsLower, InboundRegular, IsPseudo;
    if block == [] {
      assert headers + block == headers;
    } else {
      RegularMeaning(block[0]);
      RegularIsLower(block[0]);
      if RegularInOrder(block[0]) {
        ScanTail(block[1..], status, headers + [block[0]], true, r);
        assert (headers + [block[0]]) + block[1..] == headers + block;
        assert (forall i :: 0 <= i < |block| ==> RegularInOrder(block[i]))
          <==> forall i :: 0 <= i < |block[1..]| ==> RegularInOrder(block[1..][i]) by {
          assert forall i :: 0 <= i < |block[1..]| ==> block[1..][i] == block[i + 1];
          assert block == [block[0]] + block[1..];
        }
      }
    }
  }

  // Three digits, the first not zero.
  predicate StatusSays(text: bytes, status: nat) {
    100 <= status <= 999
    && text == [48 + status / 100, 48 + status / 10 % 10, 48 + status % 10]
  }

  lemma StatusMeaning(text: bytes, status: nat)
    ensures ReadStatus(text) == Some(status) <==> StatusSays(text, status)
  {
    if ReadStatus(text) == Some(status) {
      var a, b, c := text[0] as int - 48, text[1] as int - 48, text[2] as int - 48;
      ThreeDigits(a, b, c, status);
      assert text == [text[0], text[1], text[2]];
    }
    if StatusSays(text, status) {
      StatusRoundTrip(status);
    }
  }

  lemma ThreeDigits(a: int, b: int, c: int, n: int)
    requires 1 <= a <= 9 && 0 <= b <= 9 && 0 <= c <= 9 && n == a * 100 + b * 10 + c
    ensures n / 100 == a && n / 10 % 10 == b && n % 10 == c
  {
    assert n / 10 == a * 10 + b;
  }

  // A response is read exactly when its block is one :status field, which says the status,
  // and regular fields in order behind it.
  lemma ResponseDecoderAccepts(block: Fields, head: ResponseHead)
    ensures DecodeResponse(block) == Ok(head) <==>
            block != [] && block[0].name == STATUS && StatusSays(block[0].value, head.status) && head.headers == block[1..]
            && forall i :: 1 <= i < |block| ==> RegularInOrder(block[i])
  {
    hide RegularInOrder, ReadStatus, StatusSays, InboundRegular;
    if block != [] {
      var f := block[0];
      StatusMeaning(f.value, head.status);
      PseudoNames();
      ScanTail(block[1..], Some(f.value), [], false, (Some(f.value), block[1..]));
      assert [] + block[1..] == block[1..] && [] + [f] == [f];
      assert forall i :: 0 <= i < |block[1..]| ==> block[1..][i] == block[i + 1];
      forall r ensures ScanResponse(block[1..], Some(f.value), [], false) == Ok(r) ==> r == (Some(f.value), block[1..]) {
        ScanTail(block[1..], Some(f.value), [], false, r);
      }
      forall r ensures ScanResponse(block[1..], None, [f], true) == Ok(r) ==> r.0.None? {
        ScanTail(block[1..], None, [f], true, r);
      }
      assert (forall i :: 1 <= i < |block| ==> RegularInOrder(block[i]))
        <==> forall i :: 0 <= i < |block[1..]| ==> RegularInOrder(block[1..][i]) by {
        assert forall i :: 1 <= i < |block| ==> block[1..][i - 1] == block[i];
      }
    }
  }

  lemma RegularIsLower(f: Field)
    ensures RegularInOrder(f) ==> IsLower(f.name) && !IsPseudo(f.name)
  {
  }
}
