// The ordered header block kept beside a header map: it follows the edits of the map,
// and keeps the order and the spelling of what was not edited.
module OrderedHeaders {
  import opened Results
  import opened Bytes
  import opened Headers

  const MAX_NAME_BYTES: nat := 0xffff

  // A name the map can hold; it holds it in lower case.
  predicate MapName(name: bytes) {
    IsToken(name) && |name| <= MAX_NAME_BYTES
  }

  // The map: its names in iteration order, and the values of each.
  datatype HeaderMap = HeaderMap(keys: seq<bytes>, values: map<bytes, seq<bytes>>)

  ghost predicate ValidMap(m: HeaderMap) {
    (forall k :: k in m.keys <==> k in m.values)
    && (forall i, j :: 0 <= i < j < |m.keys| ==> m.keys[i] != m.keys[j])
    && (forall k :: k in m.values ==> MapName(k) && LowerAll(k) == k && m.values[k] != [] && AllValid(m.values[k]))
  }

  predicate AllValid(values: seq<bytes>) {
    forall i :: 0 <= i < |values| ==> ValidValue(values[i])
  }

  function Values(m: HeaderMap, name: bytes): seq<bytes> {
    if name in m.values then m.values[name] else []
  }

  // Maps are compared by content; iteration order does not count.
  predicate SameMap(a: HeaderMap, b: HeaderMap) {
    a.values == b.values
  }

  // The block and the map carry the same values, in the same order, for every name.
  ghost predicate Represents(fs: Fields, m: HeaderMap) {
    (forall f :: f in fs ==> MapName(f.name) && ValidValue(f.value))
    && forall n: bytes :: LowerAll(n) == n ==> GetAll(fs, n) == Values(m, n)
  }

  // ----- conversions ---------------------------------------------------------

  function AppendValue(m: HeaderMap, name: bytes, value: bytes): HeaderMap {
    HeaderMap(if name in m.values then m.keys else m.keys + [name], m.values[name := Values(m, name) + [value]])
  }

  function ToMapFrom(fs: Fields, m: HeaderMap): Option<HeaderMap> {
    if fs == [] then Some(m)
    else if !MapName(fs[0].name) || !ValidValue(fs[0].value) then None
    else ToMapFrom(fs[1..], AppendValue(m, LowerAll(fs[0].name), fs[0].value))
  }

  function ToMap(fs: Fields): Option<HeaderMap> {
    ToMapFrom(fs, HeaderMap([], map[]))
  }

  function FieldsNamed(name: bytes, values: seq<bytes>): Fields {
    if values == [] then [] else [Field(name, values[0])] + FieldsNamed(name, values[1..])
  }

  function FromKeys(m: HeaderMap, keys: seq<bytes>): Fields {
    if keys == [] then [] else FieldsNamed(keys[0], Values(m, keys[0])) + FromKeys(m, keys[1..])
  }

  function FromMap(m: HeaderMap): Fields {
    FromKeys(m, m.keys)
  }

  lemma LowerIsToken(name: bytes)
    ensures MapName(LowerAll(name)) <==> MapName(name)
    ensures LowerAll(LowerAll(name)) == LowerAll(name)
  {
    var low := LowerAll(name);
    forall i | 0 <= i < |name| ensures IsTokenByte(low[i]) <==> IsTokenByte(name[i]) {
    }
    assert AllTokenBytes(low) <==> AllTokenBytes(name) by {
      assert AllTokenBytes(low) ==> forall i :: 0 <= i < |name| ==> IsTokenByte(low[i]);
      assert AllTokenBytes(name) ==> forall i :: 0 <= i < |name| ==> IsTokenByte(name[i]);
    }
  }

  lemma {:induction false} NamedValues(name: bytes, values: seq<bytes>, n: bytes)
    ensures GetAll(FieldsNamed(name, values), n) == if SameName(name, n) then values else []
  {
    hide SameName;
    if values != [] {
      NamedValues(name, values[1..], n);
      assert FieldsNamed(name, values)[1..] == FieldsNamed(name, values[1..]);
    }
  }

  lemma {:induction false} NamedFields(name: bytes, values: seq<bytes>)
    ensures forall f :: f in FieldsNamed(name, values) ==> f.name == name && f.value in values
  {
    if values != [] {
      NamedFields(name, values[1..]);
    }
  }

  lemma {:induction false} ToMapMeaning(fs: Fields, m: HeaderMap)
    requires ToMapFrom(fs, m).Some?
    requires ValidMap(m)
    ensures ValidMap(ToMapFrom(fs, m).value)
    ensures forall n: bytes :: LowerAll(n) == n ==> Values(ToMapFrom(fs, m).value, n) == Values(m, n) + GetAll(fs, n)
    ensures forall f :: f in fs ==> MapName(f.name) && ValidValue(f.value)
  {
    hide ValidValue, MapName, LowerAll, AppendValue, Values, ValidMap, GetAll;
    if fs != [] {
      var name := LowerAll(fs[0].name);
      LowerIsToken(fs[0].name);
      var next := AppendValue(m, name, fs[0].value);
      AppendValid(m, name, fs[0].value);
      ToMapMeaning(fs[1..], next);
      forall n: bytes | LowerAll(n) == n
        ensures Values(ToMapFrom(fs, m).value, n) == Values(m, n) + GetAll(fs, n)
      {
        AppendedValues(m, name, fs[0].value, n);
        FirstOfAll(fs, n);
        assert (Values(m, n) + [fs[0].value]) + GetAll(fs[1..], n) == Values(m, n) + ([fs[0].value] + GetAll(fs[1..], n));
      }
      assert fs == [fs[0]] + fs[1..];
    } else {
      forall n: bytes ensures Values(m, n) + GetAll([], n) == Values(m, n) {
        NoneOfNothing(n);
      }
    }
  }

  lemma AppendedValues(m: HeaderMap, name: bytes, value: bytes, n: bytes)
    ensures Values(AppendValue(m, name, value), n) == if n == name then Values(m, n) + [value] else Values(m, n)
  {
  }

  lemma FirstOfAll(fs: Fields, n: bytes)
    requires fs != [] && LowerAll(n) == n
    ensures GetAll(fs, n) == if LowerAll(fs[0].name) == n then [fs[0].value] + GetAll(fs[1..], n) else GetAll(fs[1..], n)
  {
    hide LowerAll;
  }

  lemma NoneOfNothing(n: bytes)
    ensures GetAll([], n) == []
  {
  }

  lemma AppendValid(m: HeaderMap, name: bytes, value: bytes)
    requires ValidMap(m) && MapName(name) && LowerAll(name) == name && ValidValue(value)
    ensures ValidMap(AppendValue(m, name, value))
  {
    hide ValidValue, MapName, LowerAll;
  }

  // A block that has a map is represented by it.
  lemma ToMapRepresents(fs: Fields)
    requires ToMap(fs).Some?
    ensures ValidMap(ToMap(fs).value) && Represents(fs, ToMap(fs).value)
  {
    hide GetAll, MapName, ValidValue, LowerAll;
    var empty := HeaderMap([], map[]);
    assert ValidMap(empty);
    ToMapMeaning(fs, empty);
    forall n: bytes | LowerAll(n) == n ensures GetAll(fs, n) == Values(ToMap(fs).value, n) {
      assert [] + GetAll(fs, n) == GetAll(fs, n);
    }
  }

  lemma {:induction false} FromKeysValues(m: HeaderMap, keys: seq<bytes>, n: bytes)
    requires forall i, j :: 0 <= i < j < |keys| ==> keys[i] != keys[j]
    requires forall k :: k in keys ==> LowerAll(k) == k
    requires LowerAll(n) == n
    ensures GetAll(FromKeys(m, keys), n) == if n in keys then Values(m, n) else []
  {
    hide LowerAll, GetAll;
    if keys != [] {
      FromKeysValues(m, keys[1..], n);
      GetAllAppend(FieldsNamed(keys[0], Values(m, keys[0])), FromKeys(m, keys[1..]), n);
      NamedValues(keys[0], Values(m, keys[0]), n);
      assert SameName(keys[0], n) <==> keys[0] == n;
      assert Values(m, n) + [] == Values(m, n);
      assert forall k :: k in keys <==> k == keys[0] || k in keys[1..];
    } else {
      assert GetAll([], n) == [];
    }
  }

  lemma {:induction false} FromKeysFields(m: HeaderMap, keys: seq<bytes>)
    requires forall k :: k in keys ==> MapName(k) && AllValid(Values(m, k))
    ensures forall f :: f in FromKeys(m, keys) ==> MapName(f.name) && ValidValue(f.value)
  {
    hide MapName, ValidValue;
    if keys != [] {
      FromKeysFields(m, keys[1..]);
      NamedFields(keys[0], Values(m, keys[0]));
    }
  }

  // The block made from a map represents it.
  lemma FromMapRepresents(m: HeaderMap)
    requires ValidMap(m)
    ensures Represents(FromMap(m), m)
  {
    hide MapName, ValidValue, LowerAll, GetAll, FromKeys;
    forall n: bytes | LowerAll(n) == n ensures GetAll(FromMap(m), n) == Values(m, n) {
      FromKeysValues(m, m.keys, n);
    }
    FromKeysFields(m, m.keys);
  }

  // ----- the delta -----------------------------------------------------------

  // The names whose values differ, each once, in order of discovery.
  function ChangedFrom(names: seq<bytes>, before: HeaderMap, after: HeaderMap, found: seq<bytes>): seq<bytes> {
    if names == [] then found
    else if names[0] in found || Values(before, names[0]) == Values(after, names[0])
    then ChangedFrom(names[1..], before, after, found)
    else ChangedFrom(names[1..], before, after, found + [names[0]])
  }

  function ChangedNames(before: HeaderMap, after: HeaderMap): seq<bytes> {
    ChangedFrom(before.keys + after.keys, before, after, [])
  }

  predicate Touched(f: Field, changed: seq<bytes>) {
    MapName(f.name) && LowerAll(f.name) in changed
  }

  // The fields of the block: untouched ones as they are, and at the first field of a
  // changed name all its new values, under the name as it was written.
  function EmitFields(fs: Fields, changed: seq<bytes>, after: HeaderMap, emitted: seq<bytes>): Fields {
    if fs == [] then []
    else if !Touched(fs[0], changed) then [fs[0]] + EmitFields(fs[1..], changed, after, emitted)
    else
      var name := LowerAll(fs[0].name);
      if name in emitted then EmitFields(fs[1..], changed, after, emitted)
      else FieldsNamed(fs[0].name, Values(after, name)) + EmitFields(fs[1..], changed, after, emitted + [name])
  }

  function EmittedNames(fs: Fields, changed: seq<bytes>, emitted: seq<bytes>): seq<bytes> {
    if fs == [] then emitted
    else if !Touched(fs[0], changed) || LowerAll(fs[0].name) in emitted then EmittedNames(fs[1..], changed, emitted)
    else EmittedNames(fs[1..], changed, emitted + [LowerAll(fs[0].name)])
  }

  // Changed names the block did not have come last.
  function EmitRest(changed: seq<bytes>, after: HeaderMap, emitted: seq<bytes>): Fields {
    if changed == [] then []
    else (if changed[0] in emitted then [] else FieldsNamed(changed[0], Values(after, changed[0])))
         + EmitRest(changed[1..], after, emitted)
  }

  function ApplyDelta(ordered: Fields, before: HeaderMap, after: HeaderMap): Fields {
    var changed := ChangedNames(before, after);
    if changed == [] then ordered
    else EmitFields(ordered, changed, after, []) + EmitRest(changed, after, EmittedNames(ordered, changed, []))
  }

  lemma {:induction false} ChangedMeaning(names: seq<bytes>, before: HeaderMap, after: HeaderMap, found: seq<bytes>)
    requires forall i, j :: 0 <= i < j < |found| ==> found[i] != found[j]
    requires forall n :: n in found ==> Values(before, n) != Values(after, n)
    ensures
      var changed := ChangedFrom(names, before, after, found);
      (forall i, j :: 0 <= i < j < |changed| ==> changed[i] != changed[j])
      && forall n :: n in changed <==> n in found || (n in names && Values(before, n) != Values(after, n))
  {
    if names != [] {
      var next := if names[0] in found || Values(before, names[0]) == Values(after, names[0]) then found else found + [names[0]];
      ChangedMeaning(names[1..], before, after, next);
    }
  }

  // The changed names are exactly those whose values differ.
  lemma ChangedExactly(before: HeaderMap, after: HeaderMap)
    requires ValidMap(before) && ValidMap(after)
    ensures
      var changed := ChangedNames(before, after);
      (forall i, j :: 0 <= i < j < |changed| ==> changed[i] != changed[j])
      && (forall n :: n in changed <==> Values(before, n) != Values(after, n))
      && (forall n :: n in changed ==> MapName(n) && LowerAll(n) == n)
  {
    hide MapName, LowerAll, AllValid;
    ChangedMeaning(before.keys + after.keys, before, after, []);
  }

  lemma {:induction false} EmitValues(fs: Fields, changed: seq<bytes>, after: HeaderMap, emitted: seq<bytes>, n: bytes)
    requires LowerAll(n) == n && (forall f :: f in fs ==> MapName(f.name))
    ensures n !in changed ==> GetAll(EmitFields(fs, changed, after, emitted), n) == GetAll(fs, n)
    ensures n in changed ==>
      GetAll(EmitFields(fs, changed, after, emitted), n)
      == if n in emitted || n !in EmittedNames(fs, changed, emitted) then [] else Values(after, n)
    ensures n in emitted ==> n in EmittedNames(fs, changed, emitted)
    ensures n !in changed && n !in emitted ==> n !in EmittedNames(fs, changed, emitted)
  {
    hide LowerAll, MapName;
    if fs != [] {
      var f := fs[0];
      assert f in fs;
      assert SameName(f.name, n) <==> LowerAll(f.name) == n;
      var name := LowerAll(f.name);
      if !Touched(f, changed) {
        EmitValues(fs[1..], changed, after, emitted, n);
        GetAllAppend([f], EmitFields(fs[1..], changed, after, emitted), n);
        GetAllOne(f, n);
      } else if name in emitted {
        EmitValues(fs[1..], changed, after, emitted, n);
      } else {
        EmitValues(fs[1..], changed, after, emitted + [name], n);
        GetAllAppend(FieldsNamed(f.name, Values(after, name)), EmitFields(fs[1..], changed, after, emitted + [name]), n);
        NamedValues(f.name, Values(after, name), n);
        assert Values(after, n) + [] == Values(after, n);
      }
    }
  }

  lemma {:induction false} RestValues(changed: seq<bytes>, after: HeaderMap, emitted: seq<bytes>, n: bytes)
    requires LowerAll(n) == n && (forall c :: c in changed ==> LowerAll(c) == c)
    requires forall i, j :: 0 <= i < j < |changed| ==> changed[i] != changed[j]
    ensures GetAll(EmitRest(changed, after, emitted), n) == if n in changed && n !in emitted then Values(after, n) else []
  {
    hide LowerAll, GetAll;
    if changed != [] {
      var c := changed[0];
      RestValues(changed[1..], after, emitted, n);
      var mine := if c in emitted then [] else FieldsNamed(c, Values(after, c));
      GetAllAppend(mine, EmitRest(changed[1..], after, emitted), n);
      NamedValues(c, Values(after, c), n);
      NothingNamed(n);
      assert SameName(c, n) <==> c == n;
      assert Values(after, n) + [] == Values(after, n);
      assert forall k :: k in changed <==> k == c || k in changed[1..];
    } else {
      NothingNamed(n);
    }
  }

  lemma NothingNamed(n: bytes)
    ensures GetAll([], n) == []
  {
  }

  // The fields a change does not touch.
  function Untouched(fs: Fields, changed: seq<bytes>): Fields {
    if fs == [] then []
    else if Touched(fs[0], changed) then Untouched(fs[1..], changed)
    else [fs[0]] + Untouched(fs[1..], changed)
  }

  lemma {:induction false} UntouchedAppend(a: Fields, b: Fields, changed: seq<bytes>)
    ensures Untouched(a + b, changed) == Untouched(a, changed) + Untouched(b, changed)
  {
    hide Touched;
    if a == [] {
      assert a + b == b;
    } else {
      assert (a + b)[1..] == a[1..] + b;
      UntouchedAppend(a[1..], b, changed);
    }
  }

  lemma {:induction false} NamedTouched(name: bytes, values: seq<bytes>, changed: seq<bytes>)
    requires MapName(name) && LowerAll(name) in changed
    ensures Untouched(FieldsNamed(name, values), changed) == []
  {
    hide LowerAll, MapName;
    if values != [] {
      NamedTouched(name, values[1..], changed);
      assert FieldsNamed(name, values)[1..] == FieldsNamed(name, values[1..]);
    }
  }

  lemma {:induction false} EmitUntouched(fs: Fields, changed: seq<bytes>, after: HeaderMap, emitted: seq<bytes>)
    ensures Untouched(EmitFields(fs, changed, after, emitted), changed) == Untouched(fs, changed)
  {
    hide LowerAll, MapName;
    if fs != [] {
      var name := LowerAll(fs[0].name);
      if !Touched(fs[0], changed) {
        EmitUntouched(fs[1..], changed, after, emitted);
        assert ([fs[0]] + EmitFields(fs[1..], changed, after, emitted))[1..] == EmitFields(fs[1..], changed, after, emitted);
      } else if name in emitted {
        EmitUntouched(fs[1..], changed, after, emitted);
      } else {
        EmitUntouched(fs[1..], changed, after, emitted + [name]);
        UntouchedAppend(FieldsNamed(fs[0].name, Values(after, name)), EmitFields(fs[1..], changed, after, emitted + [name]), changed);
        NamedTouched(fs[0].name, Values(after, name), changed);
      }
    }
  }

  lemma {:induction false} RestUntouched(changed: seq<bytes>, all: seq<bytes>, after: HeaderMap, emitted: seq<bytes>)
    requires forall c :: c in changed ==> c in all && MapName(c) && LowerAll(c) == c
    ensures Untouched(EmitRest(changed, after, emitted), all) == []
  {
    hide LowerAll, MapName;
    if changed != [] {
      var c := changed[0];
      RestUntouched(changed[1..], all, after, emitted);
      var mine := if c in emitted then [] else FieldsNamed(c, Values(after, c));
      UntouchedAppend(mine, EmitRest(changed[1..], after, emitted), all);
      NamedTouched(c, Values(after, c), all);
    }
  }

  lemma {:induction false} EmitProper(fs: Fields, changed: seq<bytes>, after: HeaderMap, emitted: seq<bytes>)
    requires ValidMap(after) && forall f :: f in fs ==> MapName(f.name) && ValidValue(f.value)
    ensures forall f :: f in EmitFields(fs, changed, after, emitted) ==> MapName(f.name) && ValidValue(f.value)
  {
    hide LowerAll, MapName, ValidValue;
    if fs != [] {
      assert fs[0] in fs;
      var name := LowerAll(fs[0].name);
      EmitProper(fs[1..], changed, after, emitted);
      EmitProper(fs[1..], changed, after, emitted + [name]);
      NamedFields(fs[0].name, Values(after, name));
      assert AllValid(Values(after, name));
    }
  }

  lemma {:induction false} RestProper(changed: seq<bytes>, after: HeaderMap, emitted: seq<bytes>)
    requires ValidMap(after) && forall c :: c in changed ==> MapName(c)
    ensures forall f :: f in EmitRest(changed, after, emitted) ==> MapName(f.name) && ValidValue(f.value)
  {
    hide LowerAll, MapName, ValidValue;
    if changed != [] {
      RestProper(changed[1..], after, emitted);
      NamedFields(changed[0], Values(after, changed[0]));
      assert AllValid(Values(after, changed[0]));
    }
  }

  // Applying the delta between two maps to a block of the first gives a block of the
  // second; the fields of every name whose values did not change stay byte for byte
  // what they were, in their order.
  lemma DeltaMeaning(ordered: Fields, before: HeaderMap, after: HeaderMap)
    requires ValidMap(before) && ValidMap(after) && Represents(ordered, before)
    ensures Represents(ApplyDelta(ordered, before, after), after)
    ensures Untouched(ApplyDelta(ordered, before, after), ChangedNames(before, after))
         == Untouched(ordered, ChangedNames(before, after))
  {
    hide GetAll, LowerAll, MapName, ValidValue, EmitFields, EmitRest, EmittedNames, ChangedNames, ValidMap, Untouched;
    ChangedExactly(before, after);
    var changed := ChangedNames(before, after);
    var result := ApplyDelta(ordered, before, after);
    if changed != [] {
      var emitted := EmittedNames(ordered, changed, []);
      var front, rest := EmitFields(ordered, changed, after, []), EmitRest(changed, after, emitted);
      forall n: bytes | LowerAll(n) == n ensures GetAll(result, n) == Values(after, n) {
        GetAllAppend(front, rest, n);
        EmitValues(ordered, changed, after, [], n);
        RestValues(changed, after, emitted, n);
        assert Values(after, n) + [] == Values(after, n) && [] + Values(after, n) == Values(after, n);
      }
      EmitProper(ordered, changed, after, []);
      RestProper(changed, after, emitted);
      UntouchedAppend(front, rest, changed);
      EmitUntouched(ordered, changed, after, []);
      RestUntouched(changed, changed, after, emitted);
    } else {
      forall n: bytes | LowerAll(n) == n ensures GetAll(result, n) == Values(after, n) {
        assert n !in changed;
      }
    }
  }

  // ----- a message under edits -----------------------------------------------

  // The map other code edits, and the block kept beside it with the map it stood
  // for when it was last brought up to date.
  datatype Kept = Kept(live: HeaderMap, preserved: Option<(Fields, HeaderMap)>)

  datatype Action = Preserve(block: Fields) | Edit(map_: HeaderMap) | Synchronize

  function Act(s: Kept, a: Action): Kept {
    match a
    case Preserve(block) =>
      (match ToMap(block)
       case None => s
       case Some(m) => Kept(m, Some((block, m))))
    case Edit(m) => s.(live := m)
    case Synchronize =>
      match s.preserved
      case None => s
      case Some((ordered, compatible)) =>
        if SameMap(compatible, s.live) then s else s.(preserved := Some((ApplyDelta(ordered, compatible, s.live), s.live)))
  }

  function ActAll(s: Kept, actions: seq<Action>): Kept
    decreases |actions|
  {
    if actions == [] then s else ActAll(Act(s, actions[0]), actions[1..])
  }

  // The block to send: the kept one while it stands for the live map, else one made
  // from the map.
  function OrderedOf(s: Kept): Fields {
    if s.preserved.Some? && SameMap(s.preserved.value.1, s.live) then s.preserved.value.0 else FromMap(s.live)
  }

  ghost predicate KeptOk(s: Kept) {
    ValidMap(s.live)
    && (s.preserved.Some? ==>
          ValidMap(s.preserved.value.1) && Represents(s.preserved.value.0, s.preserved.value.1))
  }

  ghost predicate ProperActions(actions: seq<Action>) {
    forall i :: 0 <= i < |actions| && actions[i].Edit? ==> ValidMap(actions[i].map_)
  }

  lemma {:induction false} ActsKeep(s: Kept, actions: seq<Action>)
    requires KeptOk(s) && ProperActions(actions)
    ensures KeptOk(ActAll(s, actions))
    decreases |actions|
  {
    hide ValidMap, Represents, ToMapFrom, ApplyDelta;
    if actions != [] {
      if actions[0].Preserve? && ToMap(actions[0].block).Some? {
        ToMapRepresents(actions[0].block);
      } else if actions[0].Synchronize? && s.preserved.Some? {
        DeltaMeaning(s.preserved.value.0, s.preserved.value.1, s.live);
      }
      ActsKeep(Act(s, actions[0]), actions[1..]);
    }
  }

  lemma SameMapRepresents(fs: Fields, a: HeaderMap, b: HeaderMap)
    requires Represents(fs, a) && SameMap(a, b)
    ensures Represents(fs, b)
  {
    hide GetAll, LowerAll, MapName, ValidValue;
    forall n: bytes | LowerAll(n) == n ensures GetAll(fs, n) == Values(b, n) {
      assert Values(a, n) == Values(b, n);
    }
  }

  // Over any run of edits and synchronisations, the block that would be sent carries
  // exactly the values of the live map.
  lemma AlwaysRepresented(start: Kept, actions: seq<Action>)
    requires KeptOk(start) && ProperActions(actions)
    ensures Represents(OrderedOf(ActAll(start, actions)), ActAll(start, actions).live)
  {
    hide ValidMap, Represents, ActAll, FromMap;
    ActsKeep(start, actions);
    var s := ActAll(start, actions);
    FromMapRepresents(s.live);
    if s.preserved.Some? && SameMap(s.preserved.value.1, s.live) {
      SameMapRepresents(s.preserved.value.0, s.preserved.value.1, s.live);
    }
  }

  // The fields of some names alone.
  function Restricted(fs: Fields, names: set<bytes>): Fields {
    if fs == [] then []
    else if LowerAll(fs[0].name) in names then [fs[0]] + Restricted(fs[1..], names)
    else Restricted(fs[1..], names)
  }

  lemma {:induction false} RestrictedUntouched(fs: Fields, changed: seq<bytes>, names: set<bytes>)
    requires forall n :: n in names ==> n !in changed
    ensures Restricted(Untouched(fs, changed), names) == Restricted(fs, names)
  {
    hide LowerAll, MapName;
    if fs != [] {
      RestrictedUntouched(fs[1..], changed, names);
      if !Touched(fs[0], changed) {
        assert ([fs[0]] + Untouched(fs[1..], changed))[1..] == Untouched(fs[1..], changed);
      }
    }
  }

  // No edit in the run gives any of these names other values than it had.
  ghost predicate Leaves(actions: seq<Action>, names: set<bytes>, m: HeaderMap) {
    forall i :: 0 <= i < |actions| ==>
      actions[i].Synchronize? || (actions[i].Edit? && SameValues(actions[i].map_, m, names))
  }

  ghost predicate SameValues(a: HeaderMap, b: HeaderMap, names: set<bytes>) {
    forall n :: n in names ==> Values(a, n) == Values(b, n)
  }

  // Fields that no edit of a run touches stay byte for byte as they were written,
  // in their order, however often the block is brought up to date meanwhile.
  lemma {:induction false} UneditedStay(s: Kept, actions: seq<Action>, names: set<bytes>, m: HeaderMap)
    requires KeptOk(s) && ProperActions(actions) && s.preserved.Some? && Leaves(actions, names, m)
    requires SameValues(s.live, m, names) && SameValues(s.preserved.value.1, m, names)
    ensures ActAll(s, actions).preserved.Some?
    ensures Restricted(ActAll(s, actions).preserved.value.0, names) == Restricted(s.preserved.value.0, names)
    decreases |actions|
  {
    hide ValidMap, Represents, ToMapFrom, ApplyDelta, ChangedNames, Untouched;
    if actions != [] {
      assert actions[0].Synchronize? || actions[0].Edit?;
      var next := Act(s, actions[0]);
      ActsKeep(s, [actions[0]]);
      assert ActAll(s, [actions[0]]) == ActAll(next, [actions[0]][1..]);
      if actions[0].Synchronize? {
        var (ordered, before) := s.preserved.value;
        DeltaMeaning(ordered, before, s.live);
        ChangedExactly(before, s.live);
        var changed := ChangedNames(before, s.live);
        RestrictedUntouched(ordered, changed, names);
        RestrictedUntouched(ApplyDelta(ordered, before, s.live), changed, names);
      }
      UneditedStay(next, actions[1..], names, m);
    }
  }

  // ----- the loops -----------------------------------------------------------

  method FindChanged(before: HeaderMap, after: HeaderMap) returns (changed: seq<bytes>)
    ensures changed == ChangedNames(before, after)
  {
    changed := [];
    var names := before.keys + after.keys;
    assert names[0..] == names;
    for i := 0 to |names|
      invariant ChangedNames(before, after) == ChangedFrom(names[i..], before, after, changed)
    {
      assert names[i..][0] == names[i] && names[i..][1..] == names[i + 1..];
      if names[i] !in changed && Values(before, names[i]) != Values(after, names[i]) {
        changed := changed + [names[i]];
      }
    }
  }

  method AppendValues(output: Fields, name: bytes, values: seq<bytes>) returns (r: Fields)
    requires MapName(name) && AllValid(values)
    ensures r == output + FieldsNamed(name, values)
  {
    hide MapName, ValidValue;
    r := output;
    assert values[0..] == values;
    for i := 0 to |values|
      invariant output + FieldsNamed(name, values) == r + FieldsNamed(name, values[i..])
    {
      assert values[i..][0] == values[i] && values[i..][1..] == values[i + 1..];
      TokenName(name);
      var field := NewField(name, values[i]);
      ghost var earlier := r;
      if field.Ok? {
        r := r + [field.value];
      }
      assert earlier + ([Field(name, values[i])] + FieldsNamed(name, values[i + 1..])) == r + FieldsNamed(name, values[i + 1..]);
    }
  }

  lemma TokenName(name: bytes)
    requires MapName(name)
    ensures ValidName(name)
  {
    assert IsTokenByte(name[0]);
  }

  method EmitInPlace(ordered: Fields, changed: seq<bytes>, after: HeaderMap) returns (output: Fields, emitted: seq<bytes>)
    requires ValidMap(after)
    ensures output == EmitFields(ordered, changed, after, []) && emitted == EmittedNames(ordered, changed, [])
  {
    hide MapName, LowerAll, ValidMap, AllValid, FieldsNamed;
    output := [];
    emitted := [];
    assert ordered[0..] == ordered;
    ghost var front, last := EmitFields(ordered, changed, after, []), EmittedNames(ordered, changed, []);
    assert [] + front == front;
    for i := 0 to |ordered|
      invariant front == output + EmitFields(ordered[i..], changed, after, emitted)
      invariant last == EmittedNames(ordered[i..], changed, emitted)
    {
      var field := ordered[i];
      assert ordered[i..][0] == field && ordered[i..][1..] == ordered[i + 1..];
      if !MapName(field.name) || LowerAll(field.name) !in changed {
        output := output + [field];
        continue;
      }
      var name := LowerAll(field.name);
      if name in emitted {
        continue;
      }
      emitted := emitted + [name];
      ValuesValid(after, name);
      output := AppendValues(output, field.name, Values(after, name));
    }
  }

  method EmitAtEnd(front: Fields, changed: seq<bytes>, after: HeaderMap, emitted: seq<bytes>) returns (output: Fields)
    requires ValidMap(after) && forall c :: c in changed ==> MapName(c)
    ensures output == front + EmitRest(changed, after, emitted)
  {
    hide MapName, ValidMap, AllValid, FieldsNamed;
    output := front;
    assert changed[0..] == changed;
    for i := 0 to |changed|
      invariant front + EmitRest(changed, after, emitted) == output + EmitRest(changed[i..], after, emitted)
    {
      var name := changed[i];
      assert changed[i..][0] == name && changed[i..][1..] == changed[i + 1..];
      if name !in emitted {
        ValuesValid(after, name);
        output := AppendValues(output, name, Values(after, name));
      }
    }
  }

  method ApplyHeaderMapDelta(ordered: Fields, before: HeaderMap, after: HeaderMap) returns (output: Fields)
    requires ValidMap(before) && ValidMap(after)
    ensures output == ApplyDelta(ordered, before, after)
  {
    hide MapName, LowerAll, ValidValue, ChangedNames, ValidMap, EmitFields, EmitRest, EmittedNames;
    var changed := FindChanged(before, after);
    if changed == [] {
      return ordered;
    }
    ChangedExactly(before, after);
    var front, emitted := EmitInPlace(ordered, changed, after);
    output := EmitAtEnd(front, changed, after, emitted);
  }

  lemma ValuesValid(m: HeaderMap, name: bytes)
    requires ValidMap(m)
    ensures AllValid(Values(m, name))
  {
  }

  // A message's headers as they travel: edited through the map, the block kept in
  // step on demand.
  class MessageHeaders {
    var live: HeaderMap
    var preserved: Option<(Fields, HeaderMap)>

    function State(): Kept
      reads this
    {
      Kept(live, preserved)
    }

    constructor (map_: HeaderMap)
      ensures State() == Kept(map_, None)
    {
      live := map_;
      preserved := None;
    }

    method PreserveHeaders(block: Fields) returns (ok: bool)
      modifies this
      ensures State() == Act(old(State()), Preserve(block))
      ensures ok <==> ToMap(block).Some?
    {
      hide ToMap;
      var compatible := ToMap(block);
      ok := compatible.Some?;
      if ok {
        live := compatible.value;
        preserved := Some((block, compatible.value));
      }
    }

    method SynchronizePreserved()
      requires ValidMap(live) && (preserved.Some? ==> ValidMap(preserved.value.1))
      modifies this
      ensures State() == Act(old(State()), Synchronize)
    {
      hide ApplyDelta, ValidMap;
      if preserved.None? {
        return;
      }
      var (ordered, compatible) := preserved.value;
      if SameMap(compatible, live) {
        return;
      }
      var next := ApplyHeaderMapDelta(ordered, compatible, live);
      preserved := Some((next, live));
    }

    method Ordered() returns (block: Fields)
      ensures block == OrderedOf(State())
    {
      block := if preserved.Some? && SameMap(preserved.value.1, live) then preserved.value.0 else FromMap(live);
    }
  }
}
