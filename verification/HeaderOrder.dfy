// Where fields stand in the ordered block: as preserved while nothing is edited, and each
// edited name in the place it had.
module HeaderOrder {
  import opened Results
  import opened Bytes
  import opened Headers
  import opened OrderedHeaders

  // ----- a preserved block ---------------------------------------------------

  lemma {:induction false} ToMapAccepts(fs: Fields, m: HeaderMap)
    ensures ToMapFrom(fs, m).Some? <==>
            forall i :: 0 <= i < |fs| ==> IsToken(fs[i].name) && |fs[i].name| <= 65535 && ValidValue(fs[i].value)
  {
    hide ValidValue, AllTokenBytes, LowerAll;
    if fs != [] {
      ToMapAccepts(fs[1..], AppendValue(m, LowerAll(fs[0].name), fs[0].value));
      assert fs == [fs[0]] + fs[1..];
    }
  }

  // Edits that leave the map as it is.
  ghost predicate NoChange(actions: seq<Action>, m: HeaderMap) {
    forall i :: 0 <= i < |actions| ==> actions[i].Synchronize? || (actions[i].Edit? && SameMap(actions[i].map_, m))
  }

  lemma {:induction false} StaysPreserved(s: Kept, block: Fields, m: HeaderMap, actions: seq<Action>)
    requires s.preserved == Some((block, m)) && SameMap(s.live, m) && NoChange(actions, m)
    ensures ActAll(s, actions).preserved == Some((block, m)) && SameMap(ActAll(s, actions).live, m)
    decreases |actions|
  {
    hide ApplyDelta, ToMapFrom;
    if actions != [] {
      assert actions[0].Synchronize? || (actions[0].Edit? && SameMap(actions[0].map_, m));
      StaysPreserved(Act(s, actions[0]), block, m, actions[1..]);
    }
  }

  // A block all of whose fields a map can hold is sent byte for byte, however often it is
  // looked at, until an edit changes the map; any other block is refused and nothing
  // changes.
  lemma PreservedIsSent(s: Kept, block: Fields, actions: seq<Action>)
    ensures
      if forall i :: 0 <= i < |block| ==> IsToken(block[i].name) && |block[i].name| <= 65535 && ValidValue(block[i].value)
      then Act(s, Preserve(block)).preserved.Some?
           && (NoChange(actions, Act(s, Preserve(block)).live) ==>
                 OrderedOf(ActAll(Act(s, Preserve(block)), actions)) == block)
      else Act(s, Preserve(block)) == s
  {
    hide ApplyDelta, ToMapFrom, ActAll, IsToken, ValidValue;
    ToMapAccepts(block, HeaderMap([], map[]));
    if ToMap(block).Some? {
      var next := Act(s, Preserve(block));
      if NoChange(actions, next.live) {
        StaysPreserved(next, block, next.live, actions);
      }
    }
  }

  // ----- the place of an edited name -----------------------------------------

  lemma {:induction false} EmitBoth(a: Fields, b: Fields, changed: seq<bytes>, after: HeaderMap, emitted: seq<bytes>)
    ensures EmitFields(a + b, changed, after, emitted)
         == EmitFields(a, changed, after, emitted) + EmitFields(b, changed, after, EmittedNames(a, changed, emitted))
    ensures EmittedNames(a + b, changed, emitted) == EmittedNames(b, changed, EmittedNames(a, changed, emitted))
  {
    hide Touched, LowerAll, FieldsNamed;
    if a == [] {
      assert a + b == b;
      assert [] + EmitFields(b, changed, after, emitted) == EmitFields(b, changed, after, emitted);
    } else {
      assert (a + b)[0] == a[0] && (a + b)[1..] == a[1..] + b;
      var name := LowerAll(a[0].name);
      var next := if Touched(a[0], changed) && name !in emitted then emitted + [name] else emitted;
      EmitBoth(a[1..], b, changed, after, next);
      var mine := if !Touched(a[0], changed) then [a[0]]
                  else if name in emitted then [] else FieldsNamed(a[0].name, Values(after, name));
      var x, y := EmitFields(a[1..], changed, after, next), EmitFields(b, changed, after, EmittedNames(a[1..], changed, next));
      assert mine + (x + y) == (mine + x) + y;
      assert [] + x == x && [] + (x + y) == x + y;
    }
  }

  lemma {:induction false} NotEmitted(fs: Fields, changed: seq<bytes>, emitted: seq<bytes>, name: bytes)
    requires name !in emitted && forall i :: 0 <= i < |fs| ==> LowerAll(fs[i].name) != name
    ensures name !in EmittedNames(fs, changed, emitted)
  {
    hide Touched, LowerAll;
    if fs != [] {
      assert forall i :: 0 <= i < |fs[1..]| ==> fs[1..][i] == fs[i + 1];
      var next := if !Touched(fs[0], changed) || LowerAll(fs[0].name) in emitted then emitted else emitted + [LowerAll(fs[0].name)];
      NotEmitted(fs[1..], changed, next, name);
    }
  }

  lemma EmitAtFirst(f: Field, b: Fields, changed: seq<bytes>, after: HeaderMap, seen: seq<bytes>)
    requires Touched(f, changed) && LowerAll(f.name) !in seen
    ensures EmitFields([f] + b, changed, after, seen)
         == FieldsNamed(f.name, Values(after, LowerAll(f.name))) + EmitFields(b, changed, after, seen + [LowerAll(f.name)])
  {
    hide Touched, LowerAll, FieldsNamed;
    assert ([f] + b)[1..] == b;
  }

  // The new values of a changed name stand where the first field of that name stood,
  // under the name as it was written there: what was not touched before and behind it
  // still is.
  lemma ChangedInPlace(ordered: Fields, before: HeaderMap, after: HeaderMap, i: nat) returns (front: Fields, back: Fields)
    requires ValidMap(before) && ValidMap(after) && Represents(ordered, before)
    requires i < |ordered|
    requires Values(before, LowerAll(ordered[i].name)) != Values(after, LowerAll(ordered[i].name))
    requires forall j :: 0 <= j < i ==> LowerAll(ordered[j].name) != LowerAll(ordered[i].name)
    ensures
      var f := ordered[i];
      var changed := ChangedNames(before, after);
      ApplyDelta(ordered, before, after) == front + (FieldsNamed(f.name, Values(after, LowerAll(f.name))) + back)
      && Untouched(front, changed) == Untouched(ordered[..i], changed)
      && Untouched(back, changed) == Untouched(ordered[i + 1..], changed)
  {
    hide LowerAll, MapName, ValidValue, ChangedNames, ValidMap, FieldsNamed, EmitRest, EmitFields, EmittedNames, GetAll,
         Untouched;
    var f := ordered[i];
    var name := LowerAll(f.name);
    var changed := ChangedNames(before, after);
    ChangedExactly(before, after);
    assert f in ordered && Touched(f, changed);
    var a, b := ordered[..i], ordered[i + 1..];
    var seen := EmittedNames(a, changed, []);
    assert ordered == a + ([f] + b);
    EmitBoth(a, [f] + b, changed, after, []);
    NotEmitted(a, changed, [], name);
    EmitAtFirst(f, b, changed, after, seen);
    var tail := EmitFields(b, changed, after, seen + [name]);
    var rest := EmitRest(changed, after, EmittedNames(ordered, changed, []));
    front, back := EmitFields(a, changed, after, []), tail + rest;
    EmitUntouched(a, changed, after, []);
    EmitUntouched(b, changed, after, seen + [name]);
    UntouchedAppend(tail, rest, changed);
    RestUntouched(changed, changed, after, EmittedNames(ordered, changed, []));
    assert Untouched(b, changed) + [] == Untouched(b, changed);
    var mine := FieldsNamed(f.name, Values(after, name));
    assert (front + (mine + tail)) + rest == front + (mine + (tail + rest));
  }

  // A name the block did not have comes behind everything that was there.
  lemma AddedLast(ordered: Fields, before: HeaderMap, after: HeaderMap, name: bytes) returns (front: Fields, back: Fields)
    requires ValidMap(before) && ValidMap(after) && Represents(ordered, before)
    requires name in after.values && forall j :: 0 <= j < |ordered| ==> LowerAll(ordered[j].name) != name
    ensures
      var changed := ChangedNames(before, after);
      ApplyDelta(ordered, before, after) == front + (FieldsNamed(name, Values(after, name)) + back)
      && Untouched(front, changed) == Untouched(ordered, changed) && Untouched(back, changed) == []
  {
    hide LowerAll, MapName, ValidValue, ChangedNames, FieldsNamed, EmitRest, EmitFields, EmittedNames, GetAll, Untouched;
    var changed := ChangedNames(before, after);
    ChangedExactly(before, after);
    NoneNamed(ordered, before, name);
    assert LowerAll(name) == name && Values(before, name) == [] && Values(after, name) != [];
    assert name in changed;
    var emitted := EmittedNames(ordered, changed, []);
    NotEmitted(ordered, changed, [], name);
    var x, y := RestAround(changed, after, emitted, name, changed);
    front, back := EmitFields(ordered, changed, after, []) + x, y;
    EmitUntouched(ordered, changed, after, []);
    UntouchedAppend(EmitFields(ordered, changed, after, []), x, changed);
    assert Untouched(ordered, changed) + [] == Untouched(ordered, changed);
    var mine := FieldsNamed(name, Values(after, name));
    var kept := EmitFields(ordered, changed, after, []);
    assert kept + (x + (mine + y)) == (kept + x) + (mine + y);
  }

  lemma NoneNamed(ordered: Fields, before: HeaderMap, name: bytes)
    requires Represents(ordered, before) && LowerAll(name) == name
    requires forall j :: 0 <= j < |ordered| ==> LowerAll(ordered[j].name) != name
    ensures Values(before, name) == []
  {
    hide LowerAll, MapName, ValidValue, GetAll;
    ValuesComeFrom(ordered, name);
  }

  lemma ValuesComeFrom(fs: Fields, name: bytes)
    ensures GetAll(fs, name) != [] ==> exists i :: 0 <= i < |fs| && SameName(fs[i].name, name)
  {
    hide SameName;
    if GetAll(fs, name) != [] {
      assert GetAll(fs, name)[0] in GetAll(fs, name);
      var f :| f in fs && SameName(f.name, name);
      var i :| 0 <= i < |fs| && fs[i] == f;
    }
  }

  lemma {:induction false} RestAround(changed: seq<bytes>, after: HeaderMap, emitted: seq<bytes>, name: bytes, all: seq<bytes>)
    returns (x: Fields, y: Fields)
    requires name in changed && name !in emitted && forall c :: c in changed ==> c in all && MapName(c) && LowerAll(c) == c
    ensures EmitRest(changed, after, emitted) == x + (FieldsNamed(name, Values(after, name)) + y)
    ensures Untouched(x, all) == [] && Untouched(y, all) == []
  {
    hide LowerAll, MapName, Untouched, FieldsNamed;
    var c := changed[0];
    var mine := if c in emitted then [] else FieldsNamed(c, Values(after, c));
    if c == name {
      x, y := [], EmitRest(changed[1..], after, emitted);
      RestUntouched(changed[1..], all, after, emitted);
      NothingUntouched(all);
      assert mine + y == [] + (mine + y);
    } else {
      var x0, y0 := RestAround(changed[1..], after, emitted, name, all);
      x, y := mine + x0, y0;
      UntouchedAppend(mine, x0, all);
      NothingUntouched(all);
      if c !in emitted {
        NamedTouched(c, Values(after, c), all);
      }
      assert mine + (x0 + (FieldsNamed(name, Values(after, name)) + y)) == x + (FieldsNamed(name, Values(after, name)) + y);
    }
  }

  lemma NothingUntouched(changed: seq<bytes>)
    ensures Untouched([], changed) == []
  {
  }
}
