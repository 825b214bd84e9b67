// Header fields and the ordered header block, with the edits the HTTP/1 driver
// makes to it.
module Headers {
  import opened Results
  import opened Bytes

  datatype Field = Field(name: bytes, value: bytes)

  type Fields = seq<Field>

  predicate IsValueByte(b: byte) {
    b == HTAB || 32 <= b <= 126 || 128 <= b
  }

  // One leading colon is tolerated for pseudo-headers; what follows must be a
  // token.
  function NameToken(name: bytes): bytes {
    if name != [] && name[0] == COLON then name[1..] else name
  }

  predicate ValidName(name: bytes) {
    NameToken(name) != [] && AllTokenBytes(NameToken(name))
  }

  predicate ValidValue(value: bytes) {
    forall i :: 0 <= i < |value| ==> IsValueByte(value[i])
  }

  predicate ValidField(f: Field) {
    ValidName(f.name) && ValidValue(f.value)
  }

  predicate ValidFields(fs: Fields) {
    forall i :: 0 <= i < |fs| ==> ValidField(fs[i])
  }

  datatype FieldError = EmptyName | InvalidName | InvalidValue

  function NewField(name: bytes, value: bytes): (r: Result<Field, FieldError>)
    ensures r.Ok? <==> ValidName(name) && ValidValue(value)
    ensures r.Ok? ==> r.value == Field(name, value)
  {
    if NameToken(name) == [] then Err(EmptyName)
    else if !AllTokenBytes(NameToken(name)) then Err(InvalidName)
    else if !ValidValue(value) then Err(InvalidValue)
    else Ok(Field(name, value))
  }

  // A valid field fits on one line, and its name never holds a space or tab,
  // nor a colon other than the pseudo-header's first byte.
  lemma ValidFieldShape(f: Field)
    requires ValidField(f)
    ensures OneLine(f.name) && OneLine(f.value) && f.name != []
    ensures forall i :: 0 <= i < |f.name| ==> !IsOws(f.name[i])
    ensures forall i :: 1 <= i < |f.name| ==> f.name[i] != COLON
    ensures f.name[0] != COLON ==> COLON !in f.name
  {
    var token := NameToken(f.name);
    forall i | 0 <= i < |f.name|
      ensures (f.name[i] == COLON && i == 0) || IsTokenByte(f.name[i])
    {
      if f.name[0] == COLON {
        if i > 0 {
          assert IsTokenByte(token[i - 1]) && token[i - 1] == f.name[i];
        }
      } else {
        assert IsTokenByte(token[i]) && token[i] == f.name[i];
      }
    }
  }

  function Trimmed(f: Field): Field {
    Field(f.name, TrimOws(f.value))
  }

  function TrimmedAll(fs: Fields): (r: Fields)
    ensures |r| == |fs| && forall i :: 0 <= i < |fs| ==> r[i] == Trimmed(fs[i])
  {
    if fs == [] then [] else [Trimmed(fs[0])] + TrimmedAll(fs[1..])
  }

  // The fields that do not carry a name, in order.
  function Without(fs: Fields, name: bytes): (r: Fields)
    ensures |r| <= |fs|
    ensures forall f :: f in r <==> f in fs && !SameName(f.name, name)
  {
    if fs == [] then []
    else if SameName(fs[0].name, name) then Without(fs[1..], name)
    else [fs[0]] + Without(fs[1..], name)
  }

  // Every value a name carries, in order.
  function GetAll(fs: Fields, name: bytes): (r: seq<bytes>)
    ensures |r| <= |fs|
    ensures forall v :: v in r <==> exists f :: f in fs && SameName(f.name, name) && f.value == v
  {
    if fs == [] then []
    else if SameName(fs[0].name, name) then [fs[0].value] + GetAll(fs[1..], name)
    else GetAll(fs[1..], name)
  }

  predicate Contains(fs: Fields, name: bytes) {
    exists i :: 0 <= i < |fs| && SameName(fs[i].name, name)
  }

  // Position of the first field with a name.
  function FirstIndex(fs: Fields, name: bytes): (r: Option<nat>)
    ensures r.Some? ==> r.value < |fs| && SameName(fs[r.value].name, name)
                        && forall i :: 0 <= i < r.value ==> !SameName(fs[i].name, name)
    ensures r.None? ==> forall i :: 0 <= i < |fs| ==> !SameName(fs[i].name, name)
  {
    if fs == [] then None
    else if SameName(fs[0].name, name) then Some(0)
    else
      match FirstIndex(fs[1..], name)
      case None => None
      case Some(i) => Some(i + 1)
  }

  // Replace every field of a name by one, at the place of the first; append it
  // when there is none.
  function SetField(fs: Fields, name: bytes, value: bytes): Fields {
    var kept := Without(fs, name);
    var first := FirstIndex(fs, name);
    var index := if first.Some? && first.value <= |kept| then first.value else |kept|;
    kept[..index] + [Field(name, value)] + kept[index..]
  }

  lemma {:induction false} WithoutAppend(a: Fields, b: Fields, name: bytes)
    ensures Without(a + b, name) == Without(a, name) + Without(b, name)
  {
    hide SameName;
    if a == [] {
      assert a + b == b;
    } else {
      assert (a + b)[1..] == a[1..] + b;
      WithoutAppend(a[1..], b, name);
    }
  }

  lemma {:induction false} GetAllAppend(a: Fields, b: Fields, name: bytes)
    ensures GetAll(a + b, name) == GetAll(a, name) + GetAll(b, name)
  {
    hide SameName;
    if a == [] {
      assert a + b == b;
    } else {
      assert (a + b)[1..] == a[1..] + b;
      GetAllAppend(a[1..], b, name);
    }
  }

  lemma WithoutOne(f: Field, name: bytes)
    ensures Without([f], name) == if SameName(f.name, name) then [] else [f]
  {
    hide SameName;
    assert Without([f][1..], name) == [];
  }

  lemma GetAllOne(f: Field, name: bytes)
    ensures GetAll([f], name) == if SameName(f.name, name) then [f.value] else []
  {
    hide SameName;
    assert GetAll([f][1..], name) == [];
  }

  // Removing a name leaves none of it, and every other name as it was.
  lemma {:induction false} WithoutTwice(fs: Fields, name: bytes)
    ensures GetAll(Without(fs, name), name) == []
    ensures Without(Without(fs, name), name) == Without(fs, name)
  {
    hide SameName;
    if fs != [] {
      WithoutTwice(fs[1..], name);
    }
  }

  lemma {:induction false} WithoutOther(fs: Fields, name: bytes, other: bytes)
    requires !SameName(name, other)
    ensures GetAll(Without(fs, name), other) == GetAll(fs, other)
  {
    if fs != [] {
      WithoutOther(fs[1..], name, other);
    }
  }

  // Setting a field: its name has that one value, the fields of other names stay as
  // they were, in their order.
  lemma SetFieldMeaning(fs: Fields, name: bytes, value: bytes, other: bytes)
    ensures GetAll(SetField(fs, name, value), name) == [value]
    ensures Without(SetField(fs, name, value), name) == Without(fs, name)
    ensures !SameName(name, other) ==> GetAll(SetField(fs, name, value), other) == GetAll(fs, other)
  {
    hide Without, GetAll, SetField, SameName;
    var a, b := SetFieldShape(fs, name, value);
    var f := Field(name, value);
    WithoutTwice(fs, name);
    GetAllAround(a, f, b, name);
    GetAllAppend(a, b, name);
    NothingAppended(GetAll(a, name), GetAll(b, name));
    SameNameItself(name);
    WithoutAppend(a + [f], b, name);
    WithoutAppend(a, [f], name);
    WithoutAppend(a, b, name);
    WithoutOne(f, name);
    assert Without(a, name) + [] == Without(a, name);
    if !SameName(name, other) {
      WithoutOther(fs, name, other);
      GetAllAround(a, f, b, other);
      GetAllAppend(a, b, other);
      assert GetAll(a, other) + [] == GetAll(a, other);
    }
  }

  lemma NothingAppended(a: seq<bytes>, b: seq<bytes>)
    requires a + b == []
    ensures a == [] && b == []
  {
    assert |a| + |b| == 0;
  }

  lemma SameNameItself(name: bytes)
    ensures SameName(name, name)
  {
  }

  // Setting a field puts it somewhere among those that remain.
  lemma SetFieldShape(fs: Fields, name: bytes, value: bytes) returns (a: Fields, b: Fields)
    ensures Without(fs, name) == a + b && SetField(fs, name, value) == (a + [Field(name, value)]) + b
  {
    hide Without;
    var kept := Without(fs, name);
    var first := FirstIndex(fs, name);
    var index := if first.Some? && first.value <= |kept| then first.value else |kept|;
    a, b := kept[..index], kept[index..];
  }

  lemma GetAllAround(a: Fields, f: Field, b: Fields, name: bytes)
    ensures GetAll((a + [f]) + b, name)
         == (GetAll(a, name) + (if SameName(f.name, name) then [f.value] else [])) + GetAll(b, name)
  {
    hide GetAll, SameName;
    GetAllAppend(a + [f], b, name);
    GetAllAppend(a, [f], name);
    GetAllOne(f, name);
  }

  // The first position counts only fields that survive, so the new field lands
  // exactly where the first old one stood.
  lemma SetFieldPlace(fs: Fields, name: bytes, value: bytes)
    ensures
      match FirstIndex(fs, name)
      case Some(i) => i <= |Without(fs, name)| && fs[..i] <= Without(fs, name)
                      && SetField(fs, name, value) == fs[..i] + [Field(name, value)] + Without(fs, name)[i..]
      case None => SetField(fs, name, value) == fs + [Field(name, value)]
  {
    match FirstIndex(fs, name)
    case Some(i) =>
      WithoutPrefix(fs[..i], name);
      assert fs == fs[..i] + fs[i..];
      WithoutAppend(fs[..i], fs[i..], name);
    case None =>
      WithoutPrefix(fs, name);
  }

  lemma WithoutPrefix(fs: Fields, name: bytes)
    requires forall i :: 0 <= i < |fs| ==> !SameName(fs[i].name, name)
    ensures Without(fs, name) == fs
  {
  }

  lemma SetFieldValid(fs: Fields, name: bytes, value: bytes)
    requires ValidFields(fs) && ValidField(Field(name, value))
    ensures ValidFields(SetField(fs, name, value))
  {
    hide Without, FirstIndex, ValidField;
    var kept := Without(fs, name);
    assert forall i :: 0 <= i < |kept| ==> kept[i] in fs;
  }

  lemma WithoutValid(fs: Fields, name: bytes)
    requires ValidFields(fs)
    ensures ValidFields(Without(fs, name))
  {
    hide Without, FirstIndex, ValidField;
    var kept := Without(fs, name);
    assert forall i :: 0 <= i < |kept| ==> kept[i] in fs;
  }

  // The ordered header block, edited in place.
  class HeaderBlock {
    var fields: Fields

    constructor ()
      ensures fields == []
    {
      fields := [];
    }

    method Push(f: Field)
      modifies this
      ensures fields == old(fields) + [f]
    {
      fields := fields + [f];
    }

    method Add(name: bytes, value: bytes) returns (r: Result<(), FieldError>)
      modifies this
      ensures r.Ok? <==> ValidName(name) && ValidValue(value)
      ensures fields == if r.Ok? then old(fields) + [Field(name, value)] else old(fields)
    {
      match NewField(name, value)
      case Err(error) => r := Err(error);
      case Ok(field) =>
        Push(field);
        r := Ok(());
    }

    method Set(name: bytes, value: bytes) returns (r: Result<(), FieldError>)
      modifies this
      ensures r.Ok? <==> ValidName(name) && ValidValue(value)
      ensures fields == if r.Ok? then SetField(old(fields), name, value) else old(fields)
    {
      match NewField(name, value)
      case Err(error) => r := Err(error);
      case Ok(replacement) =>
        var first := FirstIndex(fields, name);
        fields := Without(fields, name);
        var index := if first.Some? && first.value <= |fields| then first.value else |fields|;
        fields := fields[..index] + [replacement] + fields[index..];
        r := Ok(());
    }

    method Remove(name: bytes) returns (removed: nat)
      modifies this
      ensures fields == Without(old(fields), name)
      ensures removed == |old(fields)| - |fields|
    {
      var previous := |fields|;
      fields := Without(fields, name);
      removed := previous - |fields|;
    }
  }
}
