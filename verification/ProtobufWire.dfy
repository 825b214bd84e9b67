// The wire format of Protobuf fields, byte by byte: which bytes a field is read from and
// which it is written as.
module ProtobufWire {
  import opened Results
  import opened Bytes
  import opened Protobuf

  // ----- numbers -------------------------------------------------------------

  // The number whose digits, the least first, are the bytes modulo a base.
  function Digits(s: bytes, base: nat): nat
    requires base > 0
  {
    if s == [] then 0
    else
      var n := |s| - 1;
      Digits(s[..n], base) + s[n] % base * Power(base, n)
  }

  function Power(base: nat, n: nat): nat {
    if n == 0 then 1 else base * Power(base, n - 1)
  }

  // One to ten bytes, all but the last with the top bit, seven bits each.
  predicate VarintSays(w: bytes, v: nat) {
    1 <= |w| <= 10
    && (forall i :: 0 <= i < |w| - 1 ==> w[i] >= 128) && w[|w| - 1] < 128
    && v == Digits(w, 128) < 0x1_0000_0000_0000_0000
  }

  lemma {:induction false} DigitsFromFront(s: bytes, base: nat)
    requires base > 0 && s != []
    ensures Digits(s, base) == s[0] % base + base * Digits(s[1..], base)
    decreases |s|
  {
    var n := |s| - 1;
    if n == 0 {
      assert s[..0] == [] && s[1..] == [];
    } else {
      DigitsFromFront(s[..n], base);
      assert s[..n][1..] == s[1..][..n - 1];
      var low, top := Digits(s[1..][..n - 1], base), s[n] % base;
      assert Digits(s[1..], base) == low + top * Power(base, n - 1);
      Distribute(base, low, top, Power(base, n - 1));
    }
  }

  lemma Distribute(base: nat, low: nat, top: nat, power: nat)
    ensures base * (low + top * power) == base * low + top * (base * power)
  {
  }

  predicate Groups(w: bytes) {
    w != [] && (forall i :: 0 <= i < |w| - 1 ==> w[i] >= 128) && w[|w| - 1] < 128
  }

  lemma GroupsFromFront(w: bytes)
    requires w != []
    ensures Groups(w) <==> if w[0] < 128 then |w| == 1 else Groups(w[1..])
  {
    if |w| > 1 {
      var rest := w[1..];
      assert forall i :: 0 <= i < |w| - 1 ==> rest[i] == w[i + 1];
      if w[0] >= 128 && Groups(rest) {
        forall i | 0 <= i < |w| - 1 ensures w[i] >= 128 {
          assert i > 0 ==> rest[i - 1] >= 128;
        }
      }
    }
  }

  lemma {:induction false} VarintFromMeaning(s: bytes, k: nat, v: nat, n: nat)
    requires k < 10
    ensures VarintFrom(s, k) == Ok((v, n)) <==>
            1 <= n <= |s| && k + n <= 10 && Groups(s[..n]) && v == Digits(s[..n], 128) < Capacity(k)
    decreases |s|
  {
    if s != [] {
      if n == 1 {
        assert s[..1] == [s[0]] && [s[0]][..0] == [];
        assert Digits(s[..1], 128) == s[0] % 128;
      }
      if k < 9 {
        CapacityAtLeast(k);
      }
      if 1 <= n <= |s| {
        GroupsFromFront(s[..n]);
        DigitsFromFront(s[..n], 128);
        assert s[..n][1..] == s[1..][..n - 1];
      }
      if k < 9 && s[0] >= 128 && n >= 1 {
        var later := if v >= s[0] - 128 then (v - (s[0] - 128)) / 128 else 0;
        VarintFromMeaning(s[1..], k + 1, later, n - 1);
        LaterVarint(s, k, v, n, later);
      }
    }
  }

  lemma LaterVarint(s: bytes, k: nat, v: nat, n: nat, later: nat)
    requires k < 9 && s != [] && s[0] >= 128 && n >= 1
    requires later == if v >= s[0] - 128 then (v - (s[0] - 128)) / 128 else 0
    ensures VarintFrom(s, k) == Ok((v, n)) <==>
            v == s[0] - 128 + 128 * later && VarintFrom(s[1..], k + 1) == Ok((later, n - 1))
  {
    var r := VarintFrom(s[1..], k + 1);
    if r.Ok? && v == s[0] - 128 + 128 * r.value.0 {
      assert later == r.value.0;
    }
  }

  // A varint is read exactly where its bytes stand.
  lemma VarintMeaning(s: bytes, v: nat, n: nat)
    ensures DecodeVarint(s) == Ok((v, n)) <==> n <= |s| && VarintSays(s[..n], v)
  {
    hide Digits, VarintFrom, Capacity;
    FullCapacity();
    VarintFromMeaning(s, 0, v, n);
  }

  lemma {:induction false} VarintFailure(s: bytes, k: nat)
    requires k < 10
    ensures VarintFrom(s, k) == Err(TruncatedVarint) <==> k + |s| < 10 && forall i :: 0 <= i < |s| ==> s[i] >= 128
    ensures VarintFrom(s, k).Err? ==> VarintFrom(s, k).error in {TruncatedVarint, VarintOverflow}
    decreases |s|
  {
    if s != [] && k < 9 {
      VarintFailure(s[1..], k + 1);
      assert forall i :: 0 < i < |s| ==> s[i] == s[1..][i - 1];
      assert s[0] >= 128 && (forall i :: 0 <= i < |s[1..]| ==> s[1..][i] >= 128)
        ==> forall i :: 0 <= i < |s| ==> s[i] >= 128;
    }
  }

  // ----- fields --------------------------------------------------------------

  // A key, the number above three bits of wire type, and the value's form: 0 a varint,
  // 1 eight bytes, the least first, 2 a length and as many bytes, 5 four bytes.
  ghost predicate FieldForm(w: bytes, f: WireField) {
    1 <= f.number <= 536_870_911
    && exists k :: 0 <= k <= |w| && KeyAndValue(w[..k], w[k..], f)
  }

  ghost predicate KeyAndValue(key: bytes, value: bytes, f: WireField) {
    match f.value
    case Varint(v) => VarintSays(key, 8 * f.number) && VarintSays(value, v)
    case Fixed64(v) => VarintSays(key, 8 * f.number + 1) && |value| == 8 && v == Digits(value, 256)
    case LengthDelimited(data) => VarintSays(key, 8 * f.number + 2) && LengthAndData(value, data)
    case Fixed32(v) => VarintSays(key, 8 * f.number + 5) && |value| == 4 && v == Digits(value, 256)
  }

  ghost predicate LengthAndData(value: bytes, data: bytes) {
    exists m :: 0 <= m <= |value| && VarintSays(value[..m], |data|) && value[m..] == data
  }

  lemma {:induction false} FromLeMeaning(s: bytes)
    ensures FromLe(s) == Digits(s, 256)
  {
    if s != [] {
      FromLeMeaning(s[1..]);
      DigitsFromFront(s, 256);
    }
  }

  // The wire type of a value, and the form it is read from.
  ghost predicate ValueForm(wire: nat, value: bytes, v: WireValue) {
    match v
    case Varint(n) => wire == 0 && VarintSays(value, n)
    case Fixed64(n) => wire == 1 && |value| == 8 && n == Digits(value, 256)
    case LengthDelimited(data) => wire == 2 && LengthAndData(value, data)
    case Fixed32(n) => wire == 5 && |value| == 4 && n == Digits(value, 256)
  }

  lemma ValueIsRead(wire: nat, s: bytes, v: WireValue, n: nat)
    requires n <= |s| && ValueForm(wire, s[..n], v)
    ensures ParseValue(wire, s) == Ok((v, n))
  {
    hide VarintSays, Digits, FromLe, VarintFrom;
    match v
    case Varint(x) => VarintMeaning(s, x, n);
    case Fixed64(_) => FromLeMeaning(s[..8]);
    case LengthDelimited(data) =>
      var m :| 0 <= m <= n && VarintSays(s[..n][..m], |data|) && s[..n][m..] == data;
      assert s[..n][..m] == s[..m] && s[..n][m..] == s[m..n];
      VarintMeaning(s, |data|, m);
    case Fixed32(_) => FromLeMeaning(s[..4]);
  }

  lemma ReadValueForm(wire: nat, s: bytes)
    requires ParseValue(wire, s).Ok?
    ensures ValueForm(wire, s[..ParseValue(wire, s).value.1], ParseValue(wire, s).value.0)
  {
    hide VarintSays, Digits, FromLe, VarintFrom;
    var (v, n) := ParseValue(wire, s).value;
    match v
    case Varint(x) => VarintMeaning(s, x, n);
    case Fixed64(_) => FromLeMeaning(s[..8]);
    case LengthDelimited(data) =>
      var m := DecodeVarint(s).value.1;
      VarintMeaning(s, |data|, m);
      assert s[..n][..m] == s[..m] && s[..n][m..] == s[m..n] == data;
    case Fixed32(_) => FromLeMeaning(s[..4]);
  }

  lemma FieldIsRead(s: bytes, f: WireField, n: nat)
    requires n <= |s| && FieldForm(s[..n], f)
    ensures ParseField(s) == Ok((f, n))
  {
    hide VarintSays, Digits, VarintFrom, LengthAndData, ParseValue;
    var w := s[..n];
    var k :| 0 <= k <= |w| && KeyAndValue(w[..k], w[k..], f);
    assert w[..k] == s[..k] && w[k..] == s[k..][..n - k];
    var wire := match f.value case Varint(_) => 0 case Fixed64(_) => 1 case LengthDelimited(_) => 2 case Fixed32(_) => 5;
    VarintMeaning(s, 8 * f.number + wire, k);
    ValueIsRead(wire, s[k..], f.value, n - k);
  }

  lemma ReadFieldForm(s: bytes)
    requires ParseField(s).Ok?
    ensures FieldForm(s[..ParseField(s).value.1], ParseField(s).value.0)
  {
    hide VarintSays, Digits, VarintFrom, LengthAndData, ParseValue;
    var (f, n) := ParseField(s).value;
    var (key, k) := DecodeVarint(s).value;
    VarintMeaning(s, key, k);
    ReadValueForm(key % 8, s[k..]);
    var w := s[..n];
    assert w[..k] == s[..k] && w[k..] == s[k..][..n - k];
    assert key == 8 * f.number + key % 8;
    assert KeyAndValue(w[..k], w[k..], f);
  }

  // A field is read exactly where its form stands.
  lemma FieldMeaning(s: bytes, f: WireField, n: nat)
    ensures ParseField(s) == Ok((f, n)) <==> n <= |s| && FieldForm(s[..n], f)
  {
    hide ParseField, FieldForm;
    if ParseField(s).Ok? {
      ReadFieldForm(s);
    }
    if n <= |s| && FieldForm(s[..n], f) {
      FieldIsRead(s, f, n);
    }
  }

  // A key that is a varint is refused for its number first, then for its wire type.
  lemma KeyRefused(s: bytes, key: nat, n: nat)
    requires n <= |s| && VarintSays(s[..n], key)
    ensures ParseField(s) == Err(BadFieldNumber) <==> key < 8 || key >= 4_294_967_296
    ensures ParseField(s) == Err(UnsupportedWireType) <==> 8 <= key < 4_294_967_296 && key % 8 in {3, 4, 6, 7}
  {
    hide VarintSays, VarintFrom, FromLe;
    VarintMeaning(s, key, n);
    VarintFailure(s[n..], 0);
  }

  // The forms of the fields, one behind the other.
  ghost predicate BodyForm(s: bytes, fs: seq<WireField>)
    decreases |fs|
  {
    if fs == [] then s == [] else exists n :: 0 <= n <= |s| && FieldForm(s[..n], fs[0]) && BodyForm(s[n..], fs[1..])
  }

  lemma {:induction false} BodyIsRead(s: bytes, fs: seq<WireField>)
    requires BodyForm(s, fs)
    ensures ToFields(s) == Ok(fs)
    decreases |fs|
  {
    hide FieldForm, ParseField;
    if fs != [] {
      var n :| 0 <= n <= |s| && FieldForm(s[..n], fs[0]) && BodyForm(s[n..], fs[1..]);
      FieldMeaning(s, fs[0], n);
      BodyIsRead(s[n..], fs[1..]);
      assert fs == [fs[0]] + fs[1..];
    }
  }

  lemma {:induction false} ReadBodyForm(s: bytes)
    requires ToFields(s).Ok?
    ensures BodyForm(s, ToFields(s).value)
    decreases |s|
  {
    hide FieldForm, ParseField;
    if s != [] {
      var (f, n) := ParseField(s).value;
      var fs := ToFields(s).value;
      FieldMeaning(s, f, n);
      ReadBodyForm(s[n..]);
      assert fs[0] == f && fs[1..] == ToFields(s[n..]).value;
    }
  }

  // A body is read exactly as the fields whose forms it is made of.
  lemma BodyMeaning(s: bytes, fs: seq<WireField>)
    ensures ToFields(s) == Ok(fs) <==> BodyForm(s, fs)
  {
    hide ToFields, BodyForm;
    if ToFields(s).Ok? {
      ReadBodyForm(s);
    }
    if BodyForm(s, fs) {
      BodyIsRead(s, fs);
    }
  }

  // What is written for a field list is a form of it, and the shortest.
  lemma WrittenForm(fs: seq<WireField>)
    requires AllProperFields(fs)
    ensures FromFields(fs).Ok? && BodyForm(FromFields(fs).value, fs)
  {
    hide FromFields, ToFields, BodyForm;
    FieldsRoundTrip(fs);
    BodyMeaning(FromFields(fs).value, fs);
  }

  lemma ShortestForm(s: bytes, fs: seq<WireField>)
    requires BodyForm(s, fs) && |s| < U64_LIMIT
    ensures AllProperFields(fs) && FromFields(fs).Ok? && |FromFields(fs).value| <= |s|
  {
    hide FromFields, ToFields, BodyForm, AllMinimal;
    BodyMeaning(s, fs);
    Reencoded(s);
  }
}
