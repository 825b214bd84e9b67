// Schema-less Protobuf editing: a body becomes a list of wire fields, and an edited
// list becomes a body.
module Protobuf {
  import opened Results
  import opened Bytes

  datatype ProtobufError = TruncatedVarint | VarintOverflow | BadFieldNumber | TruncatedValue | UnsupportedWireType

  // ----- varints -------------------------------------------------------------

  function EncodeVarint(v: nat): (r: bytes)
    ensures r != []
  {
    if v < 128 then [v] else [v % 128 + 128] + EncodeVarint(v / 128)
  }

  // Decode from the k-th byte of a varint on: its value, least significant seven
  // bits first, and the bytes used. The tenth byte may only be 0 or 1.
  function VarintFrom(s: bytes, k: nat): (r: Result<(nat, nat), ProtobufError>)
    ensures r.Ok? ==> 1 <= r.value.1 <= |s|
    decreases |s|
  {
    if k >= 10 then Err(VarintOverflow)
    else if s == [] then Err(TruncatedVarint)
    else if k == 9 && s[0] > 1 then Err(VarintOverflow)
    else if s[0] < 128 then Ok((s[0], 1))
    else
      match VarintFrom(s[1..], k + 1)
      case Err(e) => Err(e)
      case Ok((v, n)) => Ok((s[0] - 128 + 128 * v, n + 1))
  }

  function DecodeVarint(s: bytes): Result<(nat, nat), ProtobufError> {
    VarintFrom(s, 0)
  }

  // The values that fit in what is left of a u64 at the k-th byte.
  function Capacity(k: nat): nat
    requires k < 10
    decreases 9 - k
  {
    if k == 9 then 2 else 128 * Capacity(k + 1)
  }

  lemma FullCapacity()
    ensures Capacity(0) == U64_LIMIT
  {
    assert Capacity(8) == 256 && Capacity(7) == 0x8000 && Capacity(6) == 0x40_0000 && Capacity(5) == 0x2000_0000;
    assert Capacity(4) == 0x10_0000_0000 && Capacity(3) == 0x800_0000_0000 && Capacity(2) == 0x4_0000_0000_0000;
    assert Capacity(1) == 0x200_0000_0000_0000;
  }

  // An accepted varint fits a u64.
  lemma {:induction false} VarintFits(s: bytes, k: nat)
    requires k < 10 && VarintFrom(s, k).Ok?
    ensures VarintFrom(s, k).value.0 < Capacity(k) && k + VarintFrom(s, k).value.1 <= 10
    decreases |s|
  {
    if k < 9 && s[0] >= 128 {
      VarintFits(s[1..], k + 1);
    } else if k < 9 {
      CapacityAtLeast(k);
    }
  }

  lemma CapacityAtLeast(k: nat)
    requires k < 9
    ensures Capacity(k) >= 128
    decreases 9 - k
  {
    if k < 8 {
      CapacityAtLeast(k + 1);
    }
  }

  lemma {:induction false} VarintRoundTripFrom(v: nat, k: nat, suffix: bytes)
    requires k < 10 && v < Capacity(k)
    ensures VarintFrom(EncodeVarint(v) + suffix, k) == Ok((v, |EncodeVarint(v)|))
    ensures k + |EncodeVarint(v)| <= 10
    decreases 9 - k
  {
    var s := EncodeVarint(v) + suffix;
    if v >= 128 {
      assert s[1..] == EncodeVarint(v / 128) + suffix;
      VarintRoundTripFrom(v / 128, k + 1, suffix);
    }
  }

  // Decoding inverts encoding for every u64, whatever follows, in one to ten bytes.
  lemma VarintRoundTrip(v: u64, suffix: bytes)
    ensures DecodeVarint(EncodeVarint(v) + suffix) == Ok((v, |EncodeVarint(v)|))
    ensures 1 <= |EncodeVarint(v)| <= 10
  {
    FullCapacity();
    VarintRoundTripFrom(v, 0, suffix);
  }

  // The bytes of an accepted varint are the shortest for its value unless the last
  // of several is zero.
  predicate Minimal(s: bytes)
    requires s != []
  {
    |s| == 1 || s[|s| - 1] != 0
  }

  lemma {:induction false} ReencodedVarint(s: bytes, k: nat)
    requires VarintFrom(s, k).Ok?
    ensures
      var (v, n) := VarintFrom(s, k).value;
      |EncodeVarint(v)| <= n && (EncodeVarint(v) == s[..n] <==> Minimal(s[..n]))
    ensures VarintFrom(s, k).value.0 == 0 ==> s[VarintFrom(s, k).value.1 - 1] == 0
    decreases |s|
  {
    if s[0] >= 128 {
      ReencodedVarint(s[1..], k + 1);
      var (v, n) := VarintFrom(s, k).value;
      var (v1, n1) := VarintFrom(s[1..], k + 1).value;
      assert s[..n] == [s[0]] + s[1..][..n1];
      assert v / 128 == v1 && v % 128 == s[0] - 128;
      if v < 128 {
        assert v1 == 0;
        assert s[1..][n1 - 1] == s[n - 1] == 0;
      } else {
        assert EncodeVarint(v) == [s[0]] + EncodeVarint(v1);
        assert EncodeVarint(v)[1..] == EncodeVarint(v1);
        assert s[..n][1..] == s[1..][..n1];
      }
    }
  }

  // ----- fixed-width values --------------------------------------------------

  function LeBytes(v: nat, n: nat): (r: bytes)
    ensures |r| == n
  {
    if n == 0 then [] else [v % 256] + LeBytes(v / 256, n - 1)
  }

  function FromLe(s: bytes): nat {
    if s == [] then 0 else s[0] + 256 * FromLe(s[1..])
  }

  function Pow256(n: nat): nat {
    if n == 0 then 1 else 256 * Pow256(n - 1)
  }

  lemma {:induction false} LeRoundTrip(v: nat, n: nat)
    requires v < Pow256(n)
    ensures FromLe(LeBytes(v, n)) == v
  {
    if n > 0 {
      LeRoundTrip(v / 256, n - 1);
      assert LeBytes(v, n)[1..] == LeBytes(v / 256, n - 1);
    }
  }

  lemma {:induction false} LeReencoded(s: bytes)
    ensures FromLe(s) < Pow256(|s|) && LeBytes(FromLe(s), |s|) == s
  {
    if s != [] {
      LeReencoded(s[1..]);
      assert s == [s[0]] + s[1..];
      assert FromLe(s) / 256 == FromLe(s[1..]) && FromLe(s) % 256 == s[0];
    }
  }

  lemma FixedWidths()
    ensures Pow256(4) == 0x1_0000_0000 && Pow256(8) == U64_LIMIT
  {
    assert Pow256(1) == 256 && Pow256(2) == 0x1_0000 && Pow256(3) == 0x100_0000;
    assert Pow256(5) == 0x100_0000_0000 && Pow256(6) == 0x1_0000_0000_0000 && Pow256(7) == 0x100_0000_0000_0000;
  }

  // ----- fields --------------------------------------------------------------

  const MAX_FIELD_NUMBER: nat := 0x1fff_ffff
  const U32_LIMIT: nat := 0x1_0000_0000

  datatype WireValue = Varint(value: nat) | Fixed64(value: nat) | LengthDelimited(data: bytes) | Fixed32(value: nat)

  datatype WireField = WireField(number: nat, value: WireValue)

  predicate NumberOk(n: nat) {
    1 <= n <= MAX_FIELD_NUMBER
  }

  // A field the editor's types can hold.
  predicate ProperField(f: WireField) {
    NumberOk(f.number)
    && match f.value
       case Varint(v) => v < U64_LIMIT
       case Fixed64(v) => v < U64_LIMIT
       case LengthDelimited(data) => |data| < U64_LIMIT
       case Fixed32(v) => v < U32_LIMIT
  }

  predicate AllProperFields(fs: seq<WireField>) {
    forall i :: 0 <= i < |fs| ==> ProperField(fs[i])
  }

  function WireType(v: WireValue): nat {
    match v
    case Varint(_) => 0
    case Fixed64(_) => 1
    case LengthDelimited(_) => 2
    case Fixed32(_) => 5
  }

  // A value of the given wire type at the front, and the bytes it takes.
  function ParseValue(wire: nat, s: bytes): (r: Result<(WireValue, nat), ProtobufError>)
    ensures r.Ok? ==> 1 <= r.value.1 <= |s|
  {
    match wire
    case 0 =>
      (match DecodeVarint(s)
       case Err(e) => Err(e)
       case Ok((v, n)) => Ok((Varint(v), n)))
    case 1 => if 8 <= |s| then Ok((Fixed64(FromLe(s[..8])), 8)) else Err(TruncatedValue)
    case 2 =>
      (match DecodeVarint(s)
       case Err(e) => Err(e)
       case Ok((length, n)) =>
         if n + length <= |s| then Ok((LengthDelimited(s[n..n + length]), n + length)) else Err(TruncatedValue))
    case 5 => if 4 <= |s| then Ok((Fixed32(FromLe(s[..4])), 4)) else Err(TruncatedValue)
    case _ => Err(UnsupportedWireType)
  }

  function ParseField(s: bytes): (r: Result<(WireField, nat), ProtobufError>)
    ensures r.Ok? ==> 1 <= r.value.1 <= |s|
  {
    match DecodeVarint(s)
    case Err(e) => Err(e)
    case Ok((key, n)) =>
      if !NumberOk(key / 8) then Err(BadFieldNumber)
      else
        match ParseValue(key % 8, s[n..])
        case Err(e) => Err(e)
        case Ok((v, m)) => Ok((WireField(key / 8, v), n + m))
  }

  function ToFields(s: bytes): Result<seq<WireField>, ProtobufError>
    decreases |s|
  {
    if s == [] then Ok([])
    else
      match ParseField(s)
      case Err(e) => Err(e)
      case Ok((f, n)) =>
        match ToFields(s[n..])
        case Err(e) => Err(e)
        case Ok(rest) => Ok([f] + rest)
  }

  function EncodeValue(v: WireValue): bytes {
    match v
    case Varint(n) => EncodeVarint(n)
    case Fixed64(n) => LeBytes(n, 8)
    case LengthDelimited(data) => EncodeVarint(|data|) + data
    case Fixed32(n) => LeBytes(n, 4)
  }

  function EncodeField(f: WireField): bytes {
    EncodeVarint(f.number * 8 + WireType(f.value)) + EncodeValue(f.value)
  }

  function FromFields(fs: seq<WireField>): Result<bytes, ProtobufError> {
    if fs == [] then Ok([])
    else if !NumberOk(fs[0].number) then Err(BadFieldNumber)
    else
      match FromFields(fs[1..])
      case Err(e) => Err(e)
      case Ok(rest) => Ok(EncodeField(fs[0]) + rest)
  }

  // ----- encoding and back ---------------------------------------------------

  lemma ValueRoundTrip(v: WireValue, suffix: bytes)
    requires ProperField(WireField(1, v))
    ensures ParseValue(WireType(v), EncodeValue(v) + suffix) == Ok((v, |EncodeValue(v)|))
  {
    hide EncodeVarint, VarintFrom, LeBytes, FromLe, Pow256;
    var s := EncodeValue(v) + suffix;
    FixedWidths();
    match v
    case Varint(n) => VarintRoundTrip(n, suffix);
    case Fixed64(n) =>
      LeRoundTrip(n, 8);
      assert s[..8] == LeBytes(n, 8);
    case LengthDelimited(data) =>
      assert s == EncodeVarint(|data|) + (data + suffix);
      VarintRoundTrip(|data|, data + suffix);
      assert s[|EncodeVarint(|data|)|..|EncodeVarint(|data|)| + |data|] == data;
    case Fixed32(n) =>
      LeRoundTrip(n, 4);
      assert s[..4] == LeBytes(n, 4);
  }

  lemma FieldRoundTrip(f: WireField, suffix: bytes)
    requires ProperField(f)
    ensures ParseField(EncodeField(f) + suffix) == Ok((f, |EncodeField(f)|))
  {
    hide EncodeVarint, VarintFrom, ParseValue, EncodeValue;
    var key := f.number * 8 + WireType(f.value);
    var s := EncodeField(f) + suffix;
    assert s == EncodeVarint(key) + (EncodeValue(f.value) + suffix);
    VarintRoundTrip(key, EncodeValue(f.value) + suffix);
    assert s[|EncodeVarint(key)|..] == EncodeValue(f.value) + suffix;
    ValueRoundTrip(f.value, suffix);
  }

  // Decoding an encoded field list returns that list.
  lemma {:induction false} FieldsRoundTrip(fs: seq<WireField>)
    requires AllProperFields(fs)
    ensures FromFields(fs).Ok? && ToFields(FromFields(fs).value) == Ok(fs)
  {
    hide ParseField, EncodeField;
    if fs != [] {
      assert ProperField(fs[0]);
      FieldsRoundTrip(fs[1..]);
      var rest := FromFields(fs[1..]).value;
      FieldRoundTrip(fs[0], rest);
      FieldNonEmpty(fs[0]);
      assert (EncodeField(fs[0]) + rest)[|EncodeField(fs[0])|..] == rest;
      assert fs == [fs[0]] + fs[1..];
    }
  }

  lemma FieldNonEmpty(f: WireField)
    ensures EncodeField(f) != []
  {
  }

  // ----- decoding and back ---------------------------------------------------

  // The bytes of a parsed field, with every varint in them as short as it can be.
  predicate FieldMinimal(s: bytes)
    requires ParseField(s).Ok?
  {
    var n := DecodeVarint(s).value.1;
    Minimal(s[..n])
    && (ParseField(s).value.0.value.Varint? || ParseField(s).value.0.value.LengthDelimited? ==>
          Minimal(s[n..][..DecodeVarint(s[n..]).value.1]))
  }

  predicate AllMinimal(s: bytes)
    requires ToFields(s).Ok?
    decreases |s|
  {
    s == [] || (FieldMinimal(s) && AllMinimal(s[ParseField(s).value.1..]))
  }

  lemma ValueReencoded(wire: nat, s: bytes)
    requires ParseValue(wire, s).Ok? && |s| < U64_LIMIT
    ensures
      var (v, n) := ParseValue(wire, s).value;
      WireType(v) == wire && ProperField(WireField(1, v)) && |EncodeValue(v)| <= n
      && (v.Varint? || v.LengthDelimited? ==> DecodeVarint(s).Ok?)
      && (EncodeValue(v) == s[..n] <==>
            (v.Varint? || v.LengthDelimited? ==> Minimal(s[..DecodeVarint(s).value.1])))
  {
    hide EncodeVarint, VarintFrom, LeBytes, FromLe, Pow256, Minimal;
    FixedWidths();
    FullCapacity();
    match wire
    case 0 =>
      ReencodedVarint(s, 0);
      VarintFits(s, 0);
    case 1 => LeReencoded(s[..8]);
    case 2 =>
      ReencodedVarint(s, 0);
      VarintFits(s, 0);
      var (length, n) := DecodeVarint(s).value;
      SplitEqual(EncodeVarint(length), s[..n], s[n..n + length]);
      assert s[..n + length] == s[..n] + s[n..n + length];
    case 5 => LeReencoded(s[..4]);
  }

  lemma SplitEqual(a: bytes, b: bytes, tail: bytes)
    ensures a + tail == b + tail <==> a == b
  {
    if a + tail == b + tail {
      assert |a| == |b|;
      assert a == (a + tail)[..|a|] == (b + tail)[..|b|] == b;
    }
  }

  // Two blocks in a row are equal when both are; each is no longer than its original.
  lemma BothEqual(a: bytes, b: bytes, s: bytes, n: nat, m: nat)
    requires n + m <= |s| && |a| <= n && |b| <= m
    ensures a + b == s[..n + m] <==> a == s[..n] && b == s[n..][..m]
  {
    assert s[..n + m] == s[..n] + s[n..][..m];
    if a + b == s[..n + m] {
      assert |a| == n && |b| == m;
      assert a == (a + b)[..n] == s[..n];
      assert b == (a + b)[n..] == s[n..][..m];
    }
  }

  lemma FieldReencoded(s: bytes)
    requires ParseField(s).Ok? && |s| < U64_LIMIT
    ensures
      var (f, n) := ParseField(s).value;
      ProperField(f) && |EncodeField(f)| <= n && (EncodeField(f) == s[..n] <==> FieldMinimal(s))
  {
    hide EncodeVarint, VarintFrom, ParseValue, EncodeValue, Minimal;
    var (key, n) := DecodeVarint(s).value;
    var (v, m) := ParseValue(key % 8, s[n..]).value;
    ReencodedVarint(s, 0);
    ValueReencoded(key % 8, s[n..]);
    assert key / 8 * 8 + key % 8 == key;
    BothEqual(EncodeVarint(key), EncodeValue(v), s, n, m);
  }

  // Re-encoding an accepted body gives one that decodes to the same fields, no
  // longer than it was, and byte for byte the same exactly when all its varints
  // were minimal.
  lemma {:induction false} Reencoded(s: bytes)
    requires ToFields(s).Ok? && |s| < U64_LIMIT
    ensures AllProperFields(ToFields(s).value) && FromFields(ToFields(s).value).Ok?
    ensures
      var again := FromFields(ToFields(s).value).value;
      ToFields(again) == ToFields(s) && |again| <= |s| && (again == s <==> AllMinimal(s))
    decreases |s|
  {
    hide ParseField, EncodeField, FieldMinimal;
    if s != [] {
      var (f, n) := ParseField(s).value;
      Reencoded(s[n..]);
      FieldReencoded(s);
      var fs, rest := ToFields(s).value, ToFields(s[n..]).value;
      assert fs == [f] + rest && fs[1..] == rest;
      assert AllProperFields(fs);
      FieldsRoundTrip(fs);
      BothEqual(EncodeField(f), FromFields(rest).value, s, n, |s| - n);
      assert s[..n + (|s| - n)] == s && s[n..][..|s| - n] == s[n..];
    }
  }

  // Field 1 as the varint zero, written in two bytes: accepted, and one byte shorter
  // once it has been edited.
  const LONG_ZERO: bytes := [8, 128, 0]

  lemma LongZero()
    ensures ToFields(LONG_ZERO) == Ok([WireField(1, Varint(0))]) && !AllMinimal(LONG_ZERO)
    ensures FromFields(ToFields(LONG_ZERO).value) == Ok([8, 0])
  {
    var value := LONG_ZERO[1..];
    assert VarintFrom(value[1..], 1) == Ok((0, 1));
    assert DecodeVarint(value) == Ok((0, 2)) && DecodeVarint(LONG_ZERO) == Ok((8, 1));
    assert ParseField(LONG_ZERO) == Ok((WireField(1, Varint(0)), 3));
    assert ToFields(LONG_ZERO[3..]) == Ok([]);
    assert value[..2] == value;
    assert !FieldMinimal(LONG_ZERO);
    var f := WireField(1, Varint(0));
    assert EncodeVarint(8) == [8] && EncodeVarint(0) == [0];
    assert [f] + [] == [f] && [f][1..] == [];
    assert EncodeField(f) == [8] + [0] && EncodeField(f) + [] == [8, 0];
    assert FromFields([f]) == Ok([8, 0]);
  }

  // ----- the cursor loops ----------------------------------------------------

  // 2^(7k), the weight of the k-th group of seven bits.
  function Weight(k: nat): nat {
    if k == 0 then 1 else 128 * Weight(k - 1)
  }

  // What a varint read so far and a varint still to come make together.
  function Assembled(value: nat, k: nat, start: nat, cursor: nat, later: Result<(nat, nat), ProtobufError>): Result<(nat, nat), ProtobufError>
    requires start <= cursor
  {
    match later
    case Err(e) => Err(e)
    case Ok((v, n)) => Ok((value + Weight(k) * v, cursor - start + n))
  }

  method ReadVarint(body: bytes, cursor: nat) returns (r: Result<nat, ProtobufError>, end: nat)
    requires cursor <= |body|
    ensures cursor <= end <= |body|
    ensures match DecodeVarint(body[cursor..])
            case Err(e) => r == Err(e)
            case Ok((v, n)) => r == Ok(v) && end == cursor + n
  {
    hide VarintFrom;
    var value: nat := 0;
    var k: nat := 0;
    end := cursor;
    ghost var whole := DecodeVarint(body[cursor..]);
    while k < 10
      invariant k <= 10 && cursor <= end <= |body|
      invariant whole == Assembled(value, k, cursor, end, VarintFrom(body[end..], k))
    {
      VarintStep(body[end..], k);
      if end >= |body| {
        return Err(TruncatedVarint), end;
      }
      var b := body[end];
      assert body[end..][1..] == body[end + 1..];
      end := end + 1;
      if k == 9 && b > 1 {
        return Err(VarintOverflow), end;
      }
      NextGroup(value, k, b, cursor, end, VarintFrom(body[end..], k + 1));
      value := value + Weight(k) * (b % 128);
      if b < 128 {
        return Ok(value), end;
      }
      k := k + 1;
    }
    VarintStep(body[end..], k);
    r := Err(VarintOverflow);
  }

  lemma VarintStep(s: bytes, k: nat)
    ensures VarintFrom(s, k) ==
      if k >= 10 then Err(VarintOverflow)
      else if s == [] then Err(TruncatedVarint)
      else if k == 9 && s[0] > 1 then Err(VarintOverflow)
      else if s[0] < 128 then Ok((s[0], 1))
      else match VarintFrom(s[1..], k + 1) case Err(e) => Err(e) case Ok((v, n)) => Ok((s[0] - 128 + 128 * v, n + 1))
  {
  }

  lemma NextGroup(value: nat, k: nat, b: byte, start: nat, end: nat, later: Result<(nat, nat), ProtobufError>)
    requires start < end
    ensures b >= 128 ==>
      Assembled(value + Weight(k) * (b % 128), k + 1, start, end, later) ==
      Assembled(value, k, start, end - 1,
                match later case Err(e) => Err(e) case Ok((v, n)) => Ok((b - 128 + 128 * v, n + 1)))
    ensures b < 128 ==> Assembled(value, k, start, end - 1, Ok((b, 1))) == Ok((value + Weight(k) * (b % 128), end - start))
  {
    if b >= 128 && later.Ok? {
      var v := later.value.0;
      assert b % 128 == b - 128;
      assert Weight(k) * (b - 128 + 128 * v) == Weight(k) * (b - 128) + 128 * Weight(k) * v;
    }
  }

  method WriteVarint(value: nat, output: bytes) returns (r: bytes)
    ensures r == output + EncodeVarint(value)
  {
    var left := value;
    r := output;
    while true
      invariant output + EncodeVarint(value) == r + EncodeVarint(left)
      decreases left
    {
      var b := left % 128;
      ghost var before, group := r, left;
      left := left / 128;
      if left != 0 {
        b := b + 128;
      }
      r := r + [b];
      if left == 0 {
        return;
      }
      assert EncodeVarint(group) == [b] + EncodeVarint(left);
      assert before + ([b] + EncodeVarint(left)) == r + EncodeVarint(left);
    }
  }

  method ProtobufToFields(body: bytes) returns (r: Result<seq<WireField>, ProtobufError>)
    ensures r == ToFields(body)
  {
    hide VarintFrom, ParseValue, FromLe;
    var fields: seq<WireField> := [];
    var cursor := 0;
    ghost var whole := ToFields(body);
    assert body[0..] == body;
    assert forall rest: seq<WireField> :: [] + rest == rest;
    while cursor < |body|
      invariant cursor <= |body|
      invariant whole == match ToFields(body[cursor..]) case Err(e) => Err(e) case Ok(rest) => Ok(fields + rest)
    {
      ghost var start := cursor;
      var key, afterKey := ReadVarint(body, cursor);
      if key.Err? {
        return Err(key.error);
      }
      assert body[start..][afterKey - start..] == body[afterKey..];
      var number := key.value / 8;
      if number == 0 || number > MAX_FIELD_NUMBER {
        return Err(BadFieldNumber);
      }
      var value, end := ReadValue(body, afterKey, key.value % 8);
      if value.Err? {
        return Err(value.error);
      }
      assert body[start..][end - start..] == body[end..];
      ghost var before := fields;
      fields := fields + [WireField(number, value.value)];
      cursor := end;
      assert forall rest: seq<WireField> :: before + ([fields[|before|]] + rest) == fields + rest;
    }
    assert fields + [] == fields;
    r := Ok(fields);
  }

  method ReadValue(body: bytes, cursor: nat, wire: nat) returns (r: Result<WireValue, ProtobufError>, end: nat)
    requires cursor <= |body|
    ensures cursor <= end <= |body|
    ensures match ParseValue(wire, body[cursor..])
            case Err(e) => r == Err(e)
            case Ok((v, n)) => r == Ok(v) && end == cursor + n
  {
    hide VarintFrom, FromLe;
    end := cursor;
    match wire
    case 0 =>
      var v, stop := ReadVarint(body, cursor);
      end := stop;
      r := match v case Err(e) => Err(e) case Ok(n) => Ok(Varint(n));
    case 1 =>
      if cursor + 8 > |body| {
        return Err(TruncatedValue), end;
      }
      assert body[cursor..][..8] == body[cursor..cursor + 8];
      end := cursor + 8;
      r := Ok(Fixed64(FromLe(body[cursor..end])));
    case 2 =>
      var length, start := ReadVarint(body, cursor);
      end := start;
      if length.Err? {
        return Err(length.error), end;
      }
      if start + length.value > |body| {
        return Err(TruncatedValue), end;
      }
      end := start + length.value;
      assert body[cursor..][start - cursor..end - cursor] == body[start..end];
      r := Ok(LengthDelimited(body[start..end]));
    case 5 =>
      if cursor + 4 > |body| {
        return Err(TruncatedValue), end;
      }
      assert body[cursor..][..4] == body[cursor..cursor + 4];
      end := cursor + 4;
      r := Ok(Fixed32(FromLe(body[cursor..end])));
    case _ => r := Err(UnsupportedWireType);
  }

  method FieldsToProtobuf(fields: seq<WireField>) returns (r: Result<bytes, ProtobufError>)
    ensures r == FromFields(fields)
  {
    hide EncodeVarint, LeBytes;
    var output: bytes := [];
    ghost var whole := FromFields(fields);
    assert fields[0..] == fields;
    assert forall rest: bytes :: [] + rest == rest;
    for k := 0 to |fields|
      invariant whole == match FromFields(fields[k..]) case Err(e) => Err(e) case Ok(rest) => Ok(output + rest)
    {
      assert fields[k..][0] == fields[k] && fields[k..][1..] == fields[k + 1..];
      var f := fields[k];
      if f.number == 0 || f.number > MAX_FIELD_NUMBER {
        return Err(BadFieldNumber);
      }
      ghost var before := output;
      output := WriteVarint(f.number * 8 + WireType(f.value), output);
      match f.value {
        case Varint(v) => output := WriteVarint(v, output);
        case Fixed64(v) => output := output + LeBytes(v, 8);
        case LengthDelimited(data) =>
          output := WriteVarint(|data|, output);
          output := output + data;
        case Fixed32(v) => output := output + LeBytes(v, 4);
      }
      assert output == before + EncodeField(f);
      assert forall rest: bytes :: before + (EncodeField(f) + rest) == output + rest;
    }
    assert output + [] == output;
    r := Ok(output);
  }
}
