// Decimal and hexadecimal numerals: the printers used for Content-Length and
// chunk sizes, and the parsers with their 64-bit range checks.
module Numbers {
  import opened Results
  import opened Bytes

  predicate IsHexDigit(b: byte) {
    IsDigit(b) || 65 <= b <= 70 || 97 <= b <= 102
  }

  function HexValue(b: byte): (v: nat)
    requires IsHexDigit(b)
    ensures v < 16
  {
    if IsDigit(b) then b - 48 else if b <= 70 then b - 55 else b - 87
  }

  // The printer uses upper-case digits.
  function HexDigit(v: nat): (b: byte)
    requires v < 16
    ensures IsHexDigit(b) && HexValue(b) == v
  {
    if v < 10 then 48 + v else 55 + v
  }

  predicate AllHex(s: bytes) {
    forall i :: 0 <= i < |s| ==> IsHexDigit(s[i])
  }

  predicate AllDigits(s: bytes) {
    forall i :: 0 <= i < |s| ==> IsDigit(s[i])
  }

  // The number a digit string denotes, without any bound.
  function HexNumber(s: bytes): nat
    requires AllHex(s)
  {
    if s == [] then 0 else HexNumber(s[..|s| - 1]) * 16 + HexValue(s[|s| - 1])
  }

  function DecimalNumber(s: bytes): nat
    requires AllDigits(s)
  {
    if s == [] then 0 else DecimalNumber(s[..|s| - 1]) * 10 + (s[|s| - 1] - 48)
  }

  function PrintHex(v: nat): (s: bytes)
    ensures |s| >= 1 && AllHex(s)
  {
    if v < 16 then [HexDigit(v)] else PrintHex(v / 16) + [HexDigit(v % 16)]
  }

  function PrintDecimal(v: nat): (s: bytes)
    ensures |s| >= 1 && AllDigits(s)
  {
    if v < 10 then [48 + v] else PrintDecimal(v / 10) + [48 + v % 10]
  }

  lemma {:induction false} PrintHexDenotes(v: nat)
    ensures HexNumber(PrintHex(v)) == v
  {
    if v >= 16 {
      PrintHexDenotes(v / 16);
      assert PrintHex(v)[..|PrintHex(v)| - 1] == PrintHex(v / 16);
    }
  }

  lemma {:induction false} PrintDecimalDenotes(v: nat)
    ensures DecimalNumber(PrintDecimal(v)) == v
  {
    if v >= 10 {
      PrintDecimalDenotes(v / 10);
      assert PrintDecimal(v)[..|PrintDecimal(v)| - 1] == PrintDecimal(v / 10);
    }
  }

  // 16 hexadecimal digits are enough for a 64-bit value.
  lemma {:induction false} PrintHexLength(v: nat, digits: nat, bound: nat)
    requires digits >= 1 && v < bound && bound == Power16(digits)
    ensures |PrintHex(v)| <= digits
    decreases digits
  {
    if v >= 16 {
      PrintHexLength(v / 16, digits - 1, bound / 16);
    }
  }

  function Power16(digits: nat): nat {
    if digits == 0 then 1 else 16 * Power16(digits - 1)
  }

  lemma PrintHexAtMost16(v: u64)
    ensures |PrintHex(v)| <= 16
  {
    assert Power16(4) == 0x1_0000;
    assert Power16(8) == 0x1_0000_0000 by {
      assert Power16(7) == 16 * Power16(6);
      assert Power16(6) == 16 * Power16(5);
    }
    assert Power16(12) == 0x1_0000_0000_0000 by {
      assert Power16(11) == 16 * Power16(10);
      assert Power16(10) == 16 * Power16(9);
    }
    assert Power16(16) == U64_LIMIT by {
      assert Power16(15) == 16 * Power16(14);
      assert Power16(14) == 16 * Power16(13);
    }
    PrintHexLength(v, 16, U64_LIMIT);
  }

  // Left fold with checked multiplication and addition, as the decoder does it.
  function ParseHexFrom(s: bytes, value: u64): Option<u64>
    requires AllHex(s)
  {
    if s == [] then Some(value)
    else
      var next := value * 16 + HexValue(s[0]);
      if next >= U64_LIMIT then None else ParseHexFrom(s[1..], next)
  }

  function ParseDecimalFrom(s: bytes, value: u64): Option<u64>
    requires AllDigits(s)
  {
    if s == [] then Some(value)
    else
      var next := value * 10 + (s[0] - 48);
      if next >= U64_LIMIT then None else ParseDecimalFrom(s[1..], next)
  }

  lemma HexNumberMonotone(s: bytes, k: nat)
    requires AllHex(s) && k <= |s|
    ensures HexNumber(s[..k]) <= HexNumber(s)
    decreases |s|
  {
    if k < |s| {
      HexNumberMonotone(s[..|s| - 1], k);
      assert s[..|s| - 1][..k] == s[..k];
    } else {
      assert s[..k] == s;
    }
  }

  lemma DecimalNumberMonotone(s: bytes, k: nat)
    requires AllDigits(s) && k <= |s|
    ensures DecimalNumber(s[..k]) <= DecimalNumber(s)
    decreases |s|
  {
    if k < |s| {
      DecimalNumberMonotone(s[..|s| - 1], k);
      assert s[..|s| - 1][..k] == s[..k];
    } else {
      assert s[..k] == s;
    }
  }

  lemma {:induction false} ParseHexFromPrefix(s: bytes, k: nat)
    requires AllHex(s) && k <= |s| && HexNumber(s[..k]) < U64_LIMIT
    ensures ParseHexFrom(s[k..], HexNumber(s[..k]))
         == if HexNumber(s) < U64_LIMIT then Some(HexNumber(s)) else None
    decreases |s| - k
  {
    if k == |s| {
      assert s[..k] == s;
    } else {
      assert s[..k + 1][..k] == s[..k];
      assert s[k..][1..] == s[k + 1..];
      HexNumberMonotone(s, k + 1);
      if HexNumber(s[..k + 1]) < U64_LIMIT {
        ParseHexFromPrefix(s, k + 1);
      }
    }
  }

  lemma {:induction false} ParseDecimalFromPrefix(s: bytes, k: nat)
    requires AllDigits(s) && k <= |s| && DecimalNumber(s[..k]) < U64_LIMIT
    ensures ParseDecimalFrom(s[k..], DecimalNumber(s[..k]))
         == if DecimalNumber(s) < U64_LIMIT then Some(DecimalNumber(s)) else None
    decreases |s| - k
  {
    if k == |s| {
      assert s[..k] == s;
    } else {
      assert s[..k + 1][..k] == s[..k];
      assert s[k..][1..] == s[k + 1..];
      DecimalNumberMonotone(s, k + 1);
      if DecimalNumber(s[..k + 1]) < U64_LIMIT {
        ParseDecimalFromPrefix(s, k + 1);
      }
    }
  }

  // A checked fold over hexadecimal digits accepts exactly the numerals whose
  // value is below 2^64, however many leading zeros they carry.
  lemma ParseHexExact(s: bytes)
    requires AllHex(s)
    ensures ParseHexFrom(s, 0) == if HexNumber(s) < U64_LIMIT then Some(HexNumber(s)) else None
  {
    assert s[0..] == s && s[..0] == [];
    ParseHexFromPrefix(s, 0);
  }

  lemma ParseDecimalExact(s: bytes)
    requires AllDigits(s)
    ensures ParseDecimalFrom(s, 0)
         == if DecimalNumber(s) < U64_LIMIT then Some(DecimalNumber(s)) else None
  {
    assert s[0..] == s && s[..0] == [];
    ParseDecimalFromPrefix(s, 0);
  }

  lemma HexRoundTrip(v: nat)
    ensures ParseHexFrom(PrintHex(v), 0) == if v < U64_LIMIT then Some(v) else None
  {
    PrintHexDenotes(v);
    ParseHexExact(PrintHex(v));
  }

  lemma DecimalRoundTrip(v: nat)
    ensures ParseDecimalFrom(PrintDecimal(v), 0) == if v < U64_LIMIT then Some(v) else None
  {
    PrintDecimalDenotes(v);
    ParseDecimalExact(PrintDecimal(v));
  }

  // The chunk-size printer: it fills a 16-digit array from the right.
  method PutHex(output: bytes, value: u64) returns (r: bytes)
    ensures r == output + PrintHex(value)
  {
    PrintHexAtMost16(value);
    var digits := new byte[16];
    var index := 16;
    var rest: u64 := value;
    while true
      invariant 0 <= index <= 16 && digits.Length == 16
      invariant PrintHex(value) == PrintHex(rest) + digits[index..]
      invariant |PrintHex(rest)| <= index
      decreases rest
    {
      ghost var before := digits[index..];
      ghost var shown := rest;
      index := index - 1;
      digits[index] := HexDigit(rest % 16);
      rest := rest / 16;
      assert digits[index..] == [HexDigit(shown % 16)] + before;
      if rest == 0 {
        break;
      }
      assert PrintHex(shown) == PrintHex(rest) + [HexDigit(shown % 16)];
    }
    r := output + digits[index..];
  }
}
