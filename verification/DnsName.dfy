// DNS names (sections 2.3.4 and 5.1 of RFC 1035): labels of arbitrary octets, their
// limits, and their presentation syntax.
module DnsName {
  import opened Results
  import opened Bytes

  datatype NameError = EmptyLabel | LabelTooLong | NameTooLong | InvalidEscape

  type Labels = seq<bytes>

  const DOT: byte := 46
  const MAX_LABEL: nat := 63
  const MAX_NAME: nat := 255

  // ----- limits --------------------------------------------------------------

  // Octets of the uncompressed name: each label with its length octet, and the root.
  function WireLength(labels: Labels): nat {
    if labels == [] then 1 else 1 + |labels[0]| + WireLength(labels[1..])
  }

  predicate LabelOk(part: bytes) {
    1 <= |part| <= MAX_LABEL
  }

  predicate LabelsOk(labels: Labels) {
    forall i :: 0 <= i < |labels| ==> LabelOk(labels[i])
  }

  predicate ValidName(labels: Labels) {
    LabelsOk(labels) && WireLength(labels) <= MAX_NAME
  }

  lemma {:induction false} WireLengthAppend(labels: Labels, part: bytes)
    ensures WireLength(labels + [part]) == WireLength(labels) + 1 + |part|
  {
    if labels == [] {
      assert WireLength([part]) == 1 + |part| + WireLength([part][1..]);
      assert labels + [part] == [part];
    } else {
      assert (labels + [part])[1..] == labels[1..] + [part];
      WireLengthAppend(labels[1..], part);
    }
  }

  lemma {:induction false} WireLengthPrefix(labels: Labels, n: nat)
    requires n <= |labels|
    ensures WireLength(labels[..n]) <= WireLength(labels)
  {
    if n > 0 {
      WireLengthPrefix(labels[1..], n - 1);
      assert labels[..n][1..] == labels[1..][..n - 1];
    }
  }

  // Labels taken one by one, with a running length.
  method FromLabels(labels: Labels) returns (r: Result<Labels, NameError>)
    ensures r.Ok? <==> ValidName(labels)
    ensures r.Ok? ==> r.value == labels
    ensures r.Err? && r.error.EmptyLabel? ==> [] in labels
    ensures r.Err? && r.error.LabelTooLong? ==> exists part :: part in labels && |part| > MAX_LABEL
    ensures r.Err? && r.error.NameTooLong? ==> WireLength(labels) > MAX_NAME
    ensures r.Err? ==> !r.error.InvalidEscape?
  {
    var name: Labels := [];
    var wireLength := 1;
    for i := 0 to |labels|
      invariant name == labels[..i] && LabelsOk(name)
      invariant wireLength == WireLength(name) <= MAX_NAME
    {
      var part := labels[i];
      if part == [] {
        return Err(EmptyLabel);
      }
      if |part| > MAX_LABEL {
        return Err(LabelTooLong);
      }
      WireLengthAppend(name, part);
      assert labels[..i + 1] == name + [part];
      WireLengthPrefix(labels, i + 1);
      wireLength := wireLength + 1 + |part|;
      if wireLength > MAX_NAME {
        return Err(NameTooLong);
      }
      name := name + [part];
    }
    assert labels[..|labels|] == labels;
    r := Ok(name);
  }

  // ----- presentation --------------------------------------------------------

  function Digit(n: nat): byte
    requires n < 10
  {
    48 + n
  }

  function PrintByte(b: byte): (r: bytes)
    ensures r != [] && r[0] != DOT
  {
    if b == DOT || b == BACKSLASH then [BACKSLASH, b]
    else if 33 <= b <= 126 then [b]
    else [BACKSLASH, Digit(b / 100), Digit(b / 10 % 10), Digit(b % 10)]
  }

  function PrintLabel(part: bytes): bytes {
    if part == [] then [] else PrintByte(part[0]) + PrintLabel(part[1..])
  }

  function PrintLabels(labels: Labels): bytes {
    if labels == [] then []
    else if |labels| == 1 then PrintLabel(labels[0])
    else PrintLabel(labels[0]) + ([DOT] + PrintLabels(labels[1..]))
  }

  function PrintName(labels: Labels): bytes {
    if labels == [] then [DOT] else PrintLabels(labels)
  }

  // ----- parsing -------------------------------------------------------------

  function ThreeDigits(a: byte, b: byte, c: byte): nat
    requires IsDigit(a) && IsDigit(b) && IsDigit(c)
  {
    var (hundreds: nat, tens: nat, ones: nat) := (a - 48, b - 48, c - 48);
    hundreds * 100 + tens * 10 + ones
  }

  // One octet of a label at the front of the text, and the characters it takes.
  function NextOctet(text: bytes): (r: Option<(byte, nat)>)
    requires text != []
    ensures r.Some? ==> 1 <= r.value.1 <= |text|
  {
    if text[0] != BACKSLASH then Some((text[0], 1))
    else if |text| < 2 then None
    else if !IsDigit(text[1]) then Some((text[1], 2))
    else if |text| < 4 || !IsDigit(text[2]) || !IsDigit(text[3]) then None
    else
      var value := ThreeDigits(text[1], text[2], text[3]);
      if value > 255 then None else Some((value, 4))
  }

  // The labels a text spells, without regard to the length limits. `part` is the
  // label begun.
  function Spelled(text: bytes, part: bytes, labels: Labels): Result<Labels, NameError>
    decreases |text|
  {
    if text == [] then Ok(if part != [] then labels + [part] else labels)
    else if text[0] == DOT then
      if part == [] then Err(EmptyLabel) else Spelled(text[1..], [], labels + [part])
    else
      match NextOctet(text)
      case None => Err(InvalidEscape)
      case Some((b, n)) => Spelled(text[n..], part + [b], labels)
  }

  predicate RootText(text: bytes) {
    text == [] || text == [DOT]
  }

  function SpelledName(text: bytes): Result<Labels, NameError> {
    if RootText(text) then Ok([]) else Spelled(text, [], [])
  }

  // The parser, checking the limits as it goes.
  function ParseText(text: bytes, part: bytes, labels: Labels, wireLength: nat): Result<Labels, NameError>
    decreases |text|
  {
    if text == [] then Ok(if part != [] then labels + [part] else labels)
    else if text[0] == DOT then
      if part == [] then Err(EmptyLabel) else ParseText(text[1..], [], labels + [part], wireLength)
    else
      match NextOctet(text)
      case None => Err(InvalidEscape)
      case Some((b, n)) =>
        var longer := wireLength + (if part == [] then 2 else 1);
        if longer > MAX_NAME then Err(NameTooLong)
        else if |part| + 1 > MAX_LABEL then Err(LabelTooLong)
        else ParseText(text[n..], part + [b], labels, longer)
  }

  function ParseName(text: bytes): Result<Labels, NameError> {
    if RootText(text) then Ok([]) else ParseText(text, [], [], 1)
  }

  // The running length is the wire length of the labels so far and the one begun.
  predicate Running(part: bytes, labels: Labels, wireLength: nat) {
    LabelsOk(labels) && |part| <= MAX_LABEL
    && wireLength == WireLength(labels) + (if part == [] then 0 else 1 + |part|) && wireLength <= MAX_NAME
  }

  lemma {:induction false} SpelledExtends(text: bytes, part: bytes, labels: Labels)
    requires Spelled(text, part, labels).Ok?
    ensures
      var r := Spelled(text, part, labels).value;
      |labels| <= |r| && r[..|labels|] == labels && (part != [] ==> |labels| < |r| && |part| <= |r[|labels|]|)
    decreases |text|
  {
    if text != [] {
      if text[0] == DOT {
        SpelledExtends(text[1..], [], labels + [part]);
        var r := Spelled(text, part, labels).value;
        assert r[..|labels|] == r[..|labels| + 1][..|labels|];
      } else {
        var (b, n) := NextOctet(text).value;
        SpelledExtends(text[n..], part + [b], labels);
      }
    }
  }

  // Parsing with running limits is spelling and then checking the whole.
  lemma {:induction false} ParseIsSpelling(text: bytes, part: bytes, labels: Labels, wireLength: nat)
    requires Running(part, labels, wireLength)
    ensures
      var spelled := Spelled(text, part, labels);
      var parsed := ParseText(text, part, labels, wireLength);
      (parsed.Ok? <==> spelled.Ok? && ValidName(spelled.value)) && (parsed.Ok? ==> parsed == spelled)
    decreases |text|
  {
    if text == [] {
      WireLengthAppend(labels, part);
    } else if text[0] == DOT {
      if part != [] {
        WireLengthAppend(labels, part);
        ParseIsSpelling(text[1..], [], labels + [part], wireLength);
      }
    } else if NextOctet(text).Some? {
      var (b, n) := NextOctet(text).value;
      var longer := wireLength + (if part == [] then 2 else 1);
      if longer <= MAX_NAME && |part| + 1 <= MAX_LABEL {
        ParseIsSpelling(text[n..], part + [b], labels, longer);
      } else if Spelled(text, part, labels).Ok? {
        TooLong(text[n..], part + [b], labels);
      }
    }
  }

  // A begun label that is too long, or makes the name too long, spoils the name.
  lemma TooLong(text: bytes, part: bytes, labels: Labels)
    requires part != [] && Spelled(text, part, labels).Ok?
    requires |part| > MAX_LABEL || WireLength(labels) + 1 + |part| > MAX_NAME
    ensures !ValidName(Spelled(text, part, labels).value)
  {
    SpelledExtends(text, part, labels);
    var r := Spelled(text, part, labels).value;
    var n := |labels|;
    WireLengthAppend(labels, r[n]);
    assert r[..n + 1] == labels + [r[n]];
    WireLengthPrefix(r, n + 1);
    assert LabelOk(r[n]) ==> |part| <= MAX_LABEL;
  }

  // The parser accepts exactly the texts that spell a name within the limits of
  // FromLabels, and returns the labels spelled.
  lemma ParseMeaning(text: bytes, labels: Labels)
    ensures ParseName(text) == Ok(labels) <==> SpelledName(text) == Ok(labels) && ValidName(labels)
  {
    if !RootText(text) {
      ParseIsSpelling(text, [], [], 1);
    }
  }

  // ----- the round trip ------------------------------------------------------

  lemma DecimalOctet(b: byte)
    ensures ThreeDigits(Digit(b / 100), Digit(b / 10 % 10), Digit(b % 10)) == b
  {
  }

  lemma OctetRoundTrip(b: byte, rest: bytes)
    ensures NextOctet(PrintByte(b) + rest) == Some((b, |PrintByte(b)|))
  {
    var text := PrintByte(b) + rest;
    if !(b == DOT || b == BACKSLASH || 33 <= b <= 126) {
      DecimalOctet(b);
      assert text[..4] == PrintByte(b);
      assert text[1] == Digit(b / 100) && text[2] == Digit(b / 10 % 10) && text[3] == Digit(b % 10);
    }
  }

  lemma {:induction false} LabelSpelled(part: bytes, begun: bytes, labels: Labels, rest: bytes)
    ensures Spelled(PrintLabel(part) + rest, begun, labels) == Spelled(rest, begun + part, labels)
  {
    hide PrintByte, NextOctet;
    if part == [] {
      assert PrintLabel(part) + rest == rest && begun + part == begun;
    } else {
      var text := PrintLabel(part) + rest;
      var later := PrintLabel(part[1..]) + rest;
      assert text == PrintByte(part[0]) + later;
      assert text[0] == PrintByte(part[0])[0];
      OctetRoundTrip(part[0], later);
      assert text[|PrintByte(part[0])|..] == later;
      LabelSpelled(part[1..], begun + [part[0]], labels, rest);
      assert begun + [part[0]] + part[1..] == begun + part;
    }
  }

  lemma {:induction false} NameSpelled(labels: Labels, before: Labels, rest: bytes)
    requires labels != [] && LabelsOk(labels) && (rest == [] || rest == [DOT])
    ensures Spelled(PrintLabels(labels) + rest, [], before) == Ok(before + labels)
    decreases |labels|
  {
    hide PrintLabel, Spelled;
    var part := labels[0];
    assert LabelOk(part);
    assert [] + part == part;
    if |labels| == 1 {
      assert labels == [part];
      LabelSpelled(part, [], before, rest);
      EndSpelled(part, before, rest);
    } else {
      var more := PrintLabels(labels[1..]) + rest;
      assert PrintLabels(labels) + rest == PrintLabel(part) + ([DOT] + more);
      LabelSpelled(part, [], before, [DOT] + more);
      DotSpelled(part, before, more);
      NameSpelled(labels[1..], before + [part], rest);
      assert before + [part] + labels[1..] == before + labels;
    }
  }

  lemma DotSpelled(part: bytes, before: Labels, more: bytes)
    requires part != []
    ensures Spelled([DOT] + more, part, before) == Spelled(more, [], before + [part])
  {
    hide NextOctet;
    assert ([DOT] + more)[1..] == more;
  }

  lemma EndSpelled(part: bytes, before: Labels, rest: bytes)
    requires part != [] && (rest == [] || rest == [DOT])
    ensures Spelled(rest, part, before) == Ok(before + [part])
  {
    hide NextOctet;
    if rest == [DOT] {
      DotSpelled(part, before, []);
      assert [DOT] + [] == rest;
    }
  }

  lemma PrintedNotRoot(labels: Labels, rest: bytes)
    requires labels != [] && LabelsOk(labels)
    ensures !RootText(PrintLabels(labels) + rest)
  {
    assert LabelOk(labels[0]);
    assert PrintLabel(labels[0])[0] == PrintByte(labels[0][0])[0];
    assert PrintLabels(labels)[0] == PrintLabel(labels[0])[0];
    assert (PrintLabels(labels) + rest)[0] != DOT;
  }

  // Parsing the printed form of a name returns its exact labels, dots, backslashes
  // and arbitrary octets included; a final dot changes nothing.
  lemma NameRoundTrip(labels: Labels)
    requires ValidName(labels)
    ensures ParseName(PrintName(labels)) == Ok(labels)
    ensures labels != [] ==> ParseName(PrintName(labels) + [DOT]) == Ok(labels)
  {
    if labels != [] {
      NameSpelled(labels, [], []);
      NameSpelled(labels, [], [DOT]);
      PrintedNotRoot(labels, []);
      PrintedNotRoot(labels, [DOT]);
      assert PrintLabels(labels) + [] == PrintLabels(labels);
      assert [] + labels == labels;
      ParseMeaning(PrintName(labels), labels);
      ParseMeaning(PrintName(labels) + [DOT], labels);
    }
  }

  // ----- the parser's loop ---------------------------------------------------

  method FromText(text: bytes) returns (r: Result<Labels, NameError>)
    ensures r == ParseName(text)
  {
    if text == [] || text == [DOT] {
      return Ok([]);
    }
    var labels: Labels := [];
    var part: bytes := [];
    var cursor, wireLength := 0, 1;
    assert text[0..] == text;
    while cursor < |text|
      invariant 0 <= cursor <= |text| && wireLength >= 0
      invariant ParseName(text) == ParseText(text[cursor..], part, labels, wireLength)
    {
      var b := text[cursor];
      ghost var rest := text[cursor..];
      cursor := cursor + 1;
      if b == DOT {
        if part == [] {
          return Err(EmptyLabel);
        }
        labels := labels + [part];
        part := [];
        assert rest[1..] == text[cursor..];
        continue;
      }
      if b == BACKSLASH {
        if cursor >= |text| {
          return Err(InvalidEscape);
        }
        var escaped := text[cursor];
        if IsDigit(escaped) {
          if cursor + 3 > |text| || !IsDigit(text[cursor + 1]) || !IsDigit(text[cursor + 2]) {
            return Err(InvalidEscape);
          }
          var value := ThreeDigits(text[cursor], text[cursor + 1], text[cursor + 2]);
          cursor := cursor + 3;
          if value > 255 {
            return Err(InvalidEscape);
          }
          b := value;
        } else {
          cursor := cursor + 1;
          b := escaped;
        }
      }
      assert NextOctet(rest) == Some((b, cursor - (|text| - |rest|)));
      assert rest[cursor - (|text| - |rest|)..] == text[cursor..];
      if part == [] {
        wireLength := wireLength + 1;
      }
      wireLength := wireLength + 1;
      if wireLength > MAX_NAME {
        return Err(NameTooLong);
      }
      part := part + [b];
      if |part| > MAX_LABEL {
        return Err(LabelTooLong);
      }
    }
    if part != [] {
      labels := labels + [part];
    }
    r := Ok(labels);
  }

  // ----- comparing names -----------------------------------------------------

  // ASCII case does not count.
  predicate SameLabels(a: Labels, b: Labels) {
    |a| == |b| && forall i :: 0 <= i < |a| ==> SameName(a[i], b[i])
  }

  function FromRoot(labels: Labels, i: nat): bytes
    requires i < |labels|
  {
    labels[|labels| - 1 - i]
  }

  // From the root, label by label.
  predicate IsSubdomain(name: Labels, parent: Labels) {
    |name| >= |parent|
    && forall i :: 0 <= i < |parent| ==> SameName(FromRoot(name, i), FromRoot(parent, i))
  }

  // A subdomain is some labels in front of the parent.
  lemma SubdomainMeaning(name: Labels, parent: Labels)
    ensures IsSubdomain(name, parent) <==>
            |name| >= |parent| && SameLabels(name[|name| - |parent|..], parent)
  {
    hide SameName;
    if |name| >= |parent| {
      var tail := name[|name| - |parent|..];
      if SameLabels(tail, parent) {
        forall i | 0 <= i < |parent| ensures SameName(FromRoot(name, i), FromRoot(parent, i)) {
          assert tail[|parent| - 1 - i] == name[|name| - 1 - i];
        }
      }
      if IsSubdomain(name, parent) {
        forall j | 0 <= j < |parent| ensures SameName(tail[j], parent[j]) {
          var i := |parent| - 1 - j;
          assert SameName(FromRoot(name, i), FromRoot(parent, i));
        }
      }
    }
  }

  // The order of names below one another, up to case: everything is below the root,
  // and below itself; two names each below the other are equal; and it chains.
  lemma SubdomainOrder(a: Labels, b: Labels, c: Labels)
    ensures IsSubdomain(a, []) && IsSubdomain(a, a)
    ensures IsSubdomain(a, b) && IsSubdomain(b, a) <==> SameLabels(a, b)
    ensures IsSubdomain(a, b) && IsSubdomain(b, c) ==> IsSubdomain(a, c)
  {
    hide SameName;
    forall x, y ensures SameName(x, x) && (SameName(x, y) <==> SameName(y, x)) {
      SameNameBasics(x, y);
    }
    SubdomainMeaning(a, b);
    SubdomainMeaning(b, a);
    if |a| == |b| {
      assert a[|a| - |b|..] == a && b[|b| - |a|..] == b;
    }
    if IsSubdomain(a, b) && IsSubdomain(b, c) {
      forall i | 0 <= i < |c| ensures SameName(FromRoot(a, i), FromRoot(c, i)) {
        SameNameChains(FromRoot(a, i), FromRoot(b, i), FromRoot(c, i));
      }
    }
  }

  lemma SameNameBasics(x: bytes, y: bytes)
    ensures SameName(x, x) && (SameName(x, y) <==> SameName(y, x))
  {
  }

  lemma SameNameChains(x: bytes, y: bytes, z: bytes)
    ensures SameName(x, y) && SameName(y, z) ==> SameName(x, z)
  {
  }
}
