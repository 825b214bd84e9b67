// DNS packets octet by octet (section 4.1 of RFC 1035): what the readers take for a
// question and for address records, and what the made-up responses hold.
module DnsWire {
  import opened Results
  import opened Bytes
  import Names = DnsName
  import opened DnsPacket

  function Short(hi: byte, lo: byte): nat {
    256 * (hi as int) + lo as int
  }

  function Long(a: byte, b: byte, c: byte, d: byte): nat {
    0x1_0000 * Short(a, b) + Short(c, d)
  }

  // ----- names on the wire ---------------------------------------------------

  // Every label behind its length, and the root.
  function WireLabels(labels: Names.Labels): bytes
    requires Names.LabelsOk(labels)
  {
    if labels == [] then []
    else
      assert Names.LabelOk(labels[0]);
      [|labels[0]|] + (labels[0] + WireLabels(labels[1..]))
  }

  ghost predicate NameAt(packet: bytes, cursor: nat, labels: Names.Labels, end: nat) {
    Names.LabelsOk(labels) && cursor <= end <= |packet| && packet[cursor..end] == WireLabels(labels) + [0]
  }

  lemma SliceOfSlice(s: bytes, start: nat, end: nat, i: nat, j: nat)
    requires start <= end <= |s| && i <= j <= end - start
    ensures s[start..end][i..j] == s[start + i..start + j]
  {
    assert forall k :: 0 <= k < j - i ==> s[start..end][i..j][k] == s[start + i..start + j][k];
  }

  lemma FirstLabel(packet: bytes, cursor: nat, labels: Names.Labels, end: nat)
    requires labels != [] && NameAt(packet, cursor, labels, end)
    ensures cursor < |packet| && packet[cursor] == |labels[0]| && 0 < |labels[0]| < 64
    ensures cursor + 1 + |labels[0]| <= end && packet[cursor + 1..cursor + 1 + |labels[0]|] == labels[0]
    ensures NameAt(packet, cursor + 1 + |labels[0]|, labels[1..], end)
  {
    assert Names.LabelOk(labels[0]);
    var n := |labels[0]|;
    var s := packet[cursor..end];
    var rest := WireLabels(labels[1..]) + [0];
    assert s == [n] + (labels[0] + rest);
    assert packet[cursor] == s[0];
    SliceOfSlice(packet, cursor, end, 1, 1 + n);
    SliceOfSlice(packet, cursor, end, 1 + n, |s|);
    OneThenRest(n, labels[0], rest);
    assert forall i :: 0 <= i < |labels[1..]| ==> labels[1..][i] == labels[i + 1];
  }

  lemma OneThenRest(n: byte, first: bytes, rest: bytes)
    ensures
      var s := [n] + (first + rest);
      s[0] == n && s[1..1 + |first|] == first && s[1 + |first|..|s|] == rest
  {
  }

  lemma {:induction false} WireIsRead(packet: bytes, cursor: nat, labels: Names.Labels, end: nat)
    requires NameAt(packet, cursor, labels, end)
    ensures ReadLabels(packet, cursor) == Some((labels, end))
    decreases |labels|
  {
    if labels == [] {
      assert packet[cursor..end][0] == 0 && |packet[cursor..end]| == 1;
    } else {
      FirstLabel(packet, cursor, labels, end);
      WireIsRead(packet, cursor + 1 + |labels[0]|, labels[1..], end);
      assert labels == [labels[0]] + labels[1..];
    }
  }

  lemma {:induction false} ReadIsWire(packet: bytes, cursor: nat)
    requires ReadLabels(packet, cursor).Some?
    ensures NameAt(packet, cursor, ReadLabels(packet, cursor).value.0, ReadLabels(packet, cursor).value.1)
    decreases |packet| - cursor
  {
    var (labels, end) := ReadLabels(packet, cursor).value;
    var n := packet[cursor];
    if n == 0 {
      assert packet[cursor..end] == [0];
      assert WireLabels([]) + [0] == [0];
    } else {
      var next := cursor + 1 + n;
      ReadIsWire(packet, next);
      var first := packet[cursor + 1..next];
      assert labels == [first] + labels[1..] && Names.LabelOk(first);
      LabelsLength(packet, cursor);
      assert packet[cursor..end] == [n] + (first + packet[next..end]);
    }
  }

  // A name is read exactly where its wire form stands.
  lemma LabelsMeaning(packet: bytes, cursor: nat, labels: Names.Labels, end: nat)
    ensures ReadLabels(packet, cursor) == Some((labels, end)) <==> NameAt(packet, cursor, labels, end)
  {
    hide NameAt, ReadLabels;
    if ReadLabels(packet, cursor).Some? {
      ReadIsWire(packet, cursor);
    }
    if NameAt(packet, cursor, labels, end) {
      WireIsRead(packet, cursor, labels, end);
    }
  }

  // A packet is a query exactly when it asks one question, with a name within the limits
  // behind the header, then a type and a class.
  lemma QueryMeaning(packet: bytes, query: Query)
    ensures ParseQuery(packet) == Some(query) <==>
            |packet| >= 17 && packet[4..6] == [0, 1] && 16 <= query.questionEnd <= |packet|
            && Names.ValidName(query.name) && NameAt(packet, 12, query.name, query.questionEnd - 4)
            && query.queryType == Short(packet[query.questionEnd - 4], packet[query.questionEnd - 3])
  {
    hide ReadLabels, NameAt, Names.ValidName;
    assert |packet| >= 17 ==> packet[4..6] == [packet[4], packet[5]];
    if query.questionEnd >= 4 {
      LabelsMeaning(packet, 12, query.name, query.questionEnd - 4);
    }
    if ReadLabels(packet, 12).Some? {
      var (labels, end) := ReadLabels(packet, 12).value;
      LabelsMeaning(packet, 12, labels, end);
    }
    NameInside(packet, query);
  }

  lemma NameInside(packet: bytes, query: Query)
    ensures query.questionEnd >= 4 && NameAt(packet, 12, query.name, query.questionEnd - 4) ==> query.questionEnd >= 16
  {
  }

  // ----- address records -----------------------------------------------------

  // A record behind its name: type, class, time to live, data.
  datatype Record = Record(name: bytes, recordType: nat, class_: nat, ttl: nat, data: bytes)

  // A name's wire form, or the start of one and a pointer.
  ghost predicate SkippableName(name: bytes) {
    exists labels ::
      Names.LabelsOk(labels)
      && (name == WireLabels(labels) + [0]
          || exists hi: byte, lo: byte :: hi >= 192 && name == WireLabels(labels) + [hi, lo])
  }

  predicate Fits(r: Record) {
    r.recordType < 0x1_0000 && r.class_ < 0x1_0000 && r.ttl < 0x1_0000_0000 && |r.data| < 0x1_0000
  }

  ghost predicate ProperRecord(r: Record) {
    SkippableName(r.name) && Fits(r)
  }

  function WireRecord(r: Record): bytes
    requires Fits(r)
  {
    r.name + RecordTail(r)
  }

  function RecordTail(r: Record): bytes
    requires Fits(r)
  {
    PutBe16(r.recordType) + (PutBe16(r.class_) + (PutBe32(r.ttl) + (PutBe16(|r.data|) + r.data)))
  }

  ghost function WireRecords(rs: seq<Record>): bytes
    requires forall i :: 0 <= i < |rs| ==> ProperRecord(rs[i])
  {
    if rs == [] then []
    else
      assert ProperRecord(rs[0]);
      WireRecord(rs[0]) + WireRecords(rs[1..])
  }

  // The address a record carries: type 1 with four octets, type 28 with sixteen.
  function AddressOf(r: Record): seq<Address> {
    if r.recordType == 1 && |r.data| == 4 then [V4(r.data)]
    else if r.recordType == 28 && |r.data| == 16 then [V6(r.data)]
    else []
  }

  function Addresses(rs: seq<Record>): seq<Address> {
    if rs == [] then [] else AddressOf(rs[0]) + Addresses(rs[1..])
  }

  lemma {:induction false} NameSkipped(front: bytes, labels: Names.Labels, ending: bytes, rest: bytes)
    requires Names.LabelsOk(labels)
    requires ending == [0] || (|ending| == 2 && ending[0] >= 192)
    ensures
      var packet := front + (WireLabels(labels) + (ending + rest));
      SkipName(packet, |front|) == Some(|front| + |WireLabels(labels)| + |ending|)
    decreases |labels|
  {
    var packet := front + (WireLabels(labels) + (ending + rest));
    if labels == [] {
      assert packet == front + (ending + rest);
      assert packet[|front|] == ending[0];
    } else {
      assert Names.LabelOk(labels[0]);
      var first := [|labels[0]|] + labels[0];
      var more := WireLabels(labels[1..]) + (ending + rest);
      assert packet == (front + first) + more;
      assert packet[|front|] == |labels[0]|;
      NameSkipped(front + first, labels[1..], ending, rest);
    }
  }

  lemma AnyNameSkipped(front: bytes, name: bytes, rest: bytes)
    requires SkippableName(name)
    ensures SkipName(front + (name + rest), |front|) == Some(|front| + |name|)
  {
    hide SkipName, WireLabels;
    var labels :|
      Names.LabelsOk(labels)
      && (name == WireLabels(labels) + [0]
          || exists hi: byte, lo: byte :: hi >= 192 && name == WireLabels(labels) + [hi, lo]);
    var n := |WireLabels(labels)|;
    var ending := name[n..];
    assert name == WireLabels(labels) + ending;
    assert name + rest == WireLabels(labels) + (ending + rest);
    NameSkipped(front, labels, ending, rest);
  }

  lemma Be16Back(n: nat)
    requires n < 0x1_0000
    ensures Be16(PutBe16(n)[0], PutBe16(n)[1]) == n == Short(PutBe16(n)[0], PutBe16(n)[1])
  {
  }

  // Where the parts of a record stand.
  lemma TailParts(r: Record)
    requires Fits(r)
    ensures
      var t := RecordTail(r);
      |t| == 10 + |r.data| && Be16(t[0], t[1]) == r.recordType && Be16(t[8], t[9]) == |r.data| && t[10..] == r.data
  {
    hide PutBe16, PutBe32, Be16;
    var t := RecordTail(r);
    var kind, size := PutBe16(r.recordType), PutBe16(|r.data|);
    Be16Back(r.recordType);
    Be16Back(|r.data|);
    assert t == kind + (PutBe16(r.class_) + PutBe32(r.ttl)) + size + r.data;
    assert t[0] == kind[0] && t[1] == kind[1] && t[8] == size[0] && t[9] == size[1];
  }

  lemma RecordAt(front: bytes, r: Record, rest: bytes)
    requires Fits(r)
    ensures
      var packet := front + (WireRecord(r) + rest);
      var at := |front| + |r.name|;
      |WireRecord(r)| == |r.name| + 10 + |r.data|
      && Be16(packet[at], packet[at + 1]) == r.recordType && Be16(packet[at + 8], packet[at + 9]) == |r.data|
      && packet[at + 10..at + 10 + |r.data|] == r.data
  {
    TailParts(r);
    hide RecordTail, Be16, Fits;
    var packet := front + (WireRecord(r) + rest);
    var t := RecordTail(r);
    var before := front + r.name;
    assert packet == before + (t + rest);
    assert packet[|before| + 10..|before| + 10 + |r.data|] == t[10..];
  }

  lemma SameAnswer(r: Record)
    ensures AnswerOf(r.recordType, r.data) == AddressOf(r)
  {
  }

  lemma RecordStep(packet: bytes, cursor: nat, at: nat, r: Record, n: nat)
    requires cursor <= |packet| && SkipName(packet, cursor) == Some(at) && at + 10 + |r.data| <= |packet|
    requires Be16(packet[at], packet[at + 1]) == r.recordType && Be16(packet[at + 8], packet[at + 9]) == |r.data|
    requires packet[at + 10..at + 10 + |r.data|] == r.data
    ensures
      ReadAnswers(packet, cursor, n + 1)
      == match ReadAnswers(packet, at + 10 + |r.data|, n) case None => None case Some(more) => Some(AddressOf(r) + more)
  {
    hide SkipName, Be16;
    SameAnswer(r);
    hide AddressOf, AnswerOf;
  }

  lemma RecordRead(front: bytes, r: Record, rest: bytes, n: nat)
    requires ProperRecord(r)
    ensures Fits(r)
    ensures
      var packet := front + (WireRecord(r) + rest);
      var next := |front| + |WireRecord(r)|;
      ReadAnswers(packet, |front|, n + 1)
      == match ReadAnswers(packet, next, n) case None => None case Some(more) => Some(AddressOf(r) + more)
  {
    ProperFits(r);
    NameOfRecord(front, r, rest);
    RecordAt(front, r, rest);
    hide *;
    var packet := front + (WireRecord(r) + rest);
    RecordStep(packet, |front|, |front| + |r.name|, r, n);
  }

  // Any records behind the questions are read as the addresses among them, in order.
  lemma {:induction false} RecordsAreRead(front: bytes, rs: seq<Record>, rest: bytes)
    requires forall i :: 0 <= i < |rs| ==> ProperRecord(rs[i])
    ensures ReadAnswers(front + (WireRecords(rs) + rest), |front|, |rs|) == Some(Addresses(rs))
    decreases |rs|
  {
    hide SkipName, WireRecord, Be16, ProperRecord, Fits, AddressOf, ReadAnswers;
    if rs == [] {
      NoRecords(front + (WireRecords(rs) + rest), |front|);
    } else {
      var r := rs[0];
      var more := WireRecords(rs[1..]) + rest;
      RecordRead(front, r, more, |rs| - 1);
      RecordsAreRead(front + WireRecord(r), rs[1..], rest);
      Regroup(front, WireRecord(r), WireRecords(rs[1..]), rest);
    }
  }

  lemma NoRecords(packet: bytes, cursor: nat)
    requires cursor <= |packet|
    ensures ReadAnswers(packet, cursor, 0) == Some(Addresses([]))
  {
  }

  lemma Regroup(a: bytes, b: bytes, c: bytes, d: bytes)
    ensures a + ((b + c) + d) == a + (b + (c + d)) == (a + b) + (c + d)
  {
    assert (b + c) + d == b + (c + d);
    assert a + (b + (c + d)) == (a + b) + (c + d);
  }

  lemma ProperFits(r: Record)
    requires ProperRecord(r)
    ensures Fits(r)
  {
  }

  lemma NameOfRecord(front: bytes, r: Record, rest: bytes)
    requires ProperRecord(r)
    ensures SkipName(front + (WireRecord(r) + rest), |front|) == Some(|front| + |r.name|)
  {
    AnyNameSkipped(front, r.name, RecordTail(r) + rest);
    hide *;
    assert (r.name + RecordTail(r)) + rest == r.name + (RecordTail(r) + rest);
  }

  // ----- whole responses -----------------------------------------------------

  // A question: a name, and four octets of type and class.
  ghost predicate ProperQuestion(name: bytes) {
    exists stem: bytes, kind: bytes :: SkippableName(stem) && |kind| == 4 && name == stem + kind
  }

  ghost function Joined(parts: seq<bytes>): bytes {
    if parts == [] then [] else parts[0] + Joined(parts[1..])
  }

  lemma {:induction false} QuestionsSkipped(front: bytes, questions: seq<bytes>, rest: bytes)
    requires forall i :: 0 <= i < |questions| ==> ProperQuestion(questions[i])
    ensures
      SkipQuestions(front + (Joined(questions) + rest), |front|, |questions|) == Some(|front| + |Joined(questions)|)
    decreases |questions|
  {
    hide SkipName, ProperQuestion;
    if questions != [] {
      var more := Joined(questions[1..]) + rest;
      QuestionSkipped(front, questions[0], more);
      QuestionsSkipped(front + questions[0], questions[1..], rest);
      Regroup(front, questions[0], Joined(questions[1..]), rest);
    }
  }

  lemma QuestionSkipped(front: bytes, question: bytes, rest: bytes)
    requires ProperQuestion(question)
    ensures |question| >= 4 && SkipName(front + (question + rest), |front|) == Some(|front| + |question| - 4)
  {
    hide SkipName, SkippableName;
    var stem: bytes, kind: bytes :| SkippableName(stem) && |kind| == 4 && question == stem + kind;
    AnyNameSkipped(front, stem, kind + rest);
    assert question + rest == stem + (kind + rest);
  }

  // A response is read as the addresses of its answer records, in order, whatever its
  // flags, its questions and what follows the answers.
  lemma ResponseIsRead(header: bytes, questions: seq<bytes>, rs: seq<Record>, rest: bytes)
    requires |header| == 12 && Short(header[4], header[5]) == |questions| && Short(header[6], header[7]) == |rs|
    requires forall i :: 0 <= i < |questions| ==> ProperQuestion(questions[i])
    requires forall i :: 0 <= i < |rs| ==> ProperRecord(rs[i])
    ensures ParseAnswers(header + (Joined(questions) + (WireRecords(rs) + rest))) == Some(Addresses(rs))
  {
    hide *;
    var asked, told := Joined(questions), WireRecords(rs);
    QuestionsSkipped(header, questions, told + rest);
    RecordsAreRead(header + asked, rs, rest);
    assert header + (asked + (told + rest)) == (header + asked) + (told + rest);
    AnswersFound(header, asked + (told + rest), |questions|, |rs|, |header + asked|);
  }

  lemma AnswersFound(header: bytes, tail: bytes, questions: nat, answers: nat, cursor: nat)
    requires |header| == 12 && 12 <= cursor <= |header + tail| && SkipQuestions(header + tail, 12, questions) == Some(cursor)
    requires Short(header[4], header[5]) == questions && Short(header[6], header[7]) == answers
    ensures ParseAnswers(header + tail) == ReadAnswers(header + tail, cursor, answers)
  {
    hide SkipQuestions, ReadAnswers;
  }

  // ----- the made-up responses -----------------------------------------------

  // Octet by octet: the query's identifier, operation and recursion bit, marked as a
  // response with recursion available; one question as it was asked;
  // and one record of the type asked for, of class 1, for the name the question holds,
  // with the time to live and the address.
  lemma OverrideHolds(packet: bytes, address: Address, ttl: nat)
    requires ParseQuery(packet).Some? && ProperAddress(address) && ttl < 0x1_0000_0000
    ensures ParseQuery(packet).value.queryType < 0x1_0000
    ensures
      var q := ParseQuery(packet).value;
      var r := OverrideResponse(packet, q, address, ttl);
      var p := q.questionEnd;
      |r| == p + 12 + |address.octets| && r[..2] == packet[..2] && r[2] % 128 == packet[2] % 128 && r[2] / 128 == 1
      && r[3] == (if packet[3] / 16 % 2 == 1 then 0x90 else 0x80)
      && r[4..12] == [0, 1, 0, 1, 0, 0, 0, 0] && r[12..p] == packet[12..p]
      && r[p] == 0xc0 && r[p + 1] == 12 && NameAt(r, r[p + 1], q.name, p - 4)
      && Short(r[p + 2], r[p + 3]) == q.queryType && r[p + 4..p + 6] == [0, 1]
      && Long(r[p + 6], r[p + 7], r[p + 8], r[p + 9]) == ttl
      && Short(r[p + 10], r[p + 11]) == |address.octets| && r[p + 12..] == address.octets
  {
    hide *;
    QuestionLength(packet);
    OverrideOctets(packet, address, ttl);
    OverrideIsRead(packet, address, ttl);
    var q := ParseQuery(packet).value;
    var r := OverrideResponse(packet, q, address, ttl);
    QueryMeaning(r, q);
    OneQuestion(packet);
    ResponseParts(packet, q, address, ttl, r);
    assert r[12..q.questionEnd] == packet[12..q.questionEnd];
  }

  lemma ResponseParts(packet: bytes, q: Query, address: Address, ttl: nat, r: bytes)
    requires |packet| >= 12 && packet[4] == 0 && packet[5] == 1 && 12 <= q.questionEnd <= |r|
    requires HoldsHeader(packet, r[..12], 0, 1) && HoldsRecord(q, address, ttl, r[q.questionEnd..])
    ensures
      var p := q.questionEnd;
      |r| == p + 12 + |address.octets| && r[..2] == packet[..2] && r[2] % 128 == packet[2] % 128 && r[2] / 128 == 1
      && r[3] == (if packet[3] / 16 % 2 == 1 then 0x90 else 0x80) && r[4..12] == [0, 1, 0, 1, 0, 0, 0, 0]
      && r[p] == 0xc0 && r[p + 1] == 12 && Short(r[p + 2], r[p + 3]) == q.queryType && r[p + 4..p + 6] == [0, 1]
      && Long(r[p + 6], r[p + 7], r[p + 8], r[p + 9]) == ttl && Short(r[p + 10], r[p + 11]) == |address.octets|
      && r[p + 12..] == address.octets
  {
    hide Short, Long;
    var p := q.questionEnd;
    var h, record := r[..12], r[p..];
    assert r[..2] == h[..2] == packet[..2];
    assert h[6..] == r[6..12];
    assert r[4..12] == [h[4], h[5]] + h[6..];
    assert r[p + 4..p + 6] == [record[4], record[5]];
    assert record[12..] == r[p + 12..];
  }

  lemma OverrideOctets(packet: bytes, address: Address, ttl: nat)
    requires ParseQuery(packet).Some? && ProperAddress(address) && ttl < 0x1_0000_0000
    ensures ParseQuery(packet).value.queryType < 0x1_0000
    ensures
      var q := ParseQuery(packet).value;
      var r := OverrideResponse(packet, q, address, ttl);
      var p := q.questionEnd;
      |r| == p + 12 + |address.octets| && HoldsHeader(packet, r[..12], 0, 1) && r[12..p] == packet[12..p]
      && HoldsRecord(q, address, ttl, r[p..])
  {
    QuestionLength(packet);
    OneQuestion(packet);
    var q := ParseQuery(packet).value;
    HeaderHolds(packet, 0, 1);
    RecordHolds(q, address, ttl);
    hide ReadLabels, SkipName, ParseQuery, ResponseHeader, AnswerRecord, HoldsHeader, HoldsRecord;
    var r := OverrideResponse(packet, q, address, ttl);
    ThreeParts(ResponseHeader(packet, 0, 1), packet[12..q.questionEnd], AnswerRecord(q, address, ttl));
  }

  lemma ThreeParts(a: bytes, b: bytes, c: bytes)
    ensures
      var r := (a + b) + c;
      r[..|a|] == a && r[|a|..|a| + |b|] == b && r[|a| + |b|..] == c
  {
  }

  // A refusal is the query's question behind such a header, with code 3 and no answer.
  lemma NxdomainHolds(packet: bytes)
    requires ParseQuery(packet).Some?
    ensures
      var q := ParseQuery(packet).value;
      var r := NxdomainResponse(packet, q);
      |r| == q.questionEnd && r[..2] == packet[..2] && r[2] % 128 == packet[2] % 128 && r[2] / 128 == 1
      && r[3] == (if packet[3] / 16 % 2 == 1 then 0x93 else 0x83)
      && r[4..12] == [0, 1, 0, 0, 0, 0, 0, 0] && r[12..] == packet[12..q.questionEnd]
  {
    OneQuestion(packet);
    HeaderHolds(packet, 3, 0);
    hide ReadLabels, ParseQuery, ResponseHeader;
    var q := ParseQuery(packet).value;
    var h := ResponseHeader(packet, 3, 0);
    var r := NxdomainResponse(packet, q);
    assert r == h + packet[12..q.questionEnd];
    assert r[..2] == [h[0], h[1]] == packet[..2];
    assert r[4..12] == [h[4], h[5]] + h[6..];
  }

  lemma OneQuestion(packet: bytes)
    requires ParseQuery(packet).Some?
    ensures |packet| >= 17 && packet[4] == 0 && packet[5] == 1
  {
    hide ReadLabels;
  }

  predicate HoldsHeader(packet: bytes, h: bytes, code: nat, answers: nat)
    requires |packet| >= 12
  {
    |h| == 12 && h[0] == packet[0] && h[1] == packet[1] && h[2] % 128 == packet[2] % 128 && h[2] / 128 == 1
    && h[3] == (if packet[3] / 16 % 2 == 1 then 0x90 else 0x80) + code
    && h[4] == packet[4] && h[5] == packet[5] && h[6..] == [0, answers, 0, 0, 0, 0]
  }

  predicate HoldsRecord(q: Query, address: Address, ttl: nat, r: bytes) {
    |r| == 12 + |address.octets| && r[0] == 0xc0 && r[1] == 12 && Short(r[2], r[3]) == q.queryType && r[4] == 0 && r[5] == 1
    && Long(r[6], r[7], r[8], r[9]) == ttl && Short(r[10], r[11]) == |address.octets| && r[12..] == address.octets
  }

  lemma HeaderHolds(packet: bytes, code: nat, answers: nat)
    requires |packet| >= 12 && code < 16 && answers < 256
    ensures HoldsHeader(packet, ResponseHeader(packet, code, answers), code, answers)
  {
  }

  lemma RecordHolds(q: Query, address: Address, ttl: nat)
    requires q.queryType < 0x1_0000 && ttl < 0x1_0000_0000 && ProperAddress(address)
    ensures HoldsRecord(q, address, ttl, AnswerRecord(q, address, ttl))
  {
    Be16Back(q.queryType);
    Be16Back(|address.octets|);
    Be32Back(ttl);
    var r := AnswerRecord(q, address, ttl);
    hide PutBe32, PutBe16, Short, Long;
    var kind, class_, life, size := PutBe16(q.queryType), PutBe16(1), PutBe32(ttl), PutBe16(|address.octets|);
    assert r[2] == kind[0] && r[3] == kind[1] && r[4] == class_[0] && r[5] == class_[1];
    assert r[6] == life[0] && r[7] == life[1] && r[8] == life[2] && r[9] == life[3];
    assert r[10] == size[0] && r[11] == size[1];
    OneInTwo();
  }

  lemma OneInTwo()
    ensures PutBe16(1)[0] == 0 && PutBe16(1)[1] == 1
  {
  }

  lemma Be32Back(n: nat)
    requires n < 0x1_0000_0000
    ensures var s := PutBe32(n); Long(s[0], s[1], s[2], s[3]) == n
  {
    var high, low := n / 0x1_0000, n % 0x1_0000;
    assert n / 0x100_0000 == high / 256;
    assert n / 256 % 256 == low / 256;
    assert n % 256 == low % 256;
  }
}
