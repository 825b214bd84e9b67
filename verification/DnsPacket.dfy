// DNS packets (section 4.1 of RFC 1035) as the DNS proxy reads and answers them.
module DnsPacket {
  import opened Results
  import opened Bytes
  import Names = DnsName

  datatype Query = Query(name: Names.Labels, queryType: nat, questionEnd: nat)

  datatype Address = V4(octets: bytes) | V6(octets: bytes)

  predicate ProperAddress(a: Address) {
    |a.octets| == if a.V4? then 4 else 16
  }

  const TYPE_A: nat := 1
  const TYPE_AAAA: nat := 28
  const HEADER: nat := 12

  function Be16(hi: byte, lo: byte): nat {
    hi * 256 + lo
  }

  function PutBe16(n: nat): (r: bytes)
    requires n < 0x1_0000
    ensures |r| == 2
  {
    [n / 256, n % 256]
  }

  function PutBe32(n: nat): (r: bytes)
    requires n < 0x1_0000_0000
    ensures |r| == 4
  {
    [n / 0x100_0000, n / 0x1_0000 % 256, n / 256 % 256, n % 256]
  }

  // ----- reading -------------------------------------------------------------

  // The labels of an uncompressed name, and where it ends.
  function ReadLabels(packet: bytes, cursor: nat): (r: Option<(Names.Labels, nat)>)
    ensures r.Some? ==> cursor < r.value.1 <= |packet|
    decreases |packet| - cursor
  {
    if cursor >= |packet| then None
    else
      var length := packet[cursor];
      if length == 0 then Some(([], cursor + 1))
      else if length >= 64 || cursor + 1 + length > |packet| then None
      else
        match ReadLabels(packet, cursor + 1 + length)
        case None => None
        case Some((labels, end)) => Some(([packet[cursor + 1..cursor + 1 + length]] + labels, end))
  }

  function ParseQuery(packet: bytes): (r: Option<Query>)
    ensures r.Some? ==> HEADER + 5 <= r.value.questionEnd <= |packet|
  {
    if |packet| < 17 || Be16(packet[4], packet[5]) != 1 then None
    else
      match ReadLabels(packet, HEADER)
      case None => None
      case Some((labels, end)) =>
        if end + 4 > |packet| || !Names.ValidName(labels) then None
        else Some(Query(labels, Be16(packet[end], packet[end + 1]), end + 4))
  }

  // Step over a name, which may end in a pointer.
  function SkipName(packet: bytes, cursor: nat): (r: Option<nat>)
    ensures r.Some? ==> cursor < r.value <= |packet|
    decreases |packet| - cursor
  {
    if cursor >= |packet| then None
    else
      var length := packet[cursor];
      if length >= 192 then (if cursor + 2 <= |packet| then Some(cursor + 2) else None)
      else if length >= 64 then None
      else if length == 0 then Some(cursor + 1)
      else if cursor + 1 + length > |packet| then None
      else SkipName(packet, cursor + 1 + length)
  }

  function SkipQuestions(packet: bytes, cursor: nat, n: nat): (r: Option<nat>)
    requires cursor <= |packet|
    ensures r.Some? ==> cursor <= r.value <= |packet|
    decreases n
  {
    if n == 0 then Some(cursor)
    else
      match SkipName(packet, cursor)
      case None => None
      case Some(end) => if end + 4 > |packet| then None else SkipQuestions(packet, end + 4, n - 1)
  }

  // The address an answer record carries, if it is one.
  function AnswerOf(recordType: nat, data: bytes): seq<Address> {
    if recordType == TYPE_A && |data| == 4 then [V4(data)]
    else if recordType == TYPE_AAAA && |data| == 16 then [V6(data)]
    else []
  }

  function ReadAnswers(packet: bytes, cursor: nat, n: nat): Option<seq<Address>>
    requires cursor <= |packet|
    decreases n
  {
    if n == 0 then Some([])
    else
      match SkipName(packet, cursor)
      case None => None
      case Some(at) =>
        if at + 10 > |packet| then None
        else
          var length := Be16(packet[at + 8], packet[at + 9]);
          if at + 10 + length > |packet| then None
          else
            match ReadAnswers(packet, at + 10 + length, n - 1)
            case None => None
            case Some(rest) =>
              Some(AnswerOf(Be16(packet[at], packet[at + 1]), packet[at + 10..at + 10 + length]) + rest)
  }

  function ParseAnswers(packet: bytes): Option<seq<Address>> {
    if |packet| < HEADER then None
    else
      match SkipQuestions(packet, HEADER, Be16(packet[4], packet[5]))
      case None => None
      case Some(cursor) => ReadAnswers(packet, cursor, Be16(packet[6], packet[7]))
  }

  // ----- answering -----------------------------------------------------------

  // A byte with its top bit set: it says "response".
  function WithTopBit(b: byte): byte {
    if b < 128 then b + 128 else b
  }

  // Only bit 0x10 of the flags byte survives, and recursion is available.
  function Flags(b: byte, code: nat): byte
    requires code < 16
  {
    (if b / 16 % 2 == 1 then 0x90 else 0x80) + code
  }

  function AnswerRecord(query: Query, address: Address, ttl: nat): bytes
    requires query.queryType < 0x1_0000 && ttl < 0x1_0000_0000
  {
    [0xc0, 0x0c] + (PutBe16(query.queryType) + (PutBe16(1) + (PutBe32(ttl)
      + (PutBe16(if address.V4? then 4 else 16) + address.octets))))
  }

  function ResponseHeader(packet: bytes, code: nat, answers: nat): bytes
    requires |packet| >= HEADER && code < 16 && answers < 256
  {
    packet[..2] + [WithTopBit(packet[2]), Flags(packet[3], code)] + packet[4..6] + [0, answers, 0, 0, 0, 0]
  }

  function OverrideResponse(packet: bytes, query: Query, address: Address, ttl: nat): bytes
    requires HEADER <= query.questionEnd <= |packet| && query.queryType < 0x1_0000 && ttl < 0x1_0000_0000
  {
    (ResponseHeader(packet, 0, 1) + packet[HEADER..query.questionEnd]) + AnswerRecord(query, address, ttl)
  }

  function NxdomainResponse(packet: bytes, query: Query): bytes
    requires HEADER <= query.questionEnd <= |packet|
  {
    ResponseHeader(packet, 3, 0) + packet[HEADER..query.questionEnd]
  }

  // ----- the readers agree ---------------------------------------------------

  // Where the query parser ends a name, stepping over it ends too.
  lemma {:induction false} SkipAgrees(packet: bytes, cursor: nat)
    requires ReadLabels(packet, cursor).Some?
    ensures SkipName(packet, cursor) == Some(ReadLabels(packet, cursor).value.1)
    decreases |packet| - cursor
  {
    if packet[cursor] != 0 {
      SkipAgrees(packet, cursor + 1 + packet[cursor]);
    }
  }

  // A name is read from its own bytes alone.
  lemma {:induction false} LabelsAlone(packet: bytes, other: bytes, cursor: nat)
    requires ReadLabels(packet, cursor).Some?
    requires ReadLabels(packet, cursor).value.1 <= |other|
    requires forall i :: cursor <= i < ReadLabels(packet, cursor).value.1 ==> other[i] == packet[i]
    ensures ReadLabels(other, cursor) == ReadLabels(packet, cursor)
    decreases |packet| - cursor
  {
    if packet[cursor] != 0 {
      var next := cursor + 1 + packet[cursor];
      LabelsAlone(packet, other, next);
      assert other[cursor + 1..next] == packet[cursor + 1..next];
    }
  }

  // A name takes as many octets as its labels say: 255 at the most.
  lemma {:induction false} LabelsLength(packet: bytes, cursor: nat)
    requires ReadLabels(packet, cursor).Some?
    ensures ReadLabels(packet, cursor).value.1 == cursor + Names.WireLength(ReadLabels(packet, cursor).value.0)
    ensures Names.LabelsOk(ReadLabels(packet, cursor).value.0)
    decreases |packet| - cursor
  {
    if packet[cursor] != 0 {
      var next := cursor + 1 + packet[cursor];
      LabelsLength(packet, next);
      var labels := ReadLabels(packet, cursor).value.0;
      assert labels[1..] == ReadLabels(packet, next).value.0;
      assert Names.LabelOk(labels[0]);
    }
  }

  lemma QuestionLength(packet: bytes)
    requires ParseQuery(packet).Some?
    ensures
      var q := ParseQuery(packet).value;
      q.questionEnd == HEADER + Names.WireLength(q.name) + 4 <= 271 && q.queryType < 0x1_0000
  {
    LabelsLength(packet, HEADER);
  }

  // ----- what a response is read as ------------------------------------------

  predicate Echoes(packet: bytes, response: bytes, query: Query) {
    HEADER <= query.questionEnd <= |packet| && query.questionEnd <= |response|
    && response[4..6] == packet[4..6]
    && response[HEADER..query.questionEnd] == packet[HEADER..query.questionEnd]
  }

  // A packet that repeats the question is read as the same query, and stepping over
  // the question ends where the query says.
  lemma QueryEchoed(packet: bytes, response: bytes)
    requires ParseQuery(packet).Some? && Echoes(packet, response, ParseQuery(packet).value)
    ensures ParseQuery(response) == ParseQuery(packet)
    ensures SkipQuestions(response, HEADER, 1) == Some(ParseQuery(packet).value.questionEnd)
  {
    hide ReadLabels, SkipName, Names.ValidName;
    var q := ParseQuery(packet).value;
    var end := q.questionEnd - 4;
    forall i | HEADER <= i < q.questionEnd ensures response[i] == packet[i] {
      assert response[HEADER..q.questionEnd][i - HEADER] == packet[HEADER..q.questionEnd][i - HEADER];
    }
    assert response[4..6][0] == packet[4..6][0] && response[4..6][1] == packet[4..6][1];
    LabelsAlone(packet, response, HEADER);
    SkipAgrees(response, HEADER);
    assert SkipQuestions(response, end + 4, 0) == Some(end + 4);
  }

  lemma HeaderParts(packet: bytes, code: nat, answers: nat, tail: bytes)
    requires |packet| >= HEADER && code < 16 && answers < 256
    ensures
      var h := ResponseHeader(packet, code, answers) + tail;
      |ResponseHeader(packet, code, answers)| == HEADER && h[..2] == packet[..2] && h[4..6] == packet[4..6]
      && h[6] == 0 && h[7] == answers && h[8..12] == [0, 0, 0, 0] && h[2] >= 128 && h[3] % 16 == code && h[HEADER..] == tail
  {
  }

  predicate SameFamily(queryType: nat, address: Address) {
    if address.V4? then queryType == TYPE_A else queryType == TYPE_AAAA
  }

  lemma RecordParts(query: Query, address: Address, ttl: nat)
    requires query.queryType < 0x1_0000 && ttl < 0x1_0000_0000 && ProperAddress(address)
    ensures
      var r := AnswerRecord(query, address, ttl);
      |r| == 12 + |address.octets| && r[0] == 0xc0 && Be16(r[2], r[3]) == query.queryType
      && Be16(r[10], r[11]) == |address.octets| && r[12..] == address.octets
  {
    hide PutBe32;
    var r := AnswerRecord(query, address, ttl);
    assert r[2..4] == PutBe16(query.queryType);
    assert r[10..12] == PutBe16(if address.V4? then 4 else 16);
  }

  lemma PointerSkipped(packet: bytes, n: nat)
    requires n + 2 <= |packet| && packet[n] >= 192
    ensures SkipName(packet, n) == Some(n + 2)
  {
  }

  // The one answer record of a response, read at the end of its question.
  lemma OneAnswer(front: bytes, query: Query, address: Address, ttl: nat)
    requires query.queryType < 0x1_0000 && ttl < 0x1_0000_0000 && ProperAddress(address)
    ensures ReadAnswers(front + AnswerRecord(query, address, ttl), |front|, 1) == Some(AnswerOf(query.queryType, address.octets))
  {
    hide AnswerRecord, SkipName, Be16, AnswerOf;
    var r := AnswerRecord(query, address, ttl);
    var packet := front + r;
    var n := |front|;
    RecordParts(query, address, ttl);
    assert packet[n] == r[0];
    var at := n + 2;
    PointerSkipped(packet, n);
    assert packet[at] == r[2] && packet[at + 1] == r[3] && packet[at + 8] == r[10] && packet[at + 9] == r[11];
    assert packet[at + 10..at + 10 + |address.octets|] == r[12..];
    assert ReadAnswers(packet, at + 10 + |address.octets|, 0) == Some([]);
    assert AnswerOf(query.queryType, address.octets) + [] == AnswerOf(query.queryType, address.octets);
  }

  // A response made up for a query is read as the same query, and as exactly the one
  // address when its family is the one asked for; as no address otherwise. Its
  // identifier is the query's, it is marked as a response without error, and it
  // announces one answer and no other records, whatever the query announced.
  lemma OverrideIsRead(packet: bytes, address: Address, ttl: nat)
    requires ParseQuery(packet).Some? && ProperAddress(address) && ttl < 0x1_0000_0000
    ensures ParseQuery(packet).value.queryType < 0x1_0000
    ensures
      var query := ParseQuery(packet).value;
      var response := OverrideResponse(packet, query, address, ttl);
      ParseQuery(response) == Some(query)
      && ParseAnswers(response) == Some(if SameFamily(query.queryType, address) then [address] else [])
      && response[..2] == packet[..2] && response[2] >= 128 && response[3] % 16 == 0 && response[8..12] == [0, 0, 0, 0]
  {
    hide ReadLabels, SkipName, ParseQuery, ReadAnswers, SkipQuestions, ResponseHeader, AnswerRecord;
    QuestionLength(packet);
    var query := ParseQuery(packet).value;
    var question := packet[HEADER..query.questionEnd];
    var header := ResponseHeader(packet, 0, 1);
    var record := AnswerRecord(query, address, ttl);
    var response := OverrideResponse(packet, query, address, ttl);
    assert response == header + (question + record);
    HeaderParts(packet, 0, 1, question + record);
    RecordParts(query, address, ttl);
    assert response[HEADER..query.questionEnd] == question;
    QueryEchoed(packet, response);
    AskedOnce(packet);
    OneAnswer(header + question, query, address, ttl);
    FamilyAnswer(query.queryType, address);
    assert response[4] == response[4..6][0] == packet[4..6][0] && response[5] == response[4..6][1] == packet[4..6][1];
    assert |header + question| == query.questionEnd;
  }

  lemma AskedOnce(packet: bytes)
    requires ParseQuery(packet).Some?
    ensures |packet| >= 17 && Be16(packet[4], packet[5]) == 1
  {
  }

  lemma FamilyAnswer(queryType: nat, address: Address)
    requires ProperAddress(address)
    ensures AnswerOf(queryType, address.octets) == if SameFamily(queryType, address) then [address] else []
  {
  }

  // A refusal is read as the same query and carries no record of any kind.
  lemma NxdomainIsRead(packet: bytes)
    requires ParseQuery(packet).Some?
    ensures
      var query := ParseQuery(packet).value;
      var response := NxdomainResponse(packet, query);
      ParseQuery(response) == Some(query) && ParseAnswers(response) == Some([])
      && response[..2] == packet[..2] && response[2] >= 128 && response[3] % 16 == 3 && response[6..12] == [0, 0, 0, 0, 0, 0]
  {
    hide ReadLabels, SkipName, ParseQuery, SkipQuestions, ResponseHeader;
    var query := ParseQuery(packet).value;
    var question := packet[HEADER..query.questionEnd];
    var response := NxdomainResponse(packet, query);
    HeaderParts(packet, 3, 0, question);
    assert response[HEADER..query.questionEnd] == question;
    QueryEchoed(packet, response);
    AskedOnce(packet);
    assert response[4] == response[4..6][0] == packet[4..6][0] && response[5] == response[4..6][1] == packet[4..6][1];
    assert response[6..12] == [response[6], response[7]] + response[8..12];
  }

  // ----- the cursor loops ----------------------------------------------------

  method ReadQuery(packet: bytes) returns (r: Option<Query>)
    ensures r == ParseQuery(packet)
  {
    if |packet| < 17 || Be16(packet[4], packet[5]) != 1 {
      return None;
    }
    var cursor := HEADER;
    var labels: Names.Labels := [];
    ghost var whole := ReadLabels(packet, HEADER);
    assert forall rest: Names.Labels :: [] + rest == rest;
    while true
      invariant HEADER <= cursor
      invariant whole == match ReadLabels(packet, cursor) case None => None case Some((rest, end)) => Some((labels + rest, end))
      decreases |packet| - cursor
    {
      if cursor >= |packet| {
        return None;
      }
      var length := packet[cursor];
      cursor := cursor + 1;
      if length == 0 {
        break;
      }
      if length >= 64 {
        return None;
      }
      var end := cursor + length;
      if end > |packet| {
        return None;
      }
      ghost var before := labels;
      labels := labels + [packet[cursor..end]];
      assert forall rest: Names.Labels :: before + ([packet[cursor..end]] + rest) == labels + rest;
      cursor := end;
    }
    assert labels + [] == labels;
    assert whole == Some((labels, cursor));
    if cursor + 4 > |packet| {
      return None;
    }
    var name := Names.FromLabels(labels);
    if name.Err? {
      return None;
    }
    r := Some(Query(name.value, Be16(packet[cursor], packet[cursor + 1]), cursor + 4));
  }

  method StepOverName(packet: bytes, start: nat) returns (r: Option<nat>)
    ensures r == SkipName(packet, start)
  {
    var cursor: nat := start;
    while true
      invariant cursor >= 0 && SkipName(packet, start) == SkipName(packet, cursor)
      decreases |packet| - cursor
    {
      if cursor >= |packet| {
        return None;
      }
      var length := packet[cursor];
      if length >= 192 {
        return if cursor + 2 <= |packet| then Some(cursor + 2) else None;
      }
      if length >= 64 {
        return None;
      }
      cursor := cursor + 1;
      if length == 0 {
        return Some(cursor);
      }
      cursor := cursor + length;
      if cursor > |packet| {
        return None;
      }
    }
  }

  method StepOverQuestions(packet: bytes, questions: nat) returns (r: Option<nat>)
    requires |packet| >= HEADER
    ensures r == SkipQuestions(packet, HEADER, questions)
  {
    hide SkipName;
    var cursor: nat := HEADER;
    for k := 0 to questions
      invariant HEADER <= cursor <= |packet|
      invariant SkipQuestions(packet, HEADER, questions) == SkipQuestions(packet, cursor, questions - k)
    {
      var end := StepOverName(packet, cursor);
      if end.None? || end.value + 4 > |packet| {
        return None;
      }
      cursor := end.value + 4;
    }
    r := Some(cursor);
  }

  method ReadRecords(packet: bytes, start: nat, count: nat) returns (r: Option<seq<Address>>)
    requires start <= |packet|
    ensures r == ReadAnswers(packet, start, count)
  {
    hide SkipName, Be16, AnswerOf;
    var cursor: nat := start;
    var answers: seq<Address> := [];
    ghost var whole := ReadAnswers(packet, start, count);
    assert forall rest: seq<Address> :: [] + rest == rest;
    for k := 0 to count
      invariant cursor <= |packet|
      invariant whole == match ReadAnswers(packet, cursor, count - k) case None => None case Some(rest) => Some(answers + rest)
    {
      var at := StepOverName(packet, cursor);
      if at.None? || at.value + 10 > |packet| {
        return None;
      }
      cursor := at.value;
      var recordType, length := Be16(packet[cursor], packet[cursor + 1]), Be16(packet[cursor + 8], packet[cursor + 9]);
      cursor := cursor + 10;
      if cursor + length > |packet| {
        return None;
      }
      ghost var before, found := answers, AnswerOf(recordType, packet[cursor..cursor + length]);
      answers := answers + AnswerOf(recordType, packet[cursor..cursor + length]);
      assert forall rest: seq<Address> :: before + (found + rest) == answers + rest;
      cursor := cursor + length;
    }
    assert answers + [] == answers;
    r := Some(answers);
  }

  method ReadResponse(packet: bytes) returns (r: Option<seq<Address>>)
    ensures r == ParseAnswers(packet)
  {
    hide SkipQuestions, ReadAnswers;
    if |packet| < HEADER {
      return None;
    }
    var cursor := StepOverQuestions(packet, Be16(packet[4], packet[5]));
    if cursor.None? {
      return None;
    }
    r := ReadRecords(packet, cursor.value, Be16(packet[6], packet[7]));
  }

  // The response, patched out of the query and extended.
  method MakeOverride(packet: bytes, query: Query, address: Address, ttl: nat) returns (r: Option<bytes>)
    requires HEADER <= query.questionEnd && query.queryType < 0x1_0000 && ttl < 0x1_0000_0000
    ensures r == if query.questionEnd <= |packet| then Some(OverrideResponse(packet, query, address, ttl)) else None
  {
    if query.questionEnd > |packet| {
      return None;
    }
    var response := packet[..query.questionEnd];
    response := response[2 := WithTopBit(response[2])];
    response := response[3 := Flags(response[3], 0)];
    response := response[6 := 0][7 := 1];
    response := response[8 := 0][9 := 0][10 := 0][11 := 0];
    assert response == ResponseHeader(packet, 0, 1) + packet[HEADER..query.questionEnd];
    ghost var patched := response;
    response := response + [0xc0, 0x0c];
    response := response + PutBe16(query.queryType);
    response := response + PutBe16(1);
    response := response + PutBe32(ttl);
    match address {
      case V4(octets) => response := response + PutBe16(4) + octets;
      case V6(octets) => response := response + PutBe16(16) + octets;
    }
    assert response == patched + AnswerRecord(query, address, ttl);
    r := Some(response);
  }
}
