// Bodies seen on their way: collecting one for editing, and capturing a copy of one
// that is passed through. Neither may change what the receiver reads.
module Capture {
  import opened Results
  import opened Bytes
  import opened Headers

  datatype BodyFault = StreamFault(message: string) | DataAfterTrailers | RepeatedTrailers

  // What a body yields, one at a time; the end of the list is the end of the body.
  datatype Item = Data(data: bytes) | Trailers(fields: Fields) | Fault(fault: BodyFault)

  // What a receiver makes of it, up to the first fault or breach of frame order.
  datatype Reading = Reading(data: bytes, trailers: Option<Fields>, fault: Option<BodyFault>)

  function ReadFrom(items: seq<Item>, data: bytes, trailers: Option<Fields>): Reading {
    if items == [] then Reading(data, trailers, None)
    else
      match items[0]
      case Fault(e) => Reading(data, trailers, Some(e))
      case Data(d) =>
        if trailers.Some? then Reading(data, trailers, Some(DataAfterTrailers)) else ReadFrom(items[1..], data + d, trailers)
      case Trailers(fields) =>
        if trailers.Some? then Reading(data, trailers, Some(RepeatedTrailers)) else ReadFrom(items[1..], data, Some(fields))
  }

  function Read(items: seq<Item>): Reading {
    ReadFrom(items, [], None)
  }

  // ----- collecting ----------------------------------------------------------

  datatype Collection =
    | Complete(data: bytes, trailers: Option<Fields>)
    | Exceeded(captured: bytes, body: seq<Item>)
    | Failed(captured: bytes, body: seq<Item>)

  function FailedCollection(captured: bytes, trailers: Option<Fields>, fault: BodyFault): Collection {
    Failed(captured, (if captured != [] then [Data(captured)] else [])
                     + ((if trailers.Some? then [Trailers(trailers.value)] else []) + [Fault(fault)]))
  }

  function Overflows(buffer: bytes, data: bytes, limit: Option<nat>): bool {
    limit.Some? && |buffer| + |data| > limit.value
  }

  function Keep(buffer: bytes, data: bytes, limit: nat): (keep: nat)
    ensures keep <= |data|
  {
    Min(if |buffer| < limit then limit - |buffer| else 0, |data|)
  }

  function CollectFrom(items: seq<Item>, buffer: bytes, trailers: Option<Fields>, limit: Option<nat>): Collection {
    if items == [] then Complete(buffer, trailers)
    else
      match items[0]
      case Fault(e) => FailedCollection(buffer, trailers, e)
      case Trailers(fields) =>
        if trailers.Some? then FailedCollection(buffer, trailers, RepeatedTrailers)
        else CollectFrom(items[1..], buffer, Some(fields), limit)
      case Data(d) =>
        if trailers.Some? then FailedCollection(buffer, trailers, DataAfterTrailers)
        else if Overflows(buffer, d, limit) then
          var keep := Keep(buffer, d, limit.value);
          Exceeded(buffer + d[..keep], [Data(buffer + d[..keep]), Data(d[keep..])] + items[1..])
        else CollectFrom(items[1..], buffer + d, trailers, limit)
  }

  function Collect(items: seq<Item>, limit: Option<nat>): Collection {
    CollectFrom(items, [], None, limit)
  }

  // A collected body, sent on.
  function Collected(data: bytes, trailers: Option<Fields>): seq<Item> {
    (if data != [] then [Data(data)] else []) + (if trailers.Some? then [Trailers(trailers.value)] else [])
  }

  // What the receiver gets after collection.
  function Emitted(c: Collection): seq<Item> {
    match c
    case Complete(data, trailers) => Collected(data, trailers)
    case Exceeded(_, body) => body
    case Failed(_, body) => body
  }

  lemma {:induction false} ReadingGrows(items: seq<Item>, data: bytes, trailers: Option<Fields>)
    ensures data <= ReadFrom(items, data, trailers).data
  {
    if items != [] && items[0].Data? && trailers.None? {
      ReadingGrows(items[1..], data + items[0].data, trailers);
    } else if items != [] && items[0].Trailers? && trailers.None? {
      ReadingGrows(items[1..], data, Some(items[0].fields));
    }
  }

  lemma ReadOneData(d: bytes, rest: seq<Item>, data: bytes)
    ensures ReadFrom([Data(d)] + rest, data, None) == ReadFrom(rest, data + d, None)
  {
    assert ([Data(d)] + rest)[1..] == rest;
  }

  lemma ReadOneTrailers(fields: Fields, rest: seq<Item>, data: bytes)
    ensures ReadFrom([Trailers(fields)] + rest, data, None) == ReadFrom(rest, data, Some(fields))
  {
    assert ([Trailers(fields)] + rest)[1..] == rest;
  }

  lemma CollectedIsRead(data: bytes, trailers: Option<Fields>)
    ensures Read(Collected(data, trailers)) == Reading(data, trailers, None)
  {
    hide ReadFrom;
    var tail := if trailers.Some? then [Trailers(trailers.value)] else [];
    ReadNothing(data, None);
    assert [] + data == data;
    if trailers.Some? {
      ReadNothing(data, trailers);
      ReadOneTrailers(trailers.value, [], data);
      assert [Trailers(trailers.value)] + [] == tail;
    }
    if data != [] {
      ReadOneData(data, tail, []);
    } else {
      assert Collected(data, trailers) == tail;
    }
  }

  lemma ReadNothing(data: bytes, trailers: Option<Fields>)
    ensures ReadFrom([], data, trailers) == Reading(data, trailers, None)
  {
  }

  lemma FailedIsRead(captured: bytes, trailers: Option<Fields>, fault: BodyFault)
    ensures Read(FailedCollection(captured, trailers, fault).body) == Reading(captured, trailers, Some(fault))
  {
    hide ReadFrom;
    var last := [Fault(fault)];
    var tail := (if trailers.Some? then [Trailers(trailers.value)] else []) + last;
    assert [] + captured == captured;
    ReadFault(fault, captured, trailers);
    if trailers.Some? {
      ReadOneTrailers(trailers.value, last, captured);
    } else {
      assert tail == last;
    }
    if captured != [] {
      ReadOneData(captured, tail, []);
    } else {
      assert FailedCollection(captured, trailers, fault).body == tail;
    }
  }

  lemma ReadFault(fault: BodyFault, data: bytes, trailers: Option<Fields>)
    ensures ReadFrom([Fault(fault)], data, trailers) == Reading(data, trailers, Some(fault))
  {
  }

  // What collecting comes to, in terms of what the body says.
  ghost predicate CollectsAs(c: Collection, r: Reading, limit: Option<nat>) {
    Read(Emitted(c)) == r
    && if limit.Some? && |r.data| > limit.value then c.Exceeded? && c.captured == r.data[..limit.value]
       else if r.fault.Some? then c.Failed? && c.captured == r.data
       else c == Complete(r.data, r.trailers)
  }

  lemma {:induction false} CollectsFrom(items: seq<Item>, buffer: bytes, trailers: Option<Fields>, limit: Option<nat>)
    requires limit.Some? ==> |buffer| <= limit.value
    ensures CollectsAs(CollectFrom(items, buffer, trailers, limit), ReadFrom(items, buffer, trailers), limit)
  {
    hide Collected, FailedCollection, Overflows, Keep;
    if items == [] {
      CollectedIsRead(buffer, trailers);
    } else {
      match items[0]
      case Fault(e) => FailedIsRead(buffer, trailers, e);
      case Trailers(fields) =>
        if trailers.Some? {
          FailedIsRead(buffer, trailers, RepeatedTrailers);
        } else {
          CollectsFrom(items[1..], buffer, Some(fields), limit);
        }
      case Data(d) =>
        if trailers.Some? {
          FailedIsRead(buffer, trailers, DataAfterTrailers);
        } else if limit.Some? && Overflows(buffer, d, limit) {
          CollectsOver(items, buffer, d, limit.value);
        } else {
          NotOver(buffer, d, limit);
          CollectsFrom(items[1..], buffer + d, trailers, limit);
        }
    }
    FailedParts(buffer, trailers);
  }

  lemma FailedParts(captured: bytes, trailers: Option<Fields>)
    ensures forall fault :: FailedCollection(captured, trailers, fault).Failed?
                            && FailedCollection(captured, trailers, fault).captured == captured
  {
  }

  lemma NotOver(buffer: bytes, data: bytes, limit: Option<nat>)
    requires limit.Some? ==> !Overflows(buffer, data, limit)
    ensures !Overflows(buffer, data, limit) && (limit.Some? ==> |buffer + data| <= limit.value)
  {
  }

  lemma CollectsOver(items: seq<Item>, buffer: bytes, d: bytes, limit: nat)
    requires items != [] && items[0] == Data(d) && |buffer| <= limit && Overflows(buffer, d, Some(limit))
    ensures CollectsAs(CollectFrom(items, buffer, None, Some(limit)), ReadFrom(items, buffer, None), Some(limit))
  {
    var keep := limit - |buffer|;
    var captured, rest := buffer + d[..keep], items[1..];
    var tail := [Data(d[keep..])] + rest;
    assert [Data(captured), Data(d[keep..])] + rest == [Data(captured)] + tail;
    ReadOneData(captured, tail, []);
    ReadOneData(d[keep..], rest, captured);
    assert [] + captured == captured;
    assert captured + d[keep..] == buffer + d;
    ReadingGrows(rest, buffer + d, None);
    assert ReadFrom(items, buffer, None).data[..limit] == captured;
  }

  // Collecting never disturbs the body: whatever its frames and the limit, what is
  // sent on reads as the original, fault included. It is given whole when it is
  // sound and within the limit, as its prefix up to the limit when it is longer, and
  // as all there was when it fails first.
  lemma CollectTransparent(items: seq<Item>, limit: Option<nat>)
    ensures CollectsAs(Collect(items, limit), Read(items), limit)
  {
    CollectsFrom(items, [], None, limit);
  }

  // ----- bodies as streams ---------------------------------------------------

  class ItemStream {
    var items: seq<Item>

    constructor (items: seq<Item>)
      ensures this.items == items
    {
      this.items := items;
    }

    method Next() returns (item: Option<Item>)
      modifies this
      ensures old(items) == [] ==> item == None && items == []
      ensures old(items) != [] ==> item == Some(old(items)[0]) && items == old(items)[1..]
    {
      if items == [] {
        return None;
      }
      item := Some(items[0]);
      items := items[1..];
    }
  }

  // Some frames first, then a body.
  class PrefixBody {
    var prefixes: seq<Item>
    const inner: ItemStream

    ghost function Remaining(): seq<Item>
      reads this, inner
    {
      prefixes + inner.items
    }

    constructor (prefixes: seq<Item>, inner: ItemStream)
      ensures this.inner == inner && Remaining() == prefixes + inner.items
    {
      this.prefixes := prefixes;
      this.inner := inner;
    }

    method Next() returns (item: Option<Item>)
      modifies this, inner
      ensures old(Remaining()) == [] ==> item == None && Remaining() == []
      ensures old(Remaining()) != [] ==> item == Some(old(Remaining())[0]) && Remaining() == old(Remaining())[1..]
    {
      if prefixes != [] {
        item := Some(prefixes[0]);
        prefixes := prefixes[1..];
        return;
      }
      item := inner.Next();
    }
  }

  datatype Gathered =
    | Whole(data: bytes, trailers: Option<Fields>)
    | TooLong(captured: bytes, body: PrefixBody)
    | Broken(captured: bytes, items: seq<Item>)

  method CollectBody(body: ItemStream, limit: Option<nat>) returns (r: Gathered)
    modifies body
    ensures match Collect(old(body.items), limit)
            case Complete(data, trailers) => r == Whole(data, trailers)
            case Failed(captured, items) => r == Broken(captured, items)
            case Exceeded(captured, items) =>
              r.TooLong? && r.captured == captured && r.body.inner == body && fresh(r.body) && r.body.Remaining() == items
  {
    var buffer: bytes := [];
    var trailers: Option<Fields> := None;
    while true
      invariant Collect(old(body.items), limit) == CollectFrom(body.items, buffer, trailers, limit)
      decreases |body.items|
    {
      var frame := body.Next();
      if frame.None? {
        return Whole(buffer, trailers);
      }
      match frame.value {
        case Fault(e) => return Broken(buffer, FailedCollection(buffer, trailers, e).body);
        case Trailers(fields) =>
          if trailers.Some? {
            return Broken(buffer, FailedCollection(buffer, trailers, RepeatedTrailers).body);
          }
          trailers := Some(fields);
        case Data(data) =>
          if trailers.Some? {
            return Broken(buffer, FailedCollection(buffer, trailers, DataAfterTrailers).body);
          }
          if limit.Some? && |buffer| + |data| > limit.value {
            var keep := Keep(buffer, data, limit.value);
            var captured := buffer + data[..keep];
            var whole := new PrefixBody([Data(captured), Data(data[keep..])], body);
            return TooLong(captured, whole);
          }
          buffer := buffer + data;
      }
    }
  }

  // ----- capturing -----------------------------------------------------------

  function AllData(items: seq<Item>): bytes {
    if items == [] then [] else (if items[0].Data? then items[0].data else []) + AllData(items[1..])
  }

  function Prefix(data: bytes, limit: Option<nat>): bytes {
    if limit.Some? && |data| > limit.value then data[..limit.value] else data
  }

  const USIZE_MAX: nat := 0xffff_ffff_ffff_ffff

  class BodyCapture {
    const limit: Option<nat>
    var content: bytes
    var truncated: bool
    var totalSeen: nat

    // All that was appended, in order.
    ghost var seen: bytes

    // The captured bytes are the prefix of what was seen, up to the limit; it is
    // marked as truncated exactly when more was seen.
    ghost predicate Valid()
      reads this
    {
      content == Prefix(seen, limit)
      && (truncated <==> limit.Some? && |seen| > limit.value)
      && totalSeen == Min(|seen|, USIZE_MAX)
    }

    constructor (limit: Option<nat>)
      ensures this.limit == limit && Valid() && seen == []
    {
      this.limit := limit;
      content, truncated, totalSeen, seen := [], false, 0, [];
    }

    method Append(chunk: bytes)
      requires Valid()
      modifies this
      ensures Valid() && seen == old(seen) + chunk
    {
      seen := seen + chunk;
      totalSeen := Min(totalSeen + |chunk|, USIZE_MAX);
      if limit.Some? {
        var remaining := if |content| < limit.value then limit.value - |content| else 0;
        if remaining > 0 {
          var keep := Min(remaining, |chunk|);
          content := content + chunk[..keep];
        }
        if |chunk| > remaining {
          truncated := true;
        }
      } else {
        content := content + chunk;
      }
    }
  }

  // A body passed through with a copy kept, and a callback for its end.
  class CaptureBody {
    const inner: ItemStream
    const capture: BodyCapture
    var armed: bool
    var completions: nat

    ghost const original: seq<Item>
    ghost var passed: nat

    // What has been passed on is the original so far, its data is what was captured,
    // and the callback has run at most once.
    ghost predicate Valid()
      reads this, inner, capture
    {
      passed <= |original| && inner.items == original[passed..]
      && capture.Valid() && capture.seen == AllData(original[..passed])
      && completions == (if armed then 0 else 1)
    }

    constructor (inner: ItemStream, capture: BodyCapture)
      requires capture.Valid() && capture.seen == []
      ensures Valid() && this.inner == inner && this.capture == capture
      ensures original == inner.items && passed == 0 && armed
    {
      this.inner := inner;
      this.capture := capture;
      armed, completions := true, 0;
      original := inner.items;
      passed := 0;
    }

    method Finish()
      requires Valid()
      modifies this`armed, this`completions
      ensures Valid() && !armed
    {
      if armed {
        armed := false;
        completions := completions + 1;
      }
    }

    method Next() returns (item: Option<Item>)
      requires Valid()
      modifies this, inner, capture
      ensures Valid()
      ensures old(passed) < |original| ==> item == Some(original[old(passed)]) && passed == old(passed) + 1
      ensures old(passed) == |original| ==> item == None && passed == old(passed)
      ensures item.None? || item.value.Fault? ==> !armed
    {
      ghost var before := passed;
      item := inner.Next();
      if item.None? {
        Finish();
        return;
      }
      passed := passed + 1;
      assert original[..passed] == original[..before] + [original[before]];
      AllDataMore(original[..before], original[before]);
      match item.value {
        case Data(data) => capture.Append(data);
        case Fault(_) =>
          assert capture.seen == AllData(original[..passed]);
          Finish();
        case Trailers(_) =>
      }
    }
  }

  lemma {:induction false} AllDataMore(items: seq<Item>, item: Item)
    ensures AllData(items + [item]) == AllData(items) + (if item.Data? then item.data else [])
  {
    if items == [] {
      assert items + [item] == [item];
      assert AllData([item][1..]) == [];
    } else {
      assert (items + [item])[1..] == items[1..] + [item];
      AllDataMore(items[1..], item);
    }
  }

  // Passing a whole body through a capture: the receiver gets the very items, the
  // callback runs once, and the copy is the data's prefix up to the limit.
  method PassThrough(items: seq<Item>, limit: Option<nat>) returns (received: seq<Item>, captured: bytes, truncated: bool, calls: nat)
    ensures received == items && calls == 1
    ensures captured == Prefix(AllData(items), limit)
    ensures truncated <==> limit.Some? && |AllData(items)| > limit.value
  {
    var inner := new ItemStream(items);
    var capture := new BodyCapture(limit);
    var body := new CaptureBody(inner, capture);
    received := [];
    var done := false;
    while !done
      invariant body.Valid() && body.original == items && body.capture == capture && capture.limit == limit
      invariant fresh(body) && fresh(body.inner) && fresh(capture)
      invariant received == items[..body.passed]
      invariant done ==> body.passed == |items| && !body.armed
      decreases |items| - body.passed, !done
    {
      var item := body.Next();
      if item.None? {
        done := true;
      } else {
        received := received + [item.value];
      }
    }
    assert items[..|items|] == items;
    captured, truncated, calls := capture.content, capture.truncated, body.completions;
  }

  // A body without faults or disorder reads as all its data, so that collecting it
  // and capturing it under one limit keep the same bytes.
  lemma {:induction false} SoundReadsAll(items: seq<Item>, data: bytes, trailers: Option<Fields>)
    requires ReadFrom(items, data, trailers).fault.None?
    ensures ReadFrom(items, data, trailers).data == data + AllData(items)
  {
    if items == [] {
      assert data + [] == data;
    } else if items[0].Data? {
      SoundReadsAll(items[1..], data + items[0].data, trailers);
      assert (data + items[0].data) + AllData(items[1..]) == data + AllData(items);
    } else {
      SoundReadsAll(items[1..], data, Some(items[0].fields));
      assert AllData(items) == AllData(items[1..]);
    }
  }

  lemma CapturesAgree(items: seq<Item>, limit: nat)
    requires Read(items).fault.None?
    ensures
      match Collect(items, Some(limit))
      case Complete(data, _) => data == Prefix(AllData(items), Some(limit)) && |AllData(items)| <= limit
      case Exceeded(captured, _) => captured == Prefix(AllData(items), Some(limit)) && |AllData(items)| > limit
      case Failed(_, _) => false
  {
    CollectTransparent(items, Some(limit));
    SoundReadsAll(items, [], None);
    assert [] + AllData(items) == AllData(items);
  }
}
