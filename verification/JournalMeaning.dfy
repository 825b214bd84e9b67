// What a recorder holds after a whole run of events, read off the events themselves:
// which come first, which come last, and what stands between.
module JournalMeaning {
  import opened Results
  import opened Journal

  function Ids<T>(list: seq<Keyed<T>>): (r: seq<nat>)
    ensures |r| == |list|
  {
    seq(|list|, i requires 0 <= i < |list| => list[i].id)
  }

  // Every identifier once, in the order of the first mentions.
  function FirstMentions(ids: seq<nat>): seq<nat> {
    if ids == [] then []
    else
      var before := FirstMentions(ids[..|ids| - 1]);
      if ids[|ids| - 1] in before then before else before + [ids[|ids| - 1]]
  }

  lemma Mention(ids: seq<nat>, id: nat)
    ensures FirstMentions(ids + [id]) == if id in FirstMentions(ids) then FirstMentions(ids) else FirstMentions(ids) + [id]
    ensures FirstMentions(ids + []) == FirstMentions(ids)
  {
    assert (ids + [id])[..|ids|] == ids && ids + [] == ids;
  }

  function After(createdAt: int, events: seq<Event>): Session {
    RecordAll(NewSession(createdAt), events)
  }

  lemma Nothing(createdAt: int)
    ensures After(createdAt, []) == NewSession(createdAt) && FirstMentions([]) == []
  {
  }

  lemma NoIds()
    ensures Ids<Exchange>([]) == [] && Ids<Payload>([]) == []
  {
  }

  lemma OneMore(createdAt: int, events: seq<Event>)
    requires events != []
    ensures
      var n := |events| - 1;
      After(createdAt, events) == Record(After(createdAt, events[..n]), events[n])
  {
    hide Record;
    var n := |events| - 1;
    assert events == events[..n] + [events[n]];
    RecordAllAppend(NewSession(createdAt), events[..n], [events[n]]);
    RecordOne(After(createdAt, events[..n]), events[n]);
  }

  // Clearing starts over: what was done before leaves nothing but the creation time.
  lemma {:induction false} ClearStartsOver(s: Session, deeds: seq<Deed>)
    ensures DoAll(s, deeds + [Clear]) == NewSession(s.createdAt)
    decreases |deeds|
  {
    hide Record;
    if deeds == [] {
      assert deeds + [Clear] == [Clear];
    } else {
      assert (deeds + [Clear])[1..] == deeds[1..] + [Clear];
      ClearStartsOver(Do(s, deeds[0]), deeds[1..]);
      SameBirth(s, deeds[0]);
    }
  }

  lemma SameBirth(s: Session, d: Deed)
    ensures Do(s, d).createdAt == s.createdAt
  {
    hide Upsert, Put, Held;
  }

  // ----- lists with identifiers ----------------------------------------------

  lemma UpsertMeaning<T>(list: seq<Keyed<T>>, id: nat, item: T)
    ensures Ids(Upsert(list, id, item)) == if id in Ids(list) then Ids(list) else Ids(list) + [id]
    ensures Keyed(id, item) in Upsert(list, id, item)
    ensures forall x :: x in list && x.id != id ==> x in Upsert(list, id, item)
  {
    hide Find;
    FindMeaning(list, id);
    var r := Upsert(list, id, item);
    match Find(list, id) {
      case Some(i) =>
        assert Ids(list)[i] == id;
        assert r[i] == Keyed(id, item);
        forall x | x in list && x.id != id ensures x in r {
          var k :| 0 <= k < |list| && list[k] == x;
          assert r[k] == x;
        }
      case None =>
        assert id !in Ids(list);
        assert r[|list|] == Keyed(id, item);
    }
  }

  lemma PutMeaning<T>(list: seq<Keyed<T>>, id: nat, item: T, next: T)
    requires Unique(list) && Keyed(id, item) in list
    ensures Held(list, id) == Some(item) && Keyed(id, next) in Put(list, id, next)
  {
    hide Find;
    FindMeaning(list, id);
    var k :| 0 <= k < |list| && list[k] == Keyed(id, item);
    assert Find(list, id) == Some(k);
    assert Put(list, id, next)[k] == Keyed(id, next);
  }

  lemma PutElsewhere<T>(list: seq<Keyed<T>>, id: nat, next: T)
    ensures Ids(Put(list, id, next)) == Ids(list)
    ensures forall x :: x in list && x.id != id ==> x in Put(list, id, next)
  {
    hide Find;
    FindMeaning(list, id);
    var r := Put(list, id, next);
    forall x | x in list && x.id != id ensures x in r {
      var k :| 0 <= k < |list| && list[k] == x;
      assert r[k] == x;
    }
  }

  lemma HeldFirst<T>(list: seq<Keyed<T>>, k: nat)
    requires k < |list| && !Shadowed(list, k)
    ensures Held(list, list[k].id) == Some(list[k].item)
  {
    hide Find;
    FindMeaning(list, list[k].id);
    assert Find(list, list[k].id) == Some(k);
  }

  // ----- requests and datagrams ----------------------------------------------

  function RequestIds(events: seq<Event>): seq<nat> {
    if events == [] then []
    else
      var n := |events| - 1;
      RequestIds(events[..n]) + if events[n].RequestComplete? then [events[n].id] else []
  }

  predicate LastRequest(events: seq<Event>, i: nat)
    requires i < |events|
  {
    events[i].RequestComplete?
    && forall j :: i < j < |events| ==> !(events[j].RequestComplete? && events[j].id == events[i].id)
  }

  lemma FlowsAfter(s: Session, e: Event)
    ensures Record(s, e).flows == if e.RequestComplete? then Upsert(s.flows, e.id, e.exchange) else s.flows
  {
    hide Upsert, Put, Held;
  }

  // The requests stand in the order in which their identifiers were first completed,
  // each once, with what was told of it last.
  lemma {:induction false} FlowsTold(createdAt: int, events: seq<Event>)
    ensures Ids(After(createdAt, events).flows) == FirstMentions(RequestIds(events))
    ensures forall i :: 0 <= i < |events| && LastRequest(events, i) ==>
      Keyed(events[i].id, events[i].exchange) in After(createdAt, events).flows
    decreases |events|
  {
    hide Record, Upsert, FirstMentions, RecordAll, LastRequest, Ids;
    if events == [] {
      Nothing(createdAt);
      NoIds();
    } else {
      var n := |events| - 1;
      var e := events[n];
      var s := After(createdAt, events[..n]);
      OneMore(createdAt, events);
      FlowsTold(createdAt, events[..n]);
      FlowsAfter(s, e);
      Mention(RequestIds(events[..n]), if e.RequestComplete? then e.id else 0);
      if e.RequestComplete? {
        UpsertMeaning(s.flows, e.id, e.exchange);
      }
      forall i | 0 <= i < |events| && events[i].RequestComplete? && LastRequest(events, i)
        ensures Keyed(events[i].id, events[i].exchange) in After(createdAt, events).flows
      {
        LastRequestEarlier(events, i);
      }
      forall i | 0 <= i < |events| && LastRequest(events, i) ensures events[i].RequestComplete? {
        LastRequestEarlier(events, i);
      }
    }
  }

  lemma LastRequestEarlier(events: seq<Event>, i: nat)
    requires i < |events| && LastRequest(events, i)
    ensures
      var n := |events| - 1;
      events[i].RequestComplete?
      && (i < n ==> LastRequest(events[..n], i) && events[..n][i] == events[i]
                    && !(events[n].RequestComplete? && events[n].id == events[i].id))
  {
  }

  function DatagramIds(events: seq<Event>): seq<nat> {
    if events == [] then []
    else
      var n := |events| - 1;
      DatagramIds(events[..n]) + if events[n].UdpExchange? then [events[n].id] else []
  }

  predicate LastDatagram(events: seq<Event>, i: nat)
    requires i < |events|
  {
    events[i].UdpExchange?
    && forall j :: i < j < |events| ==> !(events[j].UdpExchange? && events[j].id == events[i].id)
  }

  lemma DatagramsAfter(s: Session, e: Event)
    ensures Record(s, e).udpExchanges == if e.UdpExchange? then Upsert(s.udpExchanges, e.id, e.exchange_) else s.udpExchanges
  {
    hide Upsert, Put, Held;
  }

  lemma {:induction false} DatagramsTold(createdAt: int, events: seq<Event>)
    ensures Ids(After(createdAt, events).udpExchanges) == FirstMentions(DatagramIds(events))
    ensures forall i :: 0 <= i < |events| && LastDatagram(events, i) ==>
      Keyed(events[i].id, events[i].exchange_) in After(createdAt, events).udpExchanges
    decreases |events|
  {
    hide Record, Upsert, FirstMentions, RecordAll, LastDatagram, Ids;
    if events == [] {
      Nothing(createdAt);
      NoIds();
    } else {
      var n := |events| - 1;
      var e := events[n];
      var s := After(createdAt, events[..n]);
      OneMore(createdAt, events);
      DatagramsTold(createdAt, events[..n]);
      DatagramsAfter(s, e);
      Mention(DatagramIds(events[..n]), if e.UdpExchange? then e.id else 0);
      if e.UdpExchange? {
        UpsertMeaning(s.udpExchanges, e.id, e.exchange_);
      }
      forall i | 0 <= i < |events| && events[i].UdpExchange? && LastDatagram(events, i)
        ensures Keyed(events[i].id, events[i].exchange_) in After(createdAt, events).udpExchanges
      {
        LastDatagramEarlier(events, i);
      }
      forall i | 0 <= i < |events| && LastDatagram(events, i) ensures events[i].UdpExchange? {
        LastDatagramEarlier(events, i);
      }
    }
  }

  lemma LastDatagramEarlier(events: seq<Event>, i: nat)
    requires i < |events| && LastDatagram(events, i)
    ensures
      var n := |events| - 1;
      events[i].UdpExchange?
      && (i < n ==> LastDatagram(events[..n], i) && events[..n][i] == events[i]
                    && !(events[n].UdpExchange? && events[n].id == events[i].id))
  {
  }

  // ----- WebSocket connections -----------------------------------------------

  function ConnectionIds(events: seq<Event>): seq<nat> {
    if events == [] then []
    else
      var n := |events| - 1;
      ConnectionIds(events[..n]) + if events[n].WebSocketConnected? then [events[n].id] else []
  }

  predicate LastConnection(events: seq<Event>, i: nat)
    requires i < |events|
  {
    events[i].WebSocketConnected?
    && forall j :: i < j < |events| ==> !(events[j].WebSocketConnected? && events[j].id == events[i].id)
  }

  function FramesOf(events: seq<Event>, id: nat): seq<Payload> {
    if events == [] then []
    else
      var n := |events| - 1;
      FramesOf(events[..n], id) + if events[n].WebSocketFrame? && events[n].id == id then [events[n].frame] else []
  }

  lemma SocketsAfter(s: Session, e: Event)
    ensures Record(s, e).websockets ==
      match e
      case WebSocketConnected(id, exchange) => Upsert(s.websockets, id, WebSocket(exchange, [], false))
      case WebSocketFrame(id, frame) =>
        (match Held(s.websockets, id)
         case None => s.websockets
         case Some(w) => Put(s.websockets, id, w.(frames := w.frames + [frame])))
      case WebSocketClosed(id) =>
        (match Held(s.websockets, id) case None => s.websockets case Some(w) => Put(s.websockets, id, w.(closed := true)))
      case _ => s.websockets
  {
    hide Upsert, Put, Held;
  }

  // The record of a connection opened at the i-th event, and never again.
  function SocketTold(events: seq<Event>, i: nat): Keyed<WebSocket>
    requires i < |events| && events[i].WebSocketConnected?
  {
    var id, rest := events[i].id, events[i + 1..];
    Keyed(id, WebSocket(events[i].exchange, FramesOf(rest, id), WebSocketClosed(id) in rest))
  }

  lemma SocketMoves(s: Session, e: Event, x: Keyed<WebSocket>)
    requires Unique(s.websockets) && x in s.websockets && !(e.WebSocketConnected? && e.id == x.id)
    ensures
      var frames := x.item.frames + if e.WebSocketFrame? && e.id == x.id then [e.frame] else [];
      Keyed(x.id, WebSocket(x.item.handshake, frames, x.item.closed || e == WebSocketClosed(x.id)))
      in Record(s, e).websockets
  {
    hide Record, Unique, Upsert, Put, Held;
    SocketsAfter(s, e);
    var frames := x.item.frames + if e.WebSocketFrame? && e.id == x.id then [e.frame] else [];
    var y := WebSocket(x.item.handshake, frames, x.item.closed || e == WebSocketClosed(x.id));
    assert x.item.frames + [] == x.item.frames;
    assert x == Keyed(x.id, x.item);
    match e {
      case WebSocketConnected(id, exchange) => UpsertMeaning(s.websockets, id, WebSocket(exchange, [], false));
      case WebSocketFrame(id, _) => SocketPut(s.websockets, id, x, y, Record(s, e).websockets);
      case WebSocketClosed(id) => SocketPut(s.websockets, id, x, y, Record(s, e).websockets);
      case _ =>
    }
  }

  lemma SocketPut(list: seq<Keyed<WebSocket>>, id: nat, x: Keyed<WebSocket>, y: WebSocket, r: seq<Keyed<WebSocket>>)
    requires Unique(list) && x in list
    requires x.id == id ==> Held(list, id) == Some(x.item) ==> r == Put(list, id, y)
    requires x.id != id ==> y == x.item && (r == list || exists z :: r == Put(list, id, z))
    ensures Keyed(x.id, y) in r
  {
    hide Unique, Put, Held;
    assert x == Keyed(x.id, x.item);
    if x.id == id {
      PutMeaning(list, id, x.item, y);
    } else if r != list {
      var z :| r == Put(list, id, z);
      PutElsewhere(list, id, z);
    }
  }

  lemma SocketIds(s: Session, e: Event)
    ensures Ids(Record(s, e).websockets)
         == if e.WebSocketConnected? && e.id !in Ids(s.websockets) then Ids(s.websockets) + [e.id] else Ids(s.websockets)
  {
    hide Record, Upsert, Put, Held;
    SocketsAfter(s, e);
    match e
    case WebSocketConnected(id, exchange) => UpsertMeaning(s.websockets, id, WebSocket(exchange, [], false));
    case WebSocketFrame(id, frame) =>
      if Held(s.websockets, id).Some? {
        var w := Held(s.websockets, id).value;
        PutElsewhere(s.websockets, id, w.(frames := w.frames + [frame]));
      }
    case WebSocketClosed(id) =>
      if Held(s.websockets, id).Some? {
        PutElsewhere(s.websockets, id, Held(s.websockets, id).value.(closed := true));
      }
    case _ =>
  }

  // The connections stand in the order in which their identifiers first connected, each
  // once: as it connected last, with the frames since, closed if it was closed since.
  lemma {:induction false} SocketsTold(createdAt: int, events: seq<Event>)
    ensures Ids(After(createdAt, events).websockets) == FirstMentions(ConnectionIds(events))
    ensures forall i :: 0 <= i < |events| && LastConnection(events, i) ==>
      SocketTold(events, i) in After(createdAt, events).websockets
    decreases |events|
  {
    hide Record, Upsert, Unique, FirstMentions, RecordAll;
    if events == [] {
      Nothing(createdAt);
    } else {
      var n := |events| - 1;
      var s := After(createdAt, events[..n]);
      OneMore(createdAt, events);
      SocketsTold(createdAt, events[..n]);
      SocketIds(s, events[n]);
      AlwaysUnique(createdAt, events[..n]);
      Mention(ConnectionIds(events[..n]), if events[n].WebSocketConnected? then events[n].id else 0);
      forall i | 0 <= i < |events| && LastConnection(events, i)
        ensures SocketTold(events, i) in After(createdAt, events).websockets
      {
        if i == n {
          NewSocket(s, events, n);
        } else {
          assert LastConnection(events[..n], i);
          SocketMoves(s, events[n], SocketTold(events[..n], i));
          SocketGoesOn(events, i);
        }
      }
    }
  }

  lemma AlwaysUnique(createdAt: int, events: seq<Event>)
    ensures Unique(After(createdAt, events).websockets)
  {
    hide RecordAll;
    NewCanonical(createdAt);
    RecordAllCanonical(NewSession(createdAt), events);
  }

  lemma NewSocket(s: Session, events: seq<Event>, n: nat)
    requires n + 1 == |events| && events[n].WebSocketConnected?
    ensures SocketTold(events, n) in Record(s, events[n]).websockets
  {
    hide Record, Upsert;
    SocketsAfter(s, events[n]);
    assert events[n + 1..] == [];
    UpsertMeaning(s.websockets, events[n].id, WebSocket(events[n].exchange, [], false));
  }

  lemma SocketGoesOn(events: seq<Event>, i: nat)
    requires i < |events| - 1 && events[i].WebSocketConnected?
    ensures
      var n := |events| - 1;
      var e, x := events[n], SocketTold(events[..n], i);
      var frames := x.item.frames + if e.WebSocketFrame? && e.id == x.id then [e.frame] else [];
      SocketTold(events, i) == Keyed(x.id, WebSocket(x.item.handshake, frames, x.item.closed || e == WebSocketClosed(x.id)))
  {
    var n := |events| - 1;
    var rest, before := events[i + 1..], events[..n][i + 1..];
    assert rest[..|rest| - 1] == before && rest == before + [events[n]];
  }

  // ----- streams -------------------------------------------------------------

  function StreamIds(events: seq<Event>): seq<nat> {
    if events == [] then []
    else
      var n := |events| - 1;
      StreamIds(events[..n]) + if events[n].TcpConnected? then [events[n].id] else []
  }

  function ChunksOf(events: seq<Event>, id: nat): seq<Payload> {
    if events == [] then []
    else
      var n := |events| - 1;
      ChunksOf(events[..n], id) + if events[n].TcpData? && events[n].id == id then [events[n].chunk] else []
  }

  function AtMost(chunks: seq<Payload>, limit: nat): seq<Payload> {
    if |chunks| <= limit then chunks else chunks[..limit]
  }

  // The record of a stream opened at the i-th event: with the first ten thousand chunks
  // told since, closed if it was closed since; but with nothing told since when a stream
  // of the same identifier had been opened before.
  function StreamTold(events: seq<Event>, i: nat): Keyed<TcpStream>
    requires i < |events| && events[i].TcpConnected?
  {
    var id, rest := events[i].id, events[i + 1..];
    if id in StreamIds(events[..i]) then Keyed(id, TcpStream(events[i].target, events[i].openedAt, [], false))
    else
      Keyed(id, TcpStream(events[i].target, events[i].openedAt, AtMost(ChunksOf(rest, id), 10_000), TcpClosed(id) in rest))
  }

  function Grown(t: TcpStream, chunk: Payload): TcpStream {
    if |t.chunks| < 10_000 then t.(chunks := t.chunks + [chunk]) else t
  }

  lemma StreamsAfter(s: Session, e: Event)
    ensures Record(s, e).tcpStreams ==
      match e
      case TcpConnected(id, target, openedAt) => s.tcpStreams + [Keyed(id, TcpStream(target, openedAt, [], false))]
      case TcpData(id, chunk) =>
        (match Held(s.tcpStreams, id)
         case None => s.tcpStreams
         case Some(t) => Put(s.tcpStreams, id, Grown(t, chunk)))
      case TcpClosed(id) =>
        (match Held(s.tcpStreams, id) case None => s.tcpStreams case Some(t) => Put(s.tcpStreams, id, t.(closed := true)))
      case _ => s.tcpStreams
  {
    hide Upsert, Put, Held;
  }

  lemma GrownWithin(t: TcpStream, chunk: Payload)
    ensures |t.chunks| <= 10_000 ==> Grown(t, chunk) == t.(chunks := AtMost(t.chunks + [chunk], 10_000))
  {
    assert (t.chunks + [chunk])[..|t.chunks|] == t.chunks;
  }

  lemma StreamIdsAfter(s: Session, e: Event)
    ensures Ids(Record(s, e).tcpStreams) == Ids(s.tcpStreams) + if e.TcpConnected? then [e.id] else []
  {
    hide Record, Put, Held, Grown;
    StreamsAfter(s, e);
    match e
    case TcpData(id, chunk) =>
      if Held(s.tcpStreams, id).Some? {
        var t := Held(s.tcpStreams, id).value;
        PutElsewhere(s.tcpStreams, id, Grown(t, chunk));
      }
    case TcpClosed(id) =>
      if Held(s.tcpStreams, id).Some? {
        PutElsewhere(s.tcpStreams, id, Held(s.tcpStreams, id).value.(closed := true));
      }
    case _ =>
  }

  // One event at the k-th record: told of its identifier, it gains what is told unless
  // an earlier record has the same identifier.
  lemma StreamMoves(s: Session, e: Event, k: nat)
    requires k < |s.tcpStreams| && |s.tcpStreams[k].item.chunks| <= 10_000
    ensures k < |Record(s, e).tcpStreams|
    ensures
      var x := s.tcpStreams[k];
      var t := x.item;
      Record(s, e).tcpStreams[k] ==
        if Shadowed(s.tcpStreams, k) then x
        else if e.TcpData? && e.id == x.id then Keyed(x.id, t.(chunks := AtMost(t.chunks + [e.chunk], 10_000)))
        else if e == TcpClosed(x.id) then Keyed(x.id, t.(closed := true))
        else x
  {
    hide Record, Put, Held, Shadowed, AtMost, Grown;
    StreamsAfter(s, e);
    var x := s.tcpStreams[k];
    if !Shadowed(s.tcpStreams, k) {
      HeldFirst(s.tcpStreams, k);
    }
    match e
    case TcpData(id, chunk) =>
      if Held(s.tcpStreams, id).Some? {
        var t := Held(s.tcpStreams, id).value;
        PutShape(s.tcpStreams, id, Grown(t, chunk));
        GrownWithin(t, chunk);
      }
    case TcpClosed(id) =>
      if Held(s.tcpStreams, id).Some? {
        PutShape(s.tcpStreams, id, Held(s.tcpStreams, id).value.(closed := true));
      }
    case _ =>
  }

  lemma {:induction false} StreamIdsTold(createdAt: int, events: seq<Event>)
    ensures Ids(After(createdAt, events).tcpStreams) == StreamIds(events)
    decreases |events|
  {
    hide Record, RecordAll;
    if events == [] {
      Nothing(createdAt);
    } else {
      var n := |events| - 1;
      OneMore(createdAt, events);
      StreamIdsTold(createdAt, events[..n]);
      StreamIdsAfter(After(createdAt, events[..n]), events[n]);
    }
  }

  lemma {:induction false} StreamIdsGrow(events: seq<Event>, i: nat)
    requires i <= |events|
    ensures StreamIds(events[..i]) <= StreamIds(events)
    decreases |events|
  {
    if i == |events| {
      assert events[..i] == events;
    } else {
      var n := |events| - 1;
      StreamIdsGrow(events[..n], i);
      assert events[..n][..i] == events[..i];
    }
  }

  // A record is shadowed exactly when its stream was opened under an identifier in use.
  lemma ShadowedMeaning<T>(list: seq<Keyed<T>>, before: seq<nat>)
    requires |before| < |list| && before <= Ids(list)
    ensures Shadowed(list, |before|) <==> list[|before|].id in before
  {
    var k := |before|;
    assert forall j :: 0 <= j < k ==> before[j] == Ids(list)[j] == list[j].id;
    if Shadowed(list, k) {
      var j :| 0 <= j < k && list[j].id == list[k].id;
      assert before[j] == list[k].id;
    }
    if list[k].id in before {
      var j :| 0 <= j < k && before[j] == list[k].id;
      assert list[j].id == list[k].id;
    }
  }

  lemma StreamGoesOn(events: seq<Event>, i: nat)
    requires i < |events| - 1 && events[i].TcpConnected?
    ensures
      var n := |events| - 1;
      var e, x := events[n], StreamTold(events[..n], i);
      var t := x.item;
      StreamTold(events, i) ==
        if x.id in StreamIds(events[..i]) then x
        else if e.TcpData? && e.id == x.id then Keyed(x.id, t.(chunks := AtMost(t.chunks + [e.chunk], 10_000)))
        else if e == TcpClosed(x.id) then Keyed(x.id, t.(closed := true))
        else x
  {
    hide StreamIds, ChunksOf, AtMost;
    var n := |events| - 1;
    var id := events[i].id;
    var before := events[..n][i + 1..];
    assert events[i + 1..] == before + [events[n]] && events[..n][..i] == events[..i];
    OneMoreChunk(before, events[n], id);
    if events[n].TcpData? {
      AtMostOne(ChunksOf(before, id), events[n].chunk, 10_000);
    }
  }

  lemma OneMoreChunk(before: seq<Event>, e: Event, id: nat)
    ensures ChunksOf(before + [e], id) ==
      if e.TcpData? && e.id == id then ChunksOf(before, id) + [e.chunk] else ChunksOf(before, id)
  {
    assert (before + [e])[..|before|] == before;
    assert ChunksOf(before, id) + [] == ChunksOf(before, id);
  }

  lemma AtMostOne(chunks: seq<Payload>, chunk: Payload, limit: nat)
    ensures AtMost(AtMost(chunks, limit) + [chunk], limit) == AtMost(chunks + [chunk], limit)
  {
  }

  // The streams stand in the order in which they were opened, each as it was told.
  lemma {:induction false} StreamsTold(createdAt: int, events: seq<Event>)
    ensures Ids(After(createdAt, events).tcpStreams) == StreamIds(events)
    ensures forall i :: 0 <= i < |events| && events[i].TcpConnected? ==>
      |StreamIds(events[..i])| < |After(createdAt, events).tcpStreams|
      && After(createdAt, events).tcpStreams[|StreamIds(events[..i])|] == StreamTold(events, i)
    decreases |events|
  {
    hide Record, RecordAll, StreamIds, StreamTold;
    StreamIdsTold(createdAt, events);
    if events != [] {
      var n := |events| - 1;
      StreamsTold(createdAt, events[..n]);
      forall i | 0 <= i < |events| && events[i].TcpConnected?
        ensures |StreamIds(events[..i])| < |After(createdAt, events).tcpStreams|
        ensures After(createdAt, events).tcpStreams[|StreamIds(events[..i])|] == StreamTold(events, i)
      {
        OneMore(createdAt, events);
        if i == n {
          NewStream(After(createdAt, events[..n]), events);
        } else {
          assert events[..n][..i] == events[..i];
          OldStream(After(createdAt, events[..n]), events, i);
        }
      }
    }
  }

  lemma NewStream(s: Session, events: seq<Event>)
    requires events != [] && events[|events| - 1].TcpConnected? && Ids(s.tcpStreams) == StreamIds(events[..|events| - 1])
    ensures
      var n := |events| - 1;
      var list := Record(s, events[n]).tcpStreams;
      |StreamIds(events[..n])| < |list| && list[|StreamIds(events[..n])|] == StreamTold(events, n)
  {
    hide Record, StreamIds;
    var n := |events| - 1;
    StreamsAfter(s, events[n]);
    assert events[n + 1..] == [];
  }

  lemma OldStream(s: Session, events: seq<Event>, i: nat)
    requires i < |events| - 1 && events[i].TcpConnected? && Ids(s.tcpStreams) == StreamIds(events[..|events| - 1])
    requires |StreamIds(events[..i])| < |s.tcpStreams|
    requires s.tcpStreams[|StreamIds(events[..i])|] == StreamTold(events[..|events| - 1], i)
    ensures
      var list := Record(s, events[|events| - 1]).tcpStreams;
      |StreamIds(events[..i])| < |list| && list[|StreamIds(events[..i])|] == StreamTold(events, i)
  {
    hide Record, StreamIds, Shadowed, Ids;
    var n := |events| - 1;
    assert events[..n][..i] == events[..i];
    StreamIdsGrow(events[..n], i);
    ShadowedMeaning(s.tcpStreams, StreamIds(events[..i]));
    StreamMoves(s, events[n], |StreamIds(events[..i])|);
    StreamGoesOn(events, i);
  }

  // ----- name lookups --------------------------------------------------------

  function LookupIds(events: seq<Event>): seq<nat> {
    if events == [] then []
    else
      var n := |events| - 1;
      LookupIds(events[..n]) + if events[n].DnsQuery? then [events[n].id] else []
  }

  // The last answer told of an identifier.
  function LastAnswer(events: seq<Event>, id: nat): Option<(seq<Payload>, bool)> {
    if events == [] then None
    else
      var n := |events| - 1;
      if events[n].DnsResponse? && events[n].id == id then Some((events[n].answers, events[n].overridden))
      else LastAnswer(events[..n], id)
  }

  // The record of a lookup asked at the i-th event: with the last answer since, if any;
  // but without one when a lookup of the same identifier had been asked before.
  function LookupTold(events: seq<Event>, i: nat): Keyed<DnsExchange>
    requires i < |events| && events[i].DnsQuery?
  {
    var e := events[i];
    var answer: Option<(seq<Payload>, bool)> :=
      if e.id in LookupIds(events[..i]) then None else LastAnswer(events[i + 1..], e.id);
    match answer
    case None => Keyed(e.id, DnsExchange(e.name, e.queryType, e.time, [], false, false))
    case Some((answers, overridden)) => Keyed(e.id, DnsExchange(e.name, e.queryType, e.time, answers, overridden, true))
  }

  lemma LookupsAfter(s: Session, e: Event)
    ensures Record(s, e).dnsExchanges ==
      match e
      case DnsQuery(id, name, queryType, time) =>
        s.dnsExchanges + [Keyed(id, DnsExchange(name, queryType, time, [], false, false))]
      case DnsResponse(id, answers, overridden) =>
        (match Held(s.dnsExchanges, id)
         case None => s.dnsExchanges
         case Some(d) =>
           Put(s.dnsExchanges, id, DnsExchange(d.name, d.queryType, d.time, answers, overridden, true)))
      case _ => s.dnsExchanges
  {
    hide Upsert, Put, Held;
  }

  lemma LookupIdsAfter(s: Session, e: Event)
    ensures Ids(Record(s, e).dnsExchanges) == Ids(s.dnsExchanges) + if e.DnsQuery? then [e.id] else []
  {
    hide Record, Put, Held;
    LookupsAfter(s, e);
    match e
    case DnsResponse(id, answers, overridden) =>
      if Held(s.dnsExchanges, id).Some? {
        var d := Held(s.dnsExchanges, id).value;
        PutElsewhere(s.dnsExchanges, id, DnsExchange(d.name, d.queryType, d.time, answers, overridden, true));
      }
    case _ =>
  }

  lemma LookupMoves(s: Session, e: Event, k: nat)
    requires k < |s.dnsExchanges|
    ensures k < |Record(s, e).dnsExchanges|
    ensures
      var x := s.dnsExchanges[k];
      var d := x.item;
      Record(s, e).dnsExchanges[k] ==
        if !Shadowed(s.dnsExchanges, k) && e.DnsResponse? && e.id == x.id
        then Keyed(x.id, DnsExchange(d.name, d.queryType, d.time, e.answers, e.overridden, true))
        else x
  {
    hide Record, Put, Held, Shadowed;
    LookupsAfter(s, e);
    if !Shadowed(s.dnsExchanges, k) {
      HeldFirst(s.dnsExchanges, k);
    }
    match e
    case DnsResponse(id, answers, overridden) =>
      if Held(s.dnsExchanges, id).Some? {
        var d := Held(s.dnsExchanges, id).value;
        PutShape(s.dnsExchanges, id, DnsExchange(d.name, d.queryType, d.time, answers, overridden, true));
      }
    case _ =>
  }

  lemma {:induction false} LookupIdsTold(createdAt: int, events: seq<Event>)
    ensures Ids(After(createdAt, events).dnsExchanges) == LookupIds(events)
    decreases |events|
  {
    hide Record, RecordAll;
    if events == [] {
      Nothing(createdAt);
    } else {
      var n := |events| - 1;
      OneMore(createdAt, events);
      LookupIdsTold(createdAt, events[..n]);
      LookupIdsAfter(After(createdAt, events[..n]), events[n]);
    }
  }

  lemma {:induction false} LookupIdsGrow(events: seq<Event>, i: nat)
    requires i <= |events|
    ensures LookupIds(events[..i]) <= LookupIds(events)
    decreases |events|
  {
    if i == |events| {
      assert events[..i] == events;
    } else {
      var n := |events| - 1;
      LookupIdsGrow(events[..n], i);
      assert events[..n][..i] == events[..i];
    }
  }

  lemma LookupGoesOn(events: seq<Event>, i: nat)
    requires i < |events| - 1 && events[i].DnsQuery?
    ensures
      var n := |events| - 1;
      var e, x := events[n], LookupTold(events[..n], i);
      var d := x.item;
      LookupTold(events, i) ==
        if x.id !in LookupIds(events[..i]) && e.DnsResponse? && e.id == x.id
        then Keyed(x.id, DnsExchange(d.name, d.queryType, d.time, e.answers, e.overridden, true))
        else x
  {
    var n := |events| - 1;
    var rest, before := events[i + 1..], events[..n][i + 1..];
    assert rest[..|rest| - 1] == before && rest == before + [events[n]] && events[..n][..i] == events[..i];
  }

  // The lookups stand in the order in which they were asked, each as it was told.
  lemma {:induction false} LookupsTold(createdAt: int, events: seq<Event>)
    ensures Ids(After(createdAt, events).dnsExchanges) == LookupIds(events)
    ensures forall i :: 0 <= i < |events| && events[i].DnsQuery? ==>
      |LookupIds(events[..i])| < |After(createdAt, events).dnsExchanges|
      && After(createdAt, events).dnsExchanges[|LookupIds(events[..i])|] == LookupTold(events, i)
    decreases |events|
  {
    hide Record, RecordAll, LookupIds, LookupTold;
    LookupIdsTold(createdAt, events);
    if events != [] {
      var n := |events| - 1;
      LookupsTold(createdAt, events[..n]);
      forall i | 0 <= i < |events| && events[i].DnsQuery?
        ensures |LookupIds(events[..i])| < |After(createdAt, events).dnsExchanges|
        ensures After(createdAt, events).dnsExchanges[|LookupIds(events[..i])|] == LookupTold(events, i)
      {
        OneMore(createdAt, events);
        if i == n {
          NewLookup(After(createdAt, events[..n]), events);
        } else {
          assert events[..n][..i] == events[..i];
          OldLookup(After(createdAt, events[..n]), events, i);
        }
      }
    }
  }

  lemma NewLookup(s: Session, events: seq<Event>)
    requires events != [] && events[|events| - 1].DnsQuery? && Ids(s.dnsExchanges) == LookupIds(events[..|events| - 1])
    ensures
      var n := |events| - 1;
      var list := Record(s, events[n]).dnsExchanges;
      |LookupIds(events[..n])| < |list| && list[|LookupIds(events[..n])|] == LookupTold(events, n)
  {
    hide Record, LookupIds;
    var n := |events| - 1;
    LookupsAfter(s, events[n]);
    assert events[n + 1..] == [];
  }

  lemma OldLookup(s: Session, events: seq<Event>, i: nat)
    requires i < |events| - 1 && events[i].DnsQuery? && Ids(s.dnsExchanges) == LookupIds(events[..|events| - 1])
    requires |LookupIds(events[..i])| < |s.dnsExchanges|
    requires s.dnsExchanges[|LookupIds(events[..i])|] == LookupTold(events[..|events| - 1], i)
    ensures
      var list := Record(s, events[|events| - 1]).dnsExchanges;
      |LookupIds(events[..i])| < |list| && list[|LookupIds(events[..i])|] == LookupTold(events, i)
  {
    hide Record, LookupIds, Shadowed, Ids;
    var n := |events| - 1;
    assert events[..n][..i] == events[..i];
    LookupIdsGrow(events[..n], i);
    ShadowedMeaning(s.dnsExchanges, LookupIds(events[..i]));
    LookupMoves(s, events[n], |LookupIds(events[..i])|);
    LookupGoesOn(events, i);
  }
}
